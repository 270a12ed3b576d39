# AI chat client: a Dafny model

The client talks to OpenAI-compatible chat-completion endpoints. It has two
front-ends that share one configuration:

- `main.py`, a terminal loop. It reads one line at a time. Blank lines are
  skipped. `exit`, `help` and `clear` work in any letter case. The
  `api_new`, `api_list`, `api_edit <n>`, `api_del <n>` and `api_switch <n>`
  commands manage the provider list. Any other line is a chat message.
- `qt.py`, a desktop window (`ChatApp`). It has a form dialog for one
  provider entry (`ApiDialog`) and a worker thread that performs one request
  and reports back by signals (`ApiRequestThread`).

The model has these parts:

- **The provider list and its cursor** (`config.dfy`). It covers the
  built-in entry, loading with per-key defaults, append-and-select, slot
  replacement, deletion with the cursor clamp, the range-checked switch, and
  Python's negative indexing where the cursor is used unchecked. Loading does
  not establish the invariant "non-empty list, cursor in range". Every
  mutator keeps it.
- **Validation and prompt parsing.**
  - `url.dfy`: the pattern `^https?://\S+` under `re.match`, which has no end
    anchor.
  - `prompts.dfy`: the yes/no answer, "a blank answer keeps the old value",
    and the `max_tokens` fallback.
  - `text.dfy`: `str.strip`, `str.lower` and `int()` on unbounded integers,
    within the limits listed under "Left out".
- **The transcript and a chat turn** (`chat.dfy`, `terminal.dfy`). A
  session starts from the seeded system message, and `clear` returns to it.
  Stream chunks are concatenated in order, with a missing delta content read
  as `""`. A failed request or a broken stream leaves the user message
  without an answer.
- **The terminal front-end** (`terminal.dfy`):
  - module `Commands` specifies the command classification and each
    handler as a function of the old state;
  - module `Terminal` holds class `Cli`, whose methods update the
    module-level state in place and are proved equal to those functions.
- **The desktop front-end**:
  - `html.dfy` models `escape_html`;
  - `dialog.dfy` models the dialog's checks and the spin box's clamp;
  - `worker.dfy` models the signals the worker emits for each kind of reply;
  - `gui.dfy` holds class `ChatApp`, with the add/edit/delete/switch,
    send, response and clear slots.

  A desktop turn is related to a terminal turn. For a complete stream and for
  a failure the two record the same transcript. For a non-stream reply the
  desktop records the answer twice: `run` emits `response_received` once
  with the content and once more with the joined list, and each emission
  appends through `handle_response`.

## Model

| member | source | states |
|---|---|---|
| Text.Strip | main.py:79-84 | the stripped text has no whitespace at either end and is no longer than the input |
| Text.StripParts | main.py:79-84 | what strip computes: the input is the stripped text between an all-whitespace lead and an all-whitespace trail |
| Text.StripEmpty | main.py:272-274 | a line strips to the empty string exactly when it is all whitespace (so exactly such lines are skipped) |
| Text.StripSurrounded | main.py:272 | whitespace added around a text does not change what it strips to |
| Text.StripIdempotent | main.py:272 | stripping twice is stripping once |
| Text.ParseInt | main.py:88 | a text `int()` accepts is non-blank once stripped, and after the sign it holds only digits and underscores; a negative value comes from a leading minus |
| Text.ParseShow | main.py:211 | `int(str(n)) == n` for every integer |
| Text.LowerIdempotent | main.py:276 | after lower-casing no ASCII capital is left and every other character is unchanged, so lower-casing twice is lower-casing once |
| Prompts.LowerConcat | main.py:62 | lower-casing a concatenation lower-cases each part |
| Config.DefaultStore | main.py:10-17 | the built-in store is valid: one built-in entry, selected |
| Config.LoadFallback | main.py:20-29 | a missing or unreadable file yields the built-in entry, selected, which is valid |
| Config.LoadKeys | main.py:26 | each key of a parsed file falls back to its own default independently, in all four present/absent combinations |
| Config.LoadUnchecked | main.py:26 | loading does not establish validity: an empty list and a cursor past the end are kept, and that cursor selects nothing |
| Config.Selected | main.py:297 | `apis[current_api_index]` exists exactly for a cursor in `-len..len-1`; a cursor in range yields its own slot, a negative one counts from the end, and any other raises |
| Config.SelectedValid | main.py:297 | on a valid store the cursor selects its own slot |
| Config.SelectedNegative | qt.py:433-434 | example of the negative case of `Config.Selected`: a cursor of -1 selects the last entry |
| Config.AddSelectsNew | main.py:125-126 | appending keeps the old entries in place, selects the new one and makes the store valid |
| Config.ReplaceOneSlot | main.py:173-180 | replacing changes slot `i` only, keeps the length and the cursor, and keeps validity |
| Config.RemoveKeepsOrder | main.py:233 | deletion removes exactly entry `i` and keeps the others in order |
| Config.RemoveKeepsCursor | main.py:235-236 | with two or more entries the clamped cursor stays in range and denotes the same entry unless that entry was deleted |
| Config.RemoveCheckedLast | main.py:227-229 | the last remaining entry is never deleted |
| Config.RemoveCheckedValid | main.py:218-238 | checked deletion keeps validity for every index and answer, and changes the store only for a confirmed in-range deletion with a spare entry |
| Config.SelectCheckedCursor | main.py:249-254 | switching moves the cursor to `i` exactly when `i` is in range, never touches the list, and keeps validity |
| Url.UrlPatternIff | main.py:55-57 | the pattern holds exactly when the text starts with `http://` or `https://` followed by one non-whitespace character |
| Url.UrlPatternExtends | main.py:57 | with no end anchor, anything appended to a matching URL still matches |
| Prompts.KeepOr | main.py:142-145 | a blank answer keeps the old value, and any other answer is taken stripped, non-empty |
| Prompts.AnswerPadding | main.py:62 | whitespace around a yes/no answer does not change its meaning |
| Prompts.AnswerDefault | main.py:59-67 | the default decides exactly the blank answers |
| Prompts.AnswerIgnoresCase | main.py:62 | a yes/no answer reads the same in any letter case |
| Prompts.AnswerUpperCase | main.py:67 | example of `Prompts.AnswerIgnoresCase`: `YES` is yes even where the default is no |
| Prompts.AnswerOther | main.py:62-67 | every non-blank answer other than `y`, `yes`, `是` and `确定` (after lower-casing and stripping) is no, whatever the default |
| Prompts.AnswerNo | main.py:67 | example of `Prompts.AnswerOther`: `no` is no even where the default is yes |
| Prompts.TokensOrCases | main.py:84-90 | a typed integer is taken as it is (zero and negatives included); blank or non-integer input gives the fallback |
| Chat.Seed | main.py:265 | the seeded transcript is one system message |
| Chat.SeedWellFormed | main.py:285 | the seed (also what `clear` restores) is well formed |
| Chat.ReplyText | main.py:307-331 | a failed request gives no answer; a stream gives one exactly when it was not cut short; a non-stream reply gives its content, none if it has none |
| Chat.CollectStream | main.py:315-328 | the reading loop builds exactly the in-order concatenation of the chunk texts |
| Chat.ConcatAppend | main.py:328 | concatenating two runs of chunks is concatenating their aggregates |
| Chat.ConcatAt | main.py:318-321 | no chunk is dropped or reordered: chunk `k` follows the text of the chunks before it |
| Chat.ConcatLength | main.py:328 | the aggregate's length is the sum of the chunk lengths |
| Chat.AppendKeepsWellFormed | main.py:294 | appending user or assistant messages keeps one leading system message |
| Commands.ApiCommand | main.py:186-260 | only the five API commands are recognised, and nothing else |
| Commands.ChatRequest | main.py:294-313 | a request is made exactly when the cursor selects an entry; it goes to the entry `apis[current_api_index]` selects (on a valid store, the cursor's own slot) and carries the transcript plus the user message |
| Commands.Startup | main.py:263-268 | start-up loads the store and seeds the transcript; a missing or broken file always starts |
| Commands.NewEntryAccepts | main.py:94-100 | `api_new` reaches the save question exactly when name and key are non-blank and the URL passes the pattern |
| Commands.NewEntryFields | main.py:79-123 | the saved entry has the stripped fields, the default model for a blank model, 1024 for a blank or bad token count, and the stream answer with yes as default |
| Commands.ApiNewOutcome | main.py:115-126 | `api_new` either changes nothing or appends exactly the new entry and selects it |
| Commands.EditedEntryUrl | main.py:143-161 | an edit reaches the save question exactly when the resulting URL (typed or kept) passes the pattern |
| Commands.EditedEntryFields | main.py:142-157 | each blank answer keeps the old field, a typed one replaces it stripped, a bad token count keeps the old one, and the stream question defaults to the current setting |
| Commands.EditBlankKeeps | main.py:142-157 | answering every question blank gives back the entry unchanged (when its URL passes) |
| Commands.ApiEditOutcome | main.py:131-184 | `api_edit` changes nothing for a bad index, a rejected URL or a declined save; otherwise it replaces only that slot, and it keeps validity |
| Commands.ClassifyBlank | main.py:272-274 | exactly the blank lines are skipped |
| Commands.ClassifyChat | main.py:276-294 | a chat message is the stripped line, non-blank, and not a command |
| Commands.ClassifyArgument | main.py:207-247 | a numbered command's argument is what follows the prefix and its space on the stripped line; it is non-empty and does not end in whitespace |
| Commands.ClassifyApi | main.py:290 | all five API commands (`api_new`, `api_list` and the three numbered ones) come from what `handle_api_commands` recognises on the stripped line, and a line it recognises is always classified as that command, never skipped, a keyword or chat |
| Commands.ApiCommandArgument | main.py:207-247 | a prefix command's argument is the text after its prefix |
| Commands.PrefixArgument | main.py:210 | on a stripped line a prefix ending in a space is followed by at least one character |
| Commands.KeywordAnyCase | main.py:276-287 | `exit`, `help` and `clear` are recognised in any letter case and with any padding |
| Commands.ApiNewExact | main.py:190 | `api_new` in any other letter case is a chat message |
| Commands.ApiCommandExact | main.py:190-244 | `api_new` and `api_list` are recognised only as the whole line and the numbered commands only by their prefix with its space, all case-sensitive |
| Commands.BareEditIsChat | main.py:207 | a bare `api_edit` without its number is a chat message |
| Commands.EntryNumber | main.py:210-211 | the number `k` names entry `k - 1` |
| Commands.SwitchOneBased | main.py:244-258 | `api_switch k` selects entry `k - 1` exactly when `1 <= k <= len`, otherwise nothing changes |
| Commands.DelOneBased | main.py:218-238 | `api_del k` is checked deletion of entry `k - 1` with "no" as the answer's default; `k <= 0` changes nothing |
| Commands.BadNumber | main.py:214-216 | a number `int()` rejects changes nothing for `api_edit`, `api_del` or `api_switch` |
| Commands.CommandKeepsValid | main.py:186-260 | every API command keeps a valid store valid |
| Commands.ChatTurnShape | main.py:294-331 | a chat turn records the user message first, and one assistant message more exactly when the entry exists and the reply was read without raising |
| Commands.ChatStreamed | main.py:315-328 | on a valid store a complete stream adds the user message and one assistant message holding all chunks in order |
| Commands.ChatFailed | main.py:330-331 | a request that raises, or a stream that breaks off, adds only the user message |
| Commands.ClearResets | main.py:284-287 | `clear` restores the seed and leaves the store alone |
| Commands.StepKeepsInvariant | main.py:270-339 | each loop iteration keeps the store valid and the transcript well formed |
| Commands.ApplyKeepsInvariant | main.py:270-339 | every branch of the loop body keeps the store valid and the transcript well formed |
| Commands.ChatKeepsWellFormed | main.py:294-328 | a chat turn keeps the transcript well formed |
| Commands.RunKeepsInvariant | main.py:270-339 | the whole loop keeps the invariant for any lines typed |
| Commands.StartupCases | main.py:268 | start-up succeeds on a valid store and on a cursor of -1, and fails on a loaded empty list |
| Terminal.Cli.constructor | main.py:41 | the state is the loaded store and the seeded transcript |
| Terminal.Cli.HandleApiNew | main.py:74-129 | the new state is the `api_new` effect on the old one |
| Terminal.Cli.HandleApiEdit | main.py:131-184 | the new state is the `api_edit` effect on the old one |
| Terminal.Cli.HandleApiCommands | main.py:186-260 | reports a handled line exactly for the API commands, and applies that command's effect |
| Terminal.Cli.Dispatch | main.py:207-258 | each API command's branch, number parsing included, has that command's effect |
| Terminal.Cli.HandleApiDel | main.py:223-238 | the new state is checked deletion with the answer's default "no" |
| Terminal.Cli.HandleApiSwitch | main.py:249-254 | the new state is the range-checked switch |
| Terminal.Cli.ChatTurn | main.py:294-331 | the transcript after the turn is the chat-turn effect on the old one |
| Terminal.Cli.Step | main.py:272-331 | the stripped line goes through the keyword tests, then `handle_api_commands`, then the chat turn; it reports `exit` exactly for an `exit` line, and the new state is one iteration's effect |
| Terminal.Cli.Run | main.py:270-278 | the state after the loop is the loop's effect over the lines up to the first `exit` |
| Html.Replace | qt.py:500 | a replaced character no longer occurs unless the replacement holds it, and a text without it is unchanged |
| Html.EscapeHtmlEach | qt.py:498-500 | the four chained replacements escape each character on its own |
| Html.EscapeHtmlConcat | qt.py:500 | escaping distributes over concatenation |
| Html.EscapeRoundTrip | qt.py:498-500 | decoding the escaped text gives back the original |
| Html.EscapeHtmlShape | qt.py:498-500 | the escaped text has no line break, and each angle bracket belongs to an inserted `<br>` |
| Dialog.Clamp | qt.py:699-700 | the spin box holds a value in 1..16000, the value itself when in range, else the nearer bound |
| Dialog.Open | qt.py:670-708 | the opened form's token count is inside the spin box's range |
| Dialog.CheckAccepts | qt.py:735-758 | Save is accepted exactly when the stripped name and key are non-blank and the stripped URL passes the pattern |
| Dialog.CheckOrder | qt.py:740-756 | a blank name is reported first, and a malformed URL only once the three fields are present |
| Dialog.ExecAccepted | qt.py:351-372 | whatever the user does, an accepted entry passed the checks and its token count is in range |
| Dialog.OpenSaveRoundTrip | qt.py:364-372 | opening an entry and saving it untouched gives it back, with an out-of-range count clamped |
| Dialog.SaveFirst | qt.py:735-758 | Save closes the dialog with the form's data exactly when the checks pass, and otherwise leaves the form open |
| Dialog.CancelDiscards | qt.py:713-714 | Cancel discards whatever was typed |
| Worker.ChunkEvents | qt.py:88-91 | one chunk signal per chunk, in arrival order, with `None` read as `""` |
| Worker.Run | qt.py:68-103 | the signals emitted are exactly those specified for the reply |
| Worker.ResponsesConcat | qt.py:68-103 | response texts and chunk texts of two signal runs concatenate |
| Worker.ChunkEventsText | qt.py:88-91 | the chunk signals carry no response, and their texts concatenate to the joined chunks |
| Worker.StreamEvents | qt.py:88-98 | a complete stream signals the chunks in order, then one response equal to what the chunks spelled out |
| Worker.FailureEvents | qt.py:101-103 | a failed request or a broken stream signals an error and no response |
| Worker.WholeTwice | qt.py:92-98 | a non-stream reply is signalled as a response twice with the same text, and without error |
| Worker.WholeMissing | qt.py:92-98 | a non-stream reply without content signals an empty response, then an error |
| Worker.FinishedOnceLast | qt.py:99-103 | `request_finished` is signalled once, last |
| Worker.ErrorIffNoText | qt.py:68-103 | the worker signals an error exactly when the terminal would record no answer for the same reply |
| Gui.AssistantMessages | qt.py:458-460 | one assistant message per response text, in order |
| Gui.ChatApp.constructor | qt.py:108-122 | the window's state is the loaded store and the seeded transcript |
| Gui.ChatApp.AddApi | qt.py:351-362 | the new store is the dialog's effect: an accepted entry appended and selected |
| Gui.ChatApp.EditApi | qt.py:364-376 | the new store is the edit effect: a bad index is ignored, an accepted entry replaces the slot |
| Gui.ChatApp.DeleteApi | qt.py:378-403 | the new store is checked deletion with the confirmation box's answer |
| Gui.ChatApp.SwitchApi | qt.py:405-411 | announces a switch exactly for an in-range index other than the current one, and the new store is the range-checked switch |
| Gui.ChatApp.SendMessage | qt.py:413-443 | the transcript gains the stripped input unless it is blank, and the request started is the one the terminal would send |
| Gui.ChatApp.HandleResponse | qt.py:458-460 | each response appends one assistant message |
| Gui.ChatApp.Deliver | qt.py:445-484 | after the signals arrive, the transcript holds one assistant message per response signal |
| Gui.ChatApp.ClearChat | qt.py:502-514 | a confirmed clear restores the seed, otherwise nothing changes |
| Gui.DeliveredStep | qt.py:458-460 | one more signal appends at most one assistant message |
| Gui.AssistantConcat | qt.py:458-460 | the assistant messages of two runs of texts concatenate |
| Gui.AddOutcome | qt.py:351-362 | an accepted new entry passed the checks, lands last and is selected, making the store valid; a cancelled dialog changes nothing |
| Gui.EditOutcome | qt.py:364-376 | editing keeps the length and cursor, replaces at most slot `index` with an accepted entry, and keeps validity |
| Gui.SendBlank | qt.py:415-417 | a blank input records nothing and starts nothing |
| Gui.SendRecords | qt.py:415-443 | other input records one stripped user message; a request starts exactly when the cursor selects an entry, and carries the new transcript |
| Gui.SentWellFormed | qt.py:426 | sending keeps the transcript well formed |
| Gui.DeliveredWellFormed | qt.py:458-460 | delivering signals keeps the transcript well formed |
| Gui.GuiStreamLikeTerminal | qt.py:88-98 | a complete stream gives the same transcript on the desktop as in the terminal |
| Gui.GuiFailureLikeTerminal | qt.py:101-103 | a failure gives the same transcript on both front-ends: the user message only |
| Gui.GuiWholeTwice | qt.py:92-98 | a non-stream reply is recorded twice on the desktop and once in the terminal |
| Gui.GuiWholeMissing | qt.py:92-98 | a non-stream reply without content leaves an empty assistant message on the desktop and none in the terminal |

## Left out

- File I/O and JSON: the configuration file is a `Document` value (absent, unreadable, or parsed with each key present or not). A key present with the wrong JSON type (`"apis": {}`, `"current_api_index": "1"`), which `load_config` would also take unchecked, cannot be expressed. `save_config` and `save_chat` are not modelled.
- The OpenAI client and the network: the result of the completion call is a `Reply` value. The library returns a stream exactly when the request asked for one, so the reply variant also stands for the entry's `stream` flag. The model, `max_tokens` and key that the call carries are not modelled.
- Exception texts: a failure carries its message as an opaque string. The text of the `TypeError` from joining `[None]` is written out, but its exact wording is not checked against Python.
- Chat.ReplyText: a stream chunk with no `choices`, or a delta without a `content` attribute, raising inside the loop is folded into a stream cut short (`cut`).
- Worker.Events: a missing content emitted through a `str` signal is assumed to arrive as `""` (PyQt's conversion of `None`). The join then raises, so the model has one empty response followed by an error.
- Printing, the help text, `api_list`'s listing, the masked key display and all status-bar texts are output only and not modelled.
- `KeyboardInterrupt` and end-of-input in the terminal loop are not modelled: a run is a finite sequence of lines.
- The terminal's outer `except` at main.py:338-339 is modelled only where it matters to the state. The `IndexError` from an unselectable cursor at main.py:297 leaves the user message recorded and no answer.
- Entries that lack a key (`KeyError` on `target['name']` and the like) are not modelled: every entry has all six fields.
- Text.Lower: lower-casing is modelled for ASCII letters only.
- Text.ParseInt: `int()` is modelled for ASCII digits with single underscores; Unicode decimal digits are not accepted.
- Qt widgets, themes, font size, `update_api_lists`, `update_api_details` and the event filter are not modelled.
- The HTML surgery in `handle_chunk`, `finish_request`, `display_user_message` and `display_ai_message` is left out. Only `escape_html`, which they all use, is modelled.
- Concurrency: the worker is not modelled running beside the window. It shares the `messages` list, and nothing stops a second send while a request is in flight. Its signals are modelled as delivered in order after the send.
- Gui.ChatApp.SendMessage: where the cursor selects no entry, the slot raises `IndexError` after recording the user message. The slot runs from a Qt signal or event filter, so under PyQt5 5.5 and later the unhandled exception aborts the application there. The model instead carries on with no request started.
- Dialog.Exec: Qt's modal event loop is a finite sequence of user actions; a dialog these actions leave open counts as rejected. The line edits' maximum length is not modelled.
- Gui.ChatApp.constructor, Gui.ChatApp.AddApi, Gui.ChatApp.EditApi, Gui.ChatApp.DeleteApi: the cursor they promise is the one the slot body leaves. Each of them then calls `update_api_lists` (qt.py:283, 360, 374, 401), which refills the combo box (qt.py:296-301) without blocking its signals. That box's `currentIndexChanged` is connected to `switch_api` (qt.py:201). If the first `addItem` into the emptied box emits index 0, as QComboBox documents, `switch_api(0)` moves the cursor to 0 before `setCurrentIndex` runs. The widget refresh is not modelled, so the model does not capture this reset.
- Gui.AddOutcome: "the new entry is selected" is the cursor the `add_api` body leaves; the refresh described in the line above may move it to 0 afterwards.
- Gui.EditOutcome: "the cursor is kept" holds for the `edit_api` body; the same refresh may move it to 0 afterwards.
- Text.ParseInt, Text.ParseShow, Prompts.TokensOrCases: integers are unbounded. CPython refuses to convert between `int` and `str` beyond 4300 digits, so `int()` raises ValueError on a longer digit string, which main.py:88 and main.py:152 catch by keeping the fallback. `str(n)` raises too. The model parses and prints numbers of any length.
- Dialog.Open, Dialog.OpenSaveRoundTrip: `QSpinBox.setValue` (qt.py:700) takes a 32-bit C int. A stored token count outside that range is cut to 32 bits or raises OverflowError before any clamp, depending on the binding; the model clamps every integer to 1..16000.
- The literal API key of the built-in entry is replaced by a placeholder constant.
