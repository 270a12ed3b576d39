/** The terminal front-end: the command loop of `main()`, the dispatch in
    `handle_api_commands` and the two prompt dialogs `handle_api_new` and
    `handle_api_edit`. Every line the user types is an input; the answers to
    the prompts and the reply of the completion call come with it. */
module Commands {
  import opened Text
  import opened Config
  import opened Chat
  import opened Url
  import opened Prompts

  // ---- The entry dialogs ----

  /** The six answers of an entry dialog, as typed (before `strip()`). */
  datatype Answers = Answers(name: string, url: string, key: string, model: string, tokens: string, stream: string)

  /** `handle_api_new` up to the save question: `None` where it prints an
      error and returns (a blank name, URL or key, or a URL that fails the
      pattern); otherwise the entry it would save. */
  function NewEntry(a: Answers): Option<ApiConfig> {
    var name, url, key, model := Strip(a.name), Strip(a.url), Strip(a.key), Strip(a.model);
    if name == [] || url == [] || key == [] then None
    else if !ValidateUrl(url) then None
    else Some(ApiConfig(name, url, key, if model == [] then DefaultModel else model,
                        TokensOr(Strip(a.tokens), DefaultMaxTokens), AnswerYes(a.stream, true)))
  }

  /** `handle_api_new`: the entry is appended and selected only when it is
      well formed and the save question is answered yes (the default). */
  function ApiNewEffect(s: Store, a: Answers, confirm: string): Store {
    match NewEntry(a)
    case None => s
    case Some(e) => if AnswerYes(confirm, true) then Add(s, e) else s
  }

  /** `handle_api_edit` up to the save question, for the entry `previous`:
      each blank answer keeps the old field, and the resulting URL, old or
      new, must pass the pattern. */
  function EditedEntry(previous: ApiConfig, a: Answers): Option<ApiConfig> {
    var url := KeepOr(a.url, previous.baseUrl);
    if !ValidateUrl(url) then None
    else Some(ApiConfig(KeepOr(a.name, previous.name), url, KeepOr(a.key, previous.apiKey),
                        KeepOr(a.model, previous.model), TokensOr(Strip(a.tokens), previous.maxTokens),
                        AnswerYes(a.stream, previous.stream)))
  }

  /** `handle_api_edit(index)`: an index outside the list, a rejected URL or
      a declined save leave the store as it was. */
  function ApiEditEffect(s: Store, index: int, a: Answers, confirm: string): Store {
    if index < 0 || index >= |s.apis| then s
    else match EditedEntry(s.apis[index], a)
      case None => s
      case Some(e) => if AnswerYes(confirm, true) then Replace(s, index, e) else s
  }

  // ---- Commands ----

  datatype Command =
    | Skip
    | Exit
    | Help
    | Clear
    | ApiNew
    | ApiList
    | ApiEdit(arg: string)
    | ApiDel(arg: string)
    | ApiSwitch(arg: string)
    | Chat(text: string)

  /** The tests of `handle_api_commands` on the stripped line: two exact
      words and three prefixes that end in a space, all case-sensitive. */
  function ApiCommand(command: string): (r: Option<Command>)
    ensures r.Some? ==> r.value.ApiNew? || r.value.ApiList? || r.value.ApiEdit? || r.value.ApiDel? || r.value.ApiSwitch?
  {
    if command == "api_new" then Some(ApiNew)
    else if command == "api_list" then Some(ApiList)
    else if StartsWith(command, "api_edit ") then Some(ApiEdit(command[9..]))
    else if StartsWith(command, "api_del ") then Some(ApiDel(command[8..]))
    else if StartsWith(command, "api_switch ") then Some(ApiSwitch(command[11..]))
    else None
  }

  /** What the loop in `main()` does with one input line: blank lines are
      skipped, `exit`, `help` and `clear` are recognised in any letter case,
      the API commands as `ApiCommand` says, and all else is a chat message. */
  function Classify(raw: string): Command {
    var t := Strip(raw);
    if t == [] then Skip
    else if Lower(t) == "exit" then Exit
    else if Lower(t) == "help" then Help
    else if Lower(t) == "clear" then Clear
    else match ApiCommand(t)
      case Some(c) => c
      case None => Chat(t)
  }

  /** `index = int(num) - 1`, where `num` is what `split(maxsplit=1)` leaves
      after the command word; `None` where `int` raises. */
  function EntryIndex(arg: string): Option<int> {
    match ParseInt(TrimLeft(arg))
    case Some(n) => Some(n - 1)
    case None => None
  }

  /** `api_edit <n>`: the number, then the edit dialog for entry `n - 1`. */
  function EditEffect(s: Store, arg: string, a: Answers, confirm: string): Store {
    match EntryIndex(arg)
    case Some(i) => ApiEditEffect(s, i, a, confirm)
    case None => s
  }

  /** `api_del <n>`: the number, then the checks of deletion; the question
      takes "no" as its default. */
  function DelEffect(s: Store, arg: string, confirm: string): Store {
    match EntryIndex(arg)
    case Some(i) => RemoveChecked(s, i, AnswerYes(confirm, false))
    case None => s
  }

  /** `api_switch <n>`: the number, then the range check. */
  function SwitchEffect(s: Store, arg: string): Store {
    match EntryIndex(arg)
    case Some(i) => SelectChecked(s, i)
    case None => s
  }

  /** The effect of an API command on the store; `confirm` answers the save
      or deletion question. */
  function CommandEffect(s: Store, c: Command, a: Answers, confirm: string): Store {
    match c
    case ApiNew => ApiNewEffect(s, a, confirm)
    case ApiEdit(arg) => EditEffect(s, arg, a, confirm)
    case ApiDel(arg) => DelEffect(s, arg, confirm)
    case ApiSwitch(arg) => SwitchEffect(s, arg)
    case _ => s
  }

  // ---- A chat turn ----

  /** The request a chat turn sends, `None` where `apis[current_api_index]`
      raises IndexError. */
  function ChatRequest(s: Store, ms: seq<Message>, text: string): (r: Option<Request>)
    ensures r.Some? <==> Selected(s).Some?
    ensures r.Some? ==> Selected(s) == Some(r.value.api) && r.value.messages == ms + [Message(User, text)]
    ensures Valid(s) ==> r == Some(Request(s.apis[s.current], ms + [Message(User, text)]))
  {
    match Selected(s)
    case Some(api) => Some(Request(api, ms + [Message(User, text)]))
    case None => None
  }

  /** The transcript after a chat turn: the user message is appended before
      anything can fail; the assistant message follows only when the entry
      exists and the reply was read without raising. */
  function ChatEffect(s: Store, ms: seq<Message>, text: string, reply: Reply): seq<Message> {
    var sent := ms + [Message(User, text)];
    match ChatRequest(s, ms, text)
    case None => sent
    case Some(_) =>
      (match ReplyText(reply) case Some(answer) => sent + [Message(Assistant, answer)] case None => sent)
  }

  // ---- The session ----

  datatype Session = Session(store: Store, messages: seq<Message>)

  /** One line of input with everything the turn may read after it. */
  datatype Turn = Turn(line: string, answers: Answers, confirm: string, reply: Reply)

  /** What one iteration of the loop in `main()` does for command `c`
      (an `exit` line ends the loop and is handled by `RunSpec`). */
  function Apply(s: Session, c: Command, t: Turn): Session {
    match c
    case Skip => s
    case Exit => s
    case Help => s
    case Clear => s.(messages := Seed())
    case Chat(text) => s.(messages := ChatEffect(s.store, s.messages, text, t.reply))
    case _ => s.(store := CommandEffect(s.store, c, t.answers, t.confirm))
  }

  function StepSpec(s: Session, t: Turn): Session {
    Apply(s, Classify(t.line), t)
  }

  /** The loop in `main()` over a sequence of turns, up to the first `exit`. */
  function RunSpec(s: Session, turns: seq<Turn>): Session
    decreases |turns|
  {
    if turns == [] || Classify(turns[0].line) == Exit then s
    else RunSpec(StepSpec(s, turns[0]), turns[1..])
  }

  /** Start-up: the configuration is loaded and the transcript seeded, then
      the greeting prints `apis[current_api_index]`, which raises (and ends
      the program) where the loaded cursor selects nothing. */
  function Startup(doc: Document): (r: Option<Session>)
    ensures r.Some? ==> r.value.store == Load(doc) && r.value.messages == Seed()
    ensures r.Some? <==> Selected(Load(doc)).Some?
    ensures !doc.Parsed? ==> r.Some?
  {
    if Selected(Load(doc)).Some? then Some(Session(Load(doc), Seed())) else None
  }

  // ---- The entry dialogs: properties ----

  /** `api_new` goes on to the save question exactly when the name and the
      key are non-blank and the stripped URL starts with `http://` or
      `https://` followed by a non-whitespace character. */
  lemma {:induction false} NewEntryAccepts(a: Answers)
    ensures NewEntry(a).Some? <==>
      && Strip(a.name) != [] && Strip(a.key) != []
      && (SchemeThenText(Strip(a.url), "http://") || SchemeThenText(Strip(a.url), "https://"))
  {
    StripIdempotent(a.url);
    UrlPatternIff(Strip(a.url));
  }

  /** The fields `api_new` saves: the stripped texts, the default model for
      a blank model, 1024 for a blank or non-integer token count, and the
      stream answer with "yes" as its default. */
  lemma {:induction false} NewEntryFields(a: Answers)
    requires NewEntry(a).Some?
    ensures var e := NewEntry(a).value;
      && e.name == Strip(a.name) && e.name != [] && Trimmed(e.name)
      && e.baseUrl == Strip(a.url) && e.apiKey == Strip(a.key) && e.apiKey != []
      && e.model == (if AllSpace(a.model) then DefaultModel else Strip(a.model))
      && e.maxTokens == (if AllSpace(a.tokens) then DefaultMaxTokens else ParseInt(a.tokens).GetOr(DefaultMaxTokens))
      && e.stream == AnswerYes(a.stream, true)
  {
    StripEmpty(a.model);
    StripEmpty(a.tokens);
    StripIdempotent(a.tokens);
  }

  /** `api_new` either leaves the store alone or appends exactly the new
      entry and selects it, which makes the store valid. */
  lemma {:induction false} ApiNewOutcome(s: Store, a: Answers, confirm: string)
    ensures NewEntry(a).None? || !AnswerYes(confirm, true) ==> ApiNewEffect(s, a, confirm) == s
    ensures NewEntry(a).Some? && AnswerYes(confirm, true) ==>
      var r := ApiNewEffect(s, a, confirm);
      Valid(r) && r.apis == s.apis + [NewEntry(a).value] && r.current == |s.apis|
  {
  }

  /** Whether an edit gets to the save question depends on the URL alone:
      the typed one, or the old one where the answer is blank. */
  lemma {:induction false} EditedEntryUrl(previous: ApiConfig, a: Answers)
    ensures EditedEntry(previous, a).Some? <==> ValidateUrl(if AllSpace(a.url) then previous.baseUrl else a.url)
  {
    if AllSpace(a.url) {
      assert KeepOr(a.url, previous.baseUrl) == previous.baseUrl;
    } else {
      assert KeepOr(a.url, previous.baseUrl) == Strip(a.url);
      StripIdempotent(a.url);
    }
  }

  /** Each blank answer keeps the old field; a typed one replaces it
      stripped; a token count that `int` rejects keeps the old count; the
      stream question defaults to the current setting. */
  lemma {:induction false} EditedEntryFields(previous: ApiConfig, a: Answers)
    requires EditedEntry(previous, a).Some?
    ensures var e := EditedEntry(previous, a).value;
      && e.name == (if AllSpace(a.name) then previous.name else Strip(a.name))
      && e.baseUrl == (if AllSpace(a.url) then previous.baseUrl else Strip(a.url))
      && e.apiKey == (if AllSpace(a.key) then previous.apiKey else Strip(a.key))
      && e.model == (if AllSpace(a.model) then previous.model else Strip(a.model))
      && e.maxTokens == (if AllSpace(a.tokens) then previous.maxTokens else ParseInt(a.tokens).GetOr(previous.maxTokens))
      && e.stream == (if AllSpace(a.stream) then previous.stream else AnswerYes(a.stream, true))
  {
    StripEmpty(a.tokens);
    StripIdempotent(a.tokens);
    AnswerDefault(a.stream);
  }

  /** Answering every question with a blank line gives back the entry as it
      was, provided its URL passes the pattern. */
  lemma {:induction false} EditBlankKeeps(previous: ApiConfig, a: Answers)
    requires AllSpace(a.name) && AllSpace(a.url) && AllSpace(a.key)
    requires AllSpace(a.model) && AllSpace(a.tokens) && AllSpace(a.stream)
    requires ValidateUrl(previous.baseUrl)
    ensures EditedEntry(previous, a) == Some(previous)
  {
    EditedEntryUrl(previous, a);
    EditedEntryFields(previous, a);
  }

  /** `api_edit` changes nothing for an index outside the list, a rejected
      URL or a declined save; otherwise it replaces slot `index` only and
      keeps the length, the cursor and the invariant. */
  lemma {:induction false} ApiEditOutcome(s: Store, index: int, a: Answers, confirm: string)
    ensures index < 0 || index >= |s.apis| ==> ApiEditEffect(s, index, a, confirm) == s
    ensures 0 <= index < |s.apis| && (EditedEntry(s.apis[index], a).None? || !AnswerYes(confirm, true)) ==>
      ApiEditEffect(s, index, a, confirm) == s
    ensures 0 <= index < |s.apis| && EditedEntry(s.apis[index], a).Some? && AnswerYes(confirm, true) ==>
      var r := ApiEditEffect(s, index, a, confirm);
      && |r.apis| == |s.apis| && r.current == s.current
      && r.apis[index] == EditedEntry(s.apis[index], a).value
      && (forall k :: 0 <= k < |s.apis| && k != index ==> r.apis[k] == s.apis[k])
    ensures Valid(s) ==> Valid(ApiEditEffect(s, index, a, confirm))
  {
    if 0 <= index < |s.apis| && EditedEntry(s.apis[index], a).Some? && AnswerYes(confirm, true) {
      ReplaceOneSlot(s, index, EditedEntry(s.apis[index], a).value);
    }
  }

  // ---- Commands: properties ----

  /** Exactly the blank lines are skipped. */
  lemma {:induction false} ClassifyBlank(raw: string)
    ensures Classify(raw) == Skip <==> AllSpace(raw)
  {
    StripEmpty(raw);
    var t := Strip(raw);
    if t != [] && Lower(t) != "exit" && Lower(t) != "help" && Lower(t) != "clear" {
      assert Classify(raw) == if ApiCommand(t).Some? then ApiCommand(t).value else Chat(t);
    }
  }

  /** A chat message is the stripped line, never blank, and never one of
      the commands. */
  lemma {:induction false} ClassifyChat(raw: string)
    requires Classify(raw).Chat?
    ensures var t := Classify(raw).text;
      && t == Strip(raw) && t != [] && ApiCommand(t).None?
      && Lower(t) != "exit" && Lower(t) != "help" && Lower(t) != "clear"
  {
  }

  /** The number of `api_edit`, `api_del` and `api_switch` is whatever
      follows the prefix and its space on the stripped line: never empty, and
      never ending in whitespace. */
  lemma {:induction false} ClassifyArgument(raw: string)
    requires Classify(raw).ApiEdit? || Classify(raw).ApiDel? || Classify(raw).ApiSwitch?
    ensures Strip(raw) == Prefix(Classify(raw)) + Classify(raw).arg
    ensures Classify(raw).arg != [] && !IsSpace(Classify(raw).arg[|Classify(raw).arg| - 1])
  {
    ClassifyApi(raw);
    ApiCommandArgument(Strip(raw));
    PrefixArgument(Strip(raw), Prefix(Classify(raw)));
  }

  /** The API commands are exactly those `ApiCommand` finds on the stripped
      line: each of the five kinds comes from it, and a line it recognises
      is never skipped, never a keyword and never a chat message. */
  lemma {:induction false} ClassifyApi(raw: string)
    ensures var c := Classify(raw);
      c.ApiNew? || c.ApiList? || c.ApiEdit? || c.ApiDel? || c.ApiSwitch? ==> ApiCommand(Strip(raw)) == Some(c)
    ensures ApiCommand(Strip(raw)).Some? ==> Classify(raw) == ApiCommand(Strip(raw)).value
  {
    var t := Strip(raw);
    if ApiCommand(t).Some? {
      ApiCommandExact(t);
      assert t[0] == 'a';
      assert Lower(t)[0] == 'a';
      assert t != [] && Lower(t) != "exit" && Lower(t) != "help" && Lower(t) != "clear";
    }
  }

  /** The prefix that introduces a numbered command. */
  function Prefix(c: Command): string
    requires c.ApiEdit? || c.ApiDel? || c.ApiSwitch?
  {
    if c.ApiEdit? then "api_edit " else if c.ApiDel? then "api_del " else "api_switch "
  }

  /** The argument of a prefix command is the text after the prefix. */
  lemma {:induction false} ApiCommandArgument(t: string)
    requires ApiCommand(t).Some?
    ensures var c := ApiCommand(t).value;
      c.ApiEdit? || c.ApiDel? || c.ApiSwitch? ==> StartsWith(t, Prefix(c)) && c.arg == t[|Prefix(c)|..]
  {
  }

  /** On a stripped line, a prefix ending in a space is followed by at least
      one character, the last of which is not whitespace. */
  lemma {:induction false} PrefixArgument(t: string, prefix: string)
    requires Trimmed(t) && StartsWith(t, prefix) && prefix != [] && prefix[|prefix| - 1] == ' '
    ensures t == prefix + t[|prefix|..]
    ensures |t| > |prefix| && !IsSpace(t[|t| - 1])
  {
    assert t == t[..|prefix|] + t[|prefix|..];
    assert t[|prefix| - 1] == prefix[|prefix| - 1];
  }

  /** `exit`, `help` and `clear` are recognised in any letter case and with
      any surrounding whitespace. */
  lemma {:induction false} KeywordAnyCase(p: string, w: string, q: string)
    requires AllSpace(p) && AllSpace(q)
    requires Lower(w) == "exit" || Lower(w) == "help" || Lower(w) == "clear"
    ensures Classify(p + w + q) ==
      if Lower(w) == "exit" then Exit else if Lower(w) == "help" then Help else Clear
  {
    assert !IsSpace(w[0]) && !IsSpace(w[|w| - 1]) by {
      assert Lower(w)[0] != LowerChar(' ') && Lower(w)[|w| - 1] != LowerChar(' ');
    }
    StripPadded(p, w, q);
  }

  /** `api_new` must be typed exactly: in any other letter case it is a
      chat message. */
  lemma {:induction false} ApiNewExact(raw: string)
    requires Lower(Strip(raw)) == "api_new"
    ensures Classify(raw) == if Strip(raw) == "api_new" then ApiNew else Chat(Strip(raw))
  {
    var t := Strip(raw);
    assert |t| == 7;
    assert ApiCommand(t) == if t == "api_new" then Some(ApiNew) else None by {
      assert t != "api_list" && !StartsWith(t, "api_edit ") && !StartsWith(t, "api_del ") && !StartsWith(t, "api_switch ");
    }
  }

  /** `api_new` and `api_list` are matched as whole lines, the numbered
      commands by their prefix and its space; all five are case-sensitive. */
  lemma {:induction false} ApiCommandExact(t: string)
    ensures ApiCommand(t) == Some(ApiNew) <==> t == "api_new"
    ensures ApiCommand(t) == Some(ApiList) <==> t == "api_list"
    ensures ApiCommand(t).Some? && ApiCommand(t).value.ApiEdit? <==> StartsWith(t, "api_edit ")
    ensures ApiCommand(t).Some? && ApiCommand(t).value.ApiDel? <==> StartsWith(t, "api_del ")
    ensures ApiCommand(t).Some? && ApiCommand(t).value.ApiSwitch? <==> StartsWith(t, "api_switch ")
  {
    if StartsWith(t, "api_del ") {
      assert t[4] == 'd';
      assert !StartsWith(t, "api_edit ") by { assert |t| >= 9 ==> t[..9][4] == t[4]; }
    }
    if StartsWith(t, "api_switch ") {
      assert t[4] == 's';
      assert !StartsWith(t, "api_edit ") by { assert t[..9][4] == t[4]; }
      assert !StartsWith(t, "api_del ") by { assert t[..8][4] == t[4]; }
    }
  }

  /** A prefix needs its space: a bare `api_edit` (the line is stripped, so
      a trailing space is lost) is sent as a chat message. */
  lemma {:induction false} BareEditIsChat(raw: string)
    requires Strip(raw) == "api_edit"
    ensures Classify(raw) == Chat("api_edit")
  {
    var t := Strip(raw);
    assert |Lower(t)| == 8;
    assert ApiCommand(t).None? by {
      assert t != "api_new" && t[4] != "api_list"[4];
    }
  }

  /** Numbers are 1-based: the text `str(k)` names entry `k - 1`. */
  lemma {:induction false} EntryNumber(k: int)
    ensures EntryIndex(Show(k)) == Some(k - 1)
  {
    ShowTrimmed(k);
    ParseShow(k);
  }

  /** `api_switch k` selects entry `k - 1` when `1 <= k <= len(apis)` and
      otherwise changes nothing; 0 and negative numbers are rejected. */
  lemma {:induction false} SwitchOneBased(s: Store, k: int)
    ensures SwitchEffect(s, Show(k)) == if 1 <= k <= |s.apis| then Store(s.apis, k - 1) else s
  {
    EntryNumber(k);
  }

  /** `api_del k` deletes entry `k - 1` under the checks of deletion, with
      "no" as the answer's default; `k <= 0` changes nothing. */
  lemma {:induction false} DelOneBased(s: Store, k: int, confirm: string)
    ensures DelEffect(s, Show(k), confirm) == RemoveChecked(s, k - 1, AnswerYes(confirm, false))
    ensures k <= 0 ==> DelEffect(s, Show(k), confirm) == s
  {
    EntryNumber(k);
  }

  /** A number `int` rejects is reported and changes nothing. */
  lemma {:induction false} BadNumber(s: Store, arg: string, a: Answers, confirm: string)
    requires EntryIndex(arg).None?
    ensures EditEffect(s, arg, a, confirm) == s
    ensures DelEffect(s, arg, confirm) == s
    ensures SwitchEffect(s, arg) == s
  {
  }

  /** Every command keeps a valid store valid. */
  lemma {:induction false} CommandKeepsValid(s: Store, c: Command, a: Answers, confirm: string)
    requires Valid(s)
    ensures Valid(CommandEffect(s, c, a, confirm))
  {
    match c
    case ApiNew =>
      ApiNewOutcome(s, a, confirm);
    case ApiEdit(arg) =>
      if EntryIndex(arg).Some? { ApiEditOutcome(s, EntryIndex(arg).value, a, confirm); }
    case ApiDel(arg) =>
      if EntryIndex(arg).Some? { RemoveCheckedValid(s, EntryIndex(arg).value, AnswerYes(confirm, false)); }
    case ApiSwitch(arg) =>
      if EntryIndex(arg).Some? { SelectCheckedCursor(s, EntryIndex(arg).value); }
    case _ =>
  }

  // ---- A chat turn: properties ----

  /** A chat turn always records the user message first; it records one
      assistant message more exactly when the entry exists and the reply
      was read without raising, and that message holds the reply's text. */
  lemma {:induction false} ChatTurnShape(s: Store, ms: seq<Message>, text: string, reply: Reply)
    ensures var r := ChatEffect(s, ms, text, reply);
      && |r| >= |ms| + 1 && r[..|ms| + 1] == ms + [Message(User, text)]
      && (|r| == |ms| + 2 <==> Selected(s).Some? && ReplyText(reply).Some?)
      && (|r| == |ms| + 1 || |r| == |ms| + 2)
      && (|r| == |ms| + 2 ==> r[|ms| + 1] == Message(Assistant, ReplyText(reply).value))
  {
    var sent := ms + [Message(User, text)];
    assert (sent + [Message(Assistant, "")])[..|ms| + 1] == sent;
    if Selected(s).Some? && ReplyText(reply).Some? {
      assert (sent + [Message(Assistant, ReplyText(reply).value)])[..|ms| + 1] == sent;
    }
  }

  /** On a valid store a complete stream adds the user message and one
      assistant message holding all the chunks in order. */
  lemma {:induction false} ChatStreamed(s: Store, ms: seq<Message>, text: string, cs: seq<Option<string>>)
    requires Valid(s)
    ensures ChatEffect(s, ms, text, Chunks(cs, None)) == ms + [Message(User, text), Message(Assistant, Concat(cs))]
  {
    SelectedValid(s);
  }

  /** A request that raises, or a stream that breaks off, adds only the user
      message, whatever chunks arrived before. */
  lemma {:induction false} ChatFailed(s: Store, ms: seq<Message>, text: string, cs: seq<Option<string>>, e: string)
    ensures ChatEffect(s, ms, text, Failed(e)) == ms + [Message(User, text)]
    ensures ChatEffect(s, ms, text, Chunks(cs, Some(e))) == ms + [Message(User, text)]
  {
  }

  // ---- The session: properties ----

  /** `clear` resets the transcript to the seed and leaves the store alone. */
  lemma {:induction false} ClearResets(s: Session, t: Turn)
    requires Classify(t.line) == Clear
    ensures StepSpec(s, t) == Session(s.store, Seed())
  {
  }

  /** Each iteration keeps the store valid and the transcript well formed. */
  lemma {:induction false} StepKeepsInvariant(s: Session, t: Turn)
    requires Valid(s.store) && WellFormed(s.messages)
    ensures Valid(StepSpec(s, t).store) && WellFormed(StepSpec(s, t).messages)
  {
    ApplyKeepsInvariant(s, Classify(t.line), t);
  }

  lemma {:induction false} ApplyKeepsInvariant(s: Session, c: Command, t: Turn)
    requires Valid(s.store) && WellFormed(s.messages)
    ensures Valid(Apply(s, c, t).store) && WellFormed(Apply(s, c, t).messages)
  {
    match c
    case Chat(text) =>
      ChatKeepsWellFormed(s.store, s.messages, text, t.reply);
    case Clear =>
      SeedWellFormed();
    case Skip =>
    case Exit =>
    case Help =>
    case _ =>
      CommandKeepsValid(s.store, c, t.answers, t.confirm);
  }

  /** A chat turn keeps the transcript well formed. */
  lemma {:induction false} ChatKeepsWellFormed(s: Store, ms: seq<Message>, text: string, reply: Reply)
    requires WellFormed(ms)
    ensures WellFormed(ChatEffect(s, ms, text, reply))
  {
    var sent := ms + [Message(User, text)];
    AppendKeepsWellFormed(ms, [Message(User, text)]);
    if Selected(s).Some? && ReplyText(reply).Some? {
      AppendKeepsWellFormed(sent, [Message(Assistant, ReplyText(reply).value)]);
    }
  }

  /** The whole loop keeps the invariant, whatever the lines typed. */
  lemma {:induction false} RunKeepsInvariant(s: Session, turns: seq<Turn>)
    requires Valid(s.store) && WellFormed(s.messages)
    ensures Valid(RunSpec(s, turns).store) && WellFormed(RunSpec(s, turns).messages)
    decreases |turns|
  {
    if turns != [] && Classify(turns[0].line) != Exit {
      StepKeepsInvariant(s, turns[0]);
      RunKeepsInvariant(StepSpec(s, turns[0]), turns[1..]);
    }
  }

  /** Start-up succeeds on a valid store and on a negative cursor that
      Python's indexing accepts, and fails on a loaded empty list. */
  lemma {:induction false} StartupCases(doc: Document, l: seq<ApiConfig>)
    ensures Valid(Load(doc)) ==> Startup(doc).Some?
    ensures Startup(Parsed(Some([]), None)).None?
    ensures |l| > 0 ==> Startup(Parsed(Some(l), Some(-1))).Some?
  {
    if Valid(Load(doc)) { SelectedValid(Load(doc)); }
  }
}

/** The terminal client's state and the handlers that update it in place. */
module Terminal {
  import opened Text
  import opened Config
  import opened Chat
  import opened Prompts
  import opened Commands

  // ---- The mutable front-end ----

  /** The module-level state of the terminal client. */
  class Cli {
    var apis: seq<ApiConfig>
    var current: int
    var messages: seq<Message>

    function State(): Session
      reads this
    {
      Session(Store(apis, current), messages)
    }

    /** `apis, current_api_index = load_config()` and the seeded transcript. */
    constructor(doc: Document)
      ensures State() == Session(Load(doc), Seed())
    {
      var loaded := Load(doc);
      apis := loaded.apis;
      current := loaded.current;
      messages := Seed();
    }

    method HandleApiNew(a: Answers, confirm: string)
      modifies this`apis, this`current
      ensures Store(apis, current) == ApiNewEffect(old(Store(apis, current)), a, confirm)
    {
      var entry := NewEntry(a);
      var yes := AnswerYes(confirm, true);
      if entry.Some? && yes {
        apis := apis + [entry.value];
        current := |apis| - 1;
      }
    }

    method HandleApiEdit(index: int, a: Answers, confirm: string)
      modifies this`apis, this`current
      ensures Store(apis, current) == ApiEditEffect(old(Store(apis, current)), index, a, confirm)
    {
      if index < 0 || index >= |apis| {
        return;
      }
      var entry := EditedEntry(apis[index], a);
      if entry.Some? && AnswerYes(confirm, true) {
        apis := apis[index := entry.value];
      }
    }

    /** Returns whether the line was an API command; a bad number is
        reported and still counts as handled. */
    method HandleApiCommands(command: string, a: Answers, confirm: string) returns (handled: bool)
      modifies this`apis, this`current
      ensures handled <==> ApiCommand(command).Some?
      ensures Store(apis, current) ==
        if handled then CommandEffect(old(Store(apis, current)), ApiCommand(command).value, a, confirm)
        else old(Store(apis, current))
    {
      var c := ApiCommand(command);
      if c.None? {
        return false;
      }
      handled := true;
      Dispatch(c.value, a, confirm);
    }

    /** The branch of `handle_api_commands` taken for command `c`; a number
        that `int` rejects is reported and nothing changes. */
    method Dispatch(c: Command, a: Answers, confirm: string)
      modifies this`apis, this`current
      ensures Store(apis, current) == CommandEffect(old(Store(apis, current)), c, a, confirm)
    {
      match c
      case ApiNew =>
        HandleApiNew(a, confirm);
      case ApiEdit(arg) =>
        var index := EntryIndex(arg);
        if index.Some? {
          HandleApiEdit(index.value, a, confirm);
        }
      case ApiDel(arg) =>
        var index := EntryIndex(arg);
        if index.Some? {
          HandleApiDel(index.value, confirm);
        }
      case ApiSwitch(arg) =>
        var index := EntryIndex(arg);
        if index.Some? {
          HandleApiSwitch(index.value);
        }
      case _ =>
    }

    /** The `api_del` branch once the number is read: the range check, the
        last-entry check, the question (default no), then `del` and the clamp. */
    method HandleApiDel(index: int, confirm: string)
      modifies this`apis, this`current
      ensures Store(apis, current) == RemoveChecked(old(Store(apis, current)), index, AnswerYes(confirm, false))
    {
      if index < 0 || index >= |apis| {
        return;
      }
      if |apis| == 1 {
        return;
      }
      if AnswerYes(confirm, false) {
        apis := apis[..index] + apis[index + 1..];
        if current >= index {
          current := if current - 1 > 0 then current - 1 else 0;
        }
      }
    }

    /** The `api_switch` branch once the number is read. */
    method HandleApiSwitch(index: int)
      modifies this`current
      ensures Store(apis, current) == SelectChecked(old(Store(apis, current)), index)
    {
      if 0 <= index < |apis| {
        current := index;
      }
    }

    /** One chat turn: append the user message, then read the reply. */
    method ChatTurn(text: string, reply: Reply)
      modifies this`messages
      ensures messages == ChatEffect(Store(apis, current), old(messages), text, reply)
    {
      messages := messages + [Message(User, text)];
      var selected := Selected(Store(apis, current));
      if selected.None? {
        return;
      }
      match reply
      case Failed(_) =>
      case Chunks(cs, cut) =>
        var full := CollectStream(cs);
        if cut.None? {
          messages := messages + [Message(Assistant, full)];
        }
      case Whole(content) =>
        if content.Some? {
          messages := messages + [Message(Assistant, content.value)];
        }
    }

    /** One iteration of the loop: the stripped line is tested against the
        three keywords in any letter case, then offered to
        `handle_api_commands`, and sent as a chat message when that declines
        it. Returns whether the line was `exit`. */
    method Step(t: Turn) returns (exit: bool)
      modifies this
      ensures exit <==> Classify(t.line) == Exit
      ensures State() == StepSpec(old(State()), t)
    {
      var line := Strip(t.line);
      exit := false;
      if line == [] {
        return;
      }
      if Lower(line) == "exit" {
        exit := true;
        return;
      }
      if Lower(line) == "help" {
        return;
      }
      if Lower(line) == "clear" {
        messages := Seed();
        return;
      }
      var handled := HandleApiCommands(line, t.answers, t.confirm);
      if !handled {
        ChatTurn(line, t.reply);
      }
    }

    /** The `while True` loop of `main()` over the given turns. */
    method Run(turns: seq<Turn>)
      modifies this
      ensures State() == RunSpec(old(State()), turns)
    {
      var i := 0;
      while i < |turns|
        invariant 0 <= i <= |turns|
        invariant RunSpec(old(State()), turns) == RunSpec(State(), turns[i..])
      {
        assert turns[i..][1..] == turns[i + 1..];
        var exit := Step(turns[i]);
        if exit {
          return;
        }
        i := i + 1;
      }
    }
  }
}
