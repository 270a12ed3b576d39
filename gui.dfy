/** `ChatApp`, the desktop front-end's main window: its provider list, its
    cursor and its transcript, and the slots that change them. */
module Gui {
  import opened Text
  import opened Config
  import opened Chat
  import opened Dialog
  import opened Worker
  import Commands

  // ---- What each slot does, as functions of the old state ----

  /** `add_api`: a new-entry dialog; an accepted entry is appended and
      selected. */
  function AddEffect(s: Store, actions: seq<Action>): Store {
    match Exec(Open(None), actions)
    case Some(c) => Add(s, c)
    case None => s
  }

  /** `edit_api`: an index outside the list is ignored; otherwise the
      dialog opens on that entry and an accepted form replaces it. */
  function EditEffect(s: Store, index: int, actions: seq<Action>): Store {
    if index < 0 || index >= |s.apis| then s
    else match Exec(Open(Some(s.apis[index])), actions)
      case Some(c) => Replace(s, index, c)
      case None => s
  }

  /** The transcript after `send_message`: a blank input is ignored,
      anything else is appended stripped, as a user message. */
  function Sent(ms: seq<Message>, input: string): seq<Message> {
    if Strip(input) == [] then ms else ms + [Message(User, Strip(input))]
  }

  /** The request `send_message` starts: none for a blank input, and none
      when the cursor selects no entry (the slot then raises after
      recording the user message). */
  function SendRequest(s: Store, ms: seq<Message>, input: string): Option<Request> {
    if Strip(input) == [] then None else Commands.ChatRequest(s, ms, Strip(input))
  }

  /** One assistant message per text, in order. */
  function AssistantMessages(texts: seq<string>): (ms: seq<Message>)
    ensures |ms| == |texts|
    ensures forall k :: 0 <= k < |texts| ==> ms[k] == Message(Assistant, texts[k])
  {
    if texts == [] then [] else [Message(Assistant, texts[0])] + AssistantMessages(texts[1..])
  }

  /** The transcript after the worker's signals reach the window: each
      `response_received` appends through `handle_response`; the other
      slots only redraw the chat pane. */
  function Delivered(ms: seq<Message>, evs: seq<Event>): seq<Message> {
    ms + AssistantMessages(Responses(evs))
  }

  /** A whole desktop turn: send, then (if a request started) deliver what
      the worker signals for reply `r`. */
  function GuiTurn(s: Store, ms: seq<Message>, input: string, r: Reply): seq<Message> {
    if SendRequest(s, ms, input).Some? then Delivered(Sent(ms, input), Events(r)) else Sent(ms, input)
  }

  class ChatApp {
    var apis: seq<ApiConfig>
    var current: int
    var messages: seq<Message>

    function StoreOf(): Store
      reads this
    {
      Store(apis, current)
    }

    /** `__init__`: `load_config`, then the seeded transcript. */
    constructor(doc: Document)
      ensures StoreOf() == Load(doc) && messages == Seed()
    {
      var s := Load(doc);
      apis, current := s.apis, s.current;
      messages := Seed();
    }

    method AddApi(actions: seq<Action>)
      modifies this`apis, this`current
      ensures StoreOf() == AddEffect(old(StoreOf()), actions)
    {
      var result := Exec(Open(None), actions);
      if result.Some? {
        apis := apis + [result.value];
        current := |apis| - 1;
      }
    }

    method EditApi(index: int, actions: seq<Action>)
      modifies this`apis
      ensures StoreOf() == EditEffect(old(StoreOf()), index, actions)
    {
      if index < 0 || index >= |apis| {
        return;
      }
      var result := Exec(Open(Some(apis[index])), actions);
      if result.Some? {
        apis := apis[index := result.value];
      }
    }

    /** `delete_api`; `confirmed` is the answer to the confirmation box,
        which is only shown once the index and the length have passed. */
    method DeleteApi(index: int, confirmed: bool)
      modifies this`apis, this`current
      ensures StoreOf() == RemoveChecked(old(StoreOf()), index, confirmed)
    {
      if index < 0 || index >= |apis| {
        return;
      }
      if |apis| <= 1 {
        return;
      }
      if confirmed {
        apis := apis[..index] + apis[index + 1..];
        if current >= index {
          current := if current - 1 > 0 then current - 1 else 0;
        }
      }
    }

    /** `switch_api`: `switched` tells whether the status bar announced a
        switch; choosing the entry already selected changes nothing. */
    method SwitchApi(index: int) returns (switched: bool)
      modifies this`current
      ensures switched <==> 0 <= index < |apis| && index != old(current)
      ensures StoreOf() == SelectChecked(old(StoreOf()), index)
    {
      switched := 0 <= index < |apis| && index != current;
      if switched {
        current := index;
      }
    }

    /** `send_message`: the request handed to the worker thread, if one
        is started. */
    method SendMessage(input: string) returns (request: Option<Request>)
      modifies this`messages
      ensures messages == Sent(old(messages), input)
      ensures request == SendRequest(StoreOf(), old(messages), input)
    {
      var text := Strip(input);
      if text == [] {
        return None;
      }
      messages := messages + [Message(User, text)];
      if 0 <= current < |apis| {
        request := Some(Request(apis[current], messages));
      } else if -|apis| <= current < 0 {
        request := Some(Request(apis[|apis| + current], messages));
      } else {
        request := None;
      }
    }

    /** `handle_response`. */
    method HandleResponse(response: string)
      modifies this`messages
      ensures messages == old(messages) + [Message(Assistant, response)]
    {
      messages := messages + [Message(Assistant, response)];
    }

    /** The worker's signals arriving at the window one by one. */
    method Deliver(events: seq<Event>)
      modifies this`messages
      ensures messages == Delivered(old(messages), events)
    {
      var i := 0;
      while i < |events|
        invariant 0 <= i <= |events|
        invariant messages == Delivered(old(messages), events[..i])
      {
        DeliveredStep(old(messages), events[..i], events[i]);
        assert events[..i + 1] == events[..i] + [events[i]];
        if events[i].Response? {
          HandleResponse(events[i].text);
        }
        i := i + 1;
      }
      assert events[..i] == events;
    }

    /** `clear_chat`; `confirmed` is the answer to the confirmation box. */
    method ClearChat(confirmed: bool)
      modifies this`messages
      ensures messages == if confirmed then Seed() else old(messages)
    {
      if confirmed {
        messages := Seed();
      }
    }
  }

  // ---- Lemmas ----

  /** One more signal appends at most one assistant message. */
  lemma {:induction false} DeliveredStep(ms: seq<Message>, evs: seq<Event>, e: Event)
    ensures Delivered(ms, evs + [e]) ==
      Delivered(ms, evs) + (if e.Response? then [Message(Assistant, e.text)] else [])
  {
    ResponsesAppend(evs, [e]);
    assert [e][1..] == [];
    var texts := Responses(evs);
    var extra: seq<string> := if e.Response? then [e.text] else [];
    assert Responses([e]) == extra + [];
    AssistantConcat(texts, extra);
  }

  lemma {:induction false} AssistantConcat(x: seq<string>, y: seq<string>)
    ensures AssistantMessages(x + y) == AssistantMessages(x) + AssistantMessages(y)
  {
    var l, r := AssistantMessages(x + y), AssistantMessages(x) + AssistantMessages(y);
    assert |l| == |r|;
    forall k | 0 <= k < |l| ensures l[k] == r[k] {
      if k < |x| {
        assert (x + y)[k] == x[k];
      } else {
        assert (x + y)[k] == y[k - |x|];
      }
    }
  }

  /** An accepted new entry passed the dialog's checks, lands at the end and
      is selected; a cancelled dialog changes nothing. Either way a valid
      store stays valid, and adding even repairs an invalid one. */
  lemma {:induction false} AddOutcome(s: Store, actions: seq<Action>)
    ensures var r := Exec(Open(None), actions);
      && (r.None? ==> AddEffect(s, actions) == s)
      && (r.Some? ==> AddEffect(s, actions) == Add(s, r.value) && Valid(Add(s, r.value))
                      && Acceptable(r.value) && MinTokens <= r.value.maxTokens <= MaxTokens
                      && AddEffect(s, actions).apis[AddEffect(s, actions).current] == r.value)
  {
    var r := Exec(Open(None), actions);
    if r.Some? {
      ExecAccepted(Open(None), actions);
      AddSelectsNew(s, r.value);
    }
  }

  /** Editing never moves the cursor or changes the length; it replaces at
      most entry `index`, with an entry that passed the dialog's checks. */
  lemma {:induction false} EditOutcome(s: Store, index: int, actions: seq<Action>)
    ensures |EditEffect(s, index, actions).apis| == |s.apis|
    ensures EditEffect(s, index, actions).current == s.current
    ensures forall k :: 0 <= k < |s.apis| && k != index ==> EditEffect(s, index, actions).apis[k] == s.apis[k]
    ensures EditEffect(s, index, actions) != s ==> 0 <= index < |s.apis| && Acceptable(EditEffect(s, index, actions).apis[index])
    ensures Valid(s) ==> Valid(EditEffect(s, index, actions))
  {
    if 0 <= index < |s.apis| {
      var f := Open(Some(s.apis[index]));
      var r := Exec(f, actions);
      if r.Some? {
        ExecAccepted(f, actions);
        ReplaceOneSlot(s, index, r.value);
      }
    }
  }

  /** A whitespace-only input records nothing and starts nothing. */
  lemma {:induction false} SendBlank(s: Store, ms: seq<Message>, input: string)
    requires AllSpace(input)
    ensures Sent(ms, input) == ms && SendRequest(s, ms, input).None?
  {
    StripEmpty(input);
  }

  /** Any other input records exactly one user message, with the stripped
      text; a request starts exactly when the cursor selects an entry, and
      it carries the transcript including the new message. */
  lemma {:induction false} SendRecords(s: Store, ms: seq<Message>, input: string)
    requires !AllSpace(input)
    ensures Sent(ms, input) == ms + [Message(User, Strip(input))]
    ensures SendRequest(s, ms, input).Some? <==> Selected(s).Some?
    ensures SendRequest(s, ms, input).Some? ==> SendRequest(s, ms, input).value.messages == Sent(ms, input)
  {
    StripEmpty(input);
  }

  lemma {:induction false} SentWellFormed(ms: seq<Message>, input: string)
    requires WellFormed(ms)
    ensures WellFormed(Sent(ms, input))
  {
    if Strip(input) != [] {
      AppendKeepsWellFormed(ms, [Message(User, Strip(input))]);
    }
  }

  /** Delivering signals keeps the transcript well formed. */
  lemma {:induction false} DeliveredWellFormed(ms: seq<Message>, evs: seq<Event>)
    requires WellFormed(ms)
    ensures WellFormed(Delivered(ms, evs))
  {
    AppendKeepsWellFormed(ms, AssistantMessages(Responses(evs)));
  }

  lemma {:induction false} DeliveredResponses(ms: seq<Message>, evs: seq<Event>, texts: seq<string>)
    requires Responses(evs) == texts
    ensures Delivered(ms, evs) == ms + AssistantMessages(texts)
  {
  }

  /** A complete stream is recorded on the desktop as in the terminal. */
  lemma {:induction false} GuiStreamLikeTerminal(s: Store, ms: seq<Message>, input: string, cs: seq<Option<string>>)
    requires Strip(input) != []
    ensures GuiTurn(s, ms, input, Chunks(cs, None)) == Commands.ChatEffect(s, ms, Strip(input), Chunks(cs, None))
  {
    if Selected(s).Some? {
      StreamEvents(cs);
      DeliveredResponses(ms + [Message(User, Strip(input))], Events(Chunks(cs, None)), [Concat(cs)]);
      assert AssistantMessages([Concat(cs)]) == [Message(Assistant, Concat(cs))];
    }
  }

  /** A request that fails, or a stream cut short, records the user message
      only, on the desktop as in the terminal. */
  lemma {:induction false} GuiFailureLikeTerminal(s: Store, ms: seq<Message>, input: string, r: Reply)
    requires r.Failed? || (r.Chunks? && r.cut.Some?)
    requires Strip(input) != []
    ensures GuiTurn(s, ms, input, r) == Commands.ChatEffect(s, ms, Strip(input), r)
    ensures GuiTurn(s, ms, input, r) == ms + [Message(User, Strip(input))]
  {
    var sent := ms + [Message(User, Strip(input))];
    if Selected(s).Some? {
      FailureEvents(r);
      DeliveredResponses(sent, Events(r), []);
      assert sent + AssistantMessages([]) == sent;
    }
  }

  /** A non-stream reply is recorded twice on the desktop, once in the
      terminal. */
  lemma {:induction false} GuiWholeTwice(s: Store, ms: seq<Message>, input: string, c: string)
    requires Strip(input) != [] && Selected(s).Some?
    ensures GuiTurn(s, ms, input, Whole(Some(c))) == Commands.ChatEffect(s, ms, Strip(input), Whole(Some(c))) + [Message(Assistant, c)]
    ensures Commands.ChatEffect(s, ms, Strip(input), Whole(Some(c))) == ms + [Message(User, Strip(input)), Message(Assistant, c)]
  {
    WholeTwice(c);
    var a := Message(Assistant, c);
    assert AssistantMessages([c, c]) == [a, a];
  }

  /** A non-stream reply without content leaves an empty assistant message
      on the desktop, and none in the terminal. */
  lemma {:induction false} GuiWholeMissing(s: Store, ms: seq<Message>, input: string)
    requires Strip(input) != [] && Selected(s).Some?
    ensures GuiTurn(s, ms, input, Whole(None)) == ms + [Message(User, Strip(input)), Message(Assistant, "")]
    ensures Commands.ChatEffect(s, ms, Strip(input), Whole(None)) == ms + [Message(User, Strip(input))]
  {
    var sent := ms + [Message(User, Strip(input))];
    WholeMissing();
    DeliveredResponses(sent, Events(Whole(None)), [""]);
    assert AssistantMessages([""]) == [Message(Assistant, "")];
    assert sent + [Message(Assistant, "")] == ms + [Message(User, Strip(input)), Message(Assistant, "")];
  }
}
