/** `ApiRequestThread.run`, the desktop front-end's request worker: the
    signals it emits for each kind of reply, in order. */
module Worker {
  import opened Text
  import opened Chat

  /** The thread's four signals: `chunk_received`, `response_received`,
      `error_occurred` and `request_finished`. */
  datatype Event = Chunk(text: string) | Response(text: string) | Error(message: string) | Finished

  /** The message of the TypeError `"".join([None])` raises. */
  const JoinError: string := "sequence item 0: expected str instance, NoneType found"

  /** One `chunk_received` per chunk, in arrival order. */
  function ChunkEvents(cs: seq<Option<string>>): (evs: seq<Event>)
    ensures |evs| == |cs|
    ensures forall k :: 0 <= k < |cs| ==> evs[k] == Chunk(ChunkText(cs[k]))
  {
    if cs == [] then [] else ChunkEvents(cs[..|cs| - 1]) + [Chunk(ChunkText(cs[|cs| - 1]))]
  }

  /** The signals `run` emits for a reply. A non-stream reply is emitted
      once as it arrives and once more as the joined list; a missing content
      reaches the slot as an empty text, and the join then raises. */
  function Events(r: Reply): seq<Event> {
    match r
    case Failed(e) => [Error(e), Finished]
    case Chunks(cs, cut) =>
      ChunkEvents(cs) + (if cut.Some? then [Error(cut.value), Finished] else [Response(Concat(cs)), Finished])
    case Whole(c) =>
      if c.Some? then [Response(c.value), Response(c.value), Finished] else [Response(""), Error(JoinError), Finished]
  }

  /** `"".join(parts)`. */
  function Join(parts: seq<string>): string {
    if parts == [] then "" else Join(parts[..|parts| - 1]) + parts[|parts| - 1]
  }

  /** The body of `run` once the completion call has returned `r`. */
  method Run(r: Reply) returns (events: seq<Event>)
    ensures events == Events(r)
  {
    match r {
      case Failed(e) =>
        events := [Error(e), Finished];
      case Chunks(cs, cut) =>
        events := [];
        var full: seq<string> := [];
        var i := 0;
        while i < |cs|
          invariant 0 <= i <= |cs|
          invariant events == ChunkEvents(cs[..i])
          invariant Join(full) == Concat(cs[..i])
        {
          assert cs[..i + 1][..i] == cs[..i];
          var content := ChunkText(cs[i]);
          events := events + [Chunk(content)];
          assert (full + [content])[..|full|] == full;
          full := full + [content];
          i := i + 1;
        }
        assert cs[..i] == cs;
        if cut.Some? {
          events := events + [Error(cut.value), Finished];
        } else {
          events := events + [Response(Join(full)), Finished];
        }
      case Whole(c) =>
        if c.Some? {
          events := [Response(c.value)];
          events := events + [Response(Join([c.value]))];
          assert Join([c.value]) == c.value by { assert [c.value][..0] == []; }
        } else {
          events := [Response(""), Error(JoinError)];
        }
        events := events + [Finished];
    }
  }

  /** The texts of the `response_received` signals, in order. */
  function Responses(evs: seq<Event>): seq<string> {
    if evs == [] then []
    else (if evs[0].Response? then [evs[0].text] else []) + Responses(evs[1..])
  }

  /** The concatenated texts of the `chunk_received` signals. */
  function ChunkedText(evs: seq<Event>): string {
    if evs == [] then ""
    else (if evs[0].Chunk? then evs[0].text else "") + ChunkedText(evs[1..])
  }

  predicate HasError(evs: seq<Event>) {
    exists k :: 0 <= k < |evs| && evs[k].Error?
  }

  // ---- Lemmas ----

  lemma {:induction false} ResponsesConcat(a: seq<Event>, b: seq<Event>)
    ensures Responses(a + b) == Responses(a) + Responses(b)
    ensures ChunkedText(a + b) == ChunkedText(a) + ChunkedText(b)
  {
    ResponsesAppend(a, b);
    ChunkedAppend(a, b);
  }

  lemma {:induction false} ResponsesAppend(a: seq<Event>, b: seq<Event>)
    ensures Responses(a + b) == Responses(a) + Responses(b)
    decreases |a|
  {
    if a == [] {
      assert a + b == b;
    } else {
      assert (a + b)[0] == a[0] && (a + b)[1..] == a[1..] + b;
      ResponsesAppend(a[1..], b);
      var h: seq<string> := if a[0].Response? then [a[0].text] else [];
      assert Responses(a + b) == h + (Responses(a[1..]) + Responses(b));
      assert h + (Responses(a[1..]) + Responses(b)) == (h + Responses(a[1..])) + Responses(b);
    }
  }

  lemma {:induction false} ChunkedAppend(a: seq<Event>, b: seq<Event>)
    ensures ChunkedText(a + b) == ChunkedText(a) + ChunkedText(b)
    decreases |a|
  {
    if a == [] {
      assert a + b == b;
    } else {
      assert (a + b)[0] == a[0] && (a + b)[1..] == a[1..] + b;
      ChunkedAppend(a[1..], b);
      var h: string := if a[0].Chunk? then a[0].text else "";
      assert ChunkedText(a + b) == h + (ChunkedText(a[1..]) + ChunkedText(b));
      assert h + (ChunkedText(a[1..]) + ChunkedText(b)) == (h + ChunkedText(a[1..])) + ChunkedText(b);
    }
  }

  /** The chunk signals carry no response and spell out the joined chunks. */
  lemma {:induction false} ChunkEventsText(cs: seq<Option<string>>)
    ensures Responses(ChunkEvents(cs)) == []
    ensures ChunkedText(ChunkEvents(cs)) == Concat(cs)
  {
    if cs != [] {
      var last := [Chunk(ChunkText(cs[|cs| - 1]))];
      ChunkEventsText(cs[..|cs| - 1]);
      ResponsesConcat(ChunkEvents(cs[..|cs| - 1]), last);
      assert last[1..] == [];
    }
  }

  lemma {:induction false} TailText(a: Event, b: Event)
    ensures Responses([a, b]) == (if a.Response? then [a.text] else []) + (if b.Response? then [b.text] else [])
    ensures ChunkedText([a, b]) == (if a.Chunk? then a.text else "") + (if b.Chunk? then b.text else "")
  {
    assert [a, b][1..] == [b] && [b][1..] == [];
    var rb: seq<string> := if b.Response? then [b.text] else [];
    assert Responses([b]) == rb + [] == rb;
    var cb: string := if b.Chunk? then b.text else "";
    assert ChunkedText([b]) == cb + "" == cb;
  }

  /** A complete stream: the chunks are signalled in arrival order, then
      one response whose text is exactly what the chunks spelled out. */
  lemma {:induction false} StreamEvents(cs: seq<Option<string>>)
    ensures forall k :: 0 <= k < |cs| ==> Events(Chunks(cs, None))[k] == Chunk(ChunkText(cs[k]))
    ensures Responses(Events(Chunks(cs, None))) == [ChunkedText(Events(Chunks(cs, None)))]
    ensures ChunkedText(Events(Chunks(cs, None))) == Concat(cs)
  {
    var tail := [Response(Concat(cs)), Finished];
    ChunkEventsText(cs);
    ResponsesConcat(ChunkEvents(cs), tail);
    TailText(Response(Concat(cs)), Finished);
    assert Responses(tail) == [Concat(cs)] && ChunkedText(tail) == "";
    assert ChunkedText(Events(Chunks(cs, None))) == Concat(cs) + "" == Concat(cs);
    assert Responses(Events(Chunks(cs, None))) == [] + [Concat(cs)];
  }

  /** A failed request, or a stream cut short, signals an error and no
      response at all, so no assistant message can follow. */
  lemma {:induction false} FailureEvents(r: Reply)
    requires r.Failed? || (r.Chunks? && r.cut.Some?)
    ensures Responses(Events(r)) == []
    ensures HasError(Events(r))
  {
    if r.Failed? {
      TailText(Error(r.error), Finished);
      assert Events(r)[0].Error?;
    } else {
      var tail := [Error(r.cut.value), Finished];
      ChunkEventsText(r.chunks);
      ResponsesConcat(ChunkEvents(r.chunks), tail);
      TailText(Error(r.cut.value), Finished);
      assert Events(r)[|r.chunks|].Error?;
    }
  }

  /** A non-stream reply is signalled as a response twice, with the same
      text both times. */
  lemma {:induction false} WholeTwice(c: string)
    ensures Responses(Events(Whole(Some(c)))) == [c, c]
    ensures !HasError(Events(Whole(Some(c))))
  {
    var evs := Events(Whole(Some(c)));
    assert evs == [Response(c), Response(c), Finished];
    assert evs[1..] == [Response(c), Finished];
    TailText(Response(c), Finished);
    assert Responses(evs) == [c] + Responses(evs[1..]);
    assert forall k :: 0 <= k < |evs| ==> !evs[k].Error?;
  }

  /** A non-stream reply without content: an empty response, then the
      join's error. */
  lemma {:induction false} WholeMissing()
    ensures Responses(Events(Whole(None))) == [""]
    ensures HasError(Events(Whole(None)))
  {
    var evs := [Response(""), Error(JoinError), Finished];
    assert evs == [Response("")] + [Error(JoinError), Finished];
    ResponsesConcat([Response("")], [Error(JoinError), Finished]);
    TailText(Error(JoinError), Finished);
    assert [Response("")][1..] == [];
    assert evs[1].Error?;
  }

  /** Whatever the reply, `request_finished` is signalled once, last. */
  lemma {:induction false} FinishedOnceLast(r: Reply)
    ensures |Events(r)| > 0 && Events(r)[|Events(r)| - 1] == Finished
    ensures forall k :: 0 <= k < |Events(r)| - 1 ==> !Events(r)[k].Finished?
  {
  }

  /** An error is signalled exactly when the terminal front-end would record
      no assistant message for the same reply. */
  lemma {:induction false} ErrorIffNoText(r: Reply)
    ensures HasError(Events(r)) <==> ReplyText(r).None?
  {
    match r
    case Failed(_) =>
      FailureEvents(r);
    case Chunks(cs, cut) =>
      if cut.Some? {
        FailureEvents(r);
      } else {
        var evs := Events(r);
        assert forall k :: 0 <= k < |evs| ==> !evs[k].Error? by {
          forall k | 0 <= k < |evs| ensures !evs[k].Error? {
            if k < |cs| { assert evs[k] == Chunk(ChunkText(cs[k])); }
          }
        }
      }
    case Whole(c) =>
      if c.Some? { WholeTwice(c.value); } else { WholeMissing(); }
  }
}
