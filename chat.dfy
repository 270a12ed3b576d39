/** The transcript handed to the completion API and the shape of what the
    API sends back. */
module Chat {
  import opened Text
  import opened Config

  datatype Role = System | User | Assistant

  datatype Message = Message(role: Role, content: string)

  const SystemPrompt: string := "你是一个AI助手"

  /** The transcript a session starts with and `clear` returns to. */
  function Seed(): (r: seq<Message>)
    ensures |r| == 1 && r[0].role == System
  {
    [Message(System, SystemPrompt)]
  }

  /** Exactly one system message, and it comes first. */
  predicate WellFormed(ms: seq<Message>) {
    && |ms| >= 1
    && ms[0] == Message(System, SystemPrompt)
    && forall i :: 1 <= i < |ms| ==> ms[i].role != System
  }

  /** What the completion call produced, the library call itself being out
      of the model. `Failed`: the request raised. `Chunks`: the stream of
      delta contents (`None` where a delta has no content), and `cut` the
      error if iterating the stream raised after those chunks. `Whole`: the
      one message content of a non-stream reply (`None` if it had none).
      The library returns a stream exactly when the request asked for one,
      so the variant also stands for the entry's `stream` flag. */
  datatype Reply =
    | Failed(error: string)
    | Chunks(chunks: seq<Option<string>>, cut: Option<string>)
    | Whole(content: Option<string>)

  /** What a turn hands to the completion call: the entry the cursor selects
      and the transcript including the new user message. */
  datatype Request = Request(api: ApiConfig, messages: seq<Message>)

  /** `chunk.choices[0].delta.content or ""`. */
  function ChunkText(c: Option<string>): string {
    c.GetOr("")
  }

  /** `"".join(full_response)` over the chunks in arrival order. */
  function Concat(cs: seq<Option<string>>): string {
    if cs == [] then "" else Concat(cs[..|cs| - 1]) + ChunkText(cs[|cs| - 1])
  }

  /** The assistant text a front-end takes from a reply: `None` where reading
      the reply raises, so that no assistant message is recorded. A stream
      cut short raises inside the loop; a non-stream reply without content
      makes `"".join([None])` raise. */
  function ReplyText(r: Reply): (t: Option<string>)
    ensures r.Failed? ==> t.None?
    ensures r.Chunks? ==> (t.Some? <==> r.cut.None?)
    ensures r.Whole? ==> t == r.content
  {
    match r
    case Failed(_) => None
    case Chunks(cs, cut) => if cut.None? then Some(Concat(cs)) else None
    case Whole(c) => c
  }

  /** The reading loop: each chunk's text is appended to `full_response` in
      arrival order, and the list is joined at the end. */
  method CollectStream(chunks: seq<Option<string>>) returns (full: string)
    ensures full == Concat(chunks)
  {
    full := "";
    var i := 0;
    while i < |chunks|
      invariant 0 <= i <= |chunks|
      invariant full == Concat(chunks[..i])
    {
      assert chunks[..i + 1][..i] == chunks[..i];
      full := full + ChunkText(chunks[i]);
      i := i + 1;
    }
    assert chunks[..i] == chunks;
  }

  lemma {:induction false} ConcatAppend(a: seq<Option<string>>, b: seq<Option<string>>)
    ensures Concat(a + b) == Concat(a) + Concat(b)
    decreases |b|
  {
    if b == [] {
      assert a + b == a;
    } else {
      var b' := b[..|b| - 1];
      var last := ChunkText(b[|b| - 1]);
      assert (a + b)[..|a + b| - 1] == a + b' && (a + b)[|a + b| - 1] == b[|b| - 1];
      ConcatAppend(a, b');
      assert Concat(a + b) == (Concat(a) + Concat(b')) + last;
      assert Concat(b) == Concat(b') + last;
    }
  }

  /** No chunk is dropped or reordered: chunk `k` sits in the aggregate right
      after the text of the chunks before it. */
  lemma {:induction false} ConcatAt(cs: seq<Option<string>>, k: int)
    requires 0 <= k < |cs|
    ensures Concat(cs) == Concat(cs[..k]) + ChunkText(cs[k]) + Concat(cs[k + 1..])
  {
    var pre, mid, post := cs[..k], [cs[k]], cs[k + 1..];
    assert cs == (pre + mid) + post;
    ConcatAppend(pre + mid, post);
    ConcatAppend(pre, mid);
    assert Concat(mid) == ChunkText(cs[k]) by {
      assert mid[..0] == [];
      assert Concat(mid[..0]) == "";
    }
  }

  /** The length of the aggregate is the sum of the chunk lengths. */
  lemma {:induction false} ConcatLength(cs: seq<Option<string>>)
    ensures |Concat(cs)| == TotalLength(cs)
  {
    if cs != [] {
      ConcatLength(cs[..|cs| - 1]);
    }
  }

  function TotalLength(cs: seq<Option<string>>): nat {
    if cs == [] then 0 else TotalLength(cs[..|cs| - 1]) + |ChunkText(cs[|cs| - 1])|
  }

  /** Appending a user or assistant message keeps the transcript well formed. */
  lemma {:induction false} AppendKeepsWellFormed(ms: seq<Message>, extra: seq<Message>)
    requires WellFormed(ms)
    requires forall i :: 0 <= i < |extra| ==> extra[i].role != System
    ensures WellFormed(ms + extra)
  {
    assert forall i :: |ms| <= i < |ms + extra| ==> (ms + extra)[i] == extra[i - |ms|];
  }

  lemma {:induction false} SeedWellFormed()
    ensures WellFormed(Seed())
  {
  }
}
