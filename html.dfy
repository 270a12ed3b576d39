/** `ChatApp.escape_html`: the text of a message made safe for the chat
    pane's HTML, by four `str.replace` calls in a fixed order. */
module Html {
  import opened Text

  /** `s.replace(pat, rep)` for a one-character `pat`: every occurrence,
      left to right. */
  function Replace(s: string, pat: char, rep: string): (r: string)
    ensures pat !in rep ==> pat !in r
    ensures pat !in s ==> r == s
  {
    if s == [] then [] else (if s[0] == pat then rep else [s[0]]) + Replace(s[1..], pat, rep)
  }

  /** The four replacements, `&` first so that the entities the later ones
      insert are not escaped again. */
  function EscapeHtml(text: string): string {
    Replace(Replace(Replace(Replace(text, '&', "&amp;"), '<', "&lt;"), '>', "&gt;"), '\n', "<br>")
  }

  /** The escape of a single character, stated directly. */
  function EscChar(c: char): string {
    if c == '&' then "&amp;"
    else if c == '<' then "&lt;"
    else if c == '>' then "&gt;"
    else if c == '\n' then "<br>"
    else [c]
  }

  /** The reference escape: each character on its own, in order. */
  function EscapeEach(s: string): string {
    if s == [] then [] else EscChar(s[0]) + EscapeEach(s[1..])
  }

  /** Reads the escape back: each entity and each `<br>` to the character it
      stands for, any other character to itself. */
  function Unescape(o: string): string
    decreases |o|
  {
    if o == [] then []
    else if StartsWith(o, "&amp;") then "&" + Unescape(o[5..])
    else if StartsWith(o, "&lt;") then "<" + Unescape(o[4..])
    else if StartsWith(o, "&gt;") then ">" + Unescape(o[4..])
    else if StartsWith(o, "<br>") then "\n" + Unescape(o[4..])
    else [o[0]] + Unescape(o[1..])
  }

  /** Every `<` in the text opens a `<br>` and every `>` closes one. */
  predicate AnglesOnlyInBreaks(o: string) {
    && (forall i :: 0 <= i < |o| && o[i] == '<' ==> i + 4 <= |o| && o[i..i + 4] == "<br>")
    && (forall i :: 0 <= i < |o| && o[i] == '>' ==> 3 <= i && o[i - 3..i + 1] == "<br>")
  }

  lemma {:induction false} ReplaceConcat(a: string, b: string, pat: char, rep: string)
    ensures Replace(a + b, pat, rep) == Replace(a, pat, rep) + Replace(b, pat, rep)
    decreases |a|
  {
    if a == [] {
      assert a + b == b;
    } else {
      assert (a + b)[0] == a[0] && (a + b)[1..] == a[1..] + b;
      ReplaceConcat(a[1..], b, pat, rep);
    }
  }

  lemma {:induction false} EscapeHtmlConcat(a: string, b: string)
    ensures EscapeHtml(a + b) == EscapeHtml(a) + EscapeHtml(b)
  {
    var a1, b1 := Replace(a, '&', "&amp;"), Replace(b, '&', "&amp;");
    var a2, b2 := Replace(a1, '<', "&lt;"), Replace(b1, '<', "&lt;");
    var a3, b3 := Replace(a2, '>', "&gt;"), Replace(b2, '>', "&gt;");
    ReplaceConcat(a, b, '&', "&amp;");
    ReplaceConcat(a1, b1, '<', "&lt;");
    ReplaceConcat(a2, b2, '>', "&gt;");
    ReplaceConcat(a3, b3, '\n', "<br>");
  }

  lemma {:induction false} ReplaceOne(c: char, pat: char, rep: string)
    ensures Replace([c], pat, rep) == if c == pat then rep else [c]
  {
    assert [c][1..] == [];
  }

  /** The chain of replacements on one character gives its escape: no
      replacement rewrites what an earlier one inserted. */
  lemma {:induction false} EscapeHtmlChar(c: char)
    ensures EscapeHtml([c]) == EscChar(c)
  {
    var r1 := Replace([c], '&', "&amp;");
    ReplaceOne(c, '&', "&amp;");
    if c == '&' {
      ChainTail(r1, 1);
    } else {
      var r2 := Replace(r1, '<', "&lt;");
      ReplaceOne(c, '<', "&lt;");
      if c == '<' {
        ChainTail(r2, 2);
      } else {
        var r3 := Replace(r2, '>', "&gt;");
        ReplaceOne(c, '>', "&gt;");
        if c == '>' {
          ChainTail(r3, 3);
        } else {
          ReplaceOne(c, '\n', "<br>");
        }
      }
    }
  }

  /** The replacements after the first `k` leave a text without their
      characters alone. */
  lemma {:induction false} ChainTail(e: string, k: int)
    requires 1 <= k <= 3
    requires k <= 1 ==> '<' !in e
    requires k <= 2 ==> '>' !in e
    requires '\n' !in e
    ensures k == 1 ==> Replace(Replace(Replace(e, '<', "&lt;"), '>', "&gt;"), '\n', "<br>") == e
    ensures k == 2 ==> Replace(Replace(e, '>', "&gt;"), '\n', "<br>") == e
    ensures k == 3 ==> Replace(e, '\n', "<br>") == e
  {
  }

  /** The four chained replacements escape each character independently. */
  lemma {:induction false} EscapeHtmlEach(s: string)
    ensures EscapeHtml(s) == EscapeEach(s)
  {
    if s != [] {
      assert s == [s[0]] + s[1..];
      EscapeHtmlConcat([s[0]], s[1..]);
      EscapeHtmlChar(s[0]);
      EscapeHtmlEach(s[1..]);
    } else {
      assert EscapeHtml(s) == [];
    }
  }

  lemma {:induction false} UnescapeStep(c: char, rest: string)
    ensures Unescape(EscChar(c) + rest) == [c] + Unescape(rest)
  {
    var o := EscChar(c) + rest;
    if c == '&' {
      assert o[..5] == "&amp;" && o[5..] == rest;
    } else if c == '<' {
      assert o[..4] == "&lt;" && o[4..] == rest;
      assert !StartsWith(o, "&amp;") by { assert o[1] != "&amp;"[1]; }
    } else if c == '>' {
      assert o[..4] == "&gt;" && o[4..] == rest;
      assert !StartsWith(o, "&amp;") by { assert o[1] != "&amp;"[1]; }
      assert !StartsWith(o, "&lt;") by { assert o[1] != "&lt;"[1]; }
    } else if c == '\n' {
      assert o[..4] == "<br>" && o[4..] == rest;
    } else {
      assert o[0] == c && o[1..] == rest;
    }
  }

  lemma {:induction false} UnescapeEach(s: string)
    ensures Unescape(EscapeEach(s)) == s
  {
    if s != [] {
      UnescapeStep(s[0], EscapeEach(s[1..]));
      UnescapeEach(s[1..]);
    }
  }

  /** No information is lost: the escaped text reads back to the original.
      This rests on `&` being replaced first; replaced last, it would turn
      the `&lt;` produced for `<` into `&amp;lt;`. */
  lemma {:induction false} EscapeRoundTrip(s: string)
    ensures Unescape(EscapeHtml(s)) == s
  {
    EscapeHtmlEach(s);
    UnescapeEach(s);
  }

  lemma {:induction false} AnglesConcat(a: string, b: string)
    requires AnglesOnlyInBreaks(a) && AnglesOnlyInBreaks(b)
    ensures AnglesOnlyInBreaks(a + b)
  {
    var o := a + b;
    forall i | 0 <= i < |o| && o[i] == '<' ensures i + 4 <= |o| && o[i..i + 4] == "<br>" {
      if i < |a| {
        assert a[i] == '<';
        assert o[i..i + 4] == a[i..i + 4];
      } else {
        assert b[i - |a|] == '<';
        assert o[i..i + 4] == b[i - |a|..i - |a| + 4];
      }
    }
    forall i | 0 <= i < |o| && o[i] == '>' ensures 3 <= i && o[i - 3..i + 1] == "<br>" {
      if i < |a| {
        assert a[i] == '>';
        assert o[i - 3..i + 1] == a[i - 3..i + 1];
      } else {
        assert b[i - |a|] == '>';
        assert o[i - 3..i + 1] == b[i - |a| - 3..i - |a| + 1];
      }
    }
  }

  lemma {:induction false} EscCharShape(c: char)
    ensures '\n' !in EscChar(c)
    ensures AnglesOnlyInBreaks(EscChar(c))
  {
    var e := EscChar(c);
    if c == '\n' {
      BreakShape();
    } else {
      assert '<' !in e && '>' !in e && '\n' !in e;
      NoAngles(e);
    }
  }

  lemma {:induction false} NoAngles(e: string)
    requires '<' !in e && '>' !in e
    ensures AnglesOnlyInBreaks(e)
  {
  }

  lemma {:induction false} BreakShape()
    ensures '\n' !in "<br>"
    ensures AnglesOnlyInBreaks("<br>")
  {
    var e := "<br>";
    assert forall i :: 0 <= i < |e| && e[i] == '<' ==> i == 0;
    assert forall i :: 0 <= i < |e| && e[i] == '>' ==> i == 3;
  }

  lemma {:induction false} EscapeEachShape(s: string)
    ensures '\n' !in EscapeEach(s)
    ensures AnglesOnlyInBreaks(EscapeEach(s))
  {
    if s != [] {
      EscCharShape(s[0]);
      EscapeEachShape(s[1..]);
      AnglesConcat(EscChar(s[0]), EscapeEach(s[1..]));
    }
  }

  /** The escaped text has no line break left, and every angle bracket in it
      belongs to an inserted `<br>`, so the text cannot open or close a tag. */
  lemma {:induction false} EscapeHtmlShape(s: string)
    ensures '\n' !in EscapeHtml(s)
    ensures AnglesOnlyInBreaks(EscapeHtml(s))
  {
    EscapeHtmlEach(s);
    EscapeEachShape(s);
  }
}
