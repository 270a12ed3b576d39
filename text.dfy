/** The string primitives the chat client leans on, with Python's meaning:
    `str.isspace`, `str.strip()`, `str.lower()` and `int(str)`. */
module Text {

  datatype Option<+T> = None | Some(value: T) {
    function GetOr(default: T): T {
      match this
      case Some(v) => v
      case None => default
    }
  }

  /** Python's `str.isspace()`; CPython's `\s` in a str pattern and the
      argument-less `strip()` use the same set of characters. */
  predicate IsSpace(c: char) {
    || ('\t' <= c <= '\r')
    || ('\U{1C}' <= c <= '\U{1F}')
    || c == ' ' || c == '\U{85}' || c == '\U{A0}' || c == '\U{1680}'
    || ('\U{2000}' <= c <= '\U{200A}')
    || c == '\U{2028}' || c == '\U{2029}' || c == '\U{202F}' || c == '\U{205F}' || c == '\U{3000}'
  }

  predicate AllSpace(s: string) {
    forall i :: 0 <= i < |s| ==> IsSpace(s[i])
  }

  /** Neither end of `s` is whitespace (trivially so for the empty string). */
  predicate Trimmed(s: string) {
    s == [] || (!IsSpace(s[0]) && !IsSpace(s[|s| - 1]))
  }

  function TrimLeft(s: string): (r: string)
    ensures |r| <= |s|
    ensures r == [] || !IsSpace(r[0])
  {
    if s != [] && IsSpace(s[0]) then TrimLeft(s[1..]) else s
  }

  function TrimRight(s: string): (r: string)
    ensures |r| <= |s|
    ensures r == [] || !IsSpace(r[|r| - 1])
  {
    if s != [] && IsSpace(s[|s| - 1]) then TrimRight(s[..|s| - 1]) else s
  }

  /** `TrimLeft` drops a whitespace prefix and keeps the rest. */
  lemma {:induction false} TrimLeftShape(s: string)
    ensures TrimLeft(s) == s[|s| - |TrimLeft(s)|..]
    ensures AllSpace(s[..|s| - |TrimLeft(s)|])
  {
    if s != [] && IsSpace(s[0]) {
      TrimLeftShape(s[1..]);
      var k := |s| - |TrimLeft(s)|;
      assert s[1..][k - 1..] == s[k..];
      assert forall i :: 1 <= i < k ==> s[..k][i] == s[1..][..k - 1][i - 1];
    }
  }

  /** `TrimRight` drops a whitespace suffix and keeps the rest. */
  lemma {:induction false} TrimRightShape(s: string)
    ensures TrimRight(s) == s[..|TrimRight(s)|]
    ensures AllSpace(s[|TrimRight(s)|..])
  {
    if s != [] && IsSpace(s[|s| - 1]) {
      var t := s[..|s| - 1];
      TrimRightShape(t);
      var k := |TrimRight(s)|;
      assert t[..k] == s[..k];
      assert forall i :: 0 <= i < |s| - 1 - k ==> s[k..][i] == t[k..][i];
    }
  }

  /** Python's `s.strip()`: drop leading and trailing whitespace. */
  function Strip(s: string): (r: string)
    ensures Trimmed(r)
    ensures |r| <= |s|
  {
    var l := TrimLeft(s);
    var r := TrimRight(l);
    TrimRightShape(l);
    assert r != [] ==> r[0] == l[0];
    r
  }

  /** Only an all-whitespace text strips to nothing. */
  lemma {:induction false} StripEmpty(s: string)
    ensures Strip(s) == [] <==> AllSpace(s)
  {
    var l := TrimLeft(s);
    var r := TrimRight(l);
    TrimLeftShape(s);
    TrimRightShape(l);
    assert l != [] ==> l[0] == s[|s| - |l|];
    assert r != [] ==> r[|r| - 1] == l[|r| - 1];
    assert l == [] ==> s[..|s|] == s;
    assert r == [] ==> l[|r|..] == l;
  }

  lemma {:induction false} TrimLeftPast(p: string, u: string)
    requires AllSpace(p) && (u == [] || !IsSpace(u[0]))
    ensures TrimLeft(p + u) == u
  {
    if p != [] {
      assert (p + u)[1..] == p[1..] + u;
      TrimLeftPast(p[1..], u);
    }
  }

  lemma {:induction false} TrimRightPast(u: string, q: string)
    requires AllSpace(q) && (u == [] || !IsSpace(u[|u| - 1]))
    ensures TrimRight(u + q) == u
  {
    if q != [] {
      assert (u + q)[..|u + q| - 1] == u + q[..|q| - 1];
      TrimRightPast(u, q[..|q| - 1]);
    } else {
      assert u + q == u;
    }
  }

  /** What `strip()` returns is determined by the text between the
      whitespace margins: any text with non-blank ends, padded on either side
      with whitespace, strips back to itself. */
  lemma {:induction false} StripPadded(p: string, t: string, q: string)
    requires AllSpace(p) && AllSpace(q) && Trimmed(t)
    ensures Strip(p + t + q) == t
  {
    if t == [] {
      assert p + t + q == p + q;
      assert AllSpace(p + q) by {
        forall i | 0 <= i < |p + q| ensures IsSpace((p + q)[i]) {
          if i < |p| { assert (p + q)[i] == p[i]; } else { assert (p + q)[i] == q[i - |p|]; }
        }
      }
      StripEmpty(p + q);
    } else {
      assert p + t + q == p + (t + q);
      TrimLeftPast(p, t + q);
      TrimRightPast(t, q);
    }
  }

  lemma {:induction false} AllSpaceConcat(a: string, b: string)
    requires AllSpace(a) && AllSpace(b)
    ensures AllSpace(a + b)
  {
    forall i | 0 <= i < |a + b| ensures IsSpace((a + b)[i]) {
      if i < |a| { assert (a + b)[i] == a[i]; } else { assert (a + b)[i] == b[i - |a|]; }
    }
  }

  lemma {:induction false} StripTrimmed(t: string)
    requires Trimmed(t)
    ensures Strip(t) == t
  {
    assert [] + t + [] == t;
    StripPadded([], t, []);
  }

  /** `a + (b + c)` regrouped; stated once so that proofs need not search for it. */
  lemma {:induction false} Regroup(a: string, b: string, c: string)
    ensures a + (b + c) == a + b + c
  {
  }

  lemma {:induction false} SplitAt(s: string, k: int)
    requires 0 <= k <= |s|
    ensures s == s[..k] + s[k..]
  {
  }

  /** `s` is its stripped text between two whitespace margins. */
  lemma {:induction false} StripParts(s: string) returns (lead: string, trail: string)
    ensures s == lead + Strip(s) + trail
    ensures AllSpace(lead) && AllSpace(trail)
  {
    var l := TrimLeft(s);
    var t := TrimRight(l);
    lead, trail := s[..|s| - |l|], l[|t|..];
    TrimLeftShape(s);
    TrimRightShape(l);
    SplitAt(s, |s| - |l|);
    SplitAt(l, |t|);
    Regroup(lead, t, trail);
  }

  /** Stripping ignores any whitespace added around a text. */
  lemma {:induction false} StripSurrounded(p: string, s: string, q: string)
    requires AllSpace(p) && AllSpace(q)
    ensures Strip(p + s + q) == Strip(s)
  {
    var lead, trail := StripParts(s);
    var t := Strip(s);
    calc {
      p + s + q;
      p + (lead + t + trail) + q;
      { Regroup(p, lead + t, trail); Regroup(p, lead, t); }
      (p + lead) + t + trail + q;
      { Regroup((p + lead) + t, trail, q); }
      (p + lead) + t + (trail + q);
    }
    AllSpaceConcat(p, lead);
    AllSpaceConcat(trail, q);
    StripPadded(p + lead, t, trail + q);
  }

  /** Stripping twice is stripping once. */
  lemma {:induction false} StripIdempotent(s: string)
    ensures Strip(Strip(s)) == Strip(s)
  {
    var t := Strip(s);
    assert [] + t + [] == t;
    StripPadded([], t, []);
  }

  function LowerChar(c: char): char {
    if 'A' <= c <= 'Z' then (c as int + 32) as char else c
  }

  /** `str.lower()` on ASCII letters; every other character is kept. */
  function Lower(s: string): (r: string)
    ensures |r| == |s|
    ensures forall i :: 0 <= i < |s| ==> r[i] == LowerChar(s[i])
  {
    seq(|s|, i requires 0 <= i < |s| => LowerChar(s[i]))
  }

  /** Lower-casing leaves no ASCII capital behind, keeps every other
      character, and so changes nothing the second time. */
  lemma {:induction false} LowerIdempotent(s: string)
    ensures forall i :: 0 <= i < |s| ==> !('A' <= Lower(s)[i] <= 'Z')
    ensures forall i :: 0 <= i < |s| && !('A' <= s[i] <= 'Z') ==> Lower(s)[i] == s[i]
    ensures Lower(Lower(s)) == Lower(s)
  {
    var l := Lower(s);
    forall i | 0 <= i < |s| ensures Lower(l)[i] == l[i] {
      assert !('A' <= l[i] <= 'Z');
    }
  }

  predicate StartsWith(s: string, prefix: string) {
    |prefix| <= |s| && s[..|prefix|] == prefix
  }

  predicate IsDigit(c: char) {
    '0' <= c <= '9'
  }

  function DigitValue(c: char): (d: nat)
    requires IsDigit(c)
    ensures d < 10
  {
    c as int - '0' as int
  }

  function DigitChar(d: nat): (c: char)
    requires d < 10
    ensures IsDigit(c) && DigitValue(c) == d
  {
    ('0' as int + d) as char
  }

  /** The body of a decimal literal that `int()` accepts: ASCII digits,
      single underscores allowed between two digits. */
  predicate DigitGroups(b: string) {
    && |b| > 0
    && IsDigit(b[0]) && IsDigit(b[|b| - 1])
    && (forall i :: 0 <= i < |b| ==> IsDigit(b[i]) || b[i] == '_')
    && (forall i :: 0 <= i < |b| - 1 ==> !DoubleUnderscore(b, i))
  }

  predicate DoubleUnderscore(b: string, i: int)
    requires 0 <= i < |b| - 1
  {
    b[i] == '_' && b[i + 1] == '_'
  }

  /** The number written by `b`, underscores ignored. */
  function DigitsValue(b: string): nat
    requires forall i :: 0 <= i < |b| ==> IsDigit(b[i]) || b[i] == '_'
  {
    if b == [] then 0
    else if b[|b| - 1] == '_' then DigitsValue(b[..|b| - 1])
    else DigitsValue(b[..|b| - 1]) * 10 + DigitValue(b[|b| - 1])
  }

  /** Python's `int(s)` in base 10: `None` where it raises ValueError.
      The text is stripped first; `int()` skips a slightly narrower set of
      whitespace, which does not matter here since every caller passes an
      already stripped text. */
  function ParseInt(s: string): (r: Option<int>)
    ensures r.Some? ==> Strip(s) != []
    ensures r.Some? ==> forall i :: 0 < i < |Strip(s)| ==> IsDigit(Strip(s)[i]) || Strip(s)[i] == '_'
    ensures r.Some? && r.value < 0 ==> Strip(s)[0] == '-'
  {
    ParseLiteral(Strip(s))
  }

  /** An optional sign followed by digit groups, nothing else. */
  function ParseLiteral(t: string): (r: Option<int>)
    ensures r.Some? ==> t != []
    ensures r.Some? ==> forall i :: 0 < i < |t| ==> IsDigit(t[i]) || t[i] == '_'
    ensures r.Some? && r.value < 0 ==> t[0] == '-'
  {
    if t == [] then None
    else if t[0] == '-' || t[0] == '+' then
      var b := t[1..];
      if DigitGroups(b) then
        var v: int := DigitsValue(b);
        Some(if t[0] == '-' then -v else v)
      else None
    else if DigitGroups(t) then Some(DigitsValue(t))
    else None
  }

  /** `str(n)` for a natural number. */
  function ShowNat(n: nat): (r: string)
    ensures |r| > 0
  {
    if n < 10 then [DigitChar(n)] else ShowNat(n / 10) + [DigitChar(n % 10)]
  }

  /** `str(n)`: the decimal text Python prints for an integer. */
  function Show(n: int): string {
    if n < 0 then "-" + ShowNat(-n) else ShowNat(n)
  }

  lemma {:induction false} ShowNatValue(n: nat)
    ensures forall i :: 0 <= i < |ShowNat(n)| ==> IsDigit(ShowNat(n)[i])
    ensures DigitsValue(ShowNat(n)) == n
  {
    if n >= 10 {
      ShowNatValue(n / 10);
      var s := ShowNat(n);
      assert s[..|s| - 1] == ShowNat(n / 10);
    }
  }

  /** `int(str(n)) == n`: every integer the client prints parses back. */
  lemma {:induction false} ParseShow(n: int)
    ensures ParseInt(Show(n)) == Some(n)
  {
    var m: nat := if n < 0 then -n else n;
    var ds := ShowNat(m);
    ShowNatValue(m);
    assert DigitGroups(ds);
    var s := Show(n);
    StripShow(n);
    if n < 0 {
      assert s[1..] == ds;
    }
  }

  /** `str(n)` starts with a digit or a minus sign, never with whitespace. */
  lemma {:induction false} ShowTrimmed(n: int)
    ensures TrimLeft(Show(n)) == Show(n)
  {
    var m: nat := if n < 0 then -n else n;
    ShowNatValue(m);
    var s := Show(n);
    assert !IsSpace(s[0]);
  }

  lemma {:induction false} StripShow(n: int)
    ensures Strip(Show(n)) == Show(n)
  {
    var m: nat := if n < 0 then -n else n;
    ShowNatValue(m);
    var s := Show(n);
    assert !IsSpace(s[0]) && !IsSpace(s[|s| - 1]);
    assert [] + s + [] == s;
    StripPadded([], s, []);
  }
}
