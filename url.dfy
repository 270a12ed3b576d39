/** The endpoint URL check both front-ends apply: the pattern
    `^https?://\S+` used with `re.match`. */
module Url {
  import opened Text

  // ---- The URL pattern, as the regular-expression engine reads it ----

  datatype Atom = Char(c: char) | NonSpace

  /** A pattern piece: an atom once, at most once (`?`), or one or more times (`+`). */
  datatype Piece = Once(a: Atom) | Optional(a: Atom) | OneOrMore(a: Atom)

  predicate AtomAccepts(a: Atom, c: char) {
    match a
    case Char(x) => c == x
    case NonSpace => !IsSpace(c)
  }

  /** `re.match(pattern, s)` succeeds: some prefix of `s` matches the pieces.
      The pattern has no `$`, so whatever follows that prefix is ignored. */
  predicate MatchesPrefix(ps: seq<Piece>, s: string)
    decreases |ps|, |s|
  {
    if ps == [] then true
    else match ps[0]
      case Once(a) =>
        |s| > 0 && AtomAccepts(a, s[0]) && MatchesPrefix(ps[1..], s[1..])
      case Optional(a) =>
        (|s| > 0 && AtomAccepts(a, s[0]) && MatchesPrefix(ps[1..], s[1..])) || MatchesPrefix(ps[1..], s)
      case OneOrMore(a) =>
        |s| > 0 && AtomAccepts(a, s[0]) && (MatchesPrefix(ps[1..], s[1..]) || MatchesPrefix(ps, s[1..]))
  }

  /** `^https?://\S+`, built piece by piece: `Rest(k)` is the pattern
      without its first `k` pieces. */
  const Rest8: seq<Piece> := [OneOrMore(NonSpace)]
  const Rest7: seq<Piece> := [Once(Char('/'))] + Rest8
  const Rest6: seq<Piece> := [Once(Char('/'))] + Rest7
  const Rest5: seq<Piece> := [Once(Char(':'))] + Rest6
  const Rest4: seq<Piece> := [Optional(Char('s'))] + Rest5
  const Rest3: seq<Piece> := [Once(Char('p'))] + Rest4
  const Rest2: seq<Piece> := [Once(Char('t'))] + Rest3
  const Rest1: seq<Piece> := [Once(Char('t'))] + Rest2
  const UrlRegex: seq<Piece> := [Once(Char('h'))] + Rest1

  /** The desktop dialog's check, on the already stripped URL. */
  predicate UrlPattern(t: string) {
    MatchesPrefix(UrlRegex, t)
  }

  /** `validate_url`: the terminal strips before matching. */
  predicate ValidateUrl(url: string) {
    UrlPattern(Strip(url))
  }

  /** `http://` or `https://` immediately followed by a non-whitespace character. */
  predicate SchemeThenText(t: string, scheme: string) {
    StartsWith(t, scheme) && |t| > |scheme| && !IsSpace(t[|scheme|])
  }

  lemma {:induction false} OneOrMoreTail(t: string)
    ensures MatchesPrefix(Rest8, t) <==> |t| > 0 && !IsSpace(t[0])
  {
    assert Rest8[1..] == [];
  }

  lemma {:induction false} OnceStep(a: Atom, ps: seq<Piece>, t: string)
    ensures MatchesPrefix([Once(a)] + ps, t) <==> |t| > 0 && AtomAccepts(a, t[0]) && MatchesPrefix(ps, t[1..])
  {
    assert ([Once(a)] + ps)[1..] == ps;
  }

  lemma {:induction false} OptionalStep(a: Atom, ps: seq<Piece>, t: string)
    ensures MatchesPrefix([Optional(a)] + ps, t) <==>
      (|t| > 0 && AtomAccepts(a, t[0]) && MatchesPrefix(ps, t[1..])) || MatchesPrefix(ps, t)
  {
    assert ([Optional(a)] + ps)[1..] == ps;
  }

  /** The tail `://\S+` of the pattern. */
  lemma {:induction false} UrlTail(t: string)
    ensures MatchesPrefix(Rest5, t) <==> SchemeThenText(t, "://")
  {
    OnceStep(Char(':'), Rest6, t);
    if |t| >= 1 {
      OnceStep(Char('/'), Rest7, t[1..]);
      if |t| >= 2 {
        assert t[1..][1..] == t[2..];
        OnceStep(Char('/'), Rest8, t[2..]);
        if |t| >= 3 {
          assert t[2..][1..] == t[3..];
          OneOrMoreTail(t[3..]);
          assert t[..3] == [t[0], t[1], t[2]];
        }
      }
    }
  }

  /** The pattern holds exactly when the text starts with `http://` or
      `https://` and one non-whitespace character; the rest is unconstrained. */
  lemma {:induction false} UrlPatternIff(t: string)
    ensures UrlPattern(t) <==> SchemeThenText(t, "http://") || SchemeThenText(t, "https://")
  {
    if |t| >= 4 && t[..4] == "http" {
      var r := t[4..];
      UrlHead(t);
      UrlOptionalS(r);
      SchemeSplit(t, "http", "://");
      SchemeSplit(t, "http", "s://");
    } else {
      assert !SchemeThenText(t, "http://") && !SchemeThenText(t, "https://") by {
        if |t| >= 4 { assert "http://"[..4] == "http" && "https://"[..4] == "http"; }
      }
      UrlNoHead(t);
    }
  }

  /** After a literal `http` the pattern continues with `s?://\S+`. */
  lemma {:induction false} UrlHead(t: string)
    requires |t| >= 4 && t[..4] == "http"
    ensures UrlPattern(t) <==> MatchesPrefix(Rest4, t[4..])
  {
    assert t[0] == 'h' && t[1] == 't' && t[2] == 't' && t[3] == 'p';
    OnceStep(Char('h'), Rest1, t);
    OnceStep(Char('t'), Rest2, t[1..]);
    OnceStep(Char('t'), Rest3, t[2..]);
    OnceStep(Char('p'), Rest4, t[3..]);
    assert t[1..][1..] == t[2..] && t[2..][1..] == t[3..] && t[3..][1..] == t[4..];
  }

  /** A text not starting with `http` never matches. */
  lemma {:induction false} UrlNoHead(t: string)
    requires !(|t| >= 4 && t[..4] == "http")
    ensures !UrlPattern(t)
  {
    OnceStep(Char('h'), Rest1, t);
    if |t| >= 1 && t[0] == 'h' {
      OnceStep(Char('t'), Rest2, t[1..]);
      if |t| >= 2 && t[1] == 't' {
        assert t[1..][1..] == t[2..];
        OnceStep(Char('t'), Rest3, t[2..]);
        if |t| >= 3 && t[2] == 't' {
          assert t[2..][1..] == t[3..];
          OnceStep(Char('p'), Rest4, t[3..]);
          assert |t| < 4 || t[3] != 'p' by {
            if |t| >= 4 { assert t[..4] == [t[0], t[1], t[2], t[3]]; }
          }
        }
      }
    }
  }

  /** The optional `s` followed by the tail `://\S+`. */
  lemma {:induction false} UrlOptionalS(r: string)
    ensures MatchesPrefix(Rest4, r) <==> SchemeThenText(r, "://") || SchemeThenText(r, "s://")
  {
    OptionalStep(Char('s'), Rest5, r);
    UrlTail(r);
    if |r| > 0 && r[0] == 's' {
      UrlTail(r[1..]);
      SchemeSplit(r, "s", "://");
    } else {
      assert !StartsWith(r, "s://");
    }
  }

  lemma {:induction false} SchemeSplit(t: string, a: string, b: string)
    requires StartsWith(t, a)
    ensures SchemeThenText(t, a + b) <==> SchemeThenText(t[|a|..], b)
  {
    var r := t[|a|..];
    if |t| >= |a| + |b| {
      assert t[..|a + b|] == a + r[..|b|];
    }
    if |t| > |a| + |b| {
      assert t[|a + b|] == r[|b|];
    }
  }

  /** No end anchor: text after a matching URL never spoils the match. */
  lemma {:induction false} UrlPatternExtends(t: string, more: string)
    requires UrlPattern(t)
    ensures UrlPattern(t + more)
  {
    UrlPatternIff(t);
    UrlPatternIff(t + more);
    var u := t + more;
    if SchemeThenText(t, "http://") {
      assert u[..7] == t[..7] && u[7] == t[7];
    } else {
      assert u[..8] == t[..8] && u[8] == t[8];
    }
  }
}
