/** The lenient readers behind the terminal prompts: the yes/no answer,
    "blank keeps the old value" and the `max_tokens` fallback. */
module Prompts {
  import opened Text

  /** `get_yes_no_input`: a blank answer takes the default; otherwise only
      `y`, `yes`, `是` and `确定` (in any letter case) mean yes. */
  predicate AnswerYes(raw: string, defaultYes: bool) {
    var r := Strip(Lower(raw));
    if r == [] then defaultYes else r == "y" || r == "yes" || r == "是" || r == "确定"
  }

  /** `input(...).strip() or old`: a blank answer keeps the old value. */
  function KeepOr(answer: string, previous: string): (r: string)
    ensures AllSpace(answer) ==> r == previous
    ensures !AllSpace(answer) ==> r == Strip(answer) && r != [] && Trimmed(r)
  {
    var a := Strip(answer);
    StripEmpty(answer);
    if a == [] then previous else a
  }

  /** The `max_tokens` reader of both terminal dialogs, on the stripped
      input: blank or not an integer gives the fallback, which is 1024 for a
      new entry and the old value when editing. */
  function TokensOr(input: string, fallback: int): int {
    if input == [] then fallback else ParseInt(input).GetOr(fallback)
  }

  lemma {:induction false} LowerSpace(s: string)
    requires AllSpace(s)
    ensures Lower(s) == s && AllSpace(Lower(s))
  {
    forall i | 0 <= i < |s| ensures Lower(s)[i] == s[i] {
      assert IsSpace(s[i]);
    }
  }

  lemma {:induction false} LowerConcat(a: string, b: string)
    ensures Lower(a + b) == Lower(a) + Lower(b)
  {
  }

  /** Whitespace around an answer does not change its meaning. */
  lemma {:induction false} AnswerPadding(p: string, raw: string, q: string, d: bool)
    requires AllSpace(p) && AllSpace(q)
    ensures AnswerYes(p + raw + q, d) == AnswerYes(raw, d)
  {
    LowerConcat(p + raw, q);
    LowerConcat(p, raw);
    LowerSpace(p);
    LowerSpace(q);
    StripSurrounded(p, Lower(raw), q);
  }

  /** The default decides only blank answers. */
  lemma {:induction false} AnswerDefault(raw: string)
    ensures AllSpace(raw) ==> AnswerYes(raw, true) && !AnswerYes(raw, false)
    ensures !AllSpace(raw) ==> AnswerYes(raw, true) == AnswerYes(raw, false)
  {
    StripEmpty(Lower(raw));
    if AllSpace(raw) {
      LowerSpace(raw);
    } else {
      var i :| 0 <= i < |raw| && !IsSpace(raw[i]);
      assert !IsSpace(Lower(raw)[i]);
    }
  }

  /** Letter case does not matter: an answer reads the same lower-cased. */
  lemma {:induction false} AnswerIgnoresCase(raw: string, d: bool)
    ensures AnswerYes(raw, d) == AnswerYes(Lower(raw), d)
  {
    LowerIdempotent(raw);
  }

  /** `YES` means yes even where the default is no. */
  lemma {:induction false} AnswerUpperCase()
    ensures AnswerYes("YES", false)
  {
    assert Lower("YES") == "yes";
    StripTrimmed("yes");
  }

  /** Any other non-blank answer means no, even where the default is yes. */
  lemma {:induction false} AnswerOther(raw: string, d: bool)
    requires Strip(Lower(raw)) != []
    requires Strip(Lower(raw)) != "y" && Strip(Lower(raw)) != "yes"
    requires Strip(Lower(raw)) != "是" && Strip(Lower(raw)) != "确定"
    ensures !AnswerYes(raw, d)
  {
  }

  /** For instance `no`, whatever the default. */
  lemma {:induction false} AnswerNo(d: bool)
    ensures !AnswerYes("no", d)
  {
    assert Lower("no") == "no";
    StripTrimmed("no");
    AnswerOther("no", d);
  }

  /** A typed number is taken as it is, including zero and negative ones;
      blank or non-numeric input keeps the fallback. */
  lemma {:induction false} TokensOrCases(n: int, fallback: int, junk: string)
    requires junk != [] && ParseInt(junk).None?
    ensures TokensOr(Show(n), fallback) == n
    ensures TokensOr("", fallback) == fallback
    ensures TokensOr(junk, fallback) == fallback
  {
    ParseShow(n);
    assert Show(n) != [] by { if n < 0 { } else { } }
  }
}
