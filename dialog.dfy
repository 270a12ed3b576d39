/** `ApiDialog`, the desktop form for one provider entry: what it shows
    when opened, what it checks when Save is pressed, and the entry it
    hands back. */
module Dialog {
  import opened Text
  import opened Config
  import opened Url

  /** The range of the "max tokens" spin box. */
  const MinTokens: int := 1
  const MaxTokens: int := 16000

  /** A spin box holds only values inside its range: setting one outside
      it stores the nearer bound. */
  function Clamp(v: int): (r: int)
    ensures MinTokens <= r <= MaxTokens
    ensures MinTokens <= v <= MaxTokens ==> r == v
    ensures v < MinTokens ==> r == MinTokens
    ensures v > MaxTokens ==> r == MaxTokens
  {
    if v < MinTokens then MinTokens else if v > MaxTokens then MaxTokens else v
  }

  /** The widgets' contents: four line edits, the spin box and the check box. */
  datatype Form = Form(
    name: string,
    url: string,
    key: string,
    model: string,
    maxTokens: int,
    stream: bool)

  predicate InRange(f: Form) {
    MinTokens <= f.maxTokens <= MaxTokens
  }

  /** `init_ui`: an empty form for a new entry (model, token count and
      stream flag taking the built-in entry's values), or the entry being
      edited. */
  function Open(data: Option<ApiConfig>): (f: Form)
    ensures InRange(f)
  {
    match data
    case None => Form("", "", "", DefaultModel, Clamp(DefaultMaxTokens), true)
    case Some(c) => Form(c.name, c.baseUrl, c.apiKey, c.model, Clamp(c.maxTokens), c.stream)
  }

  /** What pressing Save leads to: the first failing check, in the order
      `accept` makes them, or acceptance. */
  datatype Verdict = Accept | NameMissing | UrlMissing | KeyMissing | UrlMalformed

  /** `ApiDialog.accept`: the checks look at the stripped texts. */
  function Check(f: Form): Verdict {
    if Strip(f.name) == [] then NameMissing
    else if Strip(f.url) == [] then UrlMissing
    else if Strip(f.key) == [] then KeyMissing
    else if !UrlPattern(Strip(f.url)) then UrlMalformed
    else Accept
  }

  /** `get_api_data`: the texts as typed, not stripped. */
  function Data(f: Form): (c: ApiConfig)
    ensures c.name == f.name && c.baseUrl == f.url && c.apiKey == f.key && c.model == f.model
    ensures c.maxTokens == f.maxTokens && c.stream == f.stream
  {
    ApiConfig(f.name, f.url, f.key, f.model, f.maxTokens, f.stream)
  }

  /** What the user does while the modal dialog is open: change the widgets
      (the spin box clamps what is typed into it), press Save, or close it
      with Cancel. */
  datatype Action = Type(form: Form) | Save | Cancel

  /** `exec_()` followed by `get_api_data()` on acceptance. A Save whose
      checks fail shows a warning and leaves the dialog open; a dialog the
      actions never close counts as closed without saving. */
  function Exec(f: Form, actions: seq<Action>): Option<ApiConfig>
    decreases |actions|
  {
    if actions == [] then None
    else match actions[0]
      case Type(g) => Exec(g.(maxTokens := Clamp(g.maxTokens)), actions[1..])
      case Cancel => None
      case Save => if Check(f) == Accept then Some(Data(f)) else Exec(f, actions[1..])
  }

  /** The entry the dialog accepts, as it must be for `accept` to pass. */
  predicate Acceptable(c: ApiConfig) {
    && Strip(c.name) != []
    && Strip(c.apiKey) != []
    && UrlPattern(Strip(c.baseUrl))
  }

  // ---- Lemmas ----

  /** Save succeeds exactly when the stripped name and key are non-blank
      and the stripped URL matches `^https?://\S+`; a blank URL never
      matches, so its own check only chooses the warning. */
  lemma {:induction false} CheckAccepts(f: Form)
    ensures Check(f) == Accept <==> Acceptable(Data(f))
  {
    if Strip(f.url) == [] {
      UrlPatternIff([]);
    }
  }

  /** The checks run in order: a blank name is reported whatever else is
      wrong, and a malformed URL only when the three fields are present. */
  lemma {:induction false} CheckOrder(f: Form)
    ensures Strip(f.name) == [] ==> Check(f) == NameMissing
    ensures Check(f) == UrlMalformed <==>
      Strip(f.name) != [] && Strip(f.url) != [] && Strip(f.key) != [] && !UrlPattern(Strip(f.url))
  {
  }

  /** Whatever the user does, an accepted entry passed the checks and its
      token count lies in the spin box's range. */
  lemma {:induction false} ExecAccepted(f: Form, actions: seq<Action>)
    requires InRange(f)
    requires Exec(f, actions).Some?
    ensures Acceptable(Exec(f, actions).value)
    ensures MinTokens <= Exec(f, actions).value.maxTokens <= MaxTokens
    decreases |actions|
  {
    match actions[0]
    case Type(g) =>
      ExecAccepted(g.(maxTokens := Clamp(g.maxTokens)), actions[1..]);
    case Cancel =>
    case Save =>
      CheckAccepts(f);
      if Check(f) != Accept {
        ExecAccepted(f, actions[1..]);
      }
  }

  /** Opening an entry and saving it untouched changes nothing but a token
      count outside the spin box's range, which comes back clamped; the
      texts keep any whitespace around them. */
  lemma {:induction false} OpenSaveRoundTrip(c: ApiConfig, rest: seq<Action>)
    requires Acceptable(c)
    ensures Exec(Open(Some(c)), [Save] + rest) == Some(c.(maxTokens := Clamp(c.maxTokens)))
  {
    var f := Open(Some(c));
    assert Data(f) == c.(maxTokens := Clamp(c.maxTokens));
    CheckAccepts(f);
    SaveFirst(f, rest);
  }

  /** Save closes the dialog with the form's data exactly when the checks
      pass; otherwise the form stays as it was, for the user to correct. */
  lemma {:induction false} SaveFirst(f: Form, rest: seq<Action>)
    ensures Exec(f, [Save] + rest) == if Check(f) == Accept then Some(Data(f)) else Exec(f, rest)
  {
    assert ([Save] + rest)[0] == Save && ([Save] + rest)[1..] == rest;
  }

  /** Cancel discards whatever was typed. */
  lemma {:induction false} CancelDiscards(f: Form, g: Form, rest: seq<Action>)
    ensures Exec(f, [Type(g), Cancel] + rest).None?
  {
    var acts := [Type(g), Cancel] + rest;
    assert acts[1..][0] == Cancel;
  }
}
