/** The provider list with its current-index cursor, shared by the terminal
    and the desktop front-ends: one `ApiConfig` per endpoint, the list
    `apis` in display order and the 0-based `current_api_index`. */
module Config {
  import opened Text

  /** One endpoint: the six keys of an entry in the `apis` list. */
  datatype ApiConfig = ApiConfig(
    name: string,
    baseUrl: string,
    apiKey: string,
    model: string,
    maxTokens: int,
    stream: bool)

  const DefaultModel: string := "deepseek/deepseek-v3/community"
  const DefaultMaxTokens: int := 1024

  /** Stands for the literal key the built-in entry ships with. */
  const PlaceholderKey: string := "sk_placeholder"

  /** The built-in entry used when there is no configuration file. */
  const DefaultApi: ApiConfig :=
    ApiConfig("默认 API", "https://api.ppinfra.com/", PlaceholderKey, DefaultModel, DefaultMaxTokens, true)

  /** The provider list and the cursor. The cursor is a plain integer, as in
      the source: nothing forces it into range. */
  datatype Store = Store(apis: seq<ApiConfig>, current: int)

  /** The invariant the mutators keep: a non-empty list and a cursor inside it. */
  predicate Valid(s: Store) {
    |s.apis| > 0 && 0 <= s.current < |s.apis|
  }

  /** What the loader finds: no file, a file that cannot be read or parsed
      into a JSON object, or an object whose `apis` and `current_api_index`
      keys may each be missing. */
  datatype Document =
    | Absent
    | Unreadable
    | Parsed(apis: Option<seq<ApiConfig>>, currentIndex: Option<int>)

  function DefaultStore(): (r: Store)
    ensures Valid(r) && r.apis == [DefaultApi] && r.current == 0
  {
    Store([DefaultApi], 0)
  }

  /** `load_config`: every failure degrades to the built-in entry; a parsed
      object supplies each key with its own default, and neither value is
      checked. */
  function Load(doc: Document): Store {
    match doc
    case Parsed(apis, currentIndex) => Store(apis.GetOr([DefaultApi]), currentIndex.GetOr(0))
    case _ => DefaultStore()
  }

  /** Appending selects the new entry. */
  function Add(s: Store, c: ApiConfig): Store {
    Store(s.apis + [c], |s.apis|)
  }

  /** Slot assignment `apis[index] = ...`. */
  function Replace(s: Store, i: int, c: ApiConfig): Store
    requires 0 <= i < |s.apis|
  {
    Store(s.apis[i := c], s.current)
  }

  /** `del apis[index]` followed by the cursor clamp. */
  function Remove(s: Store, i: int): Store
    requires 0 <= i < |s.apis|
  {
    var cur := if s.current >= i then (if s.current - 1 > 0 then s.current - 1 else 0) else s.current;
    Store(s.apis[..i] + s.apis[i + 1..], cur)
  }

  /** Deleting as both front-ends do it: an index out of range, a last
      remaining entry or a declined confirmation leave the store alone. */
  function RemoveChecked(s: Store, i: int, confirmed: bool): Store {
    if i < 0 || i >= |s.apis| then s
    else if |s.apis| <= 1 then s
    else if !confirmed then s
    else Remove(s, i)
  }

  /** Switching: only an index inside the list moves the cursor. */
  function SelectChecked(s: Store, i: int): Store {
    if 0 <= i < |s.apis| then Store(s.apis, i) else s
  }

  /** `apis[current_api_index]` with Python's indexing: a negative index
      counts from the end, anything else out of range raises IndexError
      (`None` here). */
  function Selected(s: Store): (r: Option<ApiConfig>)
    ensures r.Some? <==> -|s.apis| <= s.current < |s.apis|
    ensures r.Some? ==> r.value in s.apis
    ensures 0 <= s.current < |s.apis| ==> r == Some(s.apis[s.current])
    ensures s.current < 0 && r.Some? ==> r == Some(s.apis[|s.apis| + s.current])
  {
    if 0 <= s.current < |s.apis| then Some(s.apis[s.current])
    else if -|s.apis| <= s.current < 0 then Some(s.apis[|s.apis| + s.current])
    else None
  }

  // ---- Loading ----

  /** A missing or broken file yields the single built-in entry, selected. */
  lemma LoadFallback(doc: Document)
    requires !doc.Parsed?
    ensures Load(doc) == Store([DefaultApi], 0) && Valid(Load(doc))
  {
  }

  /** Each key of a parsed document falls back on its own. */
  lemma LoadKeys(l: seq<ApiConfig>, k: int)
    ensures Load(Parsed(Some(l), None)) == Store(l, 0)
    ensures Load(Parsed(None, Some(k))) == Store([DefaultApi], k)
    ensures Load(Parsed(Some(l), Some(k))) == Store(l, k)
    ensures Load(Parsed(None, None)) == Store([DefaultApi], 0)
  {
  }

  /** Loading does not establish the invariant: an empty list or a cursor
      past the end is taken as it is. */
  lemma LoadUnchecked()
    ensures !Valid(Load(Parsed(Some([]), None)))
    ensures !Valid(Load(Parsed(None, Some(1))))
    ensures Selected(Load(Parsed(None, Some(1)))).None?
  {
  }

  // ---- The mutators keep the invariant ----

  /** Adding selects the new entry and keeps the old ones in place; it makes
      the store valid whatever state it was in. */
  lemma AddSelectsNew(s: Store, c: ApiConfig)
    ensures Valid(Add(s, c))
    ensures |Add(s, c).apis| == |s.apis| + 1 && Add(s, c).apis[..|s.apis|] == s.apis
    ensures Add(s, c).apis[Add(s, c).current] == c
  {
  }

  /** Editing touches one slot only, and neither the length nor the cursor. */
  lemma ReplaceOneSlot(s: Store, i: int, c: ApiConfig)
    requires 0 <= i < |s.apis|
    ensures |Replace(s, i, c).apis| == |s.apis| && Replace(s, i, c).current == s.current
    ensures Replace(s, i, c).apis[i] == c
    ensures forall k :: 0 <= k < |s.apis| && k != i ==> Replace(s, i, c).apis[k] == s.apis[k]
    ensures Valid(s) ==> Valid(Replace(s, i, c))
  {
  }

  /** Deleting removes exactly entry `i` and keeps the rest in order. */
  lemma RemoveKeepsOrder(s: Store, i: int)
    requires 0 <= i < |s.apis|
    ensures |Remove(s, i).apis| == |s.apis| - 1
    ensures forall k :: 0 <= k < i ==> Remove(s, i).apis[k] == s.apis[k]
    ensures forall k :: i <= k < |s.apis| - 1 ==> Remove(s, i).apis[k] == s.apis[k + 1]
  {
  }

  /** With two or more entries the clamp keeps the cursor in range, and it
      still denotes the same entry unless that entry was the one deleted. */
  lemma RemoveKeepsCursor(s: Store, i: int)
    requires Valid(s) && |s.apis| >= 2 && 0 <= i < |s.apis|
    ensures Valid(Remove(s, i))
    ensures i != s.current ==> Remove(s, i).apis[Remove(s, i).current] == s.apis[s.current]
    ensures i == s.current ==> Remove(s, i).current == (if i > 0 then i - 1 else 0)
  {
    RemoveKeepsOrder(s, i);
  }

  /** The last remaining entry is never deleted, whatever the index. */
  lemma RemoveCheckedLast(s: Store, i: int, confirmed: bool)
    requires |s.apis| <= 1
    ensures RemoveChecked(s, i, confirmed) == s
  {
  }

  /** Checked deletion keeps the invariant for every index and answer, and
      only a confirmed in-range deletion with a spare entry changes anything. */
  lemma RemoveCheckedValid(s: Store, i: int, confirmed: bool)
    requires Valid(s)
    ensures Valid(RemoveChecked(s, i, confirmed))
    ensures RemoveChecked(s, i, confirmed) != s ==> confirmed && 0 <= i < |s.apis| && |s.apis| >= 2
  {
    if 0 <= i < |s.apis| && |s.apis| >= 2 && confirmed {
      RemoveKeepsCursor(s, i);
    }
  }

  /** Switching moves the cursor to `i` exactly when `i` is in range and
      otherwise changes nothing; the list is never touched. */
  lemma SelectCheckedCursor(s: Store, i: int)
    ensures SelectChecked(s, i).apis == s.apis
    ensures SelectChecked(s, i).current == (if 0 <= i < |s.apis| then i else s.current)
    ensures Valid(s) ==> Valid(SelectChecked(s, i))
  {
  }

  /** On a valid store the selected entry is the one the cursor names. */
  lemma SelectedValid(s: Store)
    requires Valid(s)
    ensures Selected(s) == Some(s.apis[s.current])
  {
  }

  /** Python's negative indexing: a cursor of -1 selects the last entry. */
  lemma SelectedNegative(s: Store)
    requires |s.apis| > 0 && s.current == -1
    ensures Selected(s) == Some(s.apis[|s.apis| - 1])
  {
  }
}
