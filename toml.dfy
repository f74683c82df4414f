/**
 * Parsed TOML as the configuration layer sees it, and the typed key lookups it performs
 * on it (the observable behaviour of `TableHandle::get`, `extract_value!`,
 * `extract_array_strings` and `.optional()`).
 */
module Toml {
  import opened Wrappers

  /** A parsed TOML value. A table keeps its entries in iteration order; a parsed table never
      repeats a key (see DistinctKeys). Numbers, booleans and dates are all `Other`. */
  datatype Value =
    | Str(s: string)
    | Tab(entries: seq<(string, Value)>)
    | Arr(items: seq<Value>)
    | Other

  type Entries = seq<(string, Value)>

  ghost predicate DistinctKeys(entries: Entries) {
    forall i, j :: 0 <= i < j < |entries| ==> entries[i].0 != entries[j].0
  }

  /** The keys of `entries` from position `k` on. */
  function KeysFrom(entries: Entries, k: nat): set<string> {
    set q | k <= q < |entries| :: entries[q].0
  }

  /** Where a value was found: the origin it was read from and the keys walked from there. */
  datatype Context = Context(root: string, keys: seq<string>) {

    /** `Context::with`: the context one key further down. */
    function With(key: string): Context {
      Context(root, keys + [key])
    }

    /** `context.branch`: the last key this context was fetched under. */
    function Branch(): string {
      if keys == [] then "" else keys[|keys| - 1]
    }
  }

  /** The type a lookup expected when it found something else. */
  datatype Expected = ExpectString | ExpectTable | ExpectArray | ExpectArrayOfStrings

  datatype GetErrKind = NoKey | WrongType(expected: Expected)

  /** `TableGetError`: where the lookup failed, under which key, and why. */
  datatype TableGetError = TableGetError(context: Context, key: string, kind: GetErrKind)

  type TableResult<T> = Result<T, TableGetError>

  /** A table together with the context it was reached through. */
  datatype TableHandle = TableHandle(entries: Entries, context: Context)

  /** A value fetched from a table, with the context of the key it was fetched under. */
  datatype ValueHandle = ValueHandle(value: Value, context: Context)

  /** The value stored under `key`, if any. */
  function Find(entries: Entries, key: string): (r: Option<Value>)
    ensures r.None? <==> forall q :: 0 <= q < |entries| ==> entries[q].0 != key
    ensures r.Some? ==> exists q :: 0 <= q < |entries| && entries[q] == (key, r.value)
    decreases |entries|
  {
    if entries == [] then None
    else if entries[0].0 == key then Some(entries[0].1)
    else
      var r := Find(entries[1..], key);
      assert forall q :: 1 <= q < |entries| ==> entries[q] == entries[1..][q - 1];
      r
  }

  /** In a table without repeated keys, each entry is what a lookup of its key finds. */
  lemma {:induction false} FindDistinct(entries: Entries, q: nat)
    requires DistinctKeys(entries) && q < |entries|
    ensures Find(entries, entries[q].0) == Some(entries[q].1)
    decreases |entries|
  {
    if q > 0 {
      assert entries[0].0 != entries[q].0;
      assert entries[1..][q - 1] == entries[q];
      FindDistinct(entries[1..], q - 1);
    }
  }

  /** The table stored under `key`, if the value there is a table. */
  function SubTable(entries: Entries, key: string): Option<Entries> {
    match Find(entries, key)
    case Some(Tab(es)) => Some(es)
    case _ => None
  }

  /** `TableHandle::get`: the value under `key`, or a missing-key error at `context.with(key)`. */
  function Get(t: TableHandle, key: string): (r: TableResult<ValueHandle>)
    ensures r.Ok? <==> Find(t.entries, key).Some?
    ensures r.Ok? ==> r.value == ValueHandle(Find(t.entries, key).value, t.context.With(key))
    ensures r.Err? ==> r.error == TableGetError(t.context.With(key), key, NoKey)
  {
    match Find(t.entries, key)
    case None => Err(TableGetError(t.context.With(key), key, NoKey))
    case Some(v) => Ok(ValueHandle(v, t.context.With(key)))
  }

  function WrongTypeAt(h: ValueHandle, expected: Expected): TableGetError {
    TableGetError(h.context, h.context.Branch(), WrongType(expected))
  }

  /** `extract_value!(String, ..)` on a fetched value. */
  function StringOf(h: ValueHandle): TableResult<string> {
    if h.value.Str? then Ok(h.value.s) else Err(WrongTypeAt(h, ExpectString))
  }

  /** `extract_value!(Table, ..)` on a fetched value; the table keeps the value's context. */
  function TableOf(h: ValueHandle): TableResult<TableHandle> {
    if h.value.Tab? then Ok(TableHandle(h.value.entries, h.context)) else Err(WrongTypeAt(h, ExpectTable))
  }

  /** The strings of an array, when every element is a string. */
  function StringsOf(items: seq<Value>): (r: Option<seq<string>>)
    ensures r.Some? <==> forall i :: 0 <= i < |items| ==> items[i].Str?
    ensures r.Some? ==> |r.value| == |items| && forall i :: 0 <= i < |items| ==> items[i] == Str(r.value[i])
    decreases |items|
  {
    if items == [] then Some([])
    else if !items[0].Str? then None
    else
      match StringsOf(items[1..])
      case None =>
        assert exists i :: 1 <= i < |items| && !items[i].Str? by {
          var i :| 0 <= i < |items[1..]| && !items[1..][i].Str?;
          assert items[i + 1] == items[1..][i];
        }
        None
      case Some(rest) =>
        var r := [items[0].s] + rest;
        assert forall i :: 1 <= i < |items| ==> items[i] == items[1..][i - 1] && r[i] == rest[i - 1];
        Some(r)
  }

  /** `extract_array_strings` on a fetched value: its elements, if it is an array of strings. */
  function ArrayStringsOf(h: ValueHandle): TableResult<seq<string>> {
    if !h.value.Arr? then Err(WrongTypeAt(h, ExpectArray))
    else
      match StringsOf(h.value.items)
      case None => Err(WrongTypeAt(h, ExpectArrayOfStrings))
      case Some(ss) => Ok(ss)
  }

  /** The same extractions applied to the result of a lookup (a failed lookup passes through). */
  function AsString(r: TableResult<ValueHandle>): TableResult<string> {
    match r
    case Err(e) => Err(e)
    case Ok(h) => StringOf(h)
  }

  function AsTable(r: TableResult<ValueHandle>): TableResult<TableHandle> {
    match r
    case Err(e) => Err(e)
    case Ok(h) => TableOf(h)
  }

  function AsArrayStrings(r: TableResult<ValueHandle>): TableResult<seq<string>> {
    match r
    case Err(e) => Err(e)
    case Ok(h) => ArrayStringsOf(h)
  }

  /** `.optional()`: a missing key becomes `None`; any other error is kept. */
  function Optional<T>(r: TableResult<T>): TableResult<Option<T>> {
    match r
    case Ok(v) => Ok(Some(v))
    case Err(e) => if e.kind == NoKey then Ok(None) else Err(e)
  }

  /** `entries` holds an array of strings under `key`, and `ss` lists them in order. */
  ghost predicate StringArrayAt(entries: Entries, key: string, ss: seq<string>) {
    && Find(entries, key).Some?
    && Find(entries, key).value.Arr?
    && var items := Find(entries, key).value.items;
    && |items| == |ss|
    && forall i :: 0 <= i < |ss| ==> items[i] == Str(ss[i])
  }

  ghost predicate IsStringArrayAt(entries: Entries, key: string) {
    && Find(entries, key).Some?
    && Find(entries, key).value.Arr?
    && forall i :: 0 <= i < |Find(entries, key).value.items| ==> Find(entries, key).value.items[i].Str?
  }

  /** An optional string key is read as absent exactly when the key is missing, and as its
      string exactly when a string is stored there; anything else is a wrong-type error. */
  lemma OptionalStringMeaning(t: TableHandle, key: string)
    ensures Optional(AsString(Get(t, key))) == Ok(None) <==> Find(t.entries, key).None?
    ensures forall s :: Optional(AsString(Get(t, key))) == Ok(Some(s)) <==> Find(t.entries, key) == Some(Str(s))
    ensures Optional(AsString(Get(t, key))).Err? <==> Find(t.entries, key).Some? && !Find(t.entries, key).value.Str?
  {
  }

  /** An array-of-strings lookup succeeds exactly on an array of strings, listing them in order. */
  lemma {:induction false} ArrayStringsMeaning(t: TableHandle, key: string)
    ensures AsArrayStrings(Get(t, key)).Ok? <==> IsStringArrayAt(t.entries, key)
    ensures AsArrayStrings(Get(t, key)).Ok? ==> StringArrayAt(t.entries, key, AsArrayStrings(Get(t, key)).value)
    ensures Find(t.entries, key).None? ==> AsArrayStrings(Get(t, key)) == Err(TableGetError(t.context.With(key), key, NoKey))
  {
  }
}
