/** The two helpers of `src/lib.rs`: `remap` and `get_array_strings`. */
module Lib {
  import opened Wrappers
  import opened Toml

  /** `remap`: applies `remapFunction` to every value of the map. The source rewrites the
      values in place through `iter_mut`; here the map is passed in and the rewritten map
      handed back, and the closure is a function of the value it rewrites. */
  method Remap(original: map<string, string>, remapFunction: string -> string) returns (remapped: map<string, string>)
    ensures remapped.Keys == original.Keys
    ensures |remapped| == |original|
    ensures forall k :: k in original ==> remapped[k] == remapFunction(original[k])
  {
    remapped := original;
    var todo := original.Keys;
    while todo != {}
      invariant todo <= original.Keys && remapped.Keys == original.Keys
      invariant forall k :: k in todo ==> remapped[k] == original[k]
      invariant forall k :: k in original && k !in todo ==> remapped[k] == remapFunction(original[k])
      decreases |todo|
    {
      var k :| k in todo;
      remapped := remapped[k := remapFunction(remapped[k])];
      todo := todo - {k};
    }
  }

  /** `get_array_strings`: the strings of the array under `key`, in array order. A missing key
      or a non-array value is the error of the array lookup; the first element that is not a
      string stops the loop with a wrong-type error at `context.with(key)`. */
  method GetArrayStrings(t: TableHandle, key: string) returns (r: TableResult<seq<string>>)
    ensures r == AsArrayStrings(Toml.Get(t, key))
    ensures r.Ok? <==> IsStringArrayAt(t.entries, key)
    ensures r.Ok? ==> StringArrayAt(t.entries, key, r.value)
    ensures Find(t.entries, key).None? ==> r == Err(TableGetError(t.context.With(key), key, NoKey))
    ensures Find(t.entries, key).Some? && !Find(t.entries, key).value.Arr? ==>
              r == Err(TableGetError(t.context.With(key), key, WrongType(ExpectArray)))
    ensures Find(t.entries, key).Some? && Find(t.entries, key).value.Arr? && r.Err? ==>
              r == Err(TableGetError(t.context.With(key), key, WrongType(ExpectArrayOfStrings)))
  {
    ArrayStringsMeaning(t, key);
    var fetched := Toml.Get(t, key);
    if fetched.Err? {
      return Err(fetched.error);
    }
    var h := fetched.value;
    if !h.value.Arr? {
      return Err(WrongTypeAt(h, ExpectArray));
    }
    var items := h.value.items;
    var o: seq<string> := [];
    for i := 0 to |items|
      invariant |o| == i
      invariant forall j :: 0 <= j < i ==> items[j] == Str(o[j])
    {
      match items[i] {
        case Str(s) =>
          o := o + [s];
        case _ =>
          return Err(TableGetError(t.context.With(key), key, WrongType(ExpectArrayOfStrings)));
      }
    }
    assert StringsOf(items).Some? && |StringsOf(items).value| == |o|;
    assert StringsOf(items).value == o;
    r := Ok(o);
  }
}
