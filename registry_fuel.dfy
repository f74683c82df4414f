/**
 * Fuel only cuts runs short. No operation of the registry catches an error, so a result at
 * fuel `f` that is not the depth error `InclusionTooDeep` never reached the bound, and the
 * same call with more fuel gives the same result, the same filled map and the same store.
 * The fuel-bounded functions therefore agree with the unbounded source on every run that
 * ends in the source.
 */
module RegistryFuel {
  import opened Wrappers
  import opened Toml
  import opened Configs
  import opened Registry

  /** The result was cut short by the depth bound. */
  predicate TooDeep<T>(r: Result<T, ConfigError>) {
    r.Err? && r.error.InclusionTooDeep?
  }

  lemma {:induction false} GetMoreFuel(st: Store, lookup: Lookup, name: string, fuel: nat)
    requires LookupValid(st, lookup)
    ensures !TooDeep(GetS(st, lookup, name, fuel).res) ==> GetS(st, lookup, name, fuel + 1) == GetS(st, lookup, name, fuel)
    decreases fuel, 5, 0, 0
  {
    if name in lookup {
      VerifyMoreFuel(st, lookup, lookup[name], fuel);
    }
  }

  lemma {:induction false} VerifyMoreFuel(st: Store, lookup: Lookup, i: nat, fuel: nat)
    requires LookupValid(st, lookup) && i < |st|
    ensures !TooDeep(VerifyS(st, lookup, i, fuel).res) ==> VerifyS(st, lookup, i, fuel + 1) == VerifyS(st, lookup, i, fuel)
    decreases fuel, 4, 0, 0
  {
    var handle := SchemeHandle(st[i]);
    var bt := AsTable(Get(handle, "bindings"));
    if !st[i].verified && bt.Ok? {
      var p := PopulateS(st, lookup, st[i].bindings, bt.value, 0, fuel);
      PopulateMoreFuel(st, lookup, st[i].bindings, bt.value, 0, fuel);
      var st1 := SetBindings(p.store, i, p.filled);
      var rt := AsTable(Get(handle, "remaps"));
      if p.res.Ok? && rt.Ok? {
        var r := RemapsS(st1, lookup, i, rt.value, 0, fuel);
        assert VerifyS(st, lookup, i, fuel) == AfterRemaps(r, st[i], i);
        RemapsMoreFuel(st1, lookup, i, rt.value, 0, fuel);
        if !TooDeep(r.res) {
          assert VerifyS(st, lookup, i, fuel + 1) == AfterRemaps(r, st[i], i);
        }
      }
    }
  }

  lemma {:induction false} RemapsMoreFuel(st: Store, lookup: Lookup, i: nat, rt: TableHandle, k: nat, fuel: nat)
    requires LookupValid(st, lookup) && i < |st| && k <= |rt.entries|
    requires SubTable(st[i].table, "remaps") == Some(rt.entries)
    ensures !TooDeep(RemapsS(st, lookup, i, rt, k, fuel).res) ==> RemapsS(st, lookup, i, rt, k, fuel + 1) == RemapsS(st, lookup, i, rt, k, fuel)
    decreases fuel, 2, |rt.entries| - k, 0
  {
    if k < |rt.entries| {
      var name := rt.entries[k].0;
      var t := TableOf(ValueHandle(rt.entries[k].1, rt.context.With(name)));
      if t.Ok? {
        var p := PopulateS(st, lookup, map[], t.value, 0, fuel);
        PopulateMoreFuel(st, lookup, map[], t.value, 0, fuel);
        if p.res.Ok? {
          var st2 := SetRemap(p.store, i, name, p.filled);
          assert RemapsS(st, lookup, i, rt, k, fuel) == RemapsS(st2, lookup, i, rt, k + 1, fuel);
          assert RemapsS(st, lookup, i, rt, k, fuel + 1) == RemapsS(st2, lookup, i, rt, k + 1, fuel + 1);
          RemapsMoreFuel(st2, lookup, i, rt, k + 1, fuel);
        }
      }
    }
  }

  lemma {:induction false} PopulateMoreFuel(st: Store, lookup: Lookup, m: map<string, string>, h: TableHandle, k: nat, fuel: nat)
    requires LookupValid(st, lookup) && k <= |h.entries|
    ensures !TooDeep(PopulateS(st, lookup, m, h, k, fuel).res) ==> PopulateS(st, lookup, m, h, k, fuel + 1) == PopulateS(st, lookup, m, h, k, fuel)
    decreases fuel, 1, |h.entries| - k, 2
  {
    if k < |h.entries| {
      var key := h.entries[k].0;
      var vh := ValueHandle(h.entries[k].1, h.context.With(key));
      if key == "@INCLUDE" {
        var incs := ArrayStringsOf(vh);
        if incs.Ok? {
          var inc := IncludesS(st, lookup, m, h, incs.value, 0, fuel);
          assert PopulateS(st, lookup, m, h, k, fuel) == AfterIncludes(inc, lookup, h, k, fuel);
          IncludesMoreFuel(st, lookup, m, h, incs.value, 0, fuel);
          if inc.res.Ok? {
            assert PopulateS(st, lookup, m, h, k, fuel + 1) == AfterIncludes(inc, lookup, h, k, fuel + 1);
            PopulateMoreFuel(inc.store, lookup, inc.filled, h, k + 1, fuel);
          }
        }
      } else {
        var s := StringOf(vh);
        if s.Ok? {
          assert PopulateS(st, lookup, m, h, k, fuel) == PopulateS(st, lookup, m[key := s.value], h, k + 1, fuel);
          assert PopulateS(st, lookup, m, h, k, fuel + 1) == PopulateS(st, lookup, m[key := s.value], h, k + 1, fuel + 1);
          PopulateMoreFuel(st, lookup, m[key := s.value], h, k + 1, fuel);
        }
      }
    }
  }

  lemma {:induction false} IncludesMoreFuel(st: Store, lookup: Lookup, m: map<string, string>, h: TableHandle, incs: seq<string>, j: nat, fuel: nat)
    requires LookupValid(st, lookup) && j <= |incs|
    ensures !TooDeep(IncludesS(st, lookup, m, h, incs, j, fuel).res) ==> IncludesS(st, lookup, m, h, incs, j, fuel + 1) == IncludesS(st, lookup, m, h, incs, j, fuel)
    decreases fuel, 0, |incs| - j, 1
  {
    if j < |incs| {
      var p := IncludeS(st, lookup, m, h, incs[j], fuel);
      IncludeMoreFuel(st, lookup, m, h, incs[j], fuel);
      if p.res.Ok? {
        IncludesMoreFuel(p.store, lookup, p.filled, h, incs, j + 1, fuel);
      }
    }
  }

  lemma {:induction false} IncludeMoreFuel(st: Store, lookup: Lookup, m: map<string, string>, h: TableHandle, inclusion: string, fuel: nat)
    requires LookupValid(st, lookup)
    ensures !TooDeep(IncludeS(st, lookup, m, h, inclusion, fuel).res) ==> IncludeS(st, lookup, m, h, inclusion, fuel + 1) == IncludeS(st, lookup, m, h, inclusion, fuel)
    decreases fuel, 0, 0, 1
  {
    if fuel > 0 {
      IncludeFueledMoreFuel(st, lookup, m, h, inclusion, fuel - 1);
    }
  }

  lemma {:induction false} IncludeFueledMoreFuel(st: Store, lookup: Lookup, m: map<string, string>, h: TableHandle, inclusion: string, fuel: nat)
    requires LookupValid(st, lookup)
    ensures !TooDeep(IncludeS(st, lookup, m, h, inclusion, fuel + 1).res) ==>
              IncludeS(st, lookup, m, h, inclusion, fuel + 2) == IncludeS(st, lookup, m, h, inclusion, fuel + 1)
    decreases fuel + 1, 0, 0, 0
  {
    var split := SplitInclusion(inclusion);
    var g := GetS(st, lookup, split.0, fuel);
    GetMoreFuel(st, lookup, split.0, fuel);
    IncludeFetchedMoreFuel(g, lookup, m, h, split.0, split.1, fuel);
  }

  lemma {:induction false} IncludeFetchedMoreFuel(g: Step<Option<nat>>, lookup: Lookup, m: map<string, string>, h: TableHandle, scheme: string, path: string, fuel: nat)
    requires LookupValid(g.store, lookup)
    requires g.res.Ok? && g.res.value.Some? ==> g.res.value.value < |g.store|
    ensures !TooDeep(IncludeFetched(g, lookup, m, h, scheme, path, fuel).res) ==>
              IncludeFetched(g, lookup, m, h, scheme, path, fuel + 1) == IncludeFetched(g, lookup, m, h, scheme, path, fuel)
    decreases fuel, 3, 0, 0
  {
    if g.res.Ok? && g.res.value.Some? {
      var nb := SelectIncluded(g.store[g.res.value.value], h.context.Branch(), path, h.context.With("@INCLUDE"));
      if nb.Ok? {
        PopulateMoreFuel(g.store, lookup, m, nb.value, 0, fuel);
      }
    }
  }

  /** A `get` that is not cut short at fuel `f` gives the same result and store at every
      larger fuel. */
  lemma {:induction false} GetFuelStable(st: Store, lookup: Lookup, name: string, f: nat, f': nat)
    requires LookupValid(st, lookup) && f <= f'
    requires !TooDeep(GetS(st, lookup, name, f).res)
    ensures GetS(st, lookup, name, f') == GetS(st, lookup, name, f)
    decreases f' - f
  {
    if f < f' {
      GetMoreFuel(st, lookup, name, f);
      GetFuelStable(st, lookup, name, f + 1, f');
    }
  }

  /** The same for populating a table. */
  lemma {:induction false} PopulateFuelStable(st: Store, lookup: Lookup, m: map<string, string>, h: TableHandle, k: nat, f: nat, f': nat)
    requires LookupValid(st, lookup) && k <= |h.entries| && f <= f'
    requires !TooDeep(PopulateS(st, lookup, m, h, k, f).res)
    ensures PopulateS(st, lookup, m, h, k, f') == PopulateS(st, lookup, m, h, k, f)
    decreases f' - f
  {
    if f < f' {
      PopulateMoreFuel(st, lookup, m, h, k, f);
      PopulateFuelStable(st, lookup, m, h, k, f + 1, f');
    }
  }
}
