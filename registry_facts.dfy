/**
 * What registration, `get`, `verify_scheme` and `populate_bindmap` promise, proved about the
 * functions of module `Registry` (and so about the methods of `SchemeRegistry`, which agree
 * with them).
 */
module RegistryFacts {
  import opened Wrappers
  import opened Toml
  import opened Configs
  import opened Registry

  // ---------------------------------------------------------------- store evolution

  lemma EvolvesTrans(a: Store, b: Store, c: Store)
    requires Evolves(a, b) && Evolves(b, c)
    ensures Evolves(a, c)
  {
  }

  /** Writing the bindings of scheme `i` back: only the map that was passed in, which
      contains the scheme's earlier bindings, replaces them. */
  lemma SetBindingsEvolves(st: Store, st': Store, i: nat, m: map<string, string>)
    requires i < |st| && Evolves(st, st') && st[i].bindings.Keys <= m.Keys
    ensures Evolves(st, SetBindings(st', i, m))
    ensures StoreInv(st') ==> StoreInv(SetBindings(st', i, m))
  {
    var st1 := SetBindings(st', i, m);
    if StoreInv(st') {
      forall j | 0 <= j < |st1|
        ensures SchemeInv(st1[j])
      {
        assert SchemeInv(st'[j]);
      }
    }
  }

  /** Adding the remap of an entry of the scheme's `remaps` table. */
  lemma SetRemapEvolves(st: Store, i: nat, rt: Entries, k: nat, m: map<string, string>)
    requires i < |st| && k < |rt| && SubTable(st[i].table, "remaps") == Some(rt)
    ensures Evolves(st, SetRemap(st, i, rt[k].0, m))
    ensures StoreInv(st) ==> StoreInv(SetRemap(st, i, rt[k].0, m))
    ensures rt[k].0 in SetRemap(st, i, rt[k].0, m)[i].remaps
  {
    var st2 := SetRemap(st, i, rt[k].0, m);
    assert rt[k].0 in KeysFrom(rt, 0);
    if StoreInv(st) {
      forall j | 0 <= j < |st2|
        ensures SchemeInv(st2[j])
      {
        assert SchemeInv(st[j]);
      }
    }
  }

  /** Adding the function of an entry of the scheme's `functions` table. */
  lemma SetFunctionEvolves(st: Store, i: nat, ft: Entries, k: nat, f: BindFunction)
    requires i < |st| && k < |ft| && SubTable(st[i].table, "functions") == Some(ft)
    ensures Evolves(st, SetFunction(st, i, ft[k].0, f))
    ensures StoreInv(st) ==> StoreInv(SetFunction(st, i, ft[k].0, f))
    ensures ft[k].0 in SetFunction(st, i, ft[k].0, f)[i].functions
  {
    var st2 := SetFunction(st, i, ft[k].0, f);
    assert ft[k].0 in KeysFrom(ft, 0);
    if StoreInv(st) {
      forall j | 0 <= j < |st2|
        ensures SchemeInv(st2[j])
      {
        assert SchemeInv(st[j]);
      }
    }
  }

  /** `get` only lets the store evolve, and keeps the key-set invariant. */
  lemma {:induction false} GetEvolves(st: Store, lookup: Lookup, name: string, fuel: nat)
    requires LookupValid(st, lookup)
    ensures Evolves(st, GetS(st, lookup, name, fuel).store)
    ensures StoreInv(st) ==> StoreInv(GetS(st, lookup, name, fuel).store)
    decreases fuel, 5, 0, 0
  {
    if name in lookup {
      VerifyEvolves(st, lookup, lookup[name], fuel);
    }
  }

  /** Verification never changes a scheme's table, root context or `verified` flag, only adds
      keys to its maps, and only names remaps and functions after entries of its tables. */
  lemma {:induction false} VerifyEvolves(st: Store, lookup: Lookup, i: nat, fuel: nat)
    requires LookupValid(st, lookup) && i < |st|
    ensures Evolves(st, VerifyS(st, lookup, i, fuel).store)
    ensures StoreInv(st) ==> StoreInv(VerifyS(st, lookup, i, fuel).store)
    decreases fuel, 4, 0, 0
  {
    var handle := SchemeHandle(st[i]);
    var bt := AsTable(Get(handle, "bindings"));
    if !st[i].verified && bt.Ok? {
      var p := PopulateS(st, lookup, st[i].bindings, bt.value, 0, fuel);
      PopulateEvolves(st, lookup, st[i].bindings, bt.value, 0, fuel);
      var st1 := SetBindings(p.store, i, p.filled);
      SetBindingsEvolves(st, p.store, i, p.filled);
      var rt := AsTable(Get(handle, "remaps"));
      if p.res.Ok? && rt.Ok? {
        var r := RemapsS(st1, lookup, i, rt.value, 0, fuel);
        assert VerifyS(st, lookup, i, fuel) == AfterRemaps(r, st[i], i);
        RemapsEvolves(st1, lookup, i, rt.value, 0, fuel);
        AfterRemapsEvolves(r, st[i], i);
        EvolvesTrans(st, st1, r.store);
        EvolvesTrans(st, r.store, AfterRemaps(r, st[i], i).store);
      }
    }
  }

  lemma {:induction false} AfterRemapsEvolves(r: Step<()>, s: Scheme, i: nat)
    requires i < |r.store| && r.store[i].table == s.table
    ensures Evolves(r.store, AfterRemaps(r, s, i).store)
    ensures StoreInv(r.store) ==> StoreInv(AfterRemaps(r, s, i).store)
  {
    var ft := AsTable(Get(SchemeHandle(s), "functions"));
    if r.res.Ok? && ft.Ok? {
      FunctionsEvolves(r.store, i, ft.value, 0);
    }
  }

  /** The remaps loop lets the store evolve. */
  lemma {:induction false} RemapsEvolves(st: Store, lookup: Lookup, i: nat, rt: TableHandle, k: nat, fuel: nat)
    requires LookupValid(st, lookup) && i < |st| && k <= |rt.entries|
    requires SubTable(st[i].table, "remaps") == Some(rt.entries)
    ensures Evolves(st, RemapsS(st, lookup, i, rt, k, fuel).store)
    ensures StoreInv(st) ==> StoreInv(RemapsS(st, lookup, i, rt, k, fuel).store)
    decreases fuel, 2, |rt.entries| - k, 0
  {
    if k < |rt.entries| {
      var name := rt.entries[k].0;
      var t := TableOf(ValueHandle(rt.entries[k].1, rt.context.With(name)));
      if t.Ok? {
        var p := PopulateS(st, lookup, map[], t.value, 0, fuel);
        PopulateEvolves(st, lookup, map[], t.value, 0, fuel);
        if p.res.Ok? {
          var st2 := SetRemap(p.store, i, name, p.filled);
          var o := RemapsS(st2, lookup, i, rt, k + 1, fuel);
          assert RemapsS(st, lookup, i, rt, k, fuel) == o;
          SetRemapEvolves(p.store, i, rt.entries, k, p.filled);
          RemapsEvolves(st2, lookup, i, rt, k + 1, fuel);
          EvolvesTrans(p.store, st2, o.store);
          EvolvesTrans(st, p.store, o.store);
        }
      }
    }
  }

  /** On success the remaps loop has left a remap for every entry of the `remaps` table. */
  lemma {:induction false} RemapsCover(st: Store, lookup: Lookup, i: nat, rt: TableHandle, k: nat, fuel: nat)
    requires LookupValid(st, lookup) && i < |st| && k <= |rt.entries|
    requires SubTable(st[i].table, "remaps") == Some(rt.entries)
    ensures RemapsS(st, lookup, i, rt, k, fuel).res.Ok? ==>
              forall q :: k <= q < |rt.entries| ==> rt.entries[q].0 in RemapsS(st, lookup, i, rt, k, fuel).store[i].remaps
    decreases |rt.entries| - k
  {
    if k < |rt.entries| {
      var name := rt.entries[k].0;
      var t := TableOf(ValueHandle(rt.entries[k].1, rt.context.With(name)));
      if t.Ok? {
        var p := PopulateS(st, lookup, map[], t.value, 0, fuel);
        if p.res.Ok? {
          var st2 := SetRemap(p.store, i, name, p.filled);
          var o := RemapsS(st2, lookup, i, rt, k + 1, fuel);
          assert RemapsS(st, lookup, i, rt, k, fuel) == o;
          RemapsEvolves(st2, lookup, i, rt, k + 1, fuel);
          RemapsCover(st2, lookup, i, rt, k + 1, fuel);
          assert SchemeEvolves(st2[i], o.store[i]);
        }
      }
    }
  }

  /** The functions loop lets the store evolve. */
  lemma {:induction false} FunctionsEvolves(st: Store, i: nat, ft: TableHandle, k: nat)
    requires i < |st| && k <= |ft.entries|
    requires SubTable(st[i].table, "functions") == Some(ft.entries)
    ensures Evolves(st, FunctionsS(st, i, ft, k).store)
    ensures StoreInv(st) ==> StoreInv(FunctionsS(st, i, ft, k).store)
    decreases |ft.entries| - k
  {
    if k < |ft.entries| {
      var name := ft.entries[k].0;
      var f := FunctionOf(ValueHandle(ft.entries[k].1, ft.context.With(name)));
      if f.Ok? {
        var st2 := SetFunction(st, i, name, f.value);
        var o := FunctionsS(st2, i, ft, k + 1);
        assert FunctionsS(st, i, ft, k) == o;
        SetFunctionEvolves(st, i, ft.entries, k, f.value);
        FunctionsEvolves(st2, i, ft, k + 1);
        EvolvesTrans(st, st2, o.store);
      }
    }
  }

  /** On success the functions loop has left a function for every entry of the `functions` table. */
  lemma {:induction false} FunctionsCover(st: Store, i: nat, ft: TableHandle, k: nat)
    requires i < |st| && k <= |ft.entries|
    requires SubTable(st[i].table, "functions") == Some(ft.entries)
    ensures FunctionsS(st, i, ft, k).res.Ok? ==>
              forall q :: k <= q < |ft.entries| ==> ft.entries[q].0 in FunctionsS(st, i, ft, k).store[i].functions
    decreases |ft.entries| - k
  {
    if k < |ft.entries| {
      var name := ft.entries[k].0;
      var f := FunctionOf(ValueHandle(ft.entries[k].1, ft.context.With(name)));
      if f.Ok? {
        var st2 := SetFunction(st, i, name, f.value);
        var o := FunctionsS(st2, i, ft, k + 1);
        assert FunctionsS(st, i, ft, k) == o;
        FunctionsEvolves(st2, i, ft, k + 1);
        FunctionsCover(st2, i, ft, k + 1);
        assert SchemeEvolves(st2[i], o.store[i]);
      }
    }
  }

  /** Populating a map lets the store evolve. */
  lemma {:induction false} PopulateEvolves(st: Store, lookup: Lookup, m: map<string, string>, h: TableHandle, k: nat, fuel: nat)
    requires LookupValid(st, lookup) && k <= |h.entries|
    ensures Evolves(st, PopulateS(st, lookup, m, h, k, fuel).store)
    ensures StoreInv(st) ==> StoreInv(PopulateS(st, lookup, m, h, k, fuel).store)
    decreases fuel, 1, |h.entries| - k, 2
  {
    if k < |h.entries| {
      var key := h.entries[k].0;
      var vh := ValueHandle(h.entries[k].1, h.context.With(key));
      if key == "@INCLUDE" {
        var incs := ArrayStringsOf(vh);
        if incs.Ok? {
          var inc := IncludesS(st, lookup, m, h, incs.value, 0, fuel);
          assert PopulateS(st, lookup, m, h, k, fuel) == AfterIncludes(inc, lookup, h, k, fuel);
          IncludesEvolves(st, lookup, m, h, incs.value, 0, fuel);
          AfterIncludesEvolves(inc, lookup, h, k, fuel);
          EvolvesTrans(st, inc.store, AfterIncludes(inc, lookup, h, k, fuel).store);
        }
      } else {
        var s := StringOf(vh);
        if s.Ok? {
          assert PopulateS(st, lookup, m, h, k, fuel) == PopulateS(st, lookup, m[key := s.value], h, k + 1, fuel);
          PopulateEvolves(st, lookup, m[key := s.value], h, k + 1, fuel);
        }
      }
    }
  }

  lemma {:induction false} AfterIncludesEvolves(inc: Fill, lookup: Lookup, h: TableHandle, k: nat, fuel: nat)
    requires LookupValid(inc.store, lookup) && k < |h.entries|
    ensures Evolves(inc.store, AfterIncludes(inc, lookup, h, k, fuel).store)
    ensures StoreInv(inc.store) ==> StoreInv(AfterIncludes(inc, lookup, h, k, fuel).store)
    decreases fuel, 1, |h.entries| - k, 1
  {
    if inc.res.Ok? {
      PopulateEvolves(inc.store, lookup, inc.filled, h, k + 1, fuel);
    }
  }

  lemma {:induction false} IncludesEvolves(st: Store, lookup: Lookup, m: map<string, string>, h: TableHandle, incs: seq<string>, j: nat, fuel: nat)
    requires LookupValid(st, lookup) && j <= |incs|
    ensures Evolves(st, IncludesS(st, lookup, m, h, incs, j, fuel).store)
    ensures StoreInv(st) ==> StoreInv(IncludesS(st, lookup, m, h, incs, j, fuel).store)
    decreases fuel, 0, |incs| - j, 1
  {
    if j < |incs| {
      var p := IncludeS(st, lookup, m, h, incs[j], fuel);
      IncludeEvolves(st, lookup, m, h, incs[j], fuel);
      if p.res.Ok? {
        IncludesEvolves(p.store, lookup, p.filled, h, incs, j + 1, fuel);
        EvolvesTrans(st, p.store, IncludesS(p.store, lookup, p.filled, h, incs, j + 1, fuel).store);
      }
    }
  }

  lemma {:induction false} IncludeEvolves(st: Store, lookup: Lookup, m: map<string, string>, h: TableHandle, inclusion: string, fuel: nat)
    requires LookupValid(st, lookup)
    ensures Evolves(st, IncludeS(st, lookup, m, h, inclusion, fuel).store)
    ensures StoreInv(st) ==> StoreInv(IncludeS(st, lookup, m, h, inclusion, fuel).store)
    decreases fuel, 0, 0, 1
  {
    if fuel > 0 {
      IncludeFueledEvolves(st, lookup, m, h, inclusion, fuel - 1);
    }
  }

  lemma {:induction false} IncludeFueledEvolves(st: Store, lookup: Lookup, m: map<string, string>, h: TableHandle, inclusion: string, fuel: nat)
    requires LookupValid(st, lookup)
    ensures Evolves(st, IncludeS(st, lookup, m, h, inclusion, fuel + 1).store)
    ensures StoreInv(st) ==> StoreInv(IncludeS(st, lookup, m, h, inclusion, fuel + 1).store)
    decreases fuel + 1, 0, 0, 0
  {
    var split := SplitInclusion(inclusion);
    var g := GetS(st, lookup, split.0, fuel);
    GetEvolves(st, lookup, split.0, fuel);
    IncludeFetchedEvolves(g, lookup, m, h, split.0, split.1, fuel);
    EvolvesTrans(st, g.store, IncludeFetched(g, lookup, m, h, split.0, split.1, fuel).store);
  }

  lemma {:induction false} IncludeFetchedEvolves(g: Step<Option<nat>>, lookup: Lookup, m: map<string, string>, h: TableHandle, scheme: string, path: string, fuel: nat)
    requires LookupValid(g.store, lookup)
    requires g.res.Ok? && g.res.value.Some? ==> g.res.value.value < |g.store|
    ensures Evolves(g.store, IncludeFetched(g, lookup, m, h, scheme, path, fuel).store)
    ensures StoreInv(g.store) ==> StoreInv(IncludeFetched(g, lookup, m, h, scheme, path, fuel).store)
    decreases fuel, 3, 0, 0
  {
    if g.res.Ok? && g.res.value.Some? {
      var nb := SelectIncluded(g.store[g.res.value.value], h.context.Branch(), path, h.context.With("@INCLUDE"));
      if nb.Ok? {
        PopulateEvolves(g.store, lookup, m, nb.value, 0, fuel);
      }
    }
  }
}
