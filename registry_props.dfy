/**
 * The outcomes `get`, `verify_scheme` and `populate_bindmap` promise: which inputs fail,
 * what a success has filled in, and how an `@INCLUDE` entry is resolved.
 */
module RegistryProps {
  import opened Wrappers
  import opened Toml
  import opened Configs
  import opened Registry
  import opened RegistryFacts

  // ---------------------------------------------------------------- shapes of accepted tables

  /** An entry `populate_bindmap` accepts: `@INCLUDE` holds an array of strings, any other
      key a string. */
  ghost predicate BindingEntryShape(key: string, v: Value) {
    if key == "@INCLUDE" then v.Arr? && forall x :: 0 <= x < |v.items| ==> v.items[x].Str?
    else v.Str?
  }

  ghost predicate BindingTableShape(es: Entries) {
    forall q :: 0 <= q < |es| ==> BindingEntryShape(es[q].0, es[q].1)
  }

  /** An entry of a `functions` table that `verify_scheme` accepts. */
  ghost predicate FunctionShape(v: Value) {
    && v.Tab?
    && Find(v.entries, "shell").Some? && Find(v.entries, "shell").value.Str?
    && Find(v.entries, "command").Some? && Find(v.entries, "command").value.Str?
  }

  // ---------------------------------------------------------------- populate_bindmap

  /** A successful `populate_bindmap` accepted every entry from `k` on, and every plain key
      among them is in the filled map. */
  lemma {:induction false} PopulateOk(st: Store, lookup: Lookup, m: map<string, string>, h: TableHandle, k: nat, fuel: nat)
    requires LookupValid(st, lookup) && k <= |h.entries|
    ensures var o := PopulateS(st, lookup, m, h, k, fuel);
      o.res.Ok? ==> forall q :: k <= q < |h.entries| ==>
        && BindingEntryShape(h.entries[q].0, h.entries[q].1)
        && (h.entries[q].0 != "@INCLUDE" ==> h.entries[q].0 in o.filled)
    decreases |h.entries| - k
  {
    if k < |h.entries| {
      var key := h.entries[k].0;
      var vh := ValueHandle(h.entries[k].1, h.context.With(key));
      var o := PopulateS(st, lookup, m, h, k, fuel);
      if key == "@INCLUDE" {
        var incs := ArrayStringsOf(vh);
        if incs.Ok? {
          var inc := IncludesS(st, lookup, m, h, incs.value, 0, fuel);
          assert o == AfterIncludes(inc, lookup, h, k, fuel);
          if inc.res.Ok? {
            assert o == PopulateS(inc.store, lookup, inc.filled, h, k + 1, fuel);
            PopulateOk(inc.store, lookup, inc.filled, h, k + 1, fuel);
          }
        }
      } else {
        var s := StringOf(vh);
        if s.Ok? {
          assert o == PopulateS(st, lookup, m[key := s.value], h, k + 1, fuel);
          PopulateOk(st, lookup, m[key := s.value], h, k + 1, fuel);
        }
      }
    }
  }

  /** A table without `@INCLUDE` entries is populated by plain inserts: the store is left as
      it is, the call succeeds exactly when every entry is a string, and then the filled map
      holds the earlier keys and the table's keys, with earlier values kept where the table
      does not mention the key. */
  lemma {:induction false} PlainPopulate(st: Store, lookup: Lookup, m: map<string, string>, h: TableHandle, k: nat, fuel: nat)
    requires LookupValid(st, lookup) && k <= |h.entries|
    requires forall q :: k <= q < |h.entries| ==> h.entries[q].0 != "@INCLUDE"
    ensures PopulateS(st, lookup, m, h, k, fuel).store == st
    ensures PopulateS(st, lookup, m, h, k, fuel).res.Ok? <==> forall q :: k <= q < |h.entries| ==> h.entries[q].1.Str?
    ensures var o := PopulateS(st, lookup, m, h, k, fuel);
      o.res.Ok? ==> forall key :: key in o.filled <==> key in m || key in KeysFrom(h.entries, k)
    ensures var o := PopulateS(st, lookup, m, h, k, fuel);
      o.res.Ok? ==> forall key :: key in m && key !in KeysFrom(h.entries, k) ==> o.filled[key] == m[key]
    decreases |h.entries| - k
  {
    if k < |h.entries| {
      var key := h.entries[k].0;
      var vh := ValueHandle(h.entries[k].1, h.context.With(key));
      var s := StringOf(vh);
      if s.Ok? {
        var m' := m[key := s.value];
        assert PopulateS(st, lookup, m, h, k, fuel) == PopulateS(st, lookup, m', h, k + 1, fuel);
        PlainPopulate(st, lookup, m', h, k + 1, fuel);
        forall x
          ensures x in KeysFrom(h.entries, k) <==> x == key || x in KeysFrom(h.entries, k + 1)
        {
          if x in KeysFrom(h.entries, k) {
            var q :| k <= q < |h.entries| && h.entries[q].0 == x;
            if q > k {
              assert x in KeysFrom(h.entries, k + 1);
            }
          }
        }
      }
    }
  }

  /** A plain entry `key = v` at position `q` is what the filled map holds for `key` at the
      end, when no later entry has that key and no `@INCLUDE` comes after it. */
  lemma {:induction false} PlainEntrySticks(st: Store, lookup: Lookup, m: map<string, string>, h: TableHandle, k: nat, fuel: nat, q: nat)
    requires LookupValid(st, lookup) && k <= q < |h.entries|
    requires h.entries[q].0 != "@INCLUDE" && h.entries[q].1.Str?
    requires forall r :: q < r < |h.entries| ==> h.entries[r].0 != "@INCLUDE" && h.entries[r].0 != h.entries[q].0
    ensures var o := PopulateS(st, lookup, m, h, k, fuel);
      o.res.Ok? ==> h.entries[q].0 in o.filled && o.filled[h.entries[q].0] == h.entries[q].1.s
    decreases |h.entries| - k
  {
    var key := h.entries[k].0;
    var vh := ValueHandle(h.entries[k].1, h.context.With(key));
    var o := PopulateS(st, lookup, m, h, k, fuel);
    if key == "@INCLUDE" {
      var incs := ArrayStringsOf(vh);
      if incs.Ok? {
        var inc := IncludesS(st, lookup, m, h, incs.value, 0, fuel);
        assert o == AfterIncludes(inc, lookup, h, k, fuel);
        if inc.res.Ok? {
          assert o == PopulateS(inc.store, lookup, inc.filled, h, k + 1, fuel);
          PlainEntrySticks(inc.store, lookup, inc.filled, h, k + 1, fuel, q);
        }
      }
    } else {
      var s := StringOf(vh);
      if s.Ok? {
        var m' := m[key := s.value];
        assert o == PopulateS(st, lookup, m', h, k + 1, fuel);
        if k < q {
          PlainEntrySticks(st, lookup, m', h, k + 1, fuel, q);
        } else {
          PlainPopulate(st, lookup, m', h, k + 1, fuel);
          assert key !in KeysFrom(h.entries, k + 1);
        }
      }
    }
  }

  /** In a table without repeated keys and without `@INCLUDE`, a successful population maps
      every key of the table to its string. */
  lemma PlainTableValues(st: Store, lookup: Lookup, m: map<string, string>, h: TableHandle, fuel: nat)
    requires LookupValid(st, lookup) && DistinctKeys(h.entries)
    requires forall q :: 0 <= q < |h.entries| ==> h.entries[q].0 != "@INCLUDE"
    ensures var o := PopulateS(st, lookup, m, h, 0, fuel);
      o.res.Ok? ==> forall q :: 0 <= q < |h.entries| ==>
        h.entries[q].0 in o.filled && h.entries[q].1 == Str(o.filled[h.entries[q].0])
  {
    var o := PopulateS(st, lookup, m, h, 0, fuel);
    if o.res.Ok? {
      PlainPopulate(st, lookup, m, h, 0, fuel);
      forall q | 0 <= q < |h.entries|
        ensures h.entries[q].0 in o.filled && h.entries[q].1 == Str(o.filled[h.entries[q].0])
      {
        PlainEntrySticks(st, lookup, m, h, 0, fuel, q);
      }
    }
  }

  // ---------------------------------------------------------------- verify_scheme

  /** A successful remaps loop accepted, from entry `k` on, only tables of accepted bindings. */
  lemma {:induction false} RemapsOk(st: Store, lookup: Lookup, i: nat, rt: TableHandle, k: nat, fuel: nat)
    requires LookupValid(st, lookup) && i < |st| && k <= |rt.entries|
    requires SubTable(st[i].table, "remaps") == Some(rt.entries)
    ensures RemapsS(st, lookup, i, rt, k, fuel).res.Ok? ==>
              forall q :: k <= q < |rt.entries| ==> rt.entries[q].1.Tab? && BindingTableShape(rt.entries[q].1.entries)
    decreases |rt.entries| - k
  {
    if k < |rt.entries| {
      var name := rt.entries[k].0;
      var t := TableOf(ValueHandle(rt.entries[k].1, rt.context.With(name)));
      if t.Ok? {
        var p := PopulateS(st, lookup, map[], t.value, 0, fuel);
        if p.res.Ok? {
          PopulateOk(st, lookup, map[], t.value, 0, fuel);
          var st2 := SetRemap(p.store, i, name, p.filled);
          assert RemapsS(st, lookup, i, rt, k, fuel) == RemapsS(st2, lookup, i, rt, k + 1, fuel);
          RemapsOk(st2, lookup, i, rt, k + 1, fuel);
        }
      }
    }
  }

  /** A successful functions loop accepted, from entry `k` on, only well-formed functions. */
  lemma {:induction false} FunctionsOk(st: Store, i: nat, ft: TableHandle, k: nat)
    requires i < |st| && k <= |ft.entries|
    requires SubTable(st[i].table, "functions") == Some(ft.entries)
    ensures FunctionsS(st, i, ft, k).res.Ok? ==> forall q :: k <= q < |ft.entries| ==> FunctionShape(ft.entries[q].1)
    decreases |ft.entries| - k
  {
    if k < |ft.entries| {
      var name := ft.entries[k].0;
      var f := FunctionOf(ValueHandle(ft.entries[k].1, ft.context.With(name)));
      if f.Ok? {
        assert FunctionsS(st, i, ft, k) == FunctionsS(SetFunction(st, i, name, f.value), i, ft, k + 1);
        FunctionsOk(SetFunction(st, i, name, f.value), i, ft, k + 1);
      }
    }
  }

  /** A scheme whose `verified` flag is set is returned as it is. */
  lemma VerifiedUnchanged(st: Store, lookup: Lookup, i: nat, fuel: nat)
    requires LookupValid(st, lookup) && i < |st| && st[i].verified
    ensures VerifyS(st, lookup, i, fuel) == Step(Ok(()), st)
  {
  }

  /** Verification of an unverified scheme succeeds only when its `bindings`, `remaps` and
      `functions` are tables, every binding is accepted, every remap is a table of accepted
      bindings, and every function has a string `shell` and `command`. */
  lemma {:induction false} VerifyOkShapes(st: Store, lookup: Lookup, i: nat, fuel: nat)
    requires LookupValid(st, lookup) && i < |st| && !st[i].verified
    ensures var t := st[i].table;
      VerifyS(st, lookup, i, fuel).res.Ok? ==>
        && SubTable(t, "bindings").Some? && BindingTableShape(SubTable(t, "bindings").value)
        && SubTable(t, "remaps").Some?
        && (forall q :: 0 <= q < |SubTable(t, "remaps").value| ==>
              SubTable(t, "remaps").value[q].1.Tab? && BindingTableShape(SubTable(t, "remaps").value[q].1.entries))
        && SubTable(t, "functions").Some?
        && (forall q :: 0 <= q < |SubTable(t, "functions").value| ==> FunctionShape(SubTable(t, "functions").value[q].1))
  {
    var o := VerifyS(st, lookup, i, fuel);
    var handle := SchemeHandle(st[i]);
    var bt := AsTable(Get(handle, "bindings"));
    if o.res.Ok? {
      assert bt.Ok?;
      var p := PopulateS(st, lookup, st[i].bindings, bt.value, 0, fuel);
      PopulateOk(st, lookup, st[i].bindings, bt.value, 0, fuel);
      var st1 := SetBindings(p.store, i, p.filled);
      var rt := AsTable(Get(handle, "remaps"));
      assert p.res.Ok? && rt.Ok?;
      var r := RemapsS(st1, lookup, i, rt.value, 0, fuel);
      assert o == AfterRemaps(r, st[i], i);
      RemapsOk(st1, lookup, i, rt.value, 0, fuel);
      var ft := AsTable(Get(SchemeHandle(st[i]), "functions"));
      assert r.res.Ok? && ft.Ok?;
      assert o == FunctionsS(r.store, i, ft.value, 0);
      FunctionsOk(r.store, i, ft.value, 0);
    }
  }

  /** After a successful verification of an unverified scheme that kept the key-set invariant,
      its remaps are named exactly after the entries of its `remaps` table, its functions
      exactly after the entries of its `functions` table, and every plain key of its
      `bindings` table is bound. */
  lemma {:induction false} VerifyOkKeys(st: Store, lookup: Lookup, i: nat, fuel: nat)
    requires LookupValid(st, lookup) && i < |st| && !st[i].verified && StoreInv(st)
    ensures var o := VerifyS(st, lookup, i, fuel);
      o.res.Ok? ==>
        && o.store[i].remaps.Keys == TableKeysAt(st[i].table, "remaps")
        && o.store[i].functions.Keys == TableKeysAt(st[i].table, "functions")
        && (forall key :: key in TableKeysAt(st[i].table, "bindings") && key != "@INCLUDE" ==> key in o.store[i].bindings)
  {
    var o := VerifyS(st, lookup, i, fuel);
    var handle := SchemeHandle(st[i]);
    var bt := AsTable(Get(handle, "bindings"));
    if o.res.Ok? {
      VerifyEvolves(st, lookup, i, fuel);
      assert SchemeInv(o.store[i]);
      assert bt.Ok?;
      var p := PopulateS(st, lookup, st[i].bindings, bt.value, 0, fuel);
      PopulateOk(st, lookup, st[i].bindings, bt.value, 0, fuel);
      PopulateEvolves(st, lookup, st[i].bindings, bt.value, 0, fuel);
      var st1 := SetBindings(p.store, i, p.filled);
      var rt := AsTable(Get(handle, "remaps"));
      assert p.res.Ok? && rt.Ok?;
      var r := RemapsS(st1, lookup, i, rt.value, 0, fuel);
      assert o == AfterRemaps(r, st[i], i);
      RemapsCover(st1, lookup, i, rt.value, 0, fuel);
      RemapsEvolves(st1, lookup, i, rt.value, 0, fuel);
      var ft := AsTable(Get(SchemeHandle(st[i]), "functions"));
      assert r.res.Ok? && ft.Ok?;
      assert o == FunctionsS(r.store, i, ft.value, 0);
      FunctionsCover(r.store, i, ft.value, 0);
      FunctionsEvolves(r.store, i, ft.value, 0);
      assert SchemeEvolves(st1[i], r.store[i]) && SchemeEvolves(r.store[i], o.store[i]);
    }
  }

  // ---------------------------------------------------------------- get

  /** `get` of an unknown name is `Ok(None)` and touches nothing; of a known name it is the
      scheme's index exactly when its verification succeeds, and the verification's error
      otherwise. */
  lemma GetMeaning(st: Store, lookup: Lookup, name: string, fuel: nat)
    requires LookupValid(st, lookup)
    ensures name !in lookup ==> GetS(st, lookup, name, fuel) == Step(Ok(None), st)
    ensures GetS(st, lookup, name, fuel).res == Ok(None) <==> name !in lookup
    ensures name in lookup ==>
              var v := VerifyS(st, lookup, lookup[name], fuel);
              && GetS(st, lookup, name, fuel).store == v.store
              && (v.res.Ok? ==> GetS(st, lookup, name, fuel).res == Ok(Some(lookup[name])))
              && (v.res.Err? ==> GetS(st, lookup, name, fuel).res == Err(v.res.error))
  {
  }

  /** `get` never sets or clears a `verified` flag. */
  lemma VerifiedFlagsKept(st: Store, lookup: Lookup, name: string, fuel: nat)
    requires LookupValid(st, lookup)
    ensures var st' := GetS(st, lookup, name, fuel).store;
      |st'| == |st| && forall j :: 0 <= j < |st| ==> st'[j].verified == st[j].verified
  {
    GetEvolves(st, lookup, name, fuel);
    var st' := GetS(st, lookup, name, fuel).store;
    forall j | 0 <= j < |st|
      ensures st'[j].verified == st[j].verified
    {
      assert SchemeEvolves(st[j], st'[j]);
    }
  }

  /** The store registration builds satisfies the key-set invariant (its maps are empty). */
  lemma RegisteredStoreInv(dir: string, files: seq<SourceFile>)
    ensures StoreInv(Register(dir, files).0)
    ensures forall j :: 0 <= j < |Register(dir, files).0| ==> !Register(dir, files).0[j].verified
  {
    RegisterKeepsTables(dir, files);
  }

  // ---------------------------------------------------------------- @INCLUDE

  /** Out of fuel, an inclusion is the model's depth error and changes nothing. */
  lemma IncludeOutOfFuel(st: Store, lookup: Lookup, m: map<string, string>, h: TableHandle, inclusion: string)
    requires LookupValid(st, lookup)
    ensures IncludeS(st, lookup, m, h, inclusion, 0) == Fill(Err(InclusionTooDeep(h.context.With("@INCLUDE"))), m, st)
  {
  }

  /** One inclusion `<scheme>.<path>`: an unknown scheme is a `Misc` error naming it; an error
      while fetching the scheme is passed on; a missing table at the including table's branch,
      or under a non-empty path, is a `TableRefExpect` error at the `@INCLUDE` key; otherwise
      the selected table is populated into the same map. */
  lemma IncludeMeaning(st: Store, lookup: Lookup, m: map<string, string>, h: TableHandle, inclusion: string, fuel: nat)
    requires LookupValid(st, lookup)
    ensures var scheme := SplitInclusion(inclusion).0;
      var o := IncludeS(st, lookup, m, h, inclusion, fuel + 1);
      scheme !in lookup ==> o == Fill(Err(Misc(UnrecognizedScheme(scheme, h.context.With("@INCLUDE")))), m, st)
    ensures var scheme := SplitInclusion(inclusion).0;
      var g := GetS(st, lookup, scheme, fuel);
      var o := IncludeS(st, lookup, m, h, inclusion, fuel + 1);
      g.res.Err? ==> o == Fill(Err(g.res.error), m, g.store)
    ensures var (scheme, path) := SplitInclusion(inclusion);
      var g := GetS(st, lookup, scheme, fuel);
      var o := IncludeS(st, lookup, m, h, inclusion, fuel + 1);
      scheme in lookup && g.res.Ok? ==>
        var s := g.store[lookup[scheme]];
        var sel := SelectIncluded(s, h.context.Branch(), path, h.context.With("@INCLUDE"));
        && (SubTable(s.table, h.context.Branch()).None? ==> o.res.Err? && o.res.error.TableRefExpect? && o.res.error.context == h.context.With("@INCLUDE"))
        && (sel.Err? ==> o == Fill(Err(sel.error), m, g.store))
        && (sel.Ok? ==> o == PopulateS(g.store, lookup, m, sel.value, 0, fuel))
  {
  }

  /** An inclusion `<scheme>.<path>` with a non-empty path inside a table fetched under
      `bindings` never resolves while the included scheme is unverified (and no scheme is ever
      marked verified): verifying that scheme demands that every entry of its `bindings`
      table, other than `@INCLUDE`, be a string, so its `bindings` has no sub-table to select. */
  lemma {:induction false} BindingsSubPathFails(st: Store, lookup: Lookup, m: map<string, string>, h: TableHandle, inclusion: string, fuel: nat)
    requires LookupValid(st, lookup)
    requires SplitInclusion(inclusion).0 in lookup && SplitInclusion(inclusion).1 != ""
    requires !st[lookup[SplitInclusion(inclusion).0]].verified
    requires h.context.Branch() == "bindings"
    ensures IncludeS(st, lookup, m, h, inclusion, fuel).res.Err?
  {
    if fuel > 0 {
      BindingsSubPathFailsFueled(st, lookup, m, h, inclusion, fuel - 1);
    }
  }

  lemma {:induction false} BindingsSubPathFailsFueled(st: Store, lookup: Lookup, m: map<string, string>, h: TableHandle, inclusion: string, fuel: nat)
    requires LookupValid(st, lookup)
    requires SplitInclusion(inclusion).0 in lookup && SplitInclusion(inclusion).1 != ""
    requires !st[lookup[SplitInclusion(inclusion).0]].verified
    requires h.context.Branch() == "bindings"
    ensures IncludeS(st, lookup, m, h, inclusion, fuel + 1).res.Err?
  {
    var split := SplitInclusion(inclusion);
    var idx := lookup[split.0];
    var g := GetS(st, lookup, split.0, fuel);
    IncludeMeaning(st, lookup, m, h, inclusion, fuel);
    if g.res.Ok? {
      assert VerifyS(st, lookup, idx, fuel).res.Ok?;
      VerifyOkShapes(st, lookup, idx, fuel);
      var bes := SubTable(st[idx].table, "bindings").value;
      assert g.store[idx].table == st[idx].table;
    }
  }

  /** A failure while populating the bindings makes verification fail. */
  lemma BindingsErrVerifyErr(st: Store, lookup: Lookup, i: nat, bt: TableHandle, fuel: nat)
    requires LookupValid(st, lookup) && i < |st| && !st[i].verified
    requires AsTable(Get(SchemeHandle(st[i]), "bindings")) == Ok(bt)
    requires PopulateS(st, lookup, st[i].bindings, bt, 0, fuel).res.Err?
    ensures VerifyS(st, lookup, i, fuel).res.Err?
  {
  }

  /** The inclusions of one `@INCLUDE` entry stop at the first that fails: its error, its
      partly filled map and its store are the outcome of the whole entry. */
  lemma IncludesStopAtErr(st: Store, lookup: Lookup, m: map<string, string>, h: TableHandle, incs: seq<string>, j: nat, fuel: nat)
    requires LookupValid(st, lookup) && j < |incs|
    requires IncludeS(st, lookup, m, h, incs[j], fuel).res.Err?
    ensures IncludesS(st, lookup, m, h, incs, j, fuel) == IncludeS(st, lookup, m, h, incs[j], fuel)
  {
  }

  /** An `@INCLUDE` entry at any position `k` whose inclusions fail makes the population of
      the table fail there: the inclusions' error, map and store are its outcome, and the
      entries after `k` are not looked at. */
  lemma IncludeEntryErr(st: Store, lookup: Lookup, m: map<string, string>, h: TableHandle, k: nat, incs: seq<string>, fuel: nat)
    requires LookupValid(st, lookup) && k < |h.entries| && h.entries[k].0 == "@INCLUDE"
    requires ArrayStringsOf(ValueHandle(h.entries[k].1, h.context.With("@INCLUDE"))) == Ok(incs)
    requires IncludesS(st, lookup, m, h, incs, 0, fuel).res.Err?
    ensures PopulateS(st, lookup, m, h, k, fuel) == IncludesS(st, lookup, m, h, incs, 0, fuel)
  {
  }

  /** An `@INCLUDE` array holding one string is read as that one inclusion. */
  lemma SingleInclusionArray(ctx: Context, inclusion: string)
    ensures ArrayStringsOf(ValueHandle(Arr([Str(inclusion)]), ctx)) == Ok([inclusion])
  {
    var ss := StringsOf([Str(inclusion)]);
    assert ss.Some? && |ss.value| == 1 && Str(ss.value[0]) == Str(inclusion);
    assert ss.value == [inclusion];
  }

  /** A `bindings` table whose first entry is an `@INCLUDE` of one sub-path inclusion into an
      unverified scheme fails to populate. */
  lemma SubPathEntryFails(st: Store, lookup: Lookup, m: map<string, string>, h: TableHandle, inclusion: string, fuel: nat)
    requires LookupValid(st, lookup) && |h.entries| > 0 && h.entries[0] == ("@INCLUDE", Arr([Str(inclusion)]))
    requires SplitInclusion(inclusion).0 in lookup && SplitInclusion(inclusion).1 != ""
    requires !st[lookup[SplitInclusion(inclusion).0]].verified
    requires h.context.Branch() == "bindings"
    ensures PopulateS(st, lookup, m, h, 0, fuel).res.Err?
  {
    BindingsSubPathFails(st, lookup, m, h, inclusion, fuel);
    SingleInclusionArray(h.context.With("@INCLUDE"), inclusion);
    IncludesStopAtErr(st, lookup, m, h, [inclusion], 0, fuel);
    IncludeEntryErr(st, lookup, m, h, 0, [inclusion], fuel);
  }

  /** Scheme `A`, whose bindings include `B.sub`. */
  function ExampleA(): Scheme {
    ConstructUnverified(
      [("axbind_scheme", Str("A")), ("bindings", Tab([("@INCLUDE", Arr([Str("B.sub")]))])),
       ("remaps", Tab([])), ("functions", Tab([]))], "schemes/A")
  }

  /** Scheme `B`, whose bindings hold a table `sub`. */
  function ExampleB(): Scheme {
    ConstructUnverified(
      [("axbind_scheme", Str("B")), ("bindings", Tab([("sub", Tab([("x", Str("y"))]))])),
       ("remaps", Tab([])), ("functions", Tab([]))], "schemes/B")
  }

  /** The `bindings` table of `A` as verification fetches it. */
  function ExampleBindings(): TableHandle {
    TableHandle([("@INCLUDE", Arr([Str("B.sub")]))], SchemeHandle(ExampleA()).context.With("bindings"))
  }

  lemma ExampleFacts()
    ensures SplitInclusion("B.sub") == ("B", "sub")
    ensures AsTable(Get(SchemeHandle(ExampleA()), "bindings")) == Ok(ExampleBindings())
    ensures ExampleBindings().context.Branch() == "bindings"
  {
    assert "B.sub" == "B" + "." + "sub";
    SplitInclusionUnique("B", "sub");
  }

  /** With `A` and `B` registered, fetching `A` fails, whatever the fuel: `A`'s inclusion of
      `B.sub` needs a table `sub` in `B`'s bindings, which verifying `B` rejects. */
  lemma SubTableInclusionExample(fuel: nat)
    ensures GetS([ExampleA(), ExampleB()], map["A" := 0, "B" := 1], "A", fuel).res.Err?
  {
    var st := [ExampleA(), ExampleB()];
    var lookup := map["A" := 0, "B" := 1];
    ExampleFacts();
    SubPathEntryFails(st, lookup, map[], ExampleBindings(), "B.sub", fuel);
    BindingsErrVerifyErr(st, lookup, 0, ExampleBindings(), fuel);
    GetMeaning(st, lookup, "A", fuel);
  }
}
