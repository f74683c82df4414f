/**
 * Which keys `populate_bindmap` writes into the map it fills. `WrittenP` and its companions
 * follow the population entry by entry, through the `@INCLUDE` entries and the tables they
 * select, and collect every key inserted on the way; the frame lemmas prove that outside
 * that set the filled map is the map passed in, so a binding stays as it was set until a
 * later insert under the same key.
 */
module RegistryFrame {
  import opened Wrappers
  import opened Toml
  import opened Configs
  import opened Registry

  /** `m'` agrees with `m` on every key outside `w`. */
  ghost predicate AgreeOutside(m: map<string, string>, m': map<string, string>, w: set<string>) {
    forall x :: x !in w ==> (x in m' <==> x in m) && (x in m ==> m'[x] == m[x])
  }

  // ---------------------------------------------------------------- written keys

  /** The keys the population of `h` from entry `k` on inserts into `m`. */
  ghost function WrittenP(st: Store, lookup: Lookup, m: map<string, string>, h: TableHandle, k: nat, fuel: nat): set<string>
    requires LookupValid(st, lookup) && k <= |h.entries|
    decreases fuel, 1, |h.entries| - k, 2
  {
    if k == |h.entries| then {}
    else
      var key := h.entries[k].0;
      var vh := ValueHandle(h.entries[k].1, h.context.With(key));
      if key == "@INCLUDE" then
        match ArrayStringsOf(vh)
        case Err(_) => {}
        case Ok(incs) =>
          var inc := IncludesS(st, lookup, m, h, incs, 0, fuel);
          WrittenIs(st, lookup, m, h, incs, 0, fuel)
            + (if inc.res.Err? then {} else WrittenP(inc.store, lookup, inc.filled, h, k + 1, fuel))
      else
        match StringOf(vh)
        case Err(_) => {}
        case Ok(s) => {key} + WrittenP(st, lookup, m[key := s], h, k + 1, fuel)
  }

  /** The keys the inclusions `incs[j..]` of an `@INCLUDE` entry insert into `m`. */
  ghost function WrittenIs(st: Store, lookup: Lookup, m: map<string, string>, h: TableHandle, incs: seq<string>, j: nat, fuel: nat): set<string>
    requires LookupValid(st, lookup) && j <= |incs|
    decreases fuel, 0, |incs| - j, 1
  {
    if j == |incs| then {}
    else
      var p := IncludeS(st, lookup, m, h, incs[j], fuel);
      WrittenI(st, lookup, m, h, incs[j], fuel)
        + (if p.res.Err? then {} else WrittenIs(p.store, lookup, p.filled, h, incs, j + 1, fuel))
  }

  /** The keys one inclusion inserts into `m`: those of the selected table's population. */
  ghost function WrittenI(st: Store, lookup: Lookup, m: map<string, string>, h: TableHandle, inclusion: string, fuel: nat): set<string>
    requires LookupValid(st, lookup)
    decreases fuel, 0, 0, 0
  {
    if fuel == 0 then {}
    else
      var split := SplitInclusion(inclusion);
      WrittenF(GetS(st, lookup, split.0, fuel - 1), lookup, m, h, split.1, fuel - 1)
  }

  ghost function WrittenF(g: Step<Option<nat>>, lookup: Lookup, m: map<string, string>, h: TableHandle, path: string, fuel: nat): set<string>
    requires LookupValid(g.store, lookup)
    requires g.res.Ok? && g.res.value.Some? ==> g.res.value.value < |g.store|
    decreases fuel, 3, 0, 0
  {
    if g.res.Ok? && g.res.value.Some? then
      match SelectIncluded(g.store[g.res.value.value], h.context.Branch(), path, h.context.With("@INCLUDE"))
      case Err(_) => {}
      case Ok(nb) => WrittenP(g.store, lookup, m, nb, 0, fuel)
    else {}
  }

  // ---------------------------------------------------------------- frame lemmas

  /** Outside the keys it writes, a population leaves the map as it was, on success and on
      failure alike. */
  lemma {:induction false} PopulateFrame(st: Store, lookup: Lookup, m: map<string, string>, h: TableHandle, k: nat, fuel: nat)
    requires LookupValid(st, lookup) && k <= |h.entries|
    ensures AgreeOutside(m, PopulateS(st, lookup, m, h, k, fuel).filled, WrittenP(st, lookup, m, h, k, fuel))
    decreases fuel, 1, |h.entries| - k, 2
  {
    if k < |h.entries| {
      var key := h.entries[k].0;
      var vh := ValueHandle(h.entries[k].1, h.context.With(key));
      if key == "@INCLUDE" {
        var incs := ArrayStringsOf(vh);
        if incs.Ok? {
          var inc := IncludesS(st, lookup, m, h, incs.value, 0, fuel);
          assert PopulateS(st, lookup, m, h, k, fuel) == AfterIncludes(inc, lookup, h, k, fuel);
          IncludesFrame(st, lookup, m, h, incs.value, 0, fuel);
          if inc.res.Ok? {
            PopulateFrame(inc.store, lookup, inc.filled, h, k + 1, fuel);
          }
        }
      } else {
        var s := StringOf(vh);
        if s.Ok? {
          assert PopulateS(st, lookup, m, h, k, fuel) == PopulateS(st, lookup, m[key := s.value], h, k + 1, fuel);
          PopulateFrame(st, lookup, m[key := s.value], h, k + 1, fuel);
        }
      }
    }
  }

  lemma {:induction false} IncludesFrame(st: Store, lookup: Lookup, m: map<string, string>, h: TableHandle, incs: seq<string>, j: nat, fuel: nat)
    requires LookupValid(st, lookup) && j <= |incs|
    ensures AgreeOutside(m, IncludesS(st, lookup, m, h, incs, j, fuel).filled, WrittenIs(st, lookup, m, h, incs, j, fuel))
    decreases fuel, 0, |incs| - j, 1
  {
    if j < |incs| {
      var p := IncludeS(st, lookup, m, h, incs[j], fuel);
      IncludeFrame(st, lookup, m, h, incs[j], fuel);
      if p.res.Ok? {
        IncludesFrame(p.store, lookup, p.filled, h, incs, j + 1, fuel);
      }
    }
  }

  lemma {:induction false} IncludeFrame(st: Store, lookup: Lookup, m: map<string, string>, h: TableHandle, inclusion: string, fuel: nat)
    requires LookupValid(st, lookup)
    ensures AgreeOutside(m, IncludeS(st, lookup, m, h, inclusion, fuel).filled, WrittenI(st, lookup, m, h, inclusion, fuel))
    decreases fuel, 0, 0, 1
  {
    if fuel > 0 {
      IncludeFueledFrame(st, lookup, m, h, inclusion, fuel - 1);
    }
  }

  lemma {:induction false} IncludeFueledFrame(st: Store, lookup: Lookup, m: map<string, string>, h: TableHandle, inclusion: string, fuel: nat)
    requires LookupValid(st, lookup)
    ensures AgreeOutside(m, IncludeS(st, lookup, m, h, inclusion, fuel + 1).filled, WrittenI(st, lookup, m, h, inclusion, fuel + 1))
    decreases fuel + 1, 0, 0, 0
  {
    var split := SplitInclusion(inclusion);
    var g := GetS(st, lookup, split.0, fuel);
    IncludeFetchedFrame(g, lookup, m, h, split.0, split.1, fuel);
  }

  lemma {:induction false} IncludeFetchedFrame(g: Step<Option<nat>>, lookup: Lookup, m: map<string, string>, h: TableHandle, scheme: string, path: string, fuel: nat)
    requires LookupValid(g.store, lookup)
    requires g.res.Ok? && g.res.value.Some? ==> g.res.value.value < |g.store|
    ensures AgreeOutside(m, IncludeFetched(g, lookup, m, h, scheme, path, fuel).filled, WrittenF(g, lookup, m, h, path, fuel))
    decreases fuel, 3, 0, 0
  {
    if g.res.Ok? && g.res.value.Some? {
      var nb := SelectIncluded(g.store[g.res.value.value], h.context.Branch(), path, h.context.With("@INCLUDE"));
      if nb.Ok? {
        PopulateFrame(g.store, lookup, m, nb.value, 0, fuel);
      }
    }
  }

  // ---------------------------------------------------------------- consequences

  /** A plain entry `key = v` at position `q` is what the filled map holds for `key` at the
      end, unless the rest of the population (entries after `q`, and whatever their
      `@INCLUDE`s pull in) inserts under `key` again; this holds whether the population
      succeeds or stops at an error. */
  lemma EntrySticks(st: Store, lookup: Lookup, m: map<string, string>, h: TableHandle, q: nat, fuel: nat)
    requires LookupValid(st, lookup) && q < |h.entries|
    requires h.entries[q].0 != "@INCLUDE" && h.entries[q].1.Str?
    requires h.entries[q].0 !in WrittenP(st, lookup, m[h.entries[q].0 := h.entries[q].1.s], h, q + 1, fuel)
    ensures var o := PopulateS(st, lookup, m, h, q, fuel);
      h.entries[q].0 in o.filled && o.filled[h.entries[q].0] == h.entries[q].1.s
  {
    var key := h.entries[q].0;
    var m' := m[key := h.entries[q].1.s];
    assert PopulateS(st, lookup, m, h, q, fuel) == PopulateS(st, lookup, m', h, q + 1, fuel);
    PopulateFrame(st, lookup, m', h, q + 1, fuel);
  }

  /** Without `@INCLUDE` entries the keys written are among the keys of the table. */
  lemma {:induction false} PlainWritten(st: Store, lookup: Lookup, m: map<string, string>, h: TableHandle, k: nat, fuel: nat)
    requires LookupValid(st, lookup) && k <= |h.entries|
    requires forall r :: k <= r < |h.entries| ==> h.entries[r].0 != "@INCLUDE"
    ensures WrittenP(st, lookup, m, h, k, fuel) <= KeysFrom(h.entries, k)
    decreases |h.entries| - k
  {
    if k < |h.entries| {
      var key := h.entries[k].0;
      var s := StringOf(ValueHandle(h.entries[k].1, h.context.With(key)));
      if s.Ok? {
        PlainWritten(st, lookup, m[key := s.value], h, k + 1, fuel);
        forall x | x in KeysFrom(h.entries, k + 1)
          ensures x in KeysFrom(h.entries, k)
        {
          var r :| k + 1 <= r < |h.entries| && h.entries[r].0 == x;
        }
        assert key in KeysFrom(h.entries, k);
      }
    }
  }

  /** An `@INCLUDE` of no inclusions writes nothing: an entry followed by one still sticks. */
  lemma EmptyIncludeWritesNothing(st: Store, lookup: Lookup, m: map<string, string>, key: string, s: string, ctx: Context, fuel: nat)
    requires LookupValid(st, lookup) && key != "@INCLUDE"
    ensures var h := TableHandle([(key, Str(s)), ("@INCLUDE", Arr([]))], ctx);
      var o := PopulateS(st, lookup, m, h, 0, fuel);
      o.res.Ok? && key in o.filled && o.filled[key] == s
  {
    var h := TableHandle([(key, Str(s)), ("@INCLUDE", Arr([]))], ctx);
    assert StringsOf([]) == Some([]);
    assert WrittenP(st, lookup, m[key := s], h, 1, fuel) == {};
    EntrySticks(st, lookup, m, h, 0, fuel);
    var inc := IncludesS(st, lookup, m[key := s], h, [], 0, fuel);
    assert inc == Fill(Ok(()), m[key := s], st);
    assert PopulateS(st, lookup, m[key := s], h, 1, fuel) == AfterIncludes(inc, lookup, h, 1, fuel);
  }
}
