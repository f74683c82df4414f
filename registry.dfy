/**
 * `SchemeRegistry` from `src/configs.rs`: the registration loop of `load_dir`, and `get`,
 * `verify_scheme` and `populate_bindmap`.
 *
 * The registry owns a store of schemes addressed by index (the `Vec<Scheme>` the source keeps
 * raw pointers into) and a name -> index lookup. Verification fills a scheme's `bindings`,
 * `remaps` and `functions` in place; `@INCLUDE` entries make it re-enter `get` for other
 * schemes. The functions ending in `S` state, as functions of the store before the call,
 * what each operation returns and what the store is afterwards; the methods of the class
 * `SchemeRegistry` are the imperative operations and are proved to agree with them.
 *
 * The source has no guard against inclusion cycles (and never sets `verified`), so it can
 * recurse without end; `fuel` bounds the number of nested `@INCLUDE` levels, and reaching the
 * bound is the model-only error `InclusionTooDeep`.
 */
module Registry {
  import opened Wrappers
  import opened Toml
  import opened Configs

  type Store = seq<Scheme>
  type Lookup = map<string, nat>

  ghost predicate LookupValid(st: Store, lookup: Lookup) {
    forall name :: name in lookup ==> lookup[name] < |st|
  }

  /** How verification may change one scheme: its table, root context and `verified` flag
      stay as they are, and its bindings, remaps and functions only gain keys. */
  ghost predicate SchemeEvolves(s: Scheme, s': Scheme) {
    && s'.table == s.table
    && s'.rootContext == s.rootContext
    && s'.verified == s.verified
    && s.bindings.Keys <= s'.bindings.Keys
    && s.remaps.Keys <= s'.remaps.Keys
    && s.functions.Keys <= s'.functions.Keys
  }

  /** The same schemes, each evolved as `SchemeEvolves` allows. */
  ghost predicate Evolves(st: Store, st': Store) {
    |st'| == |st| && forall j :: 0 <= j < |st| ==> SchemeEvolves(st[j], st'[j])
  }

  /** The part of `Evolves` the operations' own contracts carry: same schemes, same tables. */
  ghost predicate SameTables(st: Store, st': Store) {
    |st'| == |st| && forall j :: 0 <= j < |st| ==> st'[j].table == st[j].table
  }

  /** The keys of the sub-table under `key`, or none when there is no such table. */
  function TableKeysAt(table: Entries, key: string): set<string> {
    match SubTable(table, key)
    case Some(es) => KeysFrom(es, 0)
    case None => {}
  }

  /** A scheme's remaps and functions are named after entries of its `remaps` and
      `functions` tables. */
  ghost predicate SchemeInv(s: Scheme) {
    && s.remaps.Keys <= TableKeysAt(s.table, "remaps")
    && s.functions.Keys <= TableKeysAt(s.table, "functions")
  }

  ghost predicate StoreInv(st: Store) {
    forall j :: 0 <= j < |st| ==> SchemeInv(st[j])
  }

  /** The outcome of an operation and the store it leaves behind. */
  datatype Step<T> = Step(res: Result<T, ConfigError>, store: Store)

  /** The outcome of populating a map: the result, the map as filled so far, and the store. */
  datatype Fill = Fill(res: Result<(), ConfigError>, filled: map<string, string>, store: Store)

  function SetBindings(st: Store, i: nat, m: map<string, string>): Store
    requires i < |st|
  {
    st[i := st[i].(bindings := m)]
  }

  function SetRemap(st: Store, i: nat, name: string, m: map<string, string>): Store
    requires i < |st|
  {
    st[i := st[i].(remaps := st[i].remaps[name := m])]
  }

  function SetFunction(st: Store, i: nat, name: string, f: BindFunction): Store
    requires i < |st|
  {
    st[i := st[i].(functions := st[i].functions[name := f])]
  }

  function RefExpect<T>(at: Context, r: TableResult<T>): Result<T, ConfigError> {
    match r
    case Ok(v) => Ok(v)
    case Err(e) => Err(TableRefExpect(at, e))
  }

  /** The table an inclusion `<scheme>.<path>` selects from scheme `s` when the including
      table was fetched under `branch`: `s`'s table under `branch`, narrowed to its sub-table
      `path` when `path` is not empty. A missing or non-table step is `TableRefExpect`. */
  function SelectIncluded(s: Scheme, branch: string, path: string, at: Context): (r: Result<TableHandle, ConfigError>)
    ensures r.Ok? <==>
              SubTable(s.table, branch).Some? && (path != "" ==> SubTable(SubTable(s.table, branch).value, path).Some?)
    ensures r.Ok? && path == "" ==> r.value.entries == SubTable(s.table, branch).value
    ensures r.Ok? && path != "" ==> r.value.entries == SubTable(SubTable(s.table, branch).value, path).value
    ensures r.Err? ==> r.error.TableRefExpect? && r.error.context == at
  {
    var nb :- RefExpect(at, AsTable(Get(SchemeHandle(s), branch)));
    if path == "" then Ok(nb) else RefExpect(at, AsTable(Get(nb, path)))
  }

  /** One entry of a `functions` table: a table with string `shell` and `command`. */
  function FunctionOf(h: ValueHandle): (r: Result<BindFunction, ConfigError>)
    ensures r.Ok? <==>
              && h.value.Tab?
              && Find(h.value.entries, "shell").Some? && Find(h.value.entries, "shell").value.Str?
              && Find(h.value.entries, "command").Some? && Find(h.value.entries, "command").value.Str?
    ensures r.Ok? ==>
              r.value == BindFunction(Find(h.value.entries, "shell").value.s, Find(h.value.entries, "command").value.s)
  {
    // The source extracts the table once per field; the second extraction yields the same table.
    var t :- Lift(TableOf(h));
    var shell :- Lift(AsString(Get(t, "shell")));
    var command :- Lift(AsString(Get(t, "command")));
    Ok(BindFunction(shell, command))
  }

  // ---------------------------------------------------------------- get / verify / populate

  /** `get`: an unknown name is `Ok(None)`; a known one is verified first. */
  function GetS(st: Store, lookup: Lookup, name: string, fuel: nat): (o: Step<Option<nat>>)
    requires LookupValid(st, lookup)
    ensures SameTables(st, o.store)
    ensures o.res.Ok? && o.res.value.Some? ==> name in lookup && o.res.value.value == lookup[name]
    decreases fuel, 5, 0, 0
  {
    if name !in lookup then Step(Ok(None), st)
    else
      var v := VerifyS(st, lookup, lookup[name], fuel);
      match v.res
      case Ok(_) => Step(Ok(Some(lookup[name])), v.store)
      case Err(e) => Step(Err(e), v.store)
  }

  /** `verify_scheme` on scheme `i`. */
  function VerifyS(st: Store, lookup: Lookup, i: nat, fuel: nat): (o: Step<()>)
    requires LookupValid(st, lookup) && i < |st|
    ensures SameTables(st, o.store)
    decreases fuel, 4, 0, 0
  {
    if st[i].verified then Step(Ok(()), st)
    else
      var handle := SchemeHandle(st[i]);
      match AsTable(Get(handle, "bindings"))
      case Err(e) => Step(Err(TableGet(e)), st)
      case Ok(bt) =>
        var p := PopulateS(st, lookup, st[i].bindings, bt, 0, fuel);
        var st1 := SetBindings(p.store, i, p.filled);
        if p.res.Err? then Step(Err(p.res.error), st1)
        else
          match AsTable(Get(handle, "remaps"))
          case Err(e) => Step(Err(TableGet(e)), st1)
          case Ok(rt) => AfterRemaps(RemapsS(st1, lookup, i, rt, 0, fuel), st[i], i)
  }

  /** What `verify_scheme` does once the remaps are done: read the `functions` table. */
  function AfterRemaps(r: Step<()>, s: Scheme, i: nat): (o: Step<()>)
    requires i < |r.store| && r.store[i].table == s.table
    ensures SameTables(r.store, o.store)
  {
    if r.res.Err? then r
    else
      match AsTable(Get(SchemeHandle(s), "functions"))
      case Err(e) => Step(Err(TableGet(e)), r.store)
      case Ok(ft) => FunctionsS(r.store, i, ft, 0)
  }

  /** The loop of `verify_scheme` over the `remaps` table of scheme `i`, from entry `k` on. */
  function RemapsS(st: Store, lookup: Lookup, i: nat, rt: TableHandle, k: nat, fuel: nat): (o: Step<()>)
    requires LookupValid(st, lookup) && i < |st| && k <= |rt.entries|
    requires SubTable(st[i].table, "remaps") == Some(rt.entries)
    ensures SameTables(st, o.store)
    decreases fuel, 2, |rt.entries| - k, 0
  {
    if k == |rt.entries| then Step(Ok(()), st)
    else
      var name := rt.entries[k].0;
      var v := rt.entries[k].1;
      match TableOf(ValueHandle(v, rt.context.With(name)))
      case Err(e) => Step(Err(TableGet(e)), st)
      case Ok(t) =>
        var p := PopulateS(st, lookup, map[], t, 0, fuel);
        if p.res.Err? then Step(Err(p.res.error), p.store)
        else
          RemapsS(SetRemap(p.store, i, name, p.filled), lookup, i, rt, k + 1, fuel)
  }

  /** The loop of `verify_scheme` over the `functions` table of scheme `i`, from entry `k` on. */
  function FunctionsS(st: Store, i: nat, ft: TableHandle, k: nat): (o: Step<()>)
    requires i < |st| && k <= |ft.entries|
    requires SubTable(st[i].table, "functions") == Some(ft.entries)
    ensures SameTables(st, o.store)
    decreases |ft.entries| - k
  {
    if k == |ft.entries| then Step(Ok(()), st)
    else
      var name := ft.entries[k].0;
      var v := ft.entries[k].1;
      match FunctionOf(ValueHandle(v, ft.context.With(name)))
      case Err(e) => Step(Err(e), st)
      case Ok(f) =>
        FunctionsS(SetFunction(st, i, name, f), i, ft, k + 1)
  }

  /** `populate_bindmap`: the entries of `h` from position `k` on, inserted into `m`. */
  function PopulateS(st: Store, lookup: Lookup, m: map<string, string>, h: TableHandle, k: nat, fuel: nat): (o: Fill)
    requires LookupValid(st, lookup) && k <= |h.entries|
    ensures SameTables(st, o.store)
    ensures m.Keys <= o.filled.Keys
    decreases fuel, 1, |h.entries| - k, 2
  {
    if k == |h.entries| then Fill(Ok(()), m, st)
    else
      var key := h.entries[k].0;
      var v := h.entries[k].1;
      var vh := ValueHandle(v, h.context.With(key));
      if key == "@INCLUDE" then
        match ArrayStringsOf(vh)
        case Err(e) => Fill(Err(TableGet(e)), m, st)
        case Ok(incs) => AfterIncludes(IncludesS(st, lookup, m, h, incs, 0, fuel), lookup, h, k, fuel)
      else
        match StringOf(vh)
        case Err(e) => Fill(Err(TableGet(e)), m, st)
        case Ok(s) => PopulateS(st, lookup, m[key := s], h, k + 1, fuel)
  }

  /** After the `@INCLUDE` entry at position `k`: stop on error, else go on with entry `k + 1`. */
  function AfterIncludes(inc: Fill, lookup: Lookup, h: TableHandle, k: nat, fuel: nat): (o: Fill)
    requires LookupValid(inc.store, lookup) && k < |h.entries|
    ensures SameTables(inc.store, o.store)
    ensures inc.filled.Keys <= o.filled.Keys
    decreases fuel, 1, |h.entries| - k, 1
  {
    if inc.res.Err? then inc else PopulateS(inc.store, lookup, inc.filled, h, k + 1, fuel)
  }

  /** The inclusions `incs[j..]` of an `@INCLUDE` entry of `h`, each merged into `m` in turn. */
  function IncludesS(st: Store, lookup: Lookup, m: map<string, string>, h: TableHandle, incs: seq<string>, j: nat, fuel: nat): (o: Fill)
    requires LookupValid(st, lookup) && j <= |incs|
    ensures SameTables(st, o.store)
    ensures m.Keys <= o.filled.Keys
    decreases fuel, 0, |incs| - j, 1
  {
    if j == |incs| then Fill(Ok(()), m, st)
    else
      var p := IncludeS(st, lookup, m, h, incs[j], fuel);
      if p.res.Err? then p else IncludesS(p.store, lookup, p.filled, h, incs, j + 1, fuel)
  }

  /** One inclusion `<scheme>.<path>` of an `@INCLUDE` entry of `h`: the scheme is fetched
      with `get`, one level of fuel down, and what comes back is handled by `IncludeFetched`. */
  function IncludeS(st: Store, lookup: Lookup, m: map<string, string>, h: TableHandle, inclusion: string, fuel: nat): (o: Fill)
    requires LookupValid(st, lookup)
    ensures SameTables(st, o.store)
    ensures m.Keys <= o.filled.Keys
    decreases fuel, 0, 0, 0
  {
    if fuel == 0 then Fill(Err(InclusionTooDeep(h.context.With("@INCLUDE"))), m, st)
    else
      var split := SplitInclusion(inclusion);
      IncludeFetched(GetS(st, lookup, split.0, fuel - 1), lookup, m, h, split.0, split.1, fuel - 1)
  }

  /** After `get(scheme)` returned `g`: an error is passed on, an unknown scheme is an error,
      and a known one has the table selected by `path` populated into `m`. */
  function IncludeFetched(g: Step<Option<nat>>, lookup: Lookup, m: map<string, string>, h: TableHandle, scheme: string, path: string, fuel: nat): (o: Fill)
    requires LookupValid(g.store, lookup)
    requires g.res.Ok? && g.res.value.Some? ==> g.res.value.value < |g.store|
    ensures SameTables(g.store, o.store)
    ensures m.Keys <= o.filled.Keys
    decreases fuel, 3, 0, 0
  {
    match g.res
    case Err(e) => Fill(Err(e), m, g.store)
    case Ok(None) => Fill(Err(Misc(UnrecognizedScheme(scheme, h.context.With("@INCLUDE")))), m, g.store)
    case Ok(Some(idx)) =>
      match SelectIncluded(g.store[idx], h.context.Branch(), path, h.context.With("@INCLUDE"))
      case Err(e) => Fill(Err(e), m, g.store)
      case Ok(nb) => PopulateS(g.store, lookup, m, nb, 0, fuel)
  }

  // ---------------------------------------------------------------- registration (load_dir)

  /** What reading and parsing one file of the scheme directory produced. */
  datatype SourceFile = Unreadable | Unparsable | Parsed(table: Entries)

  /** The `axbind_scheme` name of a table, when that key holds a string. */
  function SchemeName(table: Entries): Option<string> {
    match Find(table, "axbind_scheme")
    case Some(Str(name)) => Some(name)
    case _ => None
  }

  predicate Registrable(f: SourceFile) {
    f.Parsed? && SchemeName(f.table).Some?
  }

  /** The tables that registration keeps, in file order (an independent, front-to-back filter). */
  function RegisteredTables(files: seq<SourceFile>): seq<Entries>
    decreases |files|
  {
    if files == [] then []
    else (if Registrable(files[0]) then [files[0].table] else []) + RegisteredTables(files[1..])
  }

  lemma {:induction false} RegisteredTablesSnoc(files: seq<SourceFile>, f: SourceFile)
    ensures RegisteredTables(files + [f]) == RegisteredTables(files) + (if Registrable(f) then [f.table] else [])
    decreases |files|
  {
    if files != [] {
      assert (files + [f])[1..] == files[1..] + [f];
      RegisteredTablesSnoc(files[1..], f);
    }
  }

  /** The registration loop of `load_dir` over the files read so far: each table whose
      `axbind_scheme` is a string becomes a fresh unverified scheme, and its name is pointed
      at it (a later scheme of the same name takes the name over). Other files are skipped. */
  function Register(dir: string, files: seq<SourceFile>): (r: (Store, Lookup))
    ensures LookupValid(r.0, r.1)
    decreases |files|
  {
    if files == [] then ([], map[])
    else
      var (st, lk) := Register(dir, files[..|files| - 1]);
      var f := files[|files| - 1];
      if Registrable(f) then
        var name := SchemeName(f.table).value;
        (st + [ConstructUnverified(f.table, JoinPath(dir, name))], lk[name := |st|])
      else
        (st, lk)
  }

  /** Registration keeps exactly the tables that carry a string `axbind_scheme`, in file
      order, each as a fresh unverified scheme whose root context is `dir` joined with its name. */
  lemma {:induction false} RegisterKeepsTables(dir: string, files: seq<SourceFile>)
    ensures |Register(dir, files).0| == |RegisteredTables(files)|
    ensures forall j :: 0 <= j < |Register(dir, files).0| ==>
              var s := Register(dir, files).0[j];
              && s.table == RegisteredTables(files)[j]
              && SchemeName(s.table).Some?
              && s == ConstructUnverified(s.table, JoinPath(dir, SchemeName(s.table).value))
    decreases |files|
  {
    if files != [] {
      var init := files[..|files| - 1];
      var f := files[|files| - 1];
      assert files == init + [f];
      RegisteredTablesSnoc(init, f);
      RegisterKeepsTables(dir, init);
    }
  }

  /** Every registered scheme's name is in the lookup, and each name in the lookup points at
      a scheme of that name with no later scheme of the same name: the last one wins. */
  lemma {:induction false} RegisterLastWins(dir: string, files: seq<SourceFile>)
    ensures var (st, lk) := Register(dir, files);
      && (forall j :: 0 <= j < |st| ==> SchemeName(st[j].table).Some? && SchemeName(st[j].table).value in lk)
      && (forall name :: name in lk ==> SchemeName(st[lk[name]].table) == Some(name))
      && (forall name, j :: name in lk && lk[name] < j < |st| ==> SchemeName(st[j].table) != Some(name))
    decreases |files|
  {
    if files != [] {
      var init := files[..|files| - 1];
      var f := files[|files| - 1];
      RegisterLastWins(dir, init);
      var (st0, lk0) := Register(dir, init);
      if Registrable(f) {
        var name := SchemeName(f.table).value;
        var st := st0 + [ConstructUnverified(f.table, JoinPath(dir, name))];
        var lk := lk0[name := |st0|];
        assert Register(dir, files) == (st, lk);
        assert forall j :: 0 <= j < |st0| ==> st[j] == st0[j];
      }
    }
  }

  // ---------------------------------------------------------------- the registry object

  class SchemeRegistry {
    var schemes: Store
    const lookup: Lookup

    ghost predicate Valid()
      reads this
    {
      LookupValid(schemes, lookup)
    }

    /** The registration loop of `load_dir`; `files` are the directory's files as read and parsed. */
    constructor LoadDir(dir: string, files: seq<SourceFile>)
      ensures Valid()
      ensures (schemes, lookup) == Register(dir, files)
    {
      var st: Store := [];
      var lk: Lookup := map[];
      var k := 0;
      while k < |files|
        invariant 0 <= k <= |files|
        invariant (st, lk) == Register(dir, files[..k])
      {
        assert files[..k + 1][..k] == files[..k];
        match files[k] {
          case Parsed(table) =>
            match Find(table, "axbind_scheme") {
              case Some(Str(name)) =>
                st := st + [ConstructUnverified(table, JoinPath(dir, name))];
                lk := lk[name := |st| - 1];
              case _ =>
            }
          case _ =>
        }
        k := k + 1;
      }
      assert files[..|files|] == files;
      schemes := st;
      lookup := lk;
    }

    /** `get`: the index of the scheme named `name`, after verifying it. */
    method Get(name: string, fuel: nat) returns (r: Result<Option<nat>, ConfigError>)
      requires Valid()
      modifies this
      ensures Valid()
      ensures Step(r, schemes) == GetS(old(schemes), lookup, name, fuel)
      decreases fuel, 6
    {
      if name in lookup {
        var v := VerifyScheme(lookup[name], fuel);
        match v {
          case Ok(_) => r := Ok(Some(lookup[name]));
          case Err(e) => r := Err(e);
        }
      } else {
        r := Ok(None);
      }
    }

    /** `verify_scheme`: fills the bindings, remaps and functions of scheme `i` in place. */
    method VerifyScheme(i: nat, fuel: nat) returns (r: Result<(), ConfigError>)
      requires Valid() && i < |schemes|
      modifies this
      ensures Valid()
      ensures Step(r, schemes) == VerifyS(old(schemes), lookup, i, fuel)
      decreases fuel, 5
    {
      var s := schemes[i];
      if s.verified {
        return Ok(());
      }
      var handle := SchemeHandle(s);
      var bt := AsTable(Toml.Get(handle, "bindings"));
      if bt.Err? {
        return Err(TableGet(bt.error));
      }
      var pr, filled := PopulateBindmap(s.bindings, bt.value, fuel);
      schemes := SetBindings(schemes, i, filled);
      if pr.Err? {
        return pr;
      }
      var rt := AsTable(Toml.Get(handle, "remaps"));
      if rt.Err? {
        return Err(TableGet(rt.error));
      }
      r := PopulateRemaps(i, rt.value, fuel);
      if r.Err? {
        return;
      }
      var ft := AsTable(Toml.Get(handle, "functions"));
      if ft.Err? {
        return Err(TableGet(ft.error));
      }
      r := PopulateFunctions(i, ft.value);
    }

    /** The loop of `verify_scheme` over the `remaps` table: each entry must be a table, and
        its bindings, populated into a fresh map, become the remap of that entry's name. */
    method PopulateRemaps(i: nat, rt: TableHandle, fuel: nat) returns (r: Result<(), ConfigError>)
      requires Valid() && i < |schemes|
      requires SubTable(schemes[i].table, "remaps") == Some(rt.entries)
      modifies this
      ensures Valid()
      ensures Step(r, schemes) == RemapsS(old(schemes), lookup, i, rt, 0, fuel)
      decreases fuel, 4
    {
      ghost var target := RemapsS(schemes, lookup, i, rt, 0, fuel);
      var k := 0;
      while k < |rt.entries|
        invariant 0 <= k <= |rt.entries|
        invariant Valid() && i < |schemes| && SubTable(schemes[i].table, "remaps") == Some(rt.entries)
        invariant target == RemapsS(schemes, lookup, i, rt, k, fuel)
      {
        var name := rt.entries[k].0;
        var v := rt.entries[k].1;
        var t := TableOf(ValueHandle(v, rt.context.With(name)));
        if t.Err? {
          return Err(TableGet(t.error));
        }
        var pr, remap := PopulateBindmap(map[], t.value, fuel);
        if pr.Err? {
          return pr;
        }
        schemes := SetRemap(schemes, i, name, remap);
        k := k + 1;
      }
      r := Ok(());
    }

    /** The loop of `verify_scheme` over the `functions` table. */
    method PopulateFunctions(i: nat, ft: TableHandle) returns (r: Result<(), ConfigError>)
      requires Valid() && i < |schemes|
      requires SubTable(schemes[i].table, "functions") == Some(ft.entries)
      modifies this
      ensures Valid()
      ensures Step(r, schemes) == FunctionsS(old(schemes), i, ft, 0)
    {
      ghost var target := FunctionsS(schemes, i, ft, 0);
      var k := 0;
      while k < |ft.entries|
        invariant 0 <= k <= |ft.entries|
        invariant Valid() && i < |schemes| && SubTable(schemes[i].table, "functions") == Some(ft.entries)
        invariant target == FunctionsS(schemes, i, ft, k)
      {
        var name := ft.entries[k].0;
        var v := ft.entries[k].1;
        var f := FunctionOf(ValueHandle(v, ft.context.With(name)));
        if f.Err? {
          return Err(f.error);
        }
        schemes := SetFunction(schemes, i, name, f.value);
        k := k + 1;
      }
      r := Ok(());
    }

    /** `populate_bindmap`: inserts the entries of `h` into the map `m0` (passed by `&mut`
        in the source, returned here as `m`, also when an error stops the loop). */
    method PopulateBindmap(m0: map<string, string>, h: TableHandle, fuel: nat)
      returns (r: Result<(), ConfigError>, m: map<string, string>)
      requires Valid()
      modifies this
      ensures Valid()
      ensures Fill(r, m, schemes) == PopulateS(old(schemes), lookup, m0, h, 0, fuel)
      decreases fuel, 3
    {
      ghost var target := PopulateS(schemes, lookup, m0, h, 0, fuel);
      m := m0;
      var k := 0;
      while k < |h.entries|
        invariant 0 <= k <= |h.entries| && Valid()
        invariant target == PopulateS(schemes, lookup, m, h, k, fuel)
      {
        var key := h.entries[k].0;
        var v := h.entries[k].1;
        var vh := ValueHandle(v, h.context.With(key));
        if key == "@INCLUDE" {
          var incs := ArrayStringsOf(vh);
          if incs.Err? {
            return Err(TableGet(incs.error)), m;
          }
          r, m := MergeInclusions(m, h, incs.value, fuel);
          if r.Err? {
            return;
          }
        } else {
          var s := StringOf(vh);
          if s.Err? {
            return Err(TableGet(s.error)), m;
          }
          m := m[key := s.value];
        }
        k := k + 1;
      }
      r := Ok(());
    }

    /** The inner loop of `populate_bindmap` over the inclusions of an `@INCLUDE` entry of `h`. */
    method MergeInclusions(m0: map<string, string>, h: TableHandle, incs: seq<string>, fuel: nat)
      returns (r: Result<(), ConfigError>, m: map<string, string>)
      requires Valid()
      modifies this
      ensures Valid()
      ensures Fill(r, m, schemes) == IncludesS(old(schemes), lookup, m0, h, incs, 0, fuel)
      decreases fuel, 2
    {
      ghost var target := IncludesS(schemes, lookup, m0, h, incs, 0, fuel);
      m := m0;
      var j := 0;
      while j < |incs|
        invariant 0 <= j <= |incs| && Valid()
        invariant target == IncludesS(schemes, lookup, m, h, incs, j, fuel)
      {
        r, m := MergeInclusion(m, h, incs[j], fuel);
        if r.Err? {
          return;
        }
        j := j + 1;
      }
      r := Ok(());
    }

    /** One iteration of that loop: `<scheme>.<path>` is fetched with `get` and the table it
        selects is populated into the same map. */
    method MergeInclusion(m0: map<string, string>, h: TableHandle, inclusion: string, fuel: nat)
      returns (r: Result<(), ConfigError>, m: map<string, string>)
      requires Valid()
      modifies this
      ensures Valid()
      ensures Fill(r, m, schemes) == IncludeS(old(schemes), lookup, m0, h, inclusion, fuel)
      decreases fuel, 0
    {
      m := m0;
      if fuel == 0 {
        return Err(InclusionTooDeep(h.context.With("@INCLUDE"))), m;
      }
      var split := SplitInclusion(inclusion);
      var scheme := split.0;
      var path := split.1;
      var g := Get(scheme, fuel - 1);
      if g.Err? {
        return Err(g.error), m;
      }
      if g.value.None? {
        return Err(Misc(UnrecognizedScheme(scheme, h.context.With("@INCLUDE")))), m;
      }
      var nb := SelectIncluded(schemes[g.value.value], h.context.Branch(), path, h.context.With("@INCLUDE"));
      if nb.Err? {
        return Err(nb.error), m;
      }
      r, m := PopulateBindmap(m, nb.value, fuel - 1);
    }
  }
}
