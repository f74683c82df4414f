/**
 * `src/tagfile.rs`: a tag group read from its table, and a tag root read from a directory's
 * `main.toml` together with the group files it lists.
 */
module Tagfile {
  import opened Wrappers
  import opened Toml
  import Configs

  // ---------------------------------------------------------------- TagGroup::from_table

  /** `SchemeSpec`: the scheme a tag group uses, with the remaps and functions it asks for. */
  datatype SchemeSpec = SchemeSpec(scheme: string, remaps: seq<string>, functions: seq<string>)

  datatype TagGroup = TagGroup(files: seq<string>, schemeSpec: SchemeSpec, options: Configs.Options)

  /** `.optional()?.unwrap_or(vec![])` on an array-of-strings lookup: a missing key is the empty list. */
  function ListOrEmpty(r: TableResult<seq<string>>): TableResult<seq<string>> {
    match Optional(r)
    case Err(e) => Err(e)
    case Ok(None) => Ok([])
    case Ok(Some(ss)) => Ok(ss)
  }

  /** An optional list setting is absent or an array of strings. */
  ghost predicate OptionalListValid(entries: Entries, key: string) {
    Find(entries, key).None? || IsStringArrayAt(entries, key)
  }

  /** The optional list setting under `key` reads as `ss`: absent is the empty list. */
  ghost predicate OptionalListAt(entries: Entries, key: string, ss: seq<string>) {
    if Find(entries, key).None? then ss == [] else StringArrayAt(entries, key, ss)
  }

  /** An optional list lookup succeeds exactly on an absent key or an array of strings, and
      reads as the empty list or those strings in order. */
  lemma OptionalListMeaning(t: TableHandle, key: string)
    ensures ListOrEmpty(AsArrayStrings(Get(t, key))).Ok? <==> OptionalListValid(t.entries, key)
    ensures ListOrEmpty(AsArrayStrings(Get(t, key))).Ok? ==>
              OptionalListAt(t.entries, key, ListOrEmpty(AsArrayStrings(Get(t, key))).value)
  {
    ArrayStringsMeaning(t, key);
  }

  /** The `options` of a tag group are absent, or a table the option parser accepts. */
  ghost predicate OptionsValid(t: TableHandle) {
    match Find(t.entries, "options")
    case None => true
    case Some(v) => v.Tab? && Configs.OptionsFromTable(TableHandle(v.entries, t.context.With("options"))).Ok?
  }

  /** The `options` of a tag group: the parsed table, or `Options::default()` when absent. */
  function GroupOptions(t: TableHandle): (r: Result<Configs.Options, Configs.ConfigError>)
    ensures r.Ok? <==> OptionsValid(t)
    ensures r.Ok? && Find(t.entries, "options").None? ==> r.value == Configs.DefaultOptions()
    ensures r.Ok? && Find(t.entries, "options").Some? ==>
              r.value == Configs.OptionsFromTable(TableHandle(Find(t.entries, "options").value.entries, t.context.With("options"))).value
  {
    var optionTable :- Configs.Lift(Optional(AsTable(Get(t, "options"))));
    if optionTable.Some? then Configs.OptionsFromTable(optionTable.value) else Ok(Configs.DefaultOptions())
  }

  /** What `TagGroup::from_table` demands of the `scheme` table. */
  ghost predicate SchemeSpecValid(sub: Entries) {
    && OptionalListValid(sub, "remaps")
    && OptionalListValid(sub, "functions")
    && Find(sub, "name").Some? && Find(sub, "name").value.Str?
  }

  /** The `scheme` table of a tag group, read in the order `remaps`, `functions`, `name`. */
  function SchemeSpecOf(schemeTable: TableHandle): (r: Result<SchemeSpec, Configs.ConfigError>)
    ensures r.Ok? <==> SchemeSpecValid(schemeTable.entries)
    ensures r.Ok? ==>
              && Find(schemeTable.entries, "name") == Some(Str(r.value.scheme))
              && OptionalListAt(schemeTable.entries, "remaps", r.value.remaps)
              && OptionalListAt(schemeTable.entries, "functions", r.value.functions)
    ensures OptionalListValid(schemeTable.entries, "remaps") && OptionalListValid(schemeTable.entries, "functions")
            && Find(schemeTable.entries, "name").None? ==>
              r == Err(Configs.TableGet(TableGetError(schemeTable.context.With("name"), "name", NoKey)))
  {
    OptionalListMeaning(schemeTable, "remaps");
    var remaps :- Configs.Lift(ListOrEmpty(AsArrayStrings(Get(schemeTable, "remaps"))));
    OptionalListMeaning(schemeTable, "functions");
    var functions :- Configs.Lift(ListOrEmpty(AsArrayStrings(Get(schemeTable, "functions"))));
    var scheme :- Configs.Lift(AsString(Get(schemeTable, "name")));
    Ok(SchemeSpec(scheme, remaps, functions))
  }

  /** Everything `TagGroup::from_table` demands of a table. */
  ghost predicate TagGroupValid(t: TableHandle) {
    && IsStringArrayAt(t.entries, "files")
    && SubTable(t.entries, "scheme").Some?
    && OptionsValid(t)
    && SchemeSpecValid(SubTable(t.entries, "scheme").value)
  }

  /** `TagGroup::from_table`: `files` and `scheme.name` are required, `options`,
      `scheme.remaps` and `scheme.functions` are optional with defaults. */
  function TagGroupFromTable(t: TableHandle): (r: Result<TagGroup, Configs.ConfigError>)
    ensures r.Ok? <==> TagGroupValid(t)
    ensures r.Ok? ==> StringArrayAt(t.entries, "files", r.value.files)
    ensures r.Ok? ==> SchemeSpecOf(TableHandle(SubTable(t.entries, "scheme").value, t.context.With("scheme"))) == Ok(r.value.schemeSpec)
    ensures r.Ok? ==> GroupOptions(t) == Ok(r.value.options)
  {
    ArrayStringsMeaning(t, "files");
    var files :- Configs.Lift(AsArrayStrings(Get(t, "files")));
    var schemeTable :- Configs.Lift(AsTable(Get(t, "scheme")));
    var options :- GroupOptions(t);
    var spec :- SchemeSpecOf(schemeTable);
    Ok(TagGroup(files, spec, options))
  }

  /** Which error a rejected table gets: the checks run in the order `files`, `scheme`,
      `options`, then `scheme.remaps`, `scheme.functions` and `scheme.name`. */
  lemma TagGroupErrors(t: TableHandle)
    ensures Find(t.entries, "files").None? ==>
              TagGroupFromTable(t) == Err(Configs.TableGet(TableGetError(t.context.With("files"), "files", NoKey)))
    ensures Find(t.entries, "files").Some? && !IsStringArrayAt(t.entries, "files") ==>
              TagGroupFromTable(t) == Err(Configs.TableGet(AsArrayStrings(Get(t, "files")).error))
    ensures IsStringArrayAt(t.entries, "files") && Find(t.entries, "scheme").None? ==>
              TagGroupFromTable(t) == Err(Configs.TableGet(TableGetError(t.context.With("scheme"), "scheme", NoKey)))
    ensures IsStringArrayAt(t.entries, "files") && Find(t.entries, "scheme").Some? && SubTable(t.entries, "scheme").None? ==>
              TagGroupFromTable(t) == Err(Configs.TableGet(TableGetError(t.context.With("scheme"), "scheme", WrongType(ExpectTable))))
    ensures IsStringArrayAt(t.entries, "files") && SubTable(t.entries, "scheme").Some? && !OptionsValid(t) ==>
              TagGroupFromTable(t) == Err(GroupOptions(t).error)
    ensures IsStringArrayAt(t.entries, "files") && SubTable(t.entries, "scheme").Some? && OptionsValid(t) &&
            !SchemeSpecValid(SubTable(t.entries, "scheme").value) ==>
              TagGroupFromTable(t) == Err(SchemeSpecOf(TableHandle(SubTable(t.entries, "scheme").value, t.context.With("scheme"))).error)
  {
    ArrayStringsMeaning(t, "files");
  }

  // ---------------------------------------------------------------- TagRoot::generate_from_dir

  /** A parsed TOML file and the path it was read from. */
  datatype TableRoot = TableRoot(table: Entries, origin: string) {
    function Handle(): TableHandle {
      TableHandle(table, Context(origin, []))
    }
  }

  /** `TagRoot`: the path of `main.toml`, its table, and the group tables it lists. */
  datatype TagRoot = TagRoot(path: string, main: TableRoot, groups: Option<seq<TableRoot>>)

  /** `GenerateErr`; `E` is the error of loading a file (`RootErr`, not part of this model). */
  datatype GenerateErr<E> = Root(rootErr: E) | TableGet(getError: TableGetError) | FilesAndGroupExist(path: string)

  /** Loading `paths[i]` fails and loading each earlier path succeeds. */
  ghost predicate FirstFailure<E>(dir: string, paths: seq<string>, load: string -> Result<TableRoot, E>, i: int) {
    && 0 <= i < |paths|
    && load(Configs.JoinPath(dir, paths[i])).Err?
    && forall j :: 0 <= j < i ==> load(Configs.JoinPath(dir, paths[j])).Ok?
  }

  /** The group files `paths`, each loaded beside `main.toml`, collected in order; the first
      failure is the result. */
  function LoadGroups<E>(dir: string, paths: seq<string>, load: string -> Result<TableRoot, E>): (r: Result<seq<TableRoot>, E>)
    ensures r.Ok? <==> forall i :: 0 <= i < |paths| ==> load(Configs.JoinPath(dir, paths[i])).Ok?
    ensures r.Ok? ==>
              && |r.value| == |paths|
              && forall i :: 0 <= i < |paths| ==> r.value[i] == load(Configs.JoinPath(dir, paths[i])).value
    ensures r.Err? ==>
              exists i :: FirstFailure(dir, paths, load, i) && load(Configs.JoinPath(dir, paths[i])) == Err(r.error)
    decreases |paths|
  {
    if paths == [] then Ok([])
    else
      match load(Configs.JoinPath(dir, paths[0]))
      case Err(e) => Err(e)
      case Ok(g) =>
        assert forall i :: 1 <= i < |paths| ==> paths[i] == paths[1..][i - 1];
        match LoadGroups(dir, paths[1..], load)
        case Err(e) =>
          assert exists i :: FirstFailure(dir, paths, load, i) && load(Configs.JoinPath(dir, paths[i])) == Err(e) by {
            var i :| FirstFailure(dir, paths[1..], load, i) && load(Configs.JoinPath(dir, paths[1..][i])) == Err(e);
            assert FirstFailure(dir, paths, load, i + 1);
          }
          Err(e)
        case Ok(gs) =>
          Ok([g] + gs)
  }

  /** `TagRoot::generate_from_dir` for the directory `dir`, with `load` standing for
      `TableRoot::from_file_path`. */
  function GenerateFromDir<E>(dir: string, load: string -> Result<TableRoot, E>): (r: Result<TagRoot, GenerateErr<E>>)
    ensures r.Ok? ==> r.value.path == Configs.JoinPath(dir, "main.toml") && load(r.value.path) == Ok(r.value.main)
    ensures r.Ok? ==> !(Find(r.value.main.table, "files").Some? && r.value.groups.Some?)
    ensures r.Ok? ==> (r.value.groups.None? <==> Find(r.value.main.table, "groups").None?)
    ensures r.Ok? && r.value.groups.Some? ==>
              && AsArrayStrings(Get(r.value.main.Handle(), "groups")).Ok?
              && var paths := AsArrayStrings(Get(r.value.main.Handle(), "groups")).value;
              && StringArrayAt(r.value.main.table, "groups", paths)
              && LoadGroups(dir, paths, load) == Ok(r.value.groups.value)
  {
    var path := Configs.JoinPath(dir, "main.toml");
    match load(path)
    case Err(e) => Err(Root(e))
    case Ok(main) =>
      ArrayStringsMeaning(main.Handle(), "groups");
      match Optional(AsArrayStrings(Get(main.Handle(), "groups")))
      case Err(e) => Err(TableGet(e))
      case Ok(None) =>
        Ok(TagRoot(path, main, None))
      case Ok(Some(paths)) =>
        match LoadGroups(dir, paths, load)
        case Err(e) => Err(Root(e))
        case Ok(groups) =>
          if Find(main.table, "files").Some? then Err(FilesAndGroupExist(path))
          else Ok(TagRoot(path, main, Some(groups)))
  }

  /** A `main.toml` that cannot be loaded is a `Root` error with the loader's error. */
  lemma MainLoadFails<E>(dir: string, load: string -> Result<TableRoot, E>)
    requires load(Configs.JoinPath(dir, "main.toml")).Err?
    ensures GenerateFromDir(dir, load) == Err(Root(load(Configs.JoinPath(dir, "main.toml")).error))
  {
  }

  /** `groups` that is present but not an array of strings is a `TableGet` error. */
  lemma GroupsMistyped<E>(dir: string, load: string -> Result<TableRoot, E>, main: TableRoot)
    requires load(Configs.JoinPath(dir, "main.toml")) == Ok(main)
    requires Find(main.table, "groups").Some? && !IsStringArrayAt(main.table, "groups")
    ensures GenerateFromDir(dir, load).Err? && GenerateFromDir(dir, load).error.TableGet?
  {
    ArrayStringsMeaning(main.Handle(), "groups");
  }

  /** Without `groups` the root has no groups, whether or not `files` is present. */
  lemma NoGroups<E>(dir: string, load: string -> Result<TableRoot, E>, main: TableRoot)
    requires load(Configs.JoinPath(dir, "main.toml")) == Ok(main)
    requires Find(main.table, "groups").None?
    ensures GenerateFromDir(dir, load) == Ok(TagRoot(Configs.JoinPath(dir, "main.toml"), main, None))
  {
    ArrayStringsMeaning(main.Handle(), "groups");
  }

  /** Groups are loaded before `files` is looked at: a group that fails to load is a `Root`
      error carrying the first failure, even when `files` is present too. */
  lemma GroupLoadErrorFirst<E>(dir: string, load: string -> Result<TableRoot, E>, main: TableRoot, paths: seq<string>)
    requires load(Configs.JoinPath(dir, "main.toml")) == Ok(main)
    requires StringArrayAt(main.table, "groups", paths)
    requires exists i :: 0 <= i < |paths| && load(Configs.JoinPath(dir, paths[i])).Err?
    ensures GenerateFromDir(dir, load) == Err(Root(LoadGroups(dir, paths, load).error))
  {
    GroupsRead(main, paths);
  }

  /** With `files` and loadable `groups` both present, the result is `FilesAndGroupExist`
      carrying the path of `main.toml`. */
  lemma FilesAndGroupsExclusive<E>(dir: string, load: string -> Result<TableRoot, E>, main: TableRoot, paths: seq<string>)
    requires load(Configs.JoinPath(dir, "main.toml")) == Ok(main)
    requires StringArrayAt(main.table, "groups", paths)
    requires forall i :: 0 <= i < |paths| ==> load(Configs.JoinPath(dir, paths[i])).Ok?
    requires Find(main.table, "files").Some?
    ensures GenerateFromDir(dir, load) == Err(FilesAndGroupExist(Configs.JoinPath(dir, "main.toml")))
  {
    GroupsRead(main, paths);
  }

  /** Loadable `groups` without `files` is a success: the root holds `main.toml`'s path, its
      table and the loaded groups, in the order `groups` lists them. */
  lemma GroupsLoaded<E>(dir: string, load: string -> Result<TableRoot, E>, main: TableRoot, paths: seq<string>)
    requires load(Configs.JoinPath(dir, "main.toml")) == Ok(main)
    requires StringArrayAt(main.table, "groups", paths)
    requires forall i :: 0 <= i < |paths| ==> load(Configs.JoinPath(dir, paths[i])).Ok?
    requires Find(main.table, "files").None?
    ensures LoadGroups(dir, paths, load).Ok?
    ensures GenerateFromDir(dir, load) ==
              Ok(TagRoot(Configs.JoinPath(dir, "main.toml"), main, Some(LoadGroups(dir, paths, load).value)))
  {
    GroupsRead(main, paths);
  }

  /** The group list read from `main` is the array of strings stored under `groups`. */
  lemma GroupsRead(main: TableRoot, paths: seq<string>)
    requires StringArrayAt(main.table, "groups", paths)
    ensures Optional(AsArrayStrings(Get(main.Handle(), "groups"))) == Ok(Some(paths))
  {
    ArrayStringsMeaning(main.Handle(), "groups");
    var got := AsArrayStrings(Get(main.Handle(), "groups")).value;
    assert |got| == |paths|;
    var items := Find(main.table, "groups").value.items;
    assert forall i :: 0 <= i < |paths| ==> Str(got[i]) == items[i] == Str(paths[i]);
    assert got == paths;
  }
}
