# axbind configuration layer in Dafny

This project models the configuration layer of axbind, a tool that fills template files with
bindings taken from named *schemes*:

- **Scheme registry** (`src/configs.rs`). Scheme files are registered by their `axbind_scheme`
  name. `get` verifies a scheme on access. `verify_scheme` fills the scheme's `bindings`,
  `remaps` and `functions` from its TOML table. `populate_bindmap` inserts string entries into a
  map and expands `@INCLUDE` entries by pulling in tables of other schemes.
- **Option tables** (`src/configs.rs`). These are `validate_char`, `MetaOptions::from_table`,
  `MetaOptions::from_table_forced` and `Options::from_table`.
- **Tag descriptors** (`src/tagfile.rs`). `TagGroup::from_table` has required keys and
  defaults. `TagRoot::generate_from_dir` loads the group files and enforces that `files` and
  `groups` are mutually exclusive.
- **Helpers** (`src/lib.rs`). These are `remap` and `get_array_strings`.

Files:

- `wrappers.dfy` holds `Option` and `Result`.
- `toml.dfy` models parsed TOML values and the typed key lookups the code performs.
- `configs.dfy` holds errors, `validate_char`, the option tables, the scheme record and the split
  of an inclusion string.
- `registry.dfy` holds the registry:
  - The functions ending in `S` state what each operation returns and what the store of schemes
    is afterwards.
  - The class `SchemeRegistry` has the imperative registration loop, `get`, `verify_scheme` and
    `populate_bindmap`. Each method is proved equal to its function.
- `registry_facts.dfy` proves that verification only lets the store *evolve*. Tables, root
  contexts and `verified` flags stay fixed, and maps only gain keys. It also proves that remaps
  and functions are named after table entries.
- `registry_props.dfy` proves what a success or a failure of `get`, `verify_scheme`,
  `populate_bindmap` and an `@INCLUDE` means.
- `registry_frame.dfy` defines the set of keys a population writes, through its `@INCLUDE`s,
  and proves that every other key of the map is left as it was.
- `registry_fuel.dfy` proves that more fuel never changes a result that was not cut short.
- `tagfile.dfy` and `lib.dfy` model the other two files.

The store of schemes is a sequence addressed by index. This replaces the raw pointers the source
keeps into its `Vec<Scheme>`. The name lookup is a `map<string, nat>`.

The source has no cycle guard, and it never sets `verified`. So `get` → `verify_scheme` →
`populate_bindmap` → `get` can recur without end. The model therefore carries `fuel`, which is
the number of nested `@INCLUDE` levels allowed. Running out of fuel is the model-only error
`InclusionTooDeep`. No operation catches an error, so any other result at some fuel is the
same at every larger fuel (`RegistryFuel.GetFuelStable`): on a run that ends in the source, the
model with enough fuel gives the source's result.

## Behaviour of the code that is easy to misread

The model follows the code in each case below.

- **Sub-path inclusion.** One might expect an inclusion `B.sub` in `A`'s bindings to merge the
  table `bindings.sub` of scheme `B`. The code cannot do this.
  - Fetching `B` verifies it first, and verification requires every entry of `B`'s `bindings`
    other than `@INCLUDE` to be a string. So `B` has no sub-table there to select.
  - `RegistryProps.BindingsSubPathFails` proves this for every unverified scheme.
  - `RegistryProps.SubTableInclusionExample` proves that a concrete pair of such schemes fails.
- **The `verified` flag.** The field suggests that verification is done once per scheme. The
  code only reads that flag (`src/configs.rs:237`) and never sets it. As a result, every `get`
  verifies again. `RegistryProps.VerifiedFlagsKept` proves that `get` leaves every flag as it
  was.
- **Inclusions in remaps.** Remap tables are not bindings, yet the code populates each remap
  with `populate_bindmap`, which does expand `@INCLUDE`. There, the branch used to select the
  included table is the remap's own name. `Registry.RemapsS` models this.
- **Remaps and functions tables are required.** The code requires both the `remaps` and the
  `functions` tables, even when they are empty.

## Model

| member | source | states |
|---|---|---|
| Configs.Utf8LengthOne | src/configs.rs:86 | a string is one UTF-8 byte long exactly when it is a single ASCII character |
| Configs.ValidateChar | src/configs.rs:85-93 | succeeds exactly on a one-byte string and yields its character; any other string is the `Misc` "exactly 1 character" error for the given context |
| Configs.MultiByteCharRejected | src/configs.rs:86-91 | a single character that needs more than one byte (such as 'é') is rejected |
| Configs.OptionalChar | src/configs.rs:105-112 | an optional character setting is absent (`None`), or a one-byte string read as its character; a non-string is a wrong-type error at `context.with(key)`, a longer string the `Misc` error |
| Configs.MetaOptionsFromTable | src/configs.rs:103-115 | succeeds exactly when both settings are absent or single characters; each field is `None` when absent and the character otherwise |
| Configs.RequiredChar | src/configs.rs:119-126 | a required character setting succeeds exactly when present and one byte long; a missing key is the missing-key error at `context.with(key)` |
| Configs.MetaOptionsFromTableForced | src/configs.rs:117-129 | succeeds exactly when both keys are present and one byte long, and then both fields are `Some`; a missing `internal_escapechar` is its missing-key error |
| Configs.OptionsFromTable | src/configs.rs:137-151 | `key_format` is any optional string and `escape_char` an optional single character; succeeds exactly when both are well-typed |
| Configs.FirstDot | src/configs.rs:273-275 | the position of the first '.' in a string, or none when there is no '.' |
| Configs.SplitInclusionMeaning | src/configs.rs:273-275 | without a '.' the inclusion is the scheme name with an empty path; otherwise it is name, '.', path, with no '.' in the name |
| Configs.SplitInclusionUnique | src/configs.rs:273-275 | the split is at the first '.': any dot-free name followed by '.' and a rest splits back into that name and rest |
| Registry.Register | src/configs.rs:194-215 | the registration loop over the files read so far yields a lookup whose every index is in the store |
| Registry.RegisterKeepsTables | src/configs.rs:72-81 | the store holds exactly the parsed tables whose `axbind_scheme` is a string, in file order, one scheme per such table, each unverified with empty maps and root context `dir` joined with its name |
| Registry.RegisterLastWins | src/configs.rs:211-214 | every registered name is in the lookup; each lookup entry points at a scheme of that name, and no later scheme has that name (a later duplicate takes the name over) |
| Registry.SchemeRegistry.LoadDir | src/configs.rs:169-216 | the imperative registration loop builds exactly the store and lookup of `Register` |
| Registry.SelectIncluded | src/configs.rs:289-304 | the included table is the scheme's table under the including table's branch, narrowed by a non-empty path; it succeeds exactly when those tables exist, else a `TableRefExpect` error at the `@INCLUDE` context |
| Registry.FunctionOf | src/configs.rs:251-256 | a function entry is accepted exactly when it is a table with string `shell` and `command`, and yields those two strings |
| Registry.GetS | src/configs.rs:219-232 | keeps every scheme's table; a returned index is the lookup's index for that name |
| Registry.VerifyS | src/configs.rs:233-260 | verification keeps the number of schemes and every table |
| Registry.RemapsS | src/configs.rs:245-249 | the remaps loop keeps every table |
| Registry.FunctionsS | src/configs.rs:250-258 | the functions loop keeps every table |
| Registry.PopulateS | src/configs.rs:261-312 | populating keeps every table and never removes a key already in the map |
| Registry.IncludesS | src/configs.rs:272-306 | the inclusion loop keeps every table and never removes a key |
| Registry.IncludeS | src/configs.rs:273-305 | one inclusion keeps every table and never removes a key |
| Registry.IncludeFetched | src/configs.rs:276-305 | what follows the `get` of an included scheme keeps every table and never removes a key |
| Registry.SchemeRegistry.Get | src/configs.rs:219-232 | the method computes the result and the new store of `GetS` |
| Registry.SchemeRegistry.VerifyScheme | src/configs.rs:233-260 | the method fills the scheme in place exactly as `VerifyS` states |
| Registry.SchemeRegistry.PopulateRemaps | src/configs.rs:245-249 | the remaps loop in place, as `RemapsS` states |
| Registry.SchemeRegistry.PopulateFunctions | src/configs.rs:250-258 | the functions loop in place, as `FunctionsS` states |
| Registry.SchemeRegistry.PopulateBindmap | src/configs.rs:261-312 | the populate loop returns the result and the map of `PopulateS`, and leaves the store it states |
| Registry.SchemeRegistry.MergeInclusions | src/configs.rs:272-306 | the loop over one `@INCLUDE` array, as `IncludesS` states |
| Registry.SchemeRegistry.MergeInclusion | src/configs.rs:273-305 | one inclusion (fetch, select, populate into the same map), as `IncludeS` states |
| RegistryFacts.GetEvolves | src/configs.rs:219-232 | `get` keeps every table, root context and `verified` flag, only adds keys to maps, and keeps remaps and functions named after table entries |
| RegistryFacts.VerifyEvolves | src/configs.rs:233-260 | the same for `verify_scheme` |
| RegistryFacts.RemapsEvolves | src/configs.rs:245-249 | the same for the remaps loop |
| RegistryFacts.FunctionsEvolves | src/configs.rs:250-258 | the same for the functions loop |
| RegistryFacts.PopulateEvolves | src/configs.rs:261-312 | the same for `populate_bindmap` |
| RegistryFacts.IncludesEvolves | src/configs.rs:272-306 | the same for the inclusion loop |
| RegistryFacts.IncludeEvolves | src/configs.rs:273-305 | the same for one inclusion |
| RegistryFacts.RemapsCover | src/configs.rs:245-249 | after a successful remaps loop every entry of the `remaps` table has a remap of its name |
| RegistryFacts.FunctionsCover | src/configs.rs:250-258 | after a successful functions loop every entry of the `functions` table has a function of its name |
| RegistryProps.PopulateOk | src/configs.rs:269-311 | a successful population accepted only string entries and `@INCLUDE` arrays of strings, and every plain key is in the filled map |
| RegistryProps.PlainPopulate | src/configs.rs:308 | a table without `@INCLUDE` leaves the store as it is, succeeds exactly when every entry is a string, and then holds the old keys plus the table's keys, with old values kept where the table is silent |
| RegistryProps.PlainEntrySticks | src/configs.rs:308 | the include-free case of `RegistryFrame.EntrySticks`: after a plain entry `k = v`, the map holds `v` under `k` if no later entry has key `k` and no `@INCLUDE` follows |
| RegistryProps.PlainTableValues | src/configs.rs:308 | in a plain table with distinct keys, a successful population maps every key to its string |
| RegistryProps.RemapsOk | src/configs.rs:245-249 | a successful remaps loop saw only tables, each of accepted bindings |
| RegistryProps.FunctionsOk | src/configs.rs:250-258 | a successful functions loop saw only tables with string `shell` and `command` |
| RegistryProps.VerifiedUnchanged | src/configs.rs:237-239 | a scheme flagged verified is returned `Ok` with the store unchanged |
| RegistryProps.VerifyOkShapes | src/configs.rs:244-259 | an unverified scheme verifies only if `bindings`, `remaps` and `functions` are tables, every binding and remap entry is accepted and every function has a string `shell` and `command` |
| RegistryProps.VerifyOkKeys | src/configs.rs:244-259 | after a successful verification the remap names equal the keys of the `remaps` table, the function names equal the keys of the `functions` table, and every plain key of the `bindings` table is bound |
| RegistryProps.BindingsErrVerifyErr | src/configs.rs:244 | a failure while populating the bindings fails the verification |
| RegistryProps.GetMeaning | src/configs.rs:224-230 | an unknown name is `Ok(None)` and changes nothing; a known name gives its index exactly when verification succeeds and the verification's error otherwise |
| RegistryProps.VerifiedFlagsKept | src/configs.rs:237-239 | no `get` ever changes a `verified` flag |
| RegistryProps.RegisteredStoreInv | src/configs.rs:72-81 | a freshly registered store has only unverified schemes and trivially keeps the key-set invariant |
| RegistryProps.IncludeOutOfFuel | src/configs.rs:276 | at the nesting bound an inclusion is the model's depth error and changes nothing |
| RegistryProps.IncludeMeaning | src/configs.rs:273-305 | an unknown scheme is `Misc(UnrecognizedScheme)` at the `@INCLUDE` context; an error from `get` passes through; a missing table at the branch is `TableRefExpect` at `@INCLUDE`; otherwise the selected table is populated into the same map |
| RegistryProps.IncludesStopAtErr | src/configs.rs:272-305 | the inclusions of one `@INCLUDE` entry stop at the first that fails, whose error, partial map and store are the outcome |
| RegistryProps.IncludeEntryErr | src/configs.rs:270-273 | an `@INCLUDE` entry at any position whose inclusions fail ends the population there with the inclusions' error, map and store |
| RegistryProps.BindingsSubPathFails | src/configs.rs:289-305 | a sub-path inclusion into an unverified scheme from a table fetched under `bindings` always fails |
| RegistryProps.SingleInclusionArray | src/configs.rs:272 | an `@INCLUDE` array of one string is read as that single inclusion |
| RegistryProps.SubPathEntryFails | src/configs.rs:270-305 | a `bindings` table opening with an `@INCLUDE` of one sub-path inclusion into an unverified scheme fails to populate |
| RegistryProps.SubTableInclusionExample | src/configs.rs:289-305 | a scheme including `B.sub`, where `B`'s bindings hold a table `sub`, cannot be fetched |
| RegistryFrame.PopulateFrame | src/configs.rs:269-311 | a population, successful or not, leaves every key outside the keys it writes (its plain entries and what its `@INCLUDE`s pull in) as it was in the map passed in |
| RegistryFrame.IncludesFrame | src/configs.rs:272-306 | the same for the inclusions of one `@INCLUDE` entry |
| RegistryFrame.IncludeFrame | src/configs.rs:273-305 | the same for one inclusion |
| RegistryFrame.IncludeFetchedFrame | src/configs.rs:276-305 | the same for the population of the table an inclusion selects |
| RegistryFrame.EntrySticks | src/configs.rs:308 | after a plain entry `k = v`, the map holds `v` under `k` at the end, on success or error, unless the rest of the population (later entries and what their `@INCLUDE`s pull in) writes `k` again |
| RegistryFrame.PlainWritten | src/configs.rs:308 | without `@INCLUDE` entries a population writes only keys of the table |
| RegistryFrame.EmptyIncludeWritesNothing | src/configs.rs:270-308 | an entry `k = v` followed by an empty `@INCLUDE` array succeeds and leaves `v` under `k` |
| RegistryFuel.GetMoreFuel | src/configs.rs:219-232 | a `get` result other than the depth error is the same, with the same store, with one more level of fuel |
| RegistryFuel.VerifyMoreFuel | src/configs.rs:233-260 | the same for `verify_scheme` |
| RegistryFuel.RemapsMoreFuel | src/configs.rs:245-249 | the same for the remaps loop |
| RegistryFuel.PopulateMoreFuel | src/configs.rs:261-312 | the same for `populate_bindmap`, including the filled map |
| RegistryFuel.IncludesMoreFuel | src/configs.rs:272-306 | the same for the inclusion loop |
| RegistryFuel.IncludeMoreFuel | src/configs.rs:273-305 | the same for one inclusion |
| RegistryFuel.IncludeFetchedMoreFuel | src/configs.rs:276-305 | the same for what follows the `get` of an included scheme |
| RegistryFuel.GetFuelStable | src/configs.rs:219-232 | a `get` not cut short at some fuel gives the same result and store at every larger fuel |
| RegistryFuel.PopulateFuelStable | src/configs.rs:261-312 | the same for `populate_bindmap` |
| Lib.Remap | src/lib.rs:12-19 | the remapped map has the same keys and size, and each value is the function applied once to the original value |
| Lib.GetArrayStrings | src/lib.rs:26-39 | succeeds exactly on an array of strings and lists them in order; a missing key or non-array is the array lookup's error, a non-string element the wrong-type error at `context.with(key)` |
| Tagfile.OptionalListMeaning | src/tagfile.rs:73-78 | an optional list is absent (read as the empty list) or an array of strings read in order; anything else fails |
| Tagfile.GroupOptions | src/tagfile.rs:69-72 | absent `options` are `Options::default()`; a present table is parsed by `Options::from_table`; succeeds exactly when absent or accepted |
| Tagfile.SchemeSpecOf | src/tagfile.rs:73-79 | `name` is required and a string; `remaps` and `functions` are optional string lists, empty when absent, else in order; a missing `name` is its missing-key error |
| Tagfile.TagGroupFromTable | src/tagfile.rs:66-90 | succeeds exactly when `files` is an array of strings, `scheme` is a table with valid settings, and `options` are absent or valid; `files` keep order and length |
| Tagfile.TagGroupErrors | src/tagfile.rs:67-79 | which error a rejected table gets, in the order `files`, `scheme`, `options`, scheme settings |
| Tagfile.LoadGroups | src/tagfile.rs:52 | every group path is loaded beside `main.toml`, in order; it fails exactly when some load fails, with the first failure |
| Tagfile.GenerateFromDir | src/tagfile.rs:44-63 | a successful result holds the `main.toml` path and table, never both `files` and groups, groups exactly when `groups` is present, and those are the listed files loaded in order |
| Tagfile.MainLoadFails | src/tagfile.rs:46-47 | a `main.toml` that cannot be loaded is a `Root` error |
| Tagfile.GroupsMistyped | src/tagfile.rs:48-50 | a `groups` that is not an array of strings is a `TableGet` error |
| Tagfile.NoGroups | src/tagfile.rs:51-54 | without `groups` the root has no groups, even with `files` |
| Tagfile.GroupLoadErrorFirst | src/tagfile.rs:52-56 | a failing group load is a `Root` error with the first failure, even when `files` is present |
| Tagfile.FilesAndGroupsExclusive | src/tagfile.rs:55-57 | `files` together with loadable `groups` is `FilesAndGroupExist` carrying the `main.toml` path |
| Tagfile.GroupsLoaded | src/tagfile.rs:48-60 | loadable `groups` without `files` is a success holding the `main.toml` path and table and the groups loaded in order |
| Tagfile.GroupsRead | src/tagfile.rs:48-50 | the group list read from `main.toml` is the array of strings stored under `groups` |

## Left out

- Directory search, file reading and TOML parsing in `load_dir` (`src/configs.rs:162-193`) are
  filesystem and parser I/O. Their results are the input list of `SourceFile` values. The
  `".toml"` extension filter and the warnings for skipped files are outside the model.
- `TableRoot::from_file_path`, as used by `generate_from_dir`, is a parameter `load` from paths
  to results. Its error type `RootErr` is a type parameter.
- Paths are strings. `dir.join(name)` and `path.with_file_name(name)` are both
  `dir + "/" + name`. Absolute names, `..` and platform separators are not modelled.
- `BindFunction::apply` (`src/configs.rs:43-60`) runs a shell process and uses `escaped_manip`.
  `escaped_manip` is not part of this model.
- `do_axbind` (`src/lib.rs:20-25`) ends in `todo!()`. It promises nothing.
- The `OptWrite` merge of `Options` and `MetaOptions` comes from a macro that is not part of this
  model.
- The `gfunc` and `toml_context` internals are not part of this model. These are
  `TableHandle::get`, `extract_value!`, `extract_array_strings` and the formatting of `Context`.
  Only their observable lookup and type-check behaviour is modelled, in `toml.dfy`.
- `src/main.rs` and `src/args.rs` are I/O plumbing: command-line parsing, path expansion,
  configuration reading and diagnostics.
- `Display` implementations and `eprintln!` output are left out. `Misc` messages are the
  structured `MiscReason`.
- Non-terminating inclusion chains are not modelled. Any inclusion cycle makes the source
  recurse without end, because `verified` is never set. The model stops at `fuel` nested levels
  with `InclusionTooDeep`. That result has no counterpart in the source. Every other result is
  independent of the fuel beyond the level it was reached at (`RegistryFuel.GetFuelStable`,
  `RegistryFuel.PopulateFuelStable`).
- Pointer aliasing during re-entrant verification is not modelled:
  - The source writes a scheme's bindings through a `&mut` while nested inclusions may reach the
    same scheme.
  - The model instead threads the store through each call and writes the filled map back when
    the call returns.
  - The two differ only if a scheme is re-entered during its own verification. That is an
    inclusion cycle, which never terminates in the source.
- Lib.Remap: the map is passed in and the rewritten map handed back, rather than updated in
  place through `iter_mut`. The closure is a pure function of the old value.
- Registry.GetS: its own contract states only that every table is kept and that a returned
  index is the lookup's. `RegistryProps.GetMeaning` states its outcome (`Ok(None)` exactly for
  an unknown name, else the index or verification's error), `RegistryFacts.GetEvolves` that
  root contexts and flags are kept, maps only gain keys and the key-set invariant holds, and
  `RegistryFuel.GetMoreFuel` that fuel does not change it.
- Registry.VerifyS: its own contract states only that every table is kept.
  `RegistryProps.VerifiedUnchanged`, `RegistryProps.VerifyOkShapes`,
  `RegistryProps.VerifyOkKeys` and `RegistryProps.BindingsErrVerifyErr` state when it succeeds
  and what it fills in; `RegistryFacts.VerifyEvolves` how the store may change.
- Registry.RemapsS: its own contract states only that every table is kept.
  `RegistryProps.RemapsOk` states what a successful loop accepted, `RegistryFacts.RemapsCover`
  that every entry has its remap, `RegistryFacts.RemapsEvolves` how the store may change.
- Registry.FunctionsS: its own contract states only that every table is kept.
  `RegistryProps.FunctionsOk` states what a successful loop accepted,
  `RegistryFacts.FunctionsCover` that every entry has its function,
  `RegistryFacts.FunctionsEvolves` how the store may change.
- Registry.PopulateS: its own contract states only that every table and every key of the map
  are kept. `RegistryProps.PopulateOk`, `RegistryProps.PlainPopulate`,
  `RegistryProps.IncludeEntryErr` and `RegistryFrame.PopulateFrame` state which tables succeed
  and what the map holds; `RegistryFacts.PopulateEvolves` how the store may change.
- Registry.IncludesS: its own contract states only that every table and every key of the map
  are kept. `RegistryProps.IncludesStopAtErr` and `RegistryFrame.IncludesFrame` state its
  outcome; `RegistryFacts.IncludesEvolves` how the store may change.
- Registry.IncludeS: its own contract states only that every table and every key of the map
  are kept. `RegistryProps.IncludeMeaning`, `RegistryProps.IncludeOutOfFuel` and
  `RegistryFrame.IncludeFrame` state its outcome; `RegistryFacts.IncludeEvolves` how the store
  may change.
- Registry.IncludeFetched: its own contract states only that every table and every key of the
  map are kept. `RegistryProps.IncludeMeaning` states its outcomes (through `IncludeS`),
  `RegistryFrame.IncludeFetchedFrame` which keys it may write.
- Tagfile.GenerateFromDir: its own contract states what a success holds, not when one occurs.
  `Tagfile.NoGroups` and `Tagfile.GroupsLoaded` state the two successful cases, and
  `Tagfile.MainLoadFails`, `Tagfile.GroupsMistyped`, `Tagfile.GroupLoadErrorFirst` and
  `Tagfile.FilesAndGroupsExclusive` the failures.
- Registry.Register: its own contract states only that the lookup is in range.
  `Registry.RegisterKeepsTables` and `Registry.RegisterLastWins` state what it builds.
- The order in which Rust's `HashMap` or TOML iteration visits entries is modelled as the order of
  the entry sequence.
