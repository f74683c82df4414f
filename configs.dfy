/**
 * The value-level part of `src/configs.rs`: configuration errors, single-character
 * validation, the option tables, the scheme record and the split of an inclusion string.
 */
module Configs {
  import opened Wrappers
  import opened Toml

  /** What a `ConfigError::Misc` message reports. */
  datatype MiscReason =
    | NotOneCharacter(context: Context)              // "value for '..' must be exactly 1 character"
    | UnrecognizedScheme(name: string, context: Context)

  datatype ConfigError =
    | TableGet(getError: TableGetError)
    | Misc(reason: MiscReason)
    | TableRefExpect(context: Context, getError: TableGetError)
    /** Not in the source: the model's bound on nested `@INCLUDE` levels was reached. */
    | InclusionTooDeep(context: Context)

  /** `From<TableGetError> for ConfigError`, applied to a lookup result. */
  function Lift<T>(r: TableResult<T>): Result<T, ConfigError> {
    match r
    case Ok(v) => Ok(v)
    case Err(e) => Err(TableGet(e))
  }

  // ---------------------------------------------------------------- validate_char

  /** Bytes taken by `c` in UTF-8. */
  function Utf8Width(c: char): nat {
    if c as int < 0x80 then 1
    else if c as int < 0x800 then 2
    else if c as int < 0x1_0000 then 3
    else 4
  }

  /** `str::len`: the length of `s` in UTF-8 bytes. */
  function Utf8Length(s: string): nat
    decreases |s|
  {
    if s == [] then 0 else Utf8Width(s[0]) + Utf8Length(s[1..])
  }

  lemma {:induction false} Utf8LengthAtLeastChars(s: string)
    ensures Utf8Length(s) >= |s|
    decreases |s|
  {
    if s != [] {
      Utf8LengthAtLeastChars(s[1..]);
    }
  }

  /** A string is one UTF-8 byte long exactly when it is one ASCII character. */
  lemma {:induction false} Utf8LengthOne(s: string)
    ensures Utf8Length(s) == 1 <==> |s| == 1 && s[0] as int < 0x80
  {
    if s != [] {
      Utf8LengthAtLeastChars(s[1..]);
      if |s| == 1 {
        assert s[1..] == [];
      }
    }
  }

  /** `validate_char`: accepts a string of exactly one byte and yields its character. */
  function ValidateChar(raw: string, context: Context): (r: Result<char, ConfigError>)
    ensures r.Ok? <==> |raw| == 1 && raw[0] as int < 0x80
    ensures r.Ok? ==> r.value == raw[0]
    ensures r.Err? ==> r.error == Misc(NotOneCharacter(context))
  {
    Utf8LengthOne(raw);
    if Utf8Length(raw) != 1 then Err(Misc(NotOneCharacter(context))) else Ok(raw[0])
  }

  /** One character that needs more than one byte, such as 'é', is rejected. */
  lemma MultiByteCharRejected(c: char, context: Context)
    requires c as int >= 0x80
    ensures ValidateChar([c], context) == Err(Misc(NotOneCharacter(context)))
  {
  }

  // ---------------------------------------------------------------- option tables

  datatype MetaOptions = MetaOptions(internalEscapeChar: Option<char>, wildcardChar: Option<char>)

  datatype Options = Options(keyFormat: Option<string>, escapeChar: Option<char>)

  /** `Options::default()`: no field set. */
  function DefaultOptions(): Options {
    Options(None, None)
  }

  /** The optional character setting under `key` may be absent or a one-byte string. */
  ghost predicate CharSettingValid(entries: Entries, key: string) {
    match Find(entries, key)
    case None => true
    case Some(v) => v.Str? && |v.s| == 1 && v.s[0] as int < 0x80
  }

  /** The character setting under `key` reads as `o`: absent gives `None`. */
  ghost predicate CharSetting(entries: Entries, key: string, o: Option<char>) {
    match Find(entries, key)
    case None => o == None
    case Some(v) => v.Str? && |v.s| == 1 && o == Some(v.s[0])
  }

  /** An optional single-character setting, validated against `context`. */
  function OptionalChar(t: TableHandle, key: string, context: Context): (r: Result<Option<char>, ConfigError>)
    ensures r.Ok? <==> CharSettingValid(t.entries, key)
    ensures r.Ok? ==> CharSetting(t.entries, key, r.value)
    ensures Find(t.entries, key).Some? && !Find(t.entries, key).value.Str? ==>
              r == Err(TableGet(TableGetError(t.context.With(key), key, WrongType(ExpectString))))
    ensures Find(t.entries, key).Some? && Find(t.entries, key).value.Str? && r.Err? ==>
              r == Err(Misc(NotOneCharacter(context)))
  {
    match Optional(AsString(Get(t, key)))
    case Err(e) => Err(TableGet(e))
    case Ok(None) => Ok(None)
    case Ok(Some(s)) =>
      match ValidateChar(s, context)
      case Err(e) => Err(e)
      case Ok(c) => Ok(Some(c))
  }

  /** `MetaOptions::from_table`: both characters optional, validated against the table's context. */
  function MetaOptionsFromTable(t: TableHandle): (r: Result<MetaOptions, ConfigError>)
    ensures r.Ok? <==> CharSettingValid(t.entries, "internal_escapechar") && CharSettingValid(t.entries, "wildcard_char")
    ensures r.Ok? ==> CharSetting(t.entries, "internal_escapechar", r.value.internalEscapeChar)
    ensures r.Ok? ==> CharSetting(t.entries, "wildcard_char", r.value.wildcardChar)
  {
    var esc :- OptionalChar(t, "internal_escapechar", t.context);
    var wild :- OptionalChar(t, "wildcard_char", t.context);
    Ok(MetaOptions(esc, wild))
  }

  /** A required single-character setting, validated against `context.with(key)`. */
  function RequiredChar(t: TableHandle, key: string): (r: Result<char, ConfigError>)
    ensures r.Ok? <==> Find(t.entries, key).Some? && CharSettingValid(t.entries, key)
    ensures r.Ok? ==> CharSetting(t.entries, key, Some(r.value))
    ensures Find(t.entries, key).None? ==> r == Err(TableGet(TableGetError(t.context.With(key), key, NoKey)))
  {
    var s :- Lift(AsString(Get(t, key)));
    ValidateChar(s, t.context.With(key))
  }

  /** `MetaOptions::from_table_forced`: both characters required; on success both are set. */
  function MetaOptionsFromTableForced(t: TableHandle): (r: Result<MetaOptions, ConfigError>)
    ensures r.Ok? <==>
              && Find(t.entries, "internal_escapechar").Some? && CharSettingValid(t.entries, "internal_escapechar")
              && Find(t.entries, "wildcard_char").Some? && CharSettingValid(t.entries, "wildcard_char")
    ensures r.Ok? ==> r.value.internalEscapeChar.Some? && r.value.wildcardChar.Some?
    ensures r.Ok? ==> CharSetting(t.entries, "internal_escapechar", r.value.internalEscapeChar)
    ensures r.Ok? ==> CharSetting(t.entries, "wildcard_char", r.value.wildcardChar)
    ensures Find(t.entries, "internal_escapechar").None? ==>
              r == Err(TableGet(TableGetError(t.context.With("internal_escapechar"), "internal_escapechar", NoKey)))
  {
    var esc :- RequiredChar(t, "internal_escapechar");
    var wild :- RequiredChar(t, "wildcard_char");
    Ok(MetaOptions(Some(esc), Some(wild)))
  }

  /** `Options::from_table`: `key_format` is any optional string, `escape_char` an optional character. */
  function OptionsFromTable(t: TableHandle): (r: Result<Options, ConfigError>)
    ensures r.Ok? <==>
              && (Find(t.entries, "key_format").Some? ==> Find(t.entries, "key_format").value.Str?)
              && CharSettingValid(t.entries, "escape_char")
    ensures r.Ok? && Find(t.entries, "key_format").None? ==> r.value.keyFormat == None
    ensures r.Ok? && Find(t.entries, "key_format").Some? ==> r.value.keyFormat == Some(Find(t.entries, "key_format").value.s)
    ensures r.Ok? ==> CharSetting(t.entries, "escape_char", r.value.escapeChar)
  {
    OptionalStringMeaning(t, "key_format");
    var keyFormat :- Lift(Optional(AsString(Get(t, "key_format"))));
    var escape :- OptionalChar(t, "escape_char", t.context);
    Ok(Options(keyFormat, escape))
  }

  // ---------------------------------------------------------------- schemes

  /** `BindFunction`: the interpreter and the command template of one scheme function. */
  datatype BindFunction = BindFunction(shell: string, command: string)

  /** `Scheme`: the raw table and root context, the maps that verification fills in, and the flag. */
  datatype Scheme = Scheme(
    bindings: map<string, string>,
    remaps: map<string, map<string, string>>,
    functions: map<string, BindFunction>,
    rootContext: string,
    table: Entries,
    verified: bool)

  /** `Scheme::construct_unverified`. */
  function ConstructUnverified(table: Entries, rootContext: string): Scheme {
    Scheme(map[], map[], map[], rootContext, table, false)
  }

  /** `dir.join(name)` for a relative `name`, written as a string. */
  function JoinPath(dir: string, name: string): string {
    dir + "/" + name
  }

  /** The handle verification reads a scheme's table through. */
  function SchemeHandle(s: Scheme): TableHandle {
    TableHandle(s.table, Context(s.rootContext, []))
  }

  // ---------------------------------------------------------------- split_once('.')

  /** The position of the first '.' in `s`. */
  function FirstDot(s: string): (r: Option<nat>)
    ensures r.None? <==> '.' !in s
    ensures r.Some? ==> r.value < |s| && s[r.value] == '.' && '.' !in s[..r.value]
    decreases |s|
  {
    if s == [] then None
    else if s[0] == '.' then Some(0)
    else
      match FirstDot(s[1..])
      case None =>
        assert forall i :: 1 <= i < |s| ==> s[i] == s[1..][i - 1];
        None
      case Some(i) =>
        assert s[..i + 1] == [s[0]] + s[1..][..i];
        Some(i + 1)
  }

  /** `inclusion.split_once('.').unwrap_or((inclusion, ""))`: scheme name and sub-path. */
  function SplitInclusion(inclusion: string): (string, string) {
    match FirstDot(inclusion)
    case None => (inclusion, "")
    case Some(i) => (inclusion[..i], inclusion[i + 1..])
  }

  /** Without a dot the whole string is the scheme name and the path is empty; otherwise the
      string is name, dot, path, and the name has no dot. */
  lemma SplitInclusionMeaning(inclusion: string)
    ensures '.' !in inclusion ==> SplitInclusion(inclusion) == (inclusion, "")
    ensures '.' in inclusion ==>
              var r := SplitInclusion(inclusion);
              inclusion == r.0 + "." + r.1 && '.' !in r.0
  {
    match FirstDot(inclusion)
    case None =>
    case Some(i) =>
      assert inclusion == inclusion[..i] + "." + inclusion[i + 1..];
  }

  /** The split is the one at the FIRST dot: any other way of writing the string as
      name, dot, rest with a dot-free name gives the same pair. */
  lemma {:induction false} SplitInclusionUnique(name: string, rest: string)
    requires '.' !in name
    ensures SplitInclusion(name + "." + rest) == (name, rest)
  {
    var s := name + "." + rest;
    var r := SplitInclusion(s);
    SplitInclusionMeaning(s);
    assert s[|name|] == '.';
    assert r.0 == s[..|r.0|];
    assert name == s[..|name|];
    assert r.1 == s[|r.0| + 1..];
  }
}
