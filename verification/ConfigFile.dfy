/** Starting up: the options are loaded, the file is created if there is none, then the command line is read. */
module ConfigFile {
  import opened Sequences
  import opened Settings
  import opened Config

  /** The options before any source has been consulted. */
  ghost predicate Initial(settings: seq<Setting>) {
    forall s :: s in settings ==> HasKind(s.value, s.kind) && !s.fromEnv && !s.fromConfig && !s.fromCommandLine
  }

  ghost predicate SameKinds(a: seq<Setting>, b: seq<Setting>) {
    |a| == |b| && forall i :: 0 <= i < |a| ==> a[i].kind == b[i].kind
  }

  /** The file after a start; an exception leaves it alone. */
  function FileAfter(file: Option<Toml>, l: Option<Loading>): Option<Toml> {
    if file.None? && l.Some? then Some(l.value.config) else file
  }

  function Contents(file: Option<Toml>): Toml {
    if file.Some? then file.value else map[]
  }

  // ---------------------------------------------------------------- one option

  lemma InitKeepsKind(s: Setting, e: Extraction, found: LookResult)
    requires HasKind(e.value, s.kind) && InitOne(s, e, found).Some?
    ensures HasKind(InitOne(s, e, found).value.value, s.kind) && InitOne(s, e, found).value.kind == s.kind
  {
    if !e.ok && found.Here? && s.kind == IntKind {
      NarrowWraps(found.value.number);
    }
  }

  /** An option is saved and read again: its value comes back unless the environment supplies one. */
  lemma SavedAndRead(s: Setting, v: Value, e: Extraction)
    requires HasKind(v, s.kind)
    ensures InitOne(s, e, Here(v)) == Some(
      if e.ok then s.(value := e.value, fromEnv := true, fromDefault := false)
      else s.(value := v, fromConfig := true, fromDefault := false))
  {
  }

  // ---------------------------------------------------------------- whole starts

  /** What the first start makes of an option: it is neither from the file nor from the command line. */
  function AfterFirst(s: Setting, e: Extraction): Setting {
    if e.ok then s.(value := e.value, fromEnv := true, fromDefault := false) else s.(value := e.value)
  }

  /**
    The first start, with no file and any environment: it succeeds, and the file that it
    creates has an entry for exactly the options that were not taken from the environment,
    with the values they have now, and nothing else.
   */
  lemma FirstStart(settings: seq<Setting>, places: seq<Place>, env: map<string, string>)
    requires |settings| == |places| && DistinctPaths(places) && Initial(settings)
    ensures var l := LoadAll(settings, places, env, map[]);
      && l.Some? && |l.value.settings| == |settings|
      && (forall i :: 0 <= i < |settings| ==>
            && l.value.settings[i].fromEnv == FromEnv(settings[i], places[i], env).ok
            && l.value.settings[i] == AfterFirst(settings[i], FromEnv(settings[i], places[i], env))
            && HasKind(l.value.settings[i].value, settings[i].kind)
            && Look(l.value.config, places[i].category, places[i].variable)
               == if l.value.settings[i].fromEnv then Missing else Here(l.value.settings[i].value))
      && (forall c, x :: !IsPath(places, c, x) ==> Look(l.value.config, c, x) == Missing)
  {
    LoadIsPointwise(settings, places, env, map[]);
    var l := LoadAll(settings, places, env, map[]);
    assert Readable(settings, places, env, map[]);
    forall i | 0 <= i < |settings|
      ensures && l.value.settings[i].fromEnv == FromEnv(settings[i], places[i], env).ok
              && l.value.settings[i] == AfterFirst(settings[i], FromEnv(settings[i], places[i], env))
              && HasKind(l.value.settings[i].value, settings[i].kind)
              && Look(l.value.config, places[i].category, places[i].variable)
                 == if l.value.settings[i].fromEnv then Missing else Here(l.value.settings[i].value) {
      assert settings[i] in settings;
      assert InitAt(settings[i], places[i], env, map[]) == Some(l.value.settings[i]);
      ExtractKeepsKind(EnvText(places[i], env), settings[i].kind, settings[i].value);
      InitKeepsKind(settings[i], FromEnv(settings[i], places[i], env), Missing);
      assert Look(l.value.config, places[i].category, places[i].variable)
          == Stored(settings[i], places[i], env, map[], l.value.settings[i]);
    }
  }

  /** What a later start makes of an option that had the value `first` after the first start. */
  function Reloaded(s: Setting, e: Extraction, first: Setting): Setting {
    if e.ok then s.(value := e.value, fromEnv := true, fromDefault := false)
    else if first.fromEnv then s.(value := e.value)
    else s.(value := first.value, fromConfig := true, fromDefault := false)
  }

  /**
    A later start that finds the file of the first one, with any environment and other initial
    values, newly generated identities say: it succeeds, and an option takes its value from
    the environment, or else has the value it had after the first start, or else, if
    the first start took it from the environment, keeps the initial one.
   */
  lemma {:induction false} LaterStart(first: seq<Setting>, env: map<string, string>, settings: seq<Setting>,
                                      later: map<string, string>, places: seq<Place>)
    requires |first| == |places| && DistinctPaths(places) && SameKinds(first, settings)
    requires Initial(first) && Initial(settings)
    ensures LoadAll(first, places, env, map[]).Some?
    ensures
      var saved := LoadAll(first, places, env, map[]).value;
      var l := LoadAll(settings, places, later, saved.config);
      && |saved.settings| == |settings|
      && l.Some? && |l.value.settings| == |settings|
      && forall i :: 0 <= i < |settings| ==>
           l.value.settings[i] == Reloaded(settings[i], FromEnv(settings[i], places[i], later), saved.settings[i])
  {
    FirstStart(first, places, env);
    var saved := LoadAll(first, places, env, map[]).value;
    forall i | 0 <= i < |settings|
      ensures InitAt(settings[i], places[i], later, saved.config)
           == Some(Reloaded(settings[i], FromEnv(settings[i], places[i], later), saved.settings[i])) {
      var e := FromEnv(settings[i], places[i], later);
      if !saved.settings[i].fromEnv {
        SavedAndRead(settings[i], saved.settings[i].value, e);
      }
    }
    LoadIsPointwise(settings, places, later, saved.config);
  }

  /** Without the environment an option is back exactly as it was, unless it had come from the environment. */
  lemma {:induction false} LaterStartWithoutEnvironment(first: seq<Setting>, env: map<string, string>,
                                                        settings: seq<Setting>, later: map<string, string>,
                                                        places: seq<Place>)
    requires |first| == |places| && DistinctPaths(places) && SameKinds(first, settings)
    requires Initial(first) && Initial(settings)
    requires forall p :: p in places ==> EnvText(p, later) == ""
    ensures LoadAll(first, places, env, map[]).Some?
    ensures
      var saved := LoadAll(first, places, env, map[]).value;
      var l := LoadAll(settings, places, later, saved.config);
      && |saved.settings| == |settings|
      && l.Some? && |l.value.settings| == |settings|
      && forall i :: 0 <= i < |settings| ==>
           l.value.settings[i].value == if saved.settings[i].fromEnv then settings[i].value else saved.settings[i].value
  {
    LaterStart(first, env, settings, later, places);
    assert forall i :: 0 <= i < |places| ==> places[i] in places;
  }

  /** Only the four database options can come from the environment. */
  lemma OnlyDatabaseFromEnvironment(s: Setting, i: nat, env: map<string, string>)
    requires 4 <= i < |PLACES|
    ensures FromEnv(s, PLACES[i], env) == Extraction(false, s.value)
  {
    assert PLACES[i].envVar == "" by {
      NoOtherVariable(CLIENT_OPTIONS + SERVER_OPTIONS + WEB_OPTIONS + ADMIN_OPTIONS, i - 4);
      assert PLACES == DATABASE_OPTIONS + (CLIENT_OPTIONS + SERVER_OPTIONS + WEB_OPTIONS + ADMIN_OPTIONS);
    }
  }

  lemma NoOtherVariable(places: seq<Place>, i: nat)
    requires places == CLIENT_OPTIONS + SERVER_OPTIONS + WEB_OPTIONS + ADMIN_OPTIONS && i < |places|
    ensures places[i].envVar == ""
  {
    var p := places[i];
    assert p in CLIENT_OPTIONS || p in SERVER_OPTIONS || p in WEB_OPTIONS || p in ADMIN_OPTIONS;
  }

  /** An option that neither start takes from the environment. */
  lemma SavedAndBack(first: seq<Setting>, env: map<string, string>, settings: seq<Setting>,
                     later: map<string, string>, places: seq<Place>, i: nat)
    requires DistinctPaths(places) && |first| == |places| && SameKinds(first, settings)
    requires Initial(first) && Initial(settings) && i < |places|
    requires FromEnv(first[i], places[i], env) == Extraction(false, first[i].value)
    requires FromEnv(settings[i], places[i], later) == Extraction(false, settings[i].value)
    ensures LoadAll(first, places, env, map[]).Some?
    ensures
      var saved := LoadAll(first, places, env, map[]).value;
      var l := LoadAll(settings, places, later, saved.config);
      && |saved.settings| == |places| && saved.settings[i].value == first[i].value
      && Look(saved.config, places[i].category, places[i].variable) == Here(first[i].value)
      && l.Some? && |l.value.settings| == |places| && l.value.settings[i].value == first[i].value
  {
    FirstStart(first, places, env);
    LoadIsPointwise(first, places, env, map[]);
    LaterStart(first, env, settings, later, places);
    assert InitAt(first[i], places[i], env, map[]) == Some(LoadAll(first, places, env, map[]).value.settings[i]);
  }

  /**
    The program's own 21 options: the first start, with any environment, saves all but database options, and
    every start after it, with any environment and newly generated identities, gives those 17 the same values.
   */
  lemma {:induction false} OptionsSurvive(first: seq<Setting>, env: map<string, string>, settings: seq<Setting>,
                                          later: map<string, string>, i: nat)
    requires |first| == |PLACES| && SameKinds(first, settings) && Initial(first) && Initial(settings)
    requires 4 <= i < |PLACES|
    ensures LoadAll(first, PLACES, env, map[]).Some?
    ensures
      var saved := LoadAll(first, PLACES, env, map[]).value;
      var l := LoadAll(settings, PLACES, later, saved.config);
      && |saved.settings| == |PLACES| && saved.settings[i].value == first[i].value
      && Look(saved.config, PLACES[i].category, PLACES[i].variable) == Here(first[i].value)
      && l.Some? && |l.value.settings| == |PLACES| && l.value.settings[i].value == first[i].value
  {
    PlacesAreDistinct();
    OnlyDatabaseFromEnvironment(first[i], i, env);
    OnlyDatabaseFromEnvironment(settings[i], i, later);
    SavedAndBack(first, env, settings, later, PLACES, i);
  }

  /** Whatever the file, a start never writes an entry for an option that it took from the environment. */
  lemma EnvironmentIsNotSaved(settings: seq<Setting>, places: seq<Place>, env: map<string, string>,
                              file: Option<Toml>, i: nat)
    requires |settings| == |places| && DistinctPaths(places) && i < |settings| && !settings[i].fromEnv
    ensures
      var l := LoadAll(settings, places, env, Contents(file));
      l.Some? ==>
        && |l.value.settings| == |settings|
        && (l.value.settings[i].fromEnv ==>
              Look(Contents(FileAfter(file, l)), places[i].category, places[i].variable)
              == Look(Contents(file), places[i].category, places[i].variable))
  {
    var l := LoadAll(settings, places, env, Contents(file));
    LoadIsPointwise(settings, places, env, Contents(file));
    if l.Some? {
      assert InitAt(settings[i], places[i], env, Contents(file)) == Some(l.value.settings[i]);
      assert Look(l.value.config, places[i].category, places[i].variable)
          == Stored(settings[i], places[i], env, Contents(file), l.value.settings[i]);
    }
  }

  lemma SavedAsExtracted(settings: seq<Setting>, places: seq<Place>, env: map<string, string>, i: nat)
    requires |settings| == |places| && DistinctPaths(places) && Initial(settings) && i < |settings|
    requires !FromEnv(settings[i], places[i], env).ok
    ensures
      var l := LoadAll(settings, places, env, map[]);
      l.Some? && Look(l.value.config, places[i].category, places[i].variable)
        == Here(FromEnv(settings[i], places[i], env).value)
  {
    FirstStart(settings, places, env);
    LoadIsPointwise(settings, places, env, map[]);
    var l := LoadAll(settings, places, env, map[]).value;
    assert InitAt(settings[i], places[i], env, map[]) == Some(l.settings[i]);
  }

  /**
    A port number in the environment that cannot be read is not taken, but it is not harmless
    either.  The first start saves the default of the option if and only if the text is
    blank; else it saves 0 if the text is no number, and the nearer bound if it is out of range.
   */
  lemma {:induction false} UnreadableNumberIsSaved(settings: seq<Setting>, places: seq<Place>,
                                                   env: map<string, string>, i: nat)
    requires |settings| == |places| && DistinctPaths(places) && Initial(settings) && i < |settings|
    requires settings[i].value.VInt? && settings[i].kind == IntKind
    requires settings[i].value.number != 0 && INT_MIN < settings[i].value.number < INT_MAX
    requires !FromEnv(settings[i], places[i], env).ok
    ensures LoadAll(settings, places, env, map[]).Some?
    ensures
      var saved := Look(LoadAll(settings, places, env, map[]).value.config, places[i].category, places[i].variable);
      var text := EnvText(places[i], env);
      var n := Number(SkipSpace(text));
      && (saved == Here(settings[i].value) <==> Blank(text))
      && (!Blank(text) && n.None? ==> saved == Here(VInt(0)))
      && (!Blank(text) && n.Some? ==>
            (n.value > INT_MAX && saved == Here(VInt(INT_MAX))) || (n.value < INT_MIN && saved == Here(VInt(INT_MIN))))
  {
    SavedAsExtracted(settings, places, env, i);
    FailedExtraction(EnvText(places[i], env), settings[i].value);
    LeftBehind(EnvText(places[i], env), settings[i].value);
  }

  lemma PortPlace(env: map<string, string>)
    requires "MONGO_PORT" in env
    ensures |PLACES| == 21 && PLACES[3] == Place("database", "port", "MONGO_PORT")
    ensures EnvText(PLACES[3], env) == env["MONGO_PORT"]
    ensures PLACES[3].category == "database" && PLACES[3].variable == "port"
  {
    var rest := CLIENT_OPTIONS + SERVER_OPTIONS + WEB_OPTIONS + ADMIN_OPTIONS;
    assert PLACES == DATABASE_OPTIONS + rest;
    assert PLACES[3] == DATABASE_OPTIONS[3];
  }

  /** An option whose text in the environment can be read has the value that the text says. */
  lemma TakenFromEnvironment(settings: seq<Setting>, places: seq<Place>, env: map<string, string>, file: Option<Toml>,
                             i: nat, v: Value)
    requires |settings| == |places| && DistinctPaths(places) && i < |settings|
    requires Extract(EnvText(places[i], env), settings[i].kind, settings[i].value) == Extraction(true, v)
    ensures var l := LoadAll(settings, places, env, Contents(file));
      l.Some? ==>
        && |l.value.settings| == |settings|
        && l.value.settings[i] == settings[i].(value := v, fromEnv := true, fromDefault := false)
  {
    LoadIsPointwise(settings, places, env, Contents(file));
    var l := LoadAll(settings, places, env, Contents(file));
    if l.Some? {
      assert InitAt(settings[i], places[i], env, Contents(file)) == Some(l.value.settings[i]);
    }
  }

  /**
    `MONGO_PORT` set to a printed number, with a sign or without: whatever the file, the port is that number.
    With an empty table the start succeeds as well.
   */
  lemma {:induction false} PortFromEnvironment(settings: seq<Setting>, env: map<string, string>, file: Option<Toml>,
                                               sign: string, n: nat)
    requires |settings| == |PLACES| && settings[3].kind == IntKind && IsSign(sign)
    requires "MONGO_PORT" in env && env["MONGO_PORT"] == sign + Printed(n)
    requires var m: int := if sign == "-" then 0 - n else n; INT_MIN <= m <= INT_MAX
    ensures var l := LoadAll(settings, PLACES, env, Contents(file));
      l.Some? ==>
        && |l.value.settings| == |settings|
        && l.value.settings[3] ==
           settings[3].(value := VInt(if sign == "-" then 0 - n else n), fromEnv := true, fromDefault := false)
    ensures Initial(settings) && file.None? ==> LoadAll(settings, PLACES, env, Contents(file)).Some?
  {
    PortPlace(env);
    PlacesAreDistinct();
    PrintedTaken(n, env["MONGO_PORT"], sign, settings[3].value);
    TakenFromEnvironment(settings, PLACES, env, file, 3, VInt(if sign == "-" then 0 - n else n));
    if Initial(settings) && file.None? {
      FirstStart(settings, PLACES, env);
    }
  }

  /** The program's own options: a word as the port saves port 0. */
  lemma {:induction false} WordSavedAsPort(settings: seq<Setting>)
    requires |settings| == |PLACES| && Initial(settings) && settings[3].kind == IntKind
    ensures var l := LoadAll(settings, PLACES, map["MONGO_PORT" := "abc"], map[]);
      l.Some? && HasEntry(l.value.config, "database", "port", VInt(0))
  {
    var env := map["MONGO_PORT" := "abc"];
    PortPlace(env);
    PlacesAreDistinct();
    NoNumber("abc");
    assert settings[3] in settings;
    assert Extract("abc", IntKind, settings[3].value) == Extraction(false, VInt(0));
    SavedAsExtracted(settings, PLACES, env, 3);
    LookFindsEntry(LoadAll(settings, PLACES, env, map[]).value.config, "database", "port", VInt(0));
  }

  /** And a number that is too large saves the largest one. */
  lemma {:induction false} LargeNumberSavedAsPort(settings: seq<Setting>)
    requires |settings| == |PLACES| && Initial(settings) && settings[3].kind == IntKind
    ensures var l := LoadAll(settings, PLACES, map["MONGO_PORT" := "2147483648"], map[]);
      l.Some? && HasEntry(l.value.config, "database", "port", VInt(INT_MAX))
  {
    var env := map["MONGO_PORT" := "2147483648"];
    PortPlace(env);
    PlacesAreDistinct();
    var text := TooLarge();
    DigitsAreNumber(text);
    assert settings[3] in settings;
    assert Extract("2147483648", IntKind, settings[3].value) == Extraction(false, VInt(INT_MAX));
    SavedAsExtracted(settings, PLACES, env, 3);
    LookFindsEntry(LoadAll(settings, PLACES, env, map[]).value.config, "database", "port", VInt(INT_MAX));
  }

  // ---------------------------------------------------------------- the objects

  class TomlValue {
    var tables: Toml

    constructor (tables: Toml)
      ensures this.tables == tables
    {
      this.tables := tables;
    }
  }

  class Disk {
    var file: Option<Toml>
  }

  class ConfigurableOption {
    const kind: OptionKind
    var value: Value
    var fromEnv: bool
    var fromConfig: bool
    var fromCommandLine: bool
    var fromDefault: bool

    ghost function State(): Setting
      reads this
    {
      Setting(kind, value, fromEnv, fromConfig, fromCommandLine, fromDefault)
    }

    constructor (kind: OptionKind, value: Value)
      ensures State() == Setting(kind, value, false, false, false, true)
    {
      this.kind, this.value := kind, value;
      fromEnv, fromConfig, fromCommandLine, fromDefault := false, false, false, true;
    }

    method ConfigureIfEnvVarNotEmpty(place: Place, env: map<string, string>) returns (ok: bool)
      modifies `value
      ensures FromEnv(old(State()), place, env) == Extraction(ok, value)
      ensures place.envVar == "" || place.envVar !in env ==> !ok && value == old(value)
      ensures place.envVar != "" && place.envVar in env ==>
        Extraction(ok, value) == Extract(env[place.envVar], kind, old(value))
    {
      if place.envVar == "" || place.envVar !in env {
        return false;
      }
      var e := Extract(env[place.envVar], kind, value);
      ok, value := e.ok, e.value;
    }

    method Init(config: TomlValue, place: Place, env: map<string, string>) returns (ok: bool)
      modifies this, config
      ensures var loaded := InitAt(old(State()), place, env, old(config.tables));
        && ok == loaded.Some?
        && (ok ==> State() == loaded.value
                   && config.tables == Save(old(config.tables), FromEnv(old(State()), place, env).ok, place, value))
    {
      ok := ConfigureIfEnvVarNotEmpty(place, env);
      if ok {
        fromEnv, fromDefault := true, false;
        return;
      }
      match Look(config.tables, place.category, place.variable)
      case Broken =>
        return false;
      case Missing =>
        config.tables := Put(config.tables, place.category, place.variable, value);
        return true;
      case Here(found) =>
        var read := Convert(found, kind);
        if read.None? {
          return false;
        }
        value, fromConfig, fromDefault := read.value, true, false;
        config.tables := Put(config.tables, place.category, place.variable, value);
        return true;
    }

    /** Assignment through the command line wrapper. */
    method SetFromCommandLine(v: Value)
      modifies this
      ensures State() == old(State()).(value := v, fromCommandLine := true, fromDefault := false)
    {
      fromCommandLine, fromDefault := true, false;
      value := v;
    }
  }

  ghost function States(options: seq<ConfigurableOption>): (states: seq<Setting>)
    reads options
    ensures |states| == |options|
  {
    if options == [] then [] else States(options[..|options|-1]) + [options[|options|-1].State()]
  }

  /** An exception ends the program with the file as it was. */
  method LoadOrCreateConfig(options: seq<ConfigurableOption>, places: seq<Place>, env: map<string, string>, disk: Disk)
    returns (ok: bool)
    requires |options| == |places| && Distinct(options)
    modifies options, disk
    ensures
      var l := LoadAll(old(States(options)), places, env, Contents(old(disk.file)));
      && ok == l.Some?
      && (ok ==> States(options) == l.value.settings)
      && disk.file == FileAfter(old(disk.file), l)
      && (old(disk.file).Some? || !ok ==> disk.file == old(disk.file))
      && (old(disk.file).None? && ok ==> disk.file == Some(l.value.config))
  {
    var configFileExists := disk.file.Some?;
    var config := new TomlValue(if configFileExists then disk.file.value else map[]);
    ok := InitAll(options, places, env, config);
    if !ok {
      return;
    }
    if !configFileExists {
      disk.file := Some(config.tables);
    }
  }

  lemma {:induction false} StatesAt(options: seq<ConfigurableOption>, i: nat)
    requires i < |options|
    ensures States(options)[i] == options[i].State()
  {
    if i < |options| - 1 {
      StatesAt(options[..|options|-1], i);
    }
  }

  lemma StatesNext(options: seq<ConfigurableOption>, i: nat)
    requires i < |options|
    ensures States(options[..i + 1]) == States(options[..i]) + [options[i].State()]
  {
    assert options[..i + 1][..i] == options[..i];
  }

  lemma LoadNext(settings: seq<Setting>, places: seq<Place>, env: map<string, string>, config: Toml, i: nat,
                 before: Loading)
    requires |settings| == |places| && i < |settings|
    requires LoadAll(settings[..i], places[..i], env, config) == Some(before)
    ensures LoadAll(settings[..i + 1], places[..i + 1], env, config) == Next(before, settings[i], places[i], env)
  {
    assert settings[..i + 1][..i] == settings[..i] && places[..i + 1][..i] == places[..i];
  }

  /** The first `i` options are loaded, the others untouched. */
  ghost predicate Progress(options: seq<ConfigurableOption>, places: seq<Place>, env: map<string, string>,
                           config: TomlValue,
                           i: nat, before: seq<Setting>, table: Toml)
    reads options, config
  {
    && i <= |options| == |places| == |before|
    && (forall j :: i <= j < |options| ==> options[j].State() == before[j])
    && LoadAll(before[..i], places[..i], env, table) == Some(Loading(States(options[..i]), config.tables))
  }

  lemma ProgressAtStart(options: seq<ConfigurableOption>, places: seq<Place>, env: map<string, string>,
                        config: TomlValue)
    requires |options| == |places|
    ensures Progress(options, places, env, config, 0, States(options), config.tables)
  {
    forall j | 0 <= j < |options| ensures options[j].State() == States(options)[j] {
      StatesAt(options, j);
    }
  }

  lemma {:induction false} ProgressAtEnd(options: seq<ConfigurableOption>, places: seq<Place>,
                                         env: map<string, string>, config: TomlValue,
                                         before: seq<Setting>, table: Toml)
    requires Progress(options, places, env, config, |options|, before, table)
    ensures |before| == |places| && LoadAll(before, places, env, table) == Some(Loading(States(options), config.tables))
  {
    var n := |options|;
    assert options[..n] == options && before[..n] == before && places[..n] == places;
  }

  /** The call of `Init` for option `i`. */
  method InitNext(options: seq<ConfigurableOption>, places: seq<Place>, env: map<string, string>, config: TomlValue,
                  i: nat, ghost before: seq<Setting>, ghost table: Toml)
    returns (ok: bool)
    requires Distinct(options) && i < |options| && Progress(options, places, env, config, i, before, table)
    modifies options[i], config
    ensures ok ==> Progress(options, places, env, config, i + 1, before, table)
    ensures !ok ==> LoadAll(before[..i + 1], places[..i + 1], env, table).None?
  {
    ghost var done := States(options[..i]);
    LoadNext(before, places, env, table, i, Loading(done, config.tables));
    ok := options[i].Init(config, places[i], env);
    assert States(options[..i]) == done;
    StatesNext(options, i);
  }

  /** The calls of `Init`, one for each option. */
  method InitAll(options: seq<ConfigurableOption>, places: seq<Place>, env: map<string, string>, config: TomlValue)
    returns (ok: bool)
    requires |options| == |places| && Distinct(options)
    modifies options, config
    ensures
      var l := LoadAll(old(States(options)), places, env, old(config.tables));
      && ok == l.Some?
      && (ok ==> l == Some(Loading(States(options), config.tables)))
  {
    ghost var before, table := States(options), config.tables;
    ProgressAtStart(options, places, env, config);
    for i := 0 to |options|
      invariant Progress(options, places, env, config, i, before, table)
    {
      ok := InitNext(options, places, env, config, i, before, table);
      if !ok {
        FailureEndsLoading(before, places, env, table, i + 1);
        return;
      }
    }
    ProgressAtEnd(options, places, env, config, before, table);
    ok := true;
  }

  /** An assignment through the command line wrapper of the option with that index. */
  datatype Assignment = Assignment(option: nat, value: Value)

  /** The option with index `i` after the assignments. */
  function Assigned(s: Setting, i: nat, given: seq<Assignment>): Setting {
    if given == [] then s
    else
      var last, before := given[|given|-1], Assigned(s, i, given[..|given|-1]);
      if last.option != i then before
      else before.(value := last.value, fromCommandLine := true, fromDefault := false)
  }

  /** The last assignment decides, and the value is no longer a default. */
  lemma {:induction false} LastAssignmentDecides(s: Setting, i: nat, given: seq<Assignment>, k: nat)
    requires k < |given| && given[k].option == i && forall j :: k < j < |given| ==> given[j].option != i
    ensures Assigned(s, i, given) == s.(value := given[k].value, fromCommandLine := true, fromDefault := false)
  {
    var before := given[..|given|-1];
    if k < |given| - 1 {
      LastAssignmentDecides(s, i, before, k);
    } else {
      AssignedKeepsOrigin(s, i, before);
    }
  }

  /** No assignment changes where else the option came from, and an option not assigned stays as it is. */
  lemma {:induction false} AssignedKeepsOrigin(s: Setting, i: nat, given: seq<Assignment>)
    ensures var t := Assigned(s, i, given);
      t.kind == s.kind && t.fromEnv == s.fromEnv && t.fromConfig == s.fromConfig
    ensures (forall g :: g in given ==> g.option != i) ==> Assigned(s, i, given) == s
  {
    if given != [] {
      var before := given[..|given|-1];
      AssignedKeepsOrigin(s, i, before);
      assert forall g :: g in before ==> g in given;
    }
  }

  /** The assignments that the command line parser makes, whichever they are. */
  method AssignAll(options: seq<ConfigurableOption>, given: seq<Assignment>)
    requires Distinct(options) && forall g :: g in given ==> g.option < |options|
    modifies options
    ensures forall i :: 0 <= i < |options| ==> options[i].State() == Assigned(old(options[i].State()), i, given)
  {
    for k := 0 to |given|
      invariant forall i :: 0 <= i < |options| ==>
        options[i].State() == Assigned(old(options[i].State()), i, given[..k])
    {
      assert given[..k + 1][..k] == given[..k];
      options[given[k].option].SetFromCommandLine(given[k].value);
    }
    assert given[..|given|] == given;
  }

  /**
    The options are loaded before the command line is parsed, so the file that a start leaves
    behind does not depend on the command line, while the options do.
   */
  method Start(options: seq<ConfigurableOption>, places: seq<Place>, env: map<string, string>, disk: Disk,
               given: seq<Assignment>)
    returns (ok: bool)
    requires |options| == |places| && Distinct(options) && forall g :: g in given ==> g.option < |options|
    modifies options, disk
    ensures
      var l := LoadAll(old(States(options)), places, env, Contents(old(disk.file)));
      && ok == l.Some?
      && disk.file == FileAfter(old(disk.file), l)
      && (ok ==> |l.value.settings| == |options|)
      && (ok ==> forall i :: 0 <= i < |options| ==> options[i].State() == Assigned(l.value.settings[i], i, given))
  {
    ok := LoadOrCreateConfig(options, places, env, disk);
    if ok {
      forall i | 0 <= i < |options| ensures States(options)[i] == options[i].State() {
        StatesAt(options, i);
      }
      AssignAll(options, given);
    }
  }
}
