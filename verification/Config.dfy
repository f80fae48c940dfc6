/** Loading the configuration file into the options, and creating it on the first start. */
module Config {
  import opened Sequences
  import opened Settings

  /** Where an option is kept: its path in the file and its environment variable, if it has one. */
  datatype Place = Place(category: string, variable: string, envVar: string)

  datatype Section = Table(values: map<string, Value>) | Plain

  type Toml = map<string, Section>

  datatype LookResult = Missing | Here(value: Value) | Broken

  /** `ValueExists` and `find`; an entry that is no table cannot be looked into. */
  function Look(config: Toml, category: string, variable: string): LookResult {
    if category !in config then Missing
    else match config[category]
      case Plain => Broken
      case Table(values) => if variable in values then Here(values[variable]) else Missing
  }

  function Put(config: Toml, category: string, variable: string, v: Value): Toml {
    var values := if category in config && config[category].Table? then config[category].values else map[];
    config[category := Table(values[variable := v])]
  }

  /** The table of the category has the variable with that value. */
  ghost predicate HasEntry(config: Toml, category: string, variable: string, v: Value) {
    && category in config && config[category].Table?
    && variable in config[category].values && config[category].values[variable] == v
  }

  /** What is found is the entry of the variable in the table of the category. */
  lemma LookFindsEntry(config: Toml, category: string, variable: string, v: Value)
    ensures Look(config, category, variable) == Here(v) <==> HasEntry(config, category, variable, v)
    ensures Look(config, category, variable) == Broken <==> category in config && config[category] == Plain
  {
  }

  /** What is put is that entry; the other categories and the other variables of this one stay. */
  lemma PutMakesEntry(config: Toml, category: string, variable: string, v: Value, c: string, x: string, w: Value)
    requires Look(config, category, variable) != Broken
    ensures var after := Put(config, category, variable, v);
      && HasEntry(after, category, variable, v)
      && (c != category ==> (c in after <==> c in config) && (c in config ==> after[c] == config[c]))
      && (x != variable ==> (HasEntry(after, category, x, w) <==> HasEntry(config, category, x, w)))
  {
  }

  /** TOML integers have 64 bits and are cut to 32; a value of another kind cannot be read. */
  function Convert(v: Value, kind: OptionKind): Option<Value> {
    match kind
    case StringKind => if v.VString? then Some(v) else None
    case BoolKind => if v.VBool? then Some(v) else None
    case IntKind => if v.VInt? then Some(VInt(Narrow(v.number))) else None
  }

  function Narrow(n: int): int {
    if INT_MIN <= n <= INT_MAX then n else (n - INT_MIN) % 0x1_0000_0000 + INT_MIN
  }

  /** The number cut to 32 bits: in range, and the same up to a multiple of 2^32. */
  lemma NarrowWraps(n: int)
    ensures INT_MIN <= Narrow(n) <= INT_MAX && (Narrow(n) - n) % 0x1_0000_0000 == 0
    ensures INT_MIN <= n <= INT_MAX ==> Narrow(n) == n
  {
  }

  function EnvText(p: Place, env: map<string, string>): string {
    if p.envVar != "" && p.envVar in env then env[p.envVar] else ""
  }

  function FromEnv(s: Setting, p: Place, env: map<string, string>): Extraction {
    Extract(EnvText(p, env), s.kind, s.value)
  }

  /** `Init` for one option, as far as the option goes; `None` is an exception. */
  function InitOne(s: Setting, e: Extraction, found: LookResult): Option<Setting> {
    if e.ok then Some(s.(value := e.value, fromEnv := true, fromDefault := false))
    else
      match found
      case Broken => None
      case Missing => Some(s.(value := e.value))
      case Here(v) =>
        var w := Convert(v, s.kind);
        if w.Some? then Some(s.(value := w.value, fromConfig := true, fromDefault := false)) else None
  }

  /** An exception: the environment has no value and the file has one that cannot be read. */
  lemma InitFailsIff(s: Setting, e: Extraction, found: LookResult)
    ensures InitOne(s, e, found).None? <==>
      !e.ok && (found.Broken? || (found.Here? && match s.kind
                                                 case StringKind => !found.value.VString?
                                                 case IntKind => !found.value.VInt?
                                                 case BoolKind => !found.value.VBool?))
  {
  }

  function InitAt(s: Setting, p: Place, env: map<string, string>, config: Toml): Option<Setting> {
    InitOne(s, FromEnv(s, p, env), Look(config, p.category, p.variable))
  }

  datatype Loading = Loading(settings: seq<Setting>, config: Toml)

  /** The calls of `Init` in order, each on the table that the ones before it have left. */
  function LoadAll(settings: seq<Setting>, places: seq<Place>, env: map<string, string>, config: Toml): Option<Loading>
    requires |settings| == |places|
  {
    if settings == [] then Some(Loading([], config))
    else
      var n := |settings| - 1;
      var before := LoadAll(settings[..n], places[..n], env, config);
      if before.None? then None else Next(before.value, settings[n], places[n], env)
  }

  function Next(before: Loading, s: Setting, p: Place, env: map<string, string>): Option<Loading> {
    var loaded := InitAt(s, p, env, before.config);
    if loaded.None? then None
    else
      Some(Loading(before.settings + [loaded.value],
                   Save(before.config, FromEnv(s, p, env).ok, p, loaded.value.value)))
  }

  /** A value that was taken from the environment is not entered into the table. */
  function Save(config: Toml, taken: bool, p: Place, v: Value): Toml {
    if taken then config else Put(config, p.category, p.variable, v)
  }

  ghost predicate DistinctPaths(places: seq<Place>) {
    forall i, j :: 0 <= i < j < |places| ==>
      places[i].category != places[j].category || places[i].variable != places[j].variable
  }

  const DATABASE_OPTIONS := [
    Place("database", "username", "MONGO_USERNAME"),
    Place("database", "password", "MONGO_PASSWORD"),
    Place("database", "host", "MONGO_HOST"),
    Place("database", "port", "MONGO_PORT")
  ]

  const CLIENT_OPTIONS := [
    Place("client", "host", ""),
    Place("client", "port", ""),
    Place("client", "identity", ""),
    Place("client", "secure", "")
  ]

  const SERVER_OPTIONS := [
    Place("server", "host", ""),
    Place("server", "port", ""),
    Place("server", "identity", ""),
    Place("server", "secure", "")
  ]

  const WEB_OPTIONS := [
    Place("web", "serving_dir", ""),
    Place("web", "host", ""),
    Place("web", "port", ""),
    Place("web", "secure", ""),
    Place("web", "secure_port", ""),
    Place("web", "private_key_path", ""),
    Place("web", "public_key_path", ""),
    Place("web", "certificate_path", "")
  ]

  const ADMIN_OPTIONS := [Place("admin", "direct", "")]

  /** The options of the configuration file, in the order in which they are loaded. */
  const PLACES := DATABASE_OPTIONS + CLIENT_OPTIONS + SERVER_OPTIONS + WEB_OPTIONS + ADMIN_OPTIONS

  ghost predicate InSections(places: seq<Place>, categories: set<string>) {
    forall p :: p in places ==> p.category in categories
  }

  lemma JoinSections(a: seq<Place>, b: seq<Place>, ca: set<string>, cb: set<string>)
    requires DistinctPaths(a) && DistinctPaths(b) && InSections(a, ca) && InSections(b, cb) && ca !! cb
    ensures DistinctPaths(a + b) && InSections(a + b, ca + cb)
  {
    forall i, j | 0 <= i < j < |a + b|
      ensures (a + b)[i].category != (a + b)[j].category || (a + b)[i].variable != (a + b)[j].variable {
      if i < |a| <= j {
        assert a[i] in a && b[j - |a|] in b;
      }
    }
  }

  lemma DatabaseSection()
    ensures DistinctPaths(DATABASE_OPTIONS) && InSections(DATABASE_OPTIONS, {"database"})
  {
  }

  lemma ClientSection()
    ensures DistinctPaths(CLIENT_OPTIONS) && InSections(CLIENT_OPTIONS, {"client"})
  {
  }

  lemma ServerSection()
    ensures DistinctPaths(SERVER_OPTIONS) && InSections(SERVER_OPTIONS, {"server"})
  {
  }

  lemma WebSection()
    ensures DistinctPaths(WEB_OPTIONS) && InSections(WEB_OPTIONS, {"web"})
  {
  }

  lemma AdminSection()
    ensures DistinctPaths(ADMIN_OPTIONS) && InSections(ADMIN_OPTIONS, {"admin"})
  {
  }

  lemma JoinAll(d: seq<Place>, c: seq<Place>, s: seq<Place>, w: seq<Place>, a: seq<Place>)
    requires DistinctPaths(d) && InSections(d, {"database"}) && DistinctPaths(c) && InSections(c, {"client"})
    requires DistinctPaths(s) && InSections(s, {"server"}) && DistinctPaths(w) && InSections(w, {"web"})
    requires DistinctPaths(a) && InSections(a, {"admin"})
    ensures DistinctPaths(d + c + s + w + a)
  {
    JoinSections(d, c, {"database"}, {"client"});
    JoinSections(d + c, s, {"database"} + {"client"}, {"server"});
    JoinSections(d + c + s, w, {"database"} + {"client"} + {"server"}, {"web"});
    JoinSections(d + c + s + w, a, {"database"} + {"client"} + {"server"} + {"web"}, {"admin"});
  }

  /** No two of the 21 options share a path. */
  lemma {:induction false} PlacesAreDistinct()
    ensures DistinctPaths(PLACES)
  {
    DatabaseSection();
    ClientSection();
    ServerSection();
    WebSection();
    AdminSection();
    JoinAll(DATABASE_OPTIONS, CLIENT_OPTIONS, SERVER_OPTIONS, WEB_OPTIONS, ADMIN_OPTIONS);
  }

  // ---------------------------------------------------------------- options do not interfere

  lemma LookPut(config: Toml, category: string, variable: string, v: Value, c: string, x: string)
    requires Look(config, category, variable) != Broken
    ensures Look(Put(config, category, variable, v), c, x)
      == if c == category && x == variable then Here(v) else Look(config, c, x)
  {
  }

  /** Every option gets the value that it would get alone. */
  ghost predicate EachAlone(settings: seq<Setting>, places: seq<Place>, env: map<string, string>, config: Toml,
                            loaded: seq<Setting>)
    requires |settings| == |places|
  {
    && |loaded| == |settings|
    && forall i :: 0 <= i < |settings| ==> InitAt(settings[i], places[i], env, config) == Some(loaded[i])
  }

  /** What the table holds at the path of an option afterwards. */
  function Stored(s: Setting, p: Place, env: map<string, string>, config: Toml, loaded: Setting): LookResult {
    if FromEnv(s, p, env).ok then Look(config, p.category, p.variable) else Here(loaded.value)
  }

  ghost predicate EachStored(settings: seq<Setting>, places: seq<Place>, env: map<string, string>, config: Toml,
                             l: Loading)
    requires |settings| == |places| == |l.settings|
  {
    forall i :: 0 <= i < |settings| ==>
      Look(l.config, places[i].category, places[i].variable)
      == Stored(settings[i], places[i], env, config, l.settings[i])
  }

  predicate IsPath(places: seq<Place>, c: string, x: string) {
    exists p :: p in places && p.category == c && p.variable == x
  }

  ghost predicate OthersKept(places: seq<Place>, config: Toml, after: Toml) {
    forall c, x :: !IsPath(places, c, x) ==> Look(after, c, x) == Look(config, c, x)
  }

  ghost predicate Holds(settings: seq<Setting>, places: seq<Place>, env: map<string, string>, config: Toml, l: Loading)
    requires |settings| == |places|
  {
    && EachAlone(settings, places, env, config, l.settings)
    && EachStored(settings, places, env, config, l)
    && OthersKept(places, config, l.config)
  }

  /** The table changes at most at one path. */
  ghost predicate OnlyAt(p: Place, before: Toml, after: Toml) {
    forall c, x :: c != p.category || x != p.variable ==> Look(after, c, x) == Look(before, c, x)
  }

  lemma NextStores(before: Loading, s: Setting, p: Place, env: map<string, string>)
    requires Next(before, s, p, env).Some?
    ensures var l := Next(before, s, p, env).value;
      && |l.settings| > 0 && OnlyAt(p, before.config, l.config)
      && Look(l.config, p.category, p.variable)
         == Stored(s, p, env, before.config, l.settings[|l.settings|-1])
  {
    var l := Next(before, s, p, env).value;
    if !FromEnv(s, p, env).ok {
      var v := l.settings[|l.settings|-1].value;
      LookPut(before.config, p.category, p.variable, v, p.category, p.variable);
      forall c, x | c != p.category || x != p.variable ensures Look(l.config, c, x) == Look(before.config, c, x) {
        LookPut(before.config, p.category, p.variable, v, c, x);
      }
    }
  }

  lemma StoredNext(settings: seq<Setting>, places: seq<Place>, env: map<string, string>, config: Toml,
                   before: Loading, l: Loading, s: Setting, p: Place, loaded: Setting)
    requires |settings| == |places| == |before.settings| && EachStored(settings, places, env, config, before)
    requires DistinctPaths(places + [p]) && OnlyAt(p, before.config, l.config)
    requires l.settings == before.settings + [loaded]
    requires Look(l.config, p.category, p.variable) == Stored(s, p, env, config, loaded)
    ensures EachStored(settings + [s], places + [p], env, config, l)
  {
    var ss, pp := settings + [s], places + [p];
    forall i | 0 <= i < |ss| ensures Look(l.config, pp[i].category, pp[i].variable)
        == Stored(ss[i], pp[i], env, config, l.settings[i]) {
      if i < |settings| {
        assert pp[|places|] == p && pp[i] == places[i];
        assert Look(before.config, places[i].category, places[i].variable)
            == Stored(settings[i], places[i], env, config, before.settings[i]);
      }
    }
  }

  lemma OthersNext(places: seq<Place>, p: Place, config: Toml, before: Toml, after: Toml)
    requires OthersKept(places, config, before) && OnlyAt(p, before, after)
    ensures OthersKept(places + [p], config, after)
  {
    forall c, x | !IsPath(places + [p], c, x) ensures Look(after, c, x) == Look(config, c, x) {
      assert p in places + [p];
      assert forall q :: q in places ==> q in places + [p];
      assert !IsPath(places, c, x);
    }
  }

  lemma NewPath(places: seq<Place>, p: Place)
    requires DistinctPaths(places + [p])
    ensures !IsPath(places, p.category, p.variable)
  {
    forall q | q in places ensures q.category != p.category || q.variable != p.variable {
      var i :| 0 <= i < |places| && places[i] == q;
      assert (places + [p])[i] == q && (places + [p])[|places|] == p;
    }
  }

  /** One more option. */
  lemma HoldsNext(settings: seq<Setting>, places: seq<Place>, env: map<string, string>, config: Toml,
                  before: Loading, s: Setting, p: Place)
    requires |settings| == |places| && DistinctPaths(places + [p])
    requires Holds(settings, places, env, config, before)
    ensures var l := Next(before, s, p, env);
      && (l.Some? <==> InitAt(s, p, env, config).Some?)
      && (l.Some? ==> Holds(settings + [s], places + [p], env, config, l.value))
  {
    NewPath(places, p);
    assert Look(before.config, p.category, p.variable) == Look(config, p.category, p.variable);
    if Next(before, s, p, env).Some? {
      var l := Next(before, s, p, env).value;
      var loaded := InitAt(s, p, env, config).value;
      NextStores(before, s, p, env);
      StoredNext(settings, places, env, config, before, l, s, p, loaded);
      OthersNext(places, p, config, before.config, l.config);
    }
  }

  /** Every option by itself can be read from the table. */
  ghost predicate Readable(settings: seq<Setting>, places: seq<Place>, env: map<string, string>, config: Toml)
    requires |settings| == |places|
  {
    forall i :: 0 <= i < |settings| ==> InitAt(settings[i], places[i], env, config).Some?
  }

  /**
    Loading succeeds exactly when every option by itself can be read from the original table;
    every option then gets the value it would get alone, and the table holds afterwards the
    values of exactly those options that were not taken from the environment, besides what
    it held before.
   */
  lemma {:induction false} LoadIsPointwise(settings: seq<Setting>, places: seq<Place>, env: map<string, string>,
                                           config: Toml)
    requires |settings| == |places| && DistinctPaths(places)
    ensures var l := LoadAll(settings, places, env, config);
      && (l.Some? <==> Readable(settings, places, env, config))
      && (l.Some? ==> Holds(settings, places, env, config, l.value))
    decreases |settings|
  {
    if settings != [] {
      var n := |settings| - 1;
      var s, p := settings[..n], places[..n];
      assert settings == s + [settings[n]] && places == p + [places[n]];
      LoadIsPointwise(s, p, env, config);
      var before := LoadAll(s, p, env, config);
      if before.Some? {
        HoldsNext(s, p, env, config, before.value, settings[n], places[n]);
      }
      ReadableNext(settings, places, env, config);
    }
  }

  lemma ReadableNext(settings: seq<Setting>, places: seq<Place>, env: map<string, string>, config: Toml)
    requires |settings| == |places| > 0
    ensures var n := |settings| - 1;
      Readable(settings, places, env, config)
      <==> Readable(settings[..n], places[..n], env, config) && InitAt(settings[n], places[n], env, config).Some?
  {
    var n := |settings| - 1;
    if Readable(settings, places, env, config) {
      forall i | 0 <= i < n ensures InitAt(settings[..n][i], places[..n][i], env, config).Some? {
        assert InitAt(settings[i], places[i], env, config).Some?;
      }
    }
    if Readable(settings[..n], places[..n], env, config) && InitAt(settings[n], places[n], env, config).Some? {
      forall i | 0 <= i < |settings| ensures InitAt(settings[i], places[i], env, config).Some? {
        if i < n {
          assert InitAt(settings[..n][i], places[..n][i], env, config).Some?;
        }
      }
    }
  }

  /** An exception in an earlier call of `Init` is an exception of the whole. */
  lemma {:induction false} FailureEndsLoading(settings: seq<Setting>, places: seq<Place>, env: map<string, string>,
                                              config: Toml, n: nat)
    requires |settings| == |places| && n <= |settings|
    requires LoadAll(settings[..n], places[..n], env, config).None?
    ensures LoadAll(settings, places, env, config).None?
    decreases |settings|
  {
    var m := |settings| - 1;
    if n <= m {
      assert settings[..m][..n] == settings[..n] && places[..m][..n] == places[..n];
      FailureEndsLoading(settings[..m], places[..m], env, config, n);
    } else {
      assert settings[..n] == settings && places[..n] == places;
    }
  }
}
