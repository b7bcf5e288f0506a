// Writing Codex settings: normalising, merging into the file on disk, and the two ways to
// authenticate of which the active provider must have exactly one.
module CodexSettings {
  import opened TomlValues
  import opened TomlNested
  import opened Dicts
  import opened Wrappers

  // ------------------------------------------------------------------------- names

  const ENV_KEY := "env_key"
  const TOKEN_KEY := "experimental_bearer_token"
  const PROVIDER_KEY := "model_provider"
  const PROVIDERS_KEY := "model_providers"
  const SUMMARY_KEY := "model_reasoning_summary"
  const URL_KEY := "base_url"
  const NAME_KEY := "name"
  const API_KEY := "wire_api"

  lemma NamesDiffer()
    ensures ENV_KEY != TOKEN_KEY && PROVIDER_KEY != PROVIDERS_KEY
    ensures URL_KEY != ENV_KEY && URL_KEY != TOKEN_KEY
    ensures SUMMARY_KEY != PROVIDER_KEY && SUMMARY_KEY != PROVIDERS_KEY
  {
    assert |ENV_KEY| == 7 && |TOKEN_KEY| == 25 && |URL_KEY| == 8;
    assert |PROVIDER_KEY| == 14 && |PROVIDERS_KEY| == 15 && |SUMMARY_KEY| == 23;
  }

  // ---------------------------------------------------------------------- normalising

  // The provider that requests are routed through.
  function Active(settings: Dict): string {
    var p := Get(settings, PROVIDER_KEY);
    if p.Some? && p.value.Str? && |p.value.text| > 0 then p.value.text else "openace"
  }

  // An empty token counts as none.
  function SetAuthMode(provider: Dict, token: Option<string>): Dict {
    if token.Some? && |token.value| > 0 then Pop(Set(provider, TOKEN_KEY, Str(token.value)), ENV_KEY)
    else Pop(Set(provider, ENV_KEY, Str("OPENAI_API_KEY")), TOKEN_KEY)
  }

  function SubDict(d: Dict, key: string): Dict {
    var v := Get(d, key);
    if v.Some? && v.value.Table? then v.value.entries else []
  }

  function OrElse(v: Option<Value>, otherwise: Value): Value { if v.Some? then v.value else otherwise }

  function WithDefault(d: Dict, key: string, value: Value): Dict {
    if Get(d, key).Some? then d else Set(d, key, value)
  }

  // `cleaned` are the settings after the credentials have been taken out of their env block.
  function Normalize(cleaned: Dict, url: string, token: Option<string>): Dict {
    var withDefaults := WithDefault(WithDefault(cleaned, SUMMARY_KEY, Str("auto")), PROVIDER_KEY, Str("openace"));
    var active := Active(withDefaults);
    var providers := SubDict(withDefaults, PROVIDERS_KEY);
    var provider := Provider(SubDict(providers, active), url, token);
    Set(withDefaults, PROVIDERS_KEY, Table(Set(providers, active, Table(provider))))
  }

  function Provider(provider: Dict, url: string, token: Option<string>): Dict {
    var named := Set(provider, NAME_KEY, OrElse(Get(provider, NAME_KEY), Str("Open ACE Proxy")));
    var withApi := Set(named, API_KEY, OrElse(Get(provider, API_KEY), Str("responses")));
    SetAuthMode(Set(withApi, URL_KEY, Str(url)), token)
  }

  // The auth mode of the active provider is set again on the merged settings.
  function Recalibrate(merged: Dict, token: Option<string>): Dict {
    var active := Active(merged);
    var providers := Get(merged, PROVIDERS_KEY);
    if providers.None? || !providers.value.Table? then merged
    else
      var provider := Get(providers.value.entries, active);
      if provider.None? || !provider.value.Table? then merged
      else
        Set(merged, PROVIDERS_KEY,
            Table(Set(providers.value.entries, active, Table(SetAuthMode(provider.value.entries, token)))))
  }

  // -------------------------------------------------------------------- credentials

  predicate Truthy(v: Value) {
    match v
    case Str(text) => |text| > 0
    case Bool(flag) => flag
    case Int(number) => number != 0
    case List(items) => |items| > 0
    case Table(entries) => |entries| > 0
  }

  function Without(d: Dict, keys: set<string>): Dict {
    if |d| == 0 then []
    else if d[0].key in keys then Without(d[1..], keys)
    else [d[0]] + Without(d[1..], keys)
  }

  function EnvKeysOf(models: seq<Value>): set<string> {
    if |models| == 0 then {}
    else
      var k := if models[0].Table? then Get(models[0].entries, "envKey") else None;
      (if k.Some? && k.value.Str? then {k.value.text} else {}) + EnvKeysOf(models[1..])
  }

  function DynamicKeys(providers: Dict): set<string> {
    if |providers| == 0 then {}
    else (if providers[0].value.List? then EnvKeysOf(providers[0].value.items) else {}) + DynamicKeys(providers[1..])
  }

  // Fails where the source raises: a modelProviders or a non-empty env that is no dict.
  // `known` are the names of the well-known credential variables.
  function StripSensitive(settings: Dict, known: set<string>): Option<Dict> {
    var models, env := Get(settings, "modelProviders"), Get(settings, "env");
    if models.Some? && !models.value.Table? then None
    else if env.None? || !Truthy(env.value) then Some(settings)
    else if !env.value.Table? then None
    else
      var dynamic := if models.Some? then DynamicKeys(models.value.entries) else {};
      Some(Set(settings, "env", Table(Without(env.value.entries, known + dynamic))))
  }

  lemma {:induction false} GetWithout(d: Dict, keys: set<string>, k: string)
    ensures Get(Without(d, keys), k) == if k in keys then None else Get(d, k)
    decreases |d|
  {
    if |d| > 0 {
      GetWithout(d[1..], keys, k);
      assert d[0].key !in keys ==> Without(d, keys)[1..] == Without(d[1..], keys);
    }
  }

  // A model entry that declares k as the variable its key is in.
  predicate Declares(model: Value, k: string) {
    model.Table? && Get(model.entries, "envKey") == Some(Str(k))
  }

  predicate DeclaredIn(e: Entry, k: string) { e.value.List? && exists m :: m in e.value.items && Declares(m, k) }

  lemma {:induction false} EnvKeysOfDeclared(models: seq<Value>, k: string)
    ensures k in EnvKeysOf(models) <==> exists m :: m in models && Declares(m, k)
    decreases |models|
  {
    hide Get;
    if |models| > 0 {
      EnvKeysOfDeclared(models[1..], k);
      assert models[0] in models && forall m :: m in models ==> m == models[0] || m in models[1..];
      assert forall m :: m in models[1..] ==> m in models;
      assert k in EnvKeysOf(models) <==> Declares(models[0], k) || k in EnvKeysOf(models[1..]);
    }
  }

  // The dynamic keys are exactly those that some model of some provider declares.
  lemma {:induction false} DynamicKeysDeclared(providers: Dict, k: string)
    ensures k in DynamicKeys(providers) <==>
            exists e :: e in providers && DeclaredIn(e, k)
    decreases |providers|
  {
    hide Declares, EnvKeysOf;
    if |providers| > 0 {
      DynamicKeysDeclared(providers[1..], k);
      assert providers[0] in providers && forall e :: e in providers ==> e == providers[0] || e in providers[1..];
      assert forall e :: e in providers[1..] ==> e in providers;
      if providers[0].value.List? {
        EnvKeysOfDeclared(providers[0].value.items, k);
      }
    }
  }

  // No known or declared credential variable is left in the env block; nothing else changes.
  lemma {:induction false} StrippedEnv(settings: Dict, known: set<string>, k: string)
    requires StripSensitive(settings, known).Some?
    ensures var r := StripSensitive(settings, known).value;
            var sensitive := known + DynamicKeys(SubDict(settings, "modelProviders"));
            && Get(SubDict(r, "env"), k) == (if k in sensitive then None else Get(SubDict(settings, "env"), k))
            && (k != "env" ==> Get(r, k) == Get(settings, k))
  {
    hide Get, Set, DynamicKeys, Without;
    var env := Get(settings, "env");
    if env.Some? && Truthy(env.value) {
      var sensitive := known + DynamicKeys(SubDict(settings, "modelProviders"));
      assert DynamicKeys([]) == {} by { NoDynamicKeys(); }
      GetWithout(env.value.entries, sensitive, k);
      GetSet(settings, "env", Table(Without(env.value.entries, sensitive)), k);
      GetSet(settings, "env", Table(Without(env.value.entries, sensitive)), "env");
    } else {
      NothingInside(SubDict(settings, "env"), k);
    }
  }

  // When settings can be cleaned at all: no modelProviders or a table of them, and no env, an
  // empty one of any kind, or a table.
  lemma StripFailsExactly(settings: Dict, known: set<string>)
    ensures var models, env := Get(settings, "modelProviders"), Get(settings, "env");
            StripSensitive(settings, known).Some? <==>
              && (models.None? || models.value.Table?)
              && (env.None? || env.value.Table? || env.value in {Str(""), Bool(false), Int(0), List([])})
  {
    hide Get, DynamicKeys, Without, Set;
  }

  lemma NoDynamicKeys()
    ensures DynamicKeys([]) == {}
  {
  }

  lemma NothingInside(d: Dict, k: string)
    ensures |d| == 0 ==> Get(d, k) == None
  {
  }

  // ------------------------------------------------------------------- exclusivity

  // Exactly one of the two auth fields.
  predicate OneAuth(provider: Dict) { Get(provider, ENV_KEY).Some? != Get(provider, TOKEN_KEY).Some? }

  // The active provider is there and has exactly one of the two auth fields.
  predicate Exclusive(settings: Dict) {
    var providers := Get(settings, PROVIDERS_KEY);
    providers.Some? && providers.value.Table? &&
    var provider := Get(providers.value.entries, Active(settings));
    provider.Some? && provider.value.Table? && OneAuth(provider.value.entries)
  }

  lemma AuthModeIsExclusive(provider: Dict, token: Option<string>, k: string)
    ensures OneAuth(SetAuthMode(provider, token))
    ensures Get(SetAuthMode(provider, token), TOKEN_KEY).Some? <==> token.Some? && |token.value| > 0
    ensures k != ENV_KEY && k != TOKEN_KEY ==> Get(SetAuthMode(provider, token), k) == Get(provider, k)
  {
    hide ENV_KEY, TOKEN_KEY, Get, Set, Pop;
    NamesDiffer();
    forall x ensures Get(SetAuthMode(provider, token), x) ==
      if token.Some? && |token.value| > 0
      then (if x == ENV_KEY then None else if x == TOKEN_KEY then Some(Str(token.value)) else Get(provider, x))
      else (if x == TOKEN_KEY then None else if x == ENV_KEY then Some(Str("OPENAI_API_KEY")) else Get(provider, x))
    {
      if token.Some? && |token.value| > 0 {
        GetPop(Set(provider, TOKEN_KEY, Str(token.value)), ENV_KEY, x);
        GetSet(provider, TOKEN_KEY, Str(token.value), x);
      } else {
        GetPop(Set(provider, ENV_KEY, Str("OPENAI_API_KEY")), TOKEN_KEY, x);
        GetSet(provider, ENV_KEY, Str("OPENAI_API_KEY"), x);
      }
    }
  }

  lemma WithDefaultKeeps(d: Dict, key: string, value: Value, k: string)
    ensures Get(WithDefault(d, key, value), k) ==
            if k == key then Some(OrElse(Get(d, key), value)) else Get(d, k)
  {
    GetSet(d, key, value, k);
  }

  // There is a table for the active provider.
  predicate HasActive(d: Dict) {
    && Get(d, PROVIDERS_KEY).Some? && Get(d, PROVIDERS_KEY).value.Table?
    && Get(SubDict(d, PROVIDERS_KEY), Active(d)).Some?
    && Get(SubDict(d, PROVIDERS_KEY), Active(d)).value.Table?
  }

  // What normalising leaves: a provider key, and a table for the provider it makes active.
  lemma {:induction false} NormalizedShape(cleaned: Dict, url: string, token: Option<string>)
    ensures var n := Normalize(cleaned, url, token);
            && Get(n, PROVIDER_KEY).Some? && HasActive(n)
            && Get(SubDict(SubDict(n, PROVIDERS_KEY), Active(n)), URL_KEY) == Some(Str(url))
  {
    hide Get, Set, Pop, ENV_KEY, TOKEN_KEY, PROVIDER_KEY, PROVIDERS_KEY, SUMMARY_KEY, URL_KEY, NAME_KEY;
    hide API_KEY, SetAuthMode, WithDefault;
    NamesDiffer();
    var d1 := WithDefault(cleaned, SUMMARY_KEY, Str("auto"));
    var d2 := WithDefault(d1, PROVIDER_KEY, Str("openace"));
    WithDefaultKeeps(d1, PROVIDER_KEY, Str("openace"), PROVIDER_KEY);
    var providers, active := SubDict(d2, PROVIDERS_KEY), Active(d2);
    var provider := Provider(SubDict(providers, active), url, token);
    var more := Set(providers, active, Table(provider));
    GetSet(providers, active, Table(provider), active);
    GetSet(d2, PROVIDERS_KEY, Table(more), PROVIDERS_KEY);
    GetSet(d2, PROVIDERS_KEY, Table(more), PROVIDER_KEY);
    ProviderHasUrl(SubDict(providers, active), url, token);
  }

  lemma ProviderNamesDiffer()
    ensures NAME_KEY != API_KEY && NAME_KEY != URL_KEY && API_KEY != URL_KEY
    ensures NAME_KEY != ENV_KEY && NAME_KEY != TOKEN_KEY && API_KEY != ENV_KEY && API_KEY != TOKEN_KEY
  {
    assert |NAME_KEY| == 4 && |API_KEY| == 8 && |URL_KEY| == 8 && |ENV_KEY| == 7 && |TOKEN_KEY| == 25;
    assert API_KEY[0] == 'w' && URL_KEY[0] == 'b';
  }

  // The active provider keeps its name and its API, or gets the defaults, and keeps every
  // field that is not set.
  lemma {:induction false} ProviderKeepsRest(provider: Dict, url: string, token: Option<string>, k: string)
    ensures var p := Provider(provider, url, token);
            && Get(p, NAME_KEY) == Some(OrElse(Get(provider, NAME_KEY), Str("Open ACE Proxy")))
            && Get(p, API_KEY) == Some(OrElse(Get(provider, API_KEY), Str("responses")))
            && (k !in {NAME_KEY, API_KEY, URL_KEY, ENV_KEY, TOKEN_KEY} ==> Get(p, k) == Get(provider, k))
  {
    hide Get, Set, Pop, ENV_KEY, TOKEN_KEY, URL_KEY, NAME_KEY, API_KEY, SetAuthMode, OrElse;
    ProviderNamesDiffer();
    var name := OrElse(Get(provider, NAME_KEY), Str("Open ACE Proxy"));
    var api := OrElse(Get(provider, API_KEY), Str("responses"));
    var named := Set(provider, NAME_KEY, name);
    var withApi := Set(named, API_KEY, api);
    forall x | x == NAME_KEY || x == API_KEY || x == k
      ensures Get(Set(withApi, URL_KEY, Str(url)), x) ==
              if x == URL_KEY then Some(Str(url)) else if x == API_KEY then Some(api)
              else if x == NAME_KEY then Some(name) else Get(provider, x)
    {
      GetSet(withApi, URL_KEY, Str(url), x);
      GetSet(named, API_KEY, api, x);
      GetSet(provider, NAME_KEY, name, x);
    }
    AuthModeIsExclusive(Set(withApi, URL_KEY, Str(url)), token, NAME_KEY);
    AuthModeIsExclusive(Set(withApi, URL_KEY, Str(url)), token, API_KEY);
    AuthModeIsExclusive(Set(withApi, URL_KEY, Str(url)), token, k);
  }

  // Beyond that, normalising supplies two defaults and leaves every other setting, and every
  // other provider, as it was.
  lemma {:induction false} NormalizeKeepsRest(cleaned: Dict, url: string, token: Option<string>, k: string)
    ensures var n := Normalize(cleaned, url, token);
            && Get(n, SUMMARY_KEY) == Some(OrElse(Get(cleaned, SUMMARY_KEY), Str("auto")))
            && Get(n, PROVIDER_KEY) == Some(OrElse(Get(cleaned, PROVIDER_KEY), Str("openace")))
            && (k !in {SUMMARY_KEY, PROVIDER_KEY, PROVIDERS_KEY} ==> Get(n, k) == Get(cleaned, k))
            && (k != Active(n) ==> Get(SubDict(n, PROVIDERS_KEY), k) == Get(SubDict(cleaned, PROVIDERS_KEY), k))
  {
    hide Get, Set, Provider, PROVIDER_KEY, PROVIDERS_KEY, SUMMARY_KEY, WithDefault, OrElse;
    NamesDiffer();
    var d1 := WithDefault(cleaned, SUMMARY_KEY, Str("auto"));
    var d2 := WithDefault(d1, PROVIDER_KEY, Str("openace"));
    forall x ensures Get(d2, x) ==
      if x == PROVIDER_KEY then Some(OrElse(Get(cleaned, PROVIDER_KEY), Str("openace")))
      else if x == SUMMARY_KEY then Some(OrElse(Get(cleaned, SUMMARY_KEY), Str("auto"))) else Get(cleaned, x)
    {
      WithDefaultKeeps(d1, PROVIDER_KEY, Str("openace"), x);
      WithDefaultKeeps(cleaned, SUMMARY_KEY, Str("auto"), x);
      WithDefaultKeeps(cleaned, SUMMARY_KEY, Str("auto"), PROVIDER_KEY);
    }
    var providers, active := SubDict(d2, PROVIDERS_KEY), Active(d2);
    var provider := Provider(SubDict(providers, active), url, token);
    var more := Set(providers, active, Table(provider));
    GetSet(providers, active, Table(provider), k);
    forall x ensures Get(Normalize(cleaned, url, token), x) ==
      if x == PROVIDERS_KEY then Some(Table(more)) else Get(d2, x)
    {
      GetSet(d2, PROVIDERS_KEY, Table(more), x);
    }
  }

  // The provider that settings name, if they name one with a string that is not empty.
  lemma {:induction false} ActiveIsNamed(settings: Dict)
    ensures var v := Get(settings, "model_provider");
            Active(settings) == if v.Some? && v.value.Str? && v.value.text != "" then v.value.text else "openace"
  {
    hide Get;
  }

  lemma {:induction false} NormalizedActive(cleaned: Dict, url: string, token: Option<string>)
    ensures Active(Normalize(cleaned, url, token)) == Active(cleaned)
    ensures Get(Normalize(cleaned, url, token), "model_provider")
            == Some(OrElse(Get(cleaned, "model_provider"), Str("openace")))
  {
    hide Get, Normalize;
    NormalizeKeepsRest(cleaned, url, token, PROVIDER_KEY);
  }

  // The table that normalising puts in the place of the active provider's.
  lemma {:induction false} NormalizedProvider(cleaned: Dict, url: string, token: Option<string>)
    ensures SubDict(SubDict(Normalize(cleaned, url, token), PROVIDERS_KEY), Active(cleaned))
            == Provider(SubDict(SubDict(cleaned, PROVIDERS_KEY), Active(cleaned)), url, token)
  {
    hide Get, Set, Provider, PROVIDER_KEY, PROVIDERS_KEY, SUMMARY_KEY, WithDefault;
    NamesDiffer();
    NormalizedActive(cleaned, url, token);
    var d1 := WithDefault(cleaned, SUMMARY_KEY, Str("auto"));
    var d2 := WithDefault(d1, PROVIDER_KEY, Str("openace"));
    forall x | x == PROVIDERS_KEY || x == PROVIDER_KEY
      ensures Get(d2, x) == if x == PROVIDER_KEY then Some(OrElse(Get(cleaned, PROVIDER_KEY), Str("openace")))
                            else Get(cleaned, x)
    {
      WithDefaultKeeps(d1, PROVIDER_KEY, Str("openace"), x);
      WithDefaultKeeps(cleaned, SUMMARY_KEY, Str("auto"), x);
      WithDefaultKeeps(cleaned, SUMMARY_KEY, Str("auto"), PROVIDER_KEY);
    }
    var providers, active := SubDict(d2, PROVIDERS_KEY), Active(d2);
    var provider := Provider(SubDict(providers, active), url, token);
    GetSet(providers, active, Table(provider), active);
    GetSet(d2, PROVIDERS_KEY, Table(Set(providers, active, Table(provider))), PROVIDERS_KEY);
  }

  // By name: the three defaults, which the caller's settings take precedence over.
  lemma DefaultsByName(cleaned: Dict, url: string, token: Option<string>)
    ensures var n, p := Normalize(cleaned, url, token), Active(cleaned);
            var before := SubDict(SubDict(cleaned, "model_providers"), p);
            var after := SubDict(SubDict(n, "model_providers"), p);
            && Get(n, "model_reasoning_summary") == Some(OrElse(Get(cleaned, "model_reasoning_summary"), Str("auto")))
            && Get(after, "name") == Some(OrElse(Get(before, "name"), Str("Open ACE Proxy")))
            && Get(after, "wire_api") == Some(OrElse(Get(before, "wire_api"), Str("responses")))
  {
    hide Get, Normalize, Provider, OrElse, Active;
    NormalizedProvider(cleaned, url, token);
    NormalizeKeepsRest(cleaned, url, token, "");
    ProviderKeepsRest(SubDict(SubDict(cleaned, PROVIDERS_KEY), Active(cleaned)), url, token, "");
  }

  lemma ProviderHasUrl(provider: Dict, url: string, token: Option<string>)
    ensures Get(Provider(provider, url, token), URL_KEY) == Some(Str(url))
  {
    hide Get, Set, Pop, ENV_KEY, TOKEN_KEY, URL_KEY, NAME_KEY, API_KEY, SetAuthMode;
    NamesDiffer();
    var named := Set(provider, NAME_KEY, OrElse(Get(provider, NAME_KEY), Str("Open ACE Proxy")));
    var withApi := Set(named, API_KEY, OrElse(Get(provider, API_KEY), Str("responses")));
    GetSet(withApi, URL_KEY, Str(url), URL_KEY);
    AuthModeIsExclusive(Set(withApi, URL_KEY, Str(url)), token, URL_KEY);
  }

  // --------------------------------------------------------------- merged with the old

  lemma ActiveSurvives(base: Dict, n: Dict)
    requires AreEntries(n) && Get(n, PROVIDER_KEY).Some?
    ensures Active(DeepMerge(base, n)) == Active(n)
  {
    hide Get, DeepMerge, AreEntries;
    GetMerge(base, n, PROVIDER_KEY);
  }

  // The active provider of the normalised settings is still a table after the merge.
  lemma MergedShape(base: Dict, n: Dict)
    requires AreEntries(n) && HasActive(n) && Get(n, PROVIDER_KEY).Some?
    ensures HasActive(DeepMerge(base, n)) && Active(DeepMerge(base, n)) == Active(n)
  {
    hide Get, DeepMerge, AreEntries, Active, PROVIDER_KEY, PROVIDERS_KEY;
    ActiveSurvives(base, n);
    GetMerge(base, n, PROVIDERS_KEY);
    GetMeans(n, PROVIDERS_KEY);
    var inner, providers := SubDict(base, PROVIDERS_KEY), SubDict(n, PROVIDERS_KEY);
    if Get(base, PROVIDERS_KEY).Some? && Get(base, PROVIDERS_KEY).value.Table? {
      GetMerge(inner, providers, Active(n));
    }
  }

  lemma {:induction false} RecalibrateIsExclusive(merged: Dict, token: Option<string>)
    requires HasActive(merged)
    ensures Exclusive(Recalibrate(merged, token))
    ensures Active(Recalibrate(merged, token)) == Active(merged)
  {
    hide Get, Set, SetAuthMode, OneAuth, ENV_KEY, TOKEN_KEY, PROVIDER_KEY, PROVIDERS_KEY;
    NamesDiffer();
    var active, providers := Active(merged), SubDict(merged, PROVIDERS_KEY);
    var provider := SetAuthMode(SubDict(providers, active), token);
    var more := Set(providers, active, Table(provider));
    AuthModeIsExclusive(SubDict(providers, active), token, ENV_KEY);
    GetSet(providers, active, Table(provider), active);
    GetSet(merged, PROVIDERS_KEY, Table(more), PROVIDERS_KEY);
    GetSet(merged, PROVIDERS_KEY, Table(more), PROVIDER_KEY);
  }

  // Paths at or below one of the auth fields of the active provider.
  predicate AuthPath(path: seq<string>, active: string) {
    |path| >= 3 && path[0] == PROVIDERS_KEY && path[1] == active && (path[2] == ENV_KEY || path[2] == TOKEN_KEY)
  }

  // What an auth field of a provider holds once the auth mode is set.
  function AuthField(token: Option<string>, field: string): Option<Value> {
    if token.Some? && |token.value| > 0 then if field == TOKEN_KEY then Some(Str(token.value)) else None
    else if field == ENV_KEY then Some(Str("OPENAI_API_KEY")) else None
  }

  lemma AuthModeAt(provider: Dict, token: Option<string>, path: seq<string>)
    requires |path| > 0
    ensures At(SetAuthMode(provider, token), path) ==
            if path[0] != ENV_KEY && path[0] != TOKEN_KEY then At(provider, path)
            else if |path| == 1 then AuthField(token, path[0]) else None
  {
    hide Get, Set, Pop, ENV_KEY, TOKEN_KEY;
    NamesDiffer();
    if token.Some? && |token.value| > 0 {
      GetSet(provider, TOKEN_KEY, Str(token.value), path[0]);
      GetPop(Set(provider, TOKEN_KEY, Str(token.value)), ENV_KEY, path[0]);
    } else {
      GetSet(provider, ENV_KEY, Str("OPENAI_API_KEY"), path[0]);
      GetPop(Set(provider, ENV_KEY, Str("OPENAI_API_KEY")), TOKEN_KEY, path[0]);
    }
  }

  // Setting the auth mode again touches the auth fields of the active provider only.
  lemma {:induction false} RecalibrateAt(merged: Dict, token: Option<string>, path: seq<string>)
    requires HasActive(merged)
    ensures !AuthPath(path, Active(merged)) ==> Alike(At(Recalibrate(merged, token), path), At(merged, path))
    ensures AuthPath(path, Active(merged)) ==>
              At(Recalibrate(merged, token), path) == if |path| == 3 then AuthField(token, path[2]) else None
  {
    hide Get, Set, SetAuthMode, AuthField, Active, ENV_KEY, TOKEN_KEY, PROVIDERS_KEY;
    var active, providers := Active(merged), SubDict(merged, PROVIDERS_KEY);
    var old_ := SubDict(providers, active);
    var provider := SetAuthMode(old_, token);
    var more := Set(providers, active, Table(provider));
    if |path| > 0 {
      AtSet(merged, PROVIDERS_KEY, Table(more), path);
      if path[0] == PROVIDERS_KEY && |path| > 1 {
        assert At(merged, path) == At(providers, path[1..]);
        AtSet(providers, active, Table(provider), path[1..]);
        if path[1] == active && |path| > 2 {
          assert path[1..][1..] == path[2..];
          assert At(providers, path[1..]) == At(old_, path[2..]);
          AuthModeAt(old_, token, path[2..]);
        }
      }
    }
  }

  // Whether the result is clean can be told from the dict before and the token.
  lemma {:induction false} RecalibrateIsClean(merged: Dict, token: Option<string>)
    requires AreEntries(merged) && HasActive(merged)
    ensures CleanEntries(Recalibrate(merged, token)) <==> CleanButAuth(merged, Active(merged)) && CleanToken(token)
  {
    hide Recalibrate, Active, HasActive, AreEntries, CleanEntries, CleanAt, At, AuthField, CleanToken, AuthPath;
    hide CleanText;
    RecalibrateIsProper(merged, token);
    var d, active := Recalibrate(merged, token), Active(merged);
    CleanByPaths(d);
    forall path
      ensures CleanAt(d, path) <==> if AuthPath(path, active) then CleanAuth(token, path) else CleanAt(merged, path)
    {
      RecalibrateAt(merged, token, path);
      if AuthPath(path, active) {
        AuthIsClean(d, token, path, active);
      } else {
        AlikeIsClean(d, merged, path);
      }
    }
    AuthPathExists(active, token);
  }

  predicate CleanToken(token: Option<string>) {
    token.Some? && |token.value| > 0 ==> CleanText(token.value, false)
  }

  // Everything is clean but, perhaps, what is in the auth fields of the active provider.
  ghost predicate CleanButAuth(d: Dict, active: string) {
    forall path :: !AuthPath(path, active) ==> CleanAt(d, path)
  }

  predicate CleanAuth(token: Option<string>, path: seq<string>) {
    |path| == 3 && path[2] == TOKEN_KEY ==> CleanToken(token)
  }

  lemma AuthNamesAreClean()
    ensures CleanText(ENV_KEY, true) && CleanText(TOKEN_KEY, true) && Clean(Str("OPENAI_API_KEY"))
  {
  }

  lemma AuthIsClean(d: Dict, token: Option<string>, path: seq<string>, active: string)
    requires AuthPath(path, active) && At(d, path) == if |path| == 3 then AuthField(token, path[2]) else None
    ensures CleanAt(d, path) <==> CleanAuth(token, path)
  {
    hide At, CleanText, ENV_KEY, TOKEN_KEY, PROVIDERS_KEY;
    NamesDiffer();
    AuthNamesAreClean();
  }

  lemma AuthPathExists(active: string, token: Option<string>)
    ensures var path := [PROVIDERS_KEY, active, TOKEN_KEY];
            AuthPath(path, active) && (CleanAuth(token, path) <==> CleanToken(token))
  {
  }

  // -------------------------------------------------------- keys stay distinct throughout

  lemma ValuesAreProper(s: string)
    ensures IsDict(Str(s))
  {
  }

  lemma TablesAreProper(d: Dict)
    ensures IsDict(Table(d)) <==> AreEntries(d)
  {
  }

  lemma NothingIsProper()
    ensures AreEntries([])
  {
  }

  lemma AuthModeIsProper(provider: Dict, token: Option<string>)
    requires AreEntries(provider)
    ensures AreEntries(SetAuthMode(provider, token))
  {
    hide Set, Pop, AreEntries, ENV_KEY, TOKEN_KEY;
    if token.Some? && |token.value| > 0 {
      SetStringIsProper(provider, TOKEN_KEY, token.value);
      PopMeans(Set(provider, TOKEN_KEY, Str(token.value)), ENV_KEY);
    } else {
      SetStringIsProper(provider, ENV_KEY, "OPENAI_API_KEY");
      PopMeans(Set(provider, ENV_KEY, Str("OPENAI_API_KEY")), TOKEN_KEY);
    }
  }

  lemma SubDictIsProper(d: Dict, key: string)
    requires AreEntries(d)
    ensures AreEntries(SubDict(d, key))
  {
    hide Get;
    GetMeans(d, key);
    NothingIsProper();
    if Get(d, key).Some? && Get(d, key).value.Table? {
      TablesAreProper(Get(d, key).value.entries);
    }
  }

  lemma SetTableIsProper(d: Dict, key: string, inner: Dict)
    requires AreEntries(d) && AreEntries(inner)
    ensures AreEntries(Set(d, key, Table(inner)))
  {
    hide Set, AreEntries;
    TablesAreProper(inner);
    SetMeans(d, key, Table(inner));
  }

  lemma SetStringIsProper(d: Dict, key: string, text: string)
    requires AreEntries(d)
    ensures AreEntries(Set(d, key, Str(text)))
  {
    hide Set, AreEntries;
    ValuesAreProper(text);
    SetMeans(d, key, Str(text));
  }

  lemma {:induction false} RecalibrateIsProper(merged: Dict, token: Option<string>)
    requires AreEntries(merged)
    ensures AreEntries(Recalibrate(merged, token))
  {
    hide Get, Set, SetAuthMode, AreEntries, ENV_KEY, TOKEN_KEY, PROVIDERS_KEY, Active;
    var active, providers := Active(merged), SubDict(merged, PROVIDERS_KEY);
    var provider := SetAuthMode(SubDict(providers, active), token);
    SubDictIsProper(merged, PROVIDERS_KEY);
    SubDictIsProper(providers, active);
    AuthModeIsProper(SubDict(providers, active), token);
    SetTableIsProper(providers, active, provider);
    SetTableIsProper(merged, PROVIDERS_KEY, Set(providers, active, Table(provider)));
  }

  lemma {:induction false} NormalizeIsProper(cleaned: Dict, url: string, token: Option<string>)
    requires AreEntries(cleaned)
    ensures AreEntries(Normalize(cleaned, url, token))
  {
    hide Get, Set, SetAuthMode, AreEntries, Provider;
    hide ENV_KEY, TOKEN_KEY, PROVIDER_KEY, PROVIDERS_KEY, SUMMARY_KEY, Active;
    SetStringIsProper(cleaned, SUMMARY_KEY, "auto");
    var d1 := WithDefault(cleaned, SUMMARY_KEY, Str("auto"));
    SetStringIsProper(d1, PROVIDER_KEY, "openace");
    var d2 := WithDefault(d1, PROVIDER_KEY, Str("openace"));
    var active, providers := Active(d2), SubDict(d2, PROVIDERS_KEY);
    SubDictIsProper(d2, PROVIDERS_KEY);
    SubDictIsProper(providers, active);
    ProviderIsProper(SubDict(providers, active), url, token);
    var provider := Provider(SubDict(providers, active), url, token);
    SetTableIsProper(providers, active, provider);
    SetTableIsProper(d2, PROVIDERS_KEY, Set(providers, active, Table(provider)));
  }

  lemma ProviderIsProper(provider: Dict, url: string, token: Option<string>)
    requires AreEntries(provider)
    ensures AreEntries(Provider(provider, url, token))
  {
    hide Get, Set, SetAuthMode, AreEntries, IsDict, URL_KEY, NAME_KEY, API_KEY;
    var name := OrElse(Get(provider, NAME_KEY), Str("Open ACE Proxy"));
    var api := OrElse(Get(provider, API_KEY), Str("responses"));
    GetMeans(provider, NAME_KEY);
    GetMeans(provider, API_KEY);
    ValuesAreProper("Open ACE Proxy");
    ValuesAreProper("responses");
    SetMeans(provider, NAME_KEY, name);
    SetMeans(Set(provider, NAME_KEY, name), API_KEY, api);
    var withApi := Set(Set(provider, NAME_KEY, name), API_KEY, api);
    SetStringIsProper(withApi, URL_KEY, url);
    AuthModeIsProper(Set(withApi, URL_KEY, Str(url)), token);
  }
}
