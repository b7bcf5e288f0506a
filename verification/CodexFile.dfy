// The file of the Codex settings: reading it, writing it, clearing the token, and what is left
// of it after any number of such steps.
module CodexFile {
  import opened TomlValues
  import opened TomlNested
  import opened Dicts
  import opened CodexSettings
  import Toml
  import opened Wrappers

  datatype File = Missing | Text(text: string)

  type Loader = string -> Option<Dict>

  // What is assumed of the TOML library: it returns dicts, and on what the printer prints it
  // agrees with the reader of this model, which rejects a raw control character in a string and
  // a line break in a key.
  ghost predicate IsTomlLibrary(loads: Loader) {
    && (forall s: string :: loads(s).Some? ==> AreEntries(loads(s).value))
    && (forall d: Dict :: AreEntries(d) ==> Agrees(loads(Toml.Dump(d)), Toml.Read(Toml.Dump(d))))
  }

  predicate Agrees(loaded: Option<Dict>, parsed: Option<map<string, Tree>>) {
    if parsed.Some? then loaded.Some? && Children(loaded.value) == parsed.value else loaded.None?
  }

  // A file that is not there or cannot be parsed counts as empty.
  function Load(loads: Loader, file: File): Dict {
    if file.Text? && loads(file.text).Some? then loads(file.text).value else []
  }

  lemma LoadIsDict(loads: Loader, file: File)
    requires IsTomlLibrary(loads)
    ensures AreEntries(Load(loads, file))
  {
    NothingIsProper();
  }

  // What is written is loaded again, in some order, if it was clean, and counts as nothing
  // otherwise.
  lemma {:induction false} LoadWritten(loads: Loader, d: Dict)
    requires IsTomlLibrary(loads) && AreEntries(d)
    ensures var l := Load(loads, Text(Toml.Dump(d)));
            if CleanEntries(d) then Children(l) == Children(d) && AreEntries(l) && CleanEntries(l) else l == []
  {
    hide Toml.Dump, Toml.Read, Children, AreEntries, CleanEntries;
    Toml.TomlRoundTrip(d);
    if CleanEntries(d) {
      CleanByChildren(Load(loads, Text(Toml.Dump(d))), d);
    }
  }

  // One call of write_codex_settings. The token has passed the format check or is none;
  // `persist` is what the opt-out file says.
  datatype Request = Request(cleaned: Dict, url: string, token: Option<string>, persist: bool)

  function Persisted(r: Request): Option<string> {
    if r.token.Some? && |r.token.value| > 0 && !r.persist then None else r.token
  }

  function Normalized(r: Request): Dict { Normalize(r.cleaned, r.url, r.token) }

  function Written(loads: Loader, file: File, r: Request): Dict {
    Recalibrate(DeepMerge(Load(loads, file), Normalized(r)), Persisted(r))
  }

  function Write(loads: Loader, file: File, r: Request): File { Text(Toml.Dump(Written(loads, file, r))) }

  predicate HasToken(settings: Dict) {
    Get(SubDict(SubDict(settings, PROVIDERS_KEY), Active(settings)), TOKEN_KEY).Some?
  }

  // One call of clear_codex_bearer_token.
  function Clear(loads: Loader, file: File): File {
    if HasToken(Load(loads, file)) then Text(Toml.Dump(Recalibrate(Load(loads, file), None))) else file
  }

  // ---------------------------------------------------------- the order does not matter

  lemma {:induction false} GetByMeaning(a: Dict, b: Dict, key: string)
    requires Children(a) == Children(b)
    ensures Get(a, key).Some? == Get(b, key).Some?
    ensures Get(a, key).Some? ==> (Get(a, key).value.Table? <==> Get(b, key).value.Table?)
    ensures Children(SubDict(a, key)) == Children(SubDict(b, key))
    ensures Get(a, key).Some? && Get(a, key).value.Str? ==> Get(a, key) == Get(b, key)
  {
    hide Children, Get;
    GetMeans(a, key);
    GetMeans(b, key);
    if Get(a, key).Some? {
      SameKind(Get(a, key).value, Get(b, key).value);
    }
  }

  lemma SameKind(v: Value, w: Value)
    requires Meaning(v) == Meaning(w)
    ensures v.Table? <==> w.Table?
    ensures v.Table? ==> Children(v.entries) == Children(w.entries)
    ensures v.Str? ==> v == w
    ensures w.Str? ==> v == w
  {
    hide Children;
  }

  lemma {:induction false} SameAuth(a: Dict, b: Dict)
    requires Children(a) == Children(b)
    ensures Active(a) == Active(b) && Exclusive(a) == Exclusive(b) && HasToken(a) == HasToken(b)
  {
    hide Children, Get, ENV_KEY, TOKEN_KEY, PROVIDER_KEY, PROVIDERS_KEY;
    GetByMeaning(a, b, PROVIDER_KEY);
    GetByMeaning(b, a, PROVIDER_KEY);
    GetByMeaning(a, b, PROVIDERS_KEY);
    var p, q := SubDict(a, PROVIDERS_KEY), SubDict(b, PROVIDERS_KEY);
    GetByMeaning(p, q, Active(a));
    GetByMeaning(SubDict(p, Active(a)), SubDict(q, Active(a)), ENV_KEY);
    GetByMeaning(SubDict(p, Active(a)), SubDict(q, Active(a)), TOKEN_KEY);
  }

  // --------------------------------------------------------------------- one write

  predicate IsLeaf(v: Option<Value>) { v.Some? && !v.value.Table? }

  lemma {:induction false} WrittenShape(loads: Loader, file: File, r: Request)
    requires IsTomlLibrary(loads) && AreEntries(r.cleaned)
    ensures var n, m := Normalized(r), DeepMerge(Load(loads, file), Normalized(r));
            && AreEntries(n) && AreEntries(m) && HasActive(m) && Active(m) == Active(n)
            && AreEntries(Written(loads, file, r)) && Exclusive(Written(loads, file, r))
            && Active(Written(loads, file, r)) == Active(n)
  {
    hide DeepMerge, Recalibrate, Normalize, AreEntries, Exclusive, Active, HasActive, Get, IsTomlLibrary;
    var base, n := Load(loads, file), Normalized(r);
    LoadIsDict(loads, file);
    NormalizeIsProper(r.cleaned, r.url, r.token);
    NormalizedShape(r.cleaned, r.url, r.token);
    MergedShape(base, n);
    MergeIsProper(base, n);
    RecalibrateIsExclusive(DeepMerge(base, n), Persisted(r));
    RecalibrateIsProper(DeepMerge(base, n), Persisted(r));
  }

  // Nothing in what a request makes of the settings is beyond the printer.
  ghost predicate CleanRequest(r: Request) {
    CleanToken(Persisted(r)) && CleanButAuth(Normalized(r), Active(Normalized(r)))
  }

  // What a caller can check before a write: the request is clean, and so is everything in the
  // old file that the request does not replace.
  ghost predicate Printable(base: Dict, r: Request) {
    && CleanRequest(r)
    && forall path :: Free(Normalized(r), path) && !AuthPath(path, Active(Normalized(r))) ==> CleanAt(base, path)
  }

  lemma {:induction false} MergeIsClean(base: Dict, n: Dict, active: string)
    requires AreEntries(n)
    ensures CleanButAuth(DeepMerge(base, n), active) <==>
            && CleanButAuth(n, active)
            && forall path :: Free(n, path) && !AuthPath(path, active) ==> CleanAt(base, path)
  {
    hide DeepMerge, AreEntries, AuthPath, Free, At;
    forall path ensures CleanAt(DeepMerge(base, n), path) <==> CleanAt(if Free(n, path) then base else n, path)
      ensures Free(n, path) ==> CleanAt(n, path)
    {
      MergeAt(base, n, path);
      AlikeIsClean(DeepMerge(base, n), if Free(n, path) then base else n, path);
    }
  }

  lemma {:induction false} WrittenIsClean(loads: Loader, file: File, r: Request)
    requires IsTomlLibrary(loads) && AreEntries(r.cleaned)
    ensures CleanEntries(Written(loads, file, r)) <==> Printable(Load(loads, file), r)
  {
    hide DeepMerge, Recalibrate, Normalized, AreEntries, CleanEntries, CleanButAuth, CleanToken, Active;
    hide HasActive, IsTomlLibrary, Load, Exclusive, AuthPath, Free, CleanAt;
    WrittenShape(loads, file, r);
    var base, n := Load(loads, file), Normalized(r);
    MergeIsClean(base, n, Active(n));
    RecalibrateIsClean(DeepMerge(base, n), Persisted(r));
  }

  // After a write the active provider has exactly one of the two auth fields if and only if
  // what was to be written could be printed. Otherwise the file can no longer be parsed, and
  // whatever loads it finds nothing.
  lemma {:induction false} WriteIsExclusive(loads: Loader, file: File, r: Request)
    requires IsTomlLibrary(loads) && AreEntries(r.cleaned)
    ensures var l := Load(loads, Write(loads, file, r));
            && (Exclusive(l) <==> Printable(Load(loads, file), r))
            && (if Printable(Load(loads, file), r)
                then Children(l) == Children(Written(loads, file, r)) && Active(l) == Active(Normalized(r))
                else l == [])
  {
    hide Exclusive, Active, Normalized, Written, IsTomlLibrary, CleanEntries, AreEntries, Children, Printable;
    hide HasActive;
    WrittenShape(loads, file, r);
    WrittenIsClean(loads, file, r);
    LoadWritten(loads, Written(loads, file, r));
    NothingIsExclusive();
    if Printable(Load(loads, file), r) {
      SameAuth(Load(loads, Write(loads, file, r)), Written(loads, file, r));
    }
  }

  lemma NothingIsExclusive()
    ensures !Exclusive([]) && !HasToken([]) && AreEntries([]) && Children([]) == map[]
  {
  }

  // One unclean string or key in the old file that the request does not replace, and
  // everything in the file is lost: it is written back raw.
  lemma {:induction false} UncleanLosesAll(loads: Loader, file: File, r: Request, path: seq<string>)
    requires IsTomlLibrary(loads) && AreEntries(r.cleaned)
    requires !CleanAt(Load(loads, file), path)
    requires Free(Normalized(r), path) && !AuthPath(path, Active(Normalized(r)))
    ensures Load(loads, Write(loads, file, r)) == []
  {
    hide Active, Normalized, Write, Load, IsTomlLibrary, AreEntries, CleanAt, AuthPath, Free, Exclusive, Children;
    WriteIsExclusive(loads, file, r);
  }

  // For instance a file with an escaped ESC in one string, and a request that sets nothing.
  lemma {:induction false} EscapeExample(loads: Loader, text: string, url: string, token: Option<string>, persist: bool)
    requires IsTomlLibrary(loads) && loads(text) == Some([Entry("x", Str("\U{1B}"))])
    ensures Load(loads, Write(loads, Text(text), Request([], url, token, persist))) == []
  {
    hide Active, Normalize, Write, IsTomlLibrary, Exclusive, Children, PROVIDERS_KEY, PROVIDER_KEY, SUMMARY_KEY;
    var r := Request([], url, token, persist);
    NothingIsProper();
    ShortKey();
    NormalizeKeepsRest([], url, token, "x");
    UncleanLosesAll(loads, Text(text), r, ["x"]);
  }

  lemma ShortKey()
    ensures "x" !in {PROVIDERS_KEY, PROVIDER_KEY, SUMMARY_KEY}
    ensures !CleanAt([Entry("x", Str("\U{1B}"))], ["x"])
  {
    assert |PROVIDERS_KEY| > 1 && |PROVIDER_KEY| > 1 && |SUMMARY_KEY| > 1;
    var text := "\U{1B}";
    assert !CleanChar(text[0], false);
  }

  // Every setting of the old file that the new settings say nothing about keeps its value,
  // but for the auth fields of the active provider; exactly then.
  lemma {:induction false} WritePreserves(loads: Loader, file: File, r: Request, path: seq<string>)
    requires IsTomlLibrary(loads) && AreEntries(r.cleaned)
    requires IsLeaf(At(Load(loads, file), path)) && Free(Normalized(r), path)
    requires !AuthPath(path, Active(Normalized(r)))
    ensures PathIn(Children(Load(loads, Write(loads, file, r))), path) == PathIn(Children(Load(loads, file)), path)
            <==> Printable(Load(loads, file), r)
  {
    hide Active, Normalized, DeepMerge, IsTomlLibrary, AreEntries, Children, AuthPath, Free, At, PathIn;
    hide Printable, Load, Write, HasActive, Exclusive, Written;
    WrittenShape(loads, file, r);
    MergeAt(Load(loads, file), Normalized(r), path);
    LandsOn(loads, file, r, path);
    AtMeans(Load(loads, file), path);
  }

  // Every setting of the new settings is in the file, the same exception made; exactly then.
  lemma {:induction false} WriteSets(loads: Loader, file: File, r: Request, path: seq<string>)
    requires IsTomlLibrary(loads) && AreEntries(r.cleaned)
    requires IsLeaf(At(Normalized(r), path)) && !AuthPath(path, Active(Normalized(r)))
    ensures PathIn(Children(Load(loads, Write(loads, file, r))), path) == MeaningOf(At(Normalized(r), path))
            <==> Printable(Load(loads, file), r)
  {
    hide Active, Normalized, DeepMerge, IsTomlLibrary, AreEntries, Children, AuthPath, At, PathIn, Printable;
    hide Load, Write, HasActive, Exclusive, Written;
    WrittenShape(loads, file, r);
    MergeAt(Load(loads, file), Normalized(r), path);
    LandsOn(loads, file, r, path);
  }

  // What is at a path of the file after a write: a leaf of the merge, or nothing at all.
  lemma {:induction false} LandsOn(loads: Loader, file: File, r: Request, path: seq<string>)
    requires IsTomlLibrary(loads) && AreEntries(r.cleaned)
    requires !AuthPath(path, Active(Normalized(r)))
    requires IsLeaf(At(DeepMerge(Load(loads, file), Normalized(r)), path))
    ensures PathIn(Children(Load(loads, Write(loads, file, r))), path)
            == if Printable(Load(loads, file), r)
               then MeaningOf(At(DeepMerge(Load(loads, file), Normalized(r)), path)) else None
  {
    hide Active, Normalized, DeepMerge, Recalibrate, IsTomlLibrary, AreEntries, Children, At, Exclusive;
    hide Printable, Load, Write, AuthPath, HasActive;
    WrittenShape(loads, file, r);
    WriteIsExclusive(loads, file, r);
    NothingIsExclusive();
    AtMeans(Written(loads, file, r), path);
    RecalibrateAt(DeepMerge(Load(loads, file), Normalized(r)), Persisted(r), path);
  }

  // The base URL of the active provider is the proxy's after a write, exactly then.
  lemma {:induction false} WriteRoutes(loads: Loader, file: File, r: Request)
    requires IsTomlLibrary(loads) && AreEntries(r.cleaned)
    ensures var l := Load(loads, Write(loads, file, r));
            PathIn(Children(l), [PROVIDERS_KEY, Active(l), URL_KEY]) == Some(StrLeaf(r.url))
            <==> Printable(Load(loads, file), r)
  {
    hide Active, Normalize, IsTomlLibrary, AreEntries, Children, Get, Exclusive, Write, Load, Printable, PathIn;
    hide PROVIDERS_KEY, URL_KEY, ENV_KEY, TOKEN_KEY;
    var n := Normalized(r);
    NormalizedShape(r.cleaned, r.url, r.token);
    WriteIsExclusive(loads, file, r);
    NamesDiffer();
    NothingIsExclusive();
    NothingAt([PROVIDERS_KEY, Active(Load(loads, Write(loads, file, r))), URL_KEY]);
    var path := [PROVIDERS_KEY, Active(n), URL_KEY];
    UrlAt(n, r.url);
    WriteSets(loads, file, r, path);
  }

  // By path and name: the provider that the settings name, or else openace, is the one that
  // the file routes through the proxy and gives the one auth field that is due, the token
  // if it was to be written and the variable otherwise.
  lemma {:induction false} WriteByName(loads: Loader, file: File, r: Request, p: string)
    requires IsTomlLibrary(loads) && AreEntries(r.cleaned)
    requires var v := Get(r.cleaned, "model_provider");
             p == if v.Some? && v.value.Str? && v.value.text != "" then v.value.text else "openace"
    ensures var root := Children(Load(loads, Write(loads, file, r)));
            var hasToken := r.token.Some? && r.token.value != "" && r.persist;
            if Printable(Load(loads, file), r) then
              && PathIn(root, ["model_providers", p, "base_url"]) == Some(StrLeaf(r.url))
              && PathIn(root, ["model_providers", p, "experimental_bearer_token"])
                 == (if hasToken then Some(StrLeaf(r.token.value)) else None)
              && PathIn(root, ["model_providers", p, "env_key"])
                 == (if hasToken then None else Some(StrLeaf("OPENAI_API_KEY")))
              && (Get(r.cleaned, "model_provider").None? ==>
                    PathIn(root, ["model_provider"]) == Some(StrLeaf("openace")))
            else root == map[]
  {
    hide Active, Normalize, IsTomlLibrary, AreEntries, Children, Get, Exclusive, Write, Load, Printable, PathIn;
    hide ENV_KEY, TOKEN_KEY, PROVIDERS_KEY, URL_KEY;
    var n := Normalized(r);
    ActiveIsNamed(r.cleaned);
    NormalizedActive(r.cleaned, r.url, r.token);
    WriteIsExclusive(loads, file, r);
    NothingIsExclusive();
    Names();
    if Printable(Load(loads, file), r) {
      WriteRoutes(loads, file, r);
      AuthLands(loads, file, r, TOKEN_KEY);
      AuthLands(loads, file, r, ENV_KEY);
      if Get(r.cleaned, PROVIDER_KEY).None? {
        ProviderLands(loads, file, r);
      }
    }
  }

  lemma Names()
    ensures ENV_KEY == "env_key" && TOKEN_KEY == "experimental_bearer_token" && PROVIDERS_KEY == "model_providers"
    ensures URL_KEY == "base_url" && PROVIDER_KEY == "model_provider" && ENV_KEY != TOKEN_KEY
  {
    NamesDiffer();
  }

  lemma {:induction false} AuthLands(loads: Loader, file: File, r: Request, field: string)
    requires IsTomlLibrary(loads) && AreEntries(r.cleaned) && Printable(Load(loads, file), r)
    requires field == ENV_KEY || field == TOKEN_KEY
    ensures PathIn(Children(Load(loads, Write(loads, file, r))), [PROVIDERS_KEY, Active(Normalized(r)), field])
            == MeaningOf(AuthField(Persisted(r), field))
  {
    hide Active, Normalized, DeepMerge, Recalibrate, IsTomlLibrary, AreEntries, Children, At, PathIn, Exclusive;
    hide Printable;
    hide Load, Write, HasActive, AuthField, Persisted, ENV_KEY, TOKEN_KEY, PROVIDERS_KEY;
    var path := [PROVIDERS_KEY, Active(Normalized(r)), field];
    WrittenShape(loads, file, r);
    WriteIsExclusive(loads, file, r);
    AtMeans(Written(loads, file, r), path);
    assert AuthPath(path, Active(Normalized(r)));
    RecalibrateAt(DeepMerge(Load(loads, file), Normalized(r)), Persisted(r), path);
  }

  lemma {:induction false} ProviderLands(loads: Loader, file: File, r: Request)
    requires IsTomlLibrary(loads) && AreEntries(r.cleaned) && Printable(Load(loads, file), r)
    requires Get(r.cleaned, PROVIDER_KEY).None?
    ensures PathIn(Children(Load(loads, Write(loads, file, r))), [PROVIDER_KEY]) == Some(StrLeaf("openace"))
  {
    hide Active, Normalize, IsTomlLibrary, AreEntries, Children, Get, PathIn, Exclusive, Printable, Load, Write;
    hide PROVIDERS_KEY, PROVIDER_KEY, AuthPath;
    NormalizeKeepsRest(r.cleaned, r.url, r.token, PROVIDER_KEY);
    var path := [PROVIDER_KEY];
    NoAuthPath(path, Active(Normalized(r)));
    assert At(Normalized(r), path) == Get(Normalized(r), PROVIDER_KEY);
    WriteSets(loads, file, r, path);
  }

  lemma NoAuthPath(path: seq<string>, active: string)
    requires |path| < 3
    ensures !AuthPath(path, active)
  {
  }

  lemma NothingAt(path: seq<string>)
    ensures PathIn(map[], path) == None
  {
  }

  lemma UrlAt(n: Dict, url: string)
    requires HasActive(n) && Get(SubDict(SubDict(n, PROVIDERS_KEY), Active(n)), URL_KEY) == Some(Str(url))
    ensures At(n, [PROVIDERS_KEY, Active(n), URL_KEY]) == Some(Str(url))
  {
    hide Active, Get, PROVIDERS_KEY, URL_KEY;
    var path := [PROVIDERS_KEY, Active(n), URL_KEY];
    var providers := SubDict(n, PROVIDERS_KEY);
    assert path[1..] == [Active(n), URL_KEY] && path[1..][1..] == [URL_KEY];
    assert At(n, path) == At(providers, path[1..]);
    assert At(providers, path[1..]) == At(SubDict(providers, Active(n)), path[1..][1..]);
  }

  // --------------------------------------------------------------------- one clear

  lemma TokenMeansActive(d: Dict)
    ensures HasToken(d) ==> HasActive(d)
    ensures Exclusive(d) ==> HasActive(d)
  {
    hide Active, PROVIDERS_KEY, TOKEN_KEY, ENV_KEY;
    assert Get([], TOKEN_KEY) == None;
  }

  lemma TokenAfter(d: Dict, token: Option<string>)
    requires HasActive(d)
    ensures HasToken(Recalibrate(d, token)) <==> token.Some? && |token.value| > 0
  {
    hide Get, Set, SetAuthMode, ENV_KEY, TOKEN_KEY, PROVIDERS_KEY, PROVIDER_KEY;
    NamesDiffer();
    var active, providers := Active(d), SubDict(d, PROVIDERS_KEY);
    var provider := SetAuthMode(SubDict(providers, active), token);
    var more := Set(providers, active, Table(provider));
    AuthModeIsExclusive(SubDict(providers, active), token, ENV_KEY);
    GetSet(providers, active, Table(provider), active);
    GetSet(d, PROVIDERS_KEY, Table(more), PROVIDERS_KEY);
    GetSet(d, PROVIDERS_KEY, Table(more), PROVIDER_KEY);
  }

  // Whatever the file was: after a clear no token can be loaded for the active provider. A file
  // without one is left alone. A file with one becomes exclusive and keeps every other
  // setting, if and only if all else in it is clean; otherwise all of it is lost.
  lemma {:induction false} ClearIsSafe(loads: Loader, file: File, path: seq<string>)
    requires IsTomlLibrary(loads)
    ensures var d, l := Load(loads, file), Load(loads, Clear(loads, file));
            && !HasToken(l)
            && (!HasToken(d) ==> Clear(loads, file) == file)
            && (HasToken(d) ==>
                  && (Exclusive(l) <==> CleanButAuth(d, Active(d)))
                  && (if CleanButAuth(d, Active(d)) then CleanEntries(l) && Active(l) == Active(d) else l == [])
                  && (IsLeaf(At(d, path)) && !AuthPath(path, Active(d)) ==>
                        (PathIn(Children(l), path) == PathIn(Children(d), path) <==> CleanButAuth(d, Active(d)))))
  {
    hide IsTomlLibrary, CleanEntries, AreEntries, Children, At, PathIn, AuthPath, Recalibrate, Active, HasToken;
    hide HasActive, Exclusive, Toml.Dump, CleanButAuth;
    var d := Load(loads, file);
    if HasToken(d) {
      var e := Recalibrate(d, None);
      LoadIsDict(loads, file);
      TokenMeansActive(d);
      RecalibrateIsProper(d, None);
      RecalibrateIsExclusive(d, None);
      RecalibrateIsClean(d, None);
      RecalibrateAt(d, None, path);
      TokenAfter(d, None);
      LoadWritten(loads, e);
      NothingIsExclusive();
      NothingAt(path);
      AtMeans(e, path);
      AtMeans(d, path);
      if CleanEntries(e) {
        SameAuth(Load(loads, Clear(loads, file)), e);
      }
    }
  }

  // By path and name: afterwards no token can be loaded for the provider that the file names,
  // or else openace; one that was there has given way to the variable, if the rest was clean.
  lemma {:induction false} ClearByName(loads: Loader, file: File, p: string)
    requires IsTomlLibrary(loads)
    requires var v := Get(Load(loads, file), "model_provider");
             p == if v.Some? && v.value.Str? && v.value.text != "" then v.value.text else "openace"
    ensures var d, l := Load(loads, file), Load(loads, Clear(loads, file));
            var token := ["model_providers", p, "experimental_bearer_token"];
            && At(l, token) == None
            && (At(d, token) == None ==> Clear(loads, file) == file)
            && (At(d, token).Some? && CleanButAuth(d, p) ==> At(l, ["model_providers", p, "env_key"]).Some?)
  {
    hide IsTomlLibrary, AreEntries, Children, At, Active, Get, CleanButAuth, CleanEntries, Load, Clear;
    hide ENV_KEY, TOKEN_KEY, PROVIDERS_KEY, Exclusive, HasToken;
    var d, l := Load(loads, file), Load(loads, Clear(loads, file));
    ActiveIsNamed(d);
    Names();
    ClearIsSafe(loads, file, []);
    TokenIsAt(d);
    TokenIsAt(l);
    NothingIsExclusive();
    NothingAtAll([PROVIDERS_KEY, p, TOKEN_KEY]);
    if HasToken(d) && CleanButAuth(d, p) {
      VariableIsThere(l);
    }
  }

  lemma AtStep(d: Dict, path: seq<string>)
    requires |path| > 1
    ensures At(d, path) == At(SubDict(d, path[0]), path[1..])
  {
    hide Get;
    NothingInside([], path[1..][0]);
  }

  lemma AtThree(d: Dict, a: string, b: string, c: string)
    ensures At(d, [a, b, c]) == Get(SubDict(SubDict(d, a), b), c)
  {
    hide Get, SubDict;
    assert [a, b, c][1..] == [b, c] && [b, c][1..] == [c];
    AtStep(d, [a, b, c]);
    AtStep(SubDict(d, a), [b, c]);
  }

  lemma NothingAtAll(path: seq<string>)
    ensures At([], path) == None
  {
  }

  lemma TokenIsAt(d: Dict)
    ensures HasToken(d) <==> At(d, [PROVIDERS_KEY, Active(d), TOKEN_KEY]).Some?
  {
    hide At, Active, Get, SubDict;
    AtThree(d, PROVIDERS_KEY, Active(d), TOKEN_KEY);
  }

  lemma OneOfTheTwo(d: Dict)
    requires Exclusive(d) && !HasToken(d)
    ensures Get(SubDict(SubDict(d, PROVIDERS_KEY), Active(d)), ENV_KEY).Some?
  {
    hide Active, Get;
    assert OneAuth(SubDict(SubDict(d, PROVIDERS_KEY), Active(d)));
  }

  lemma VariableIsThere(d: Dict)
    requires Exclusive(d) && !HasToken(d)
    ensures At(d, [PROVIDERS_KEY, Active(d), ENV_KEY]).Some?
  {
    hide At, Active, Get, SubDict, Exclusive, HasToken;
    OneOfTheTwo(d);
    AtThree(d, PROVIDERS_KEY, Active(d), ENV_KEY);
  }

  lemma {:induction false} WrittenToken(loads: Loader, file: File, r: Request)
    requires IsTomlLibrary(loads) && AreEntries(r.cleaned)
    ensures HasToken(Written(loads, file, r)) <==> Persisted(r).Some? && |Persisted(r).value| > 0
  {
    hide DeepMerge, Recalibrate, Normalized, AreEntries, Exclusive, Active, HasActive, IsTomlLibrary;
    WrittenShape(loads, file, r);
    TokenAfter(DeepMerge(Load(loads, file), Normalized(r)), Persisted(r));
  }

  // A clear takes back the token of a write exactly when there is one and what was written
  // could be printed. A token in a file that cannot be read stays there, text and all.
  lemma {:induction false} ClearAfterWrite(loads: Loader, file: File, r: Request)
    requires IsTomlLibrary(loads) && AreEntries(r.cleaned)
    ensures Clear(loads, Write(loads, file, r)) == Write(loads, file, r) <==>
            !(Printable(Load(loads, file), r) && Persisted(r).Some? && |Persisted(r).value| > 0)
    ensures HasToken(Load(loads, Write(loads, file, r))) <==>
            Printable(Load(loads, file), r) && Persisted(r).Some? && |Persisted(r).value| > 0
  {
    hide IsTomlLibrary, AreEntries, CleanEntries, Children, Written, Printable, Exclusive, HasToken, Active, Normalized;
    var w := Write(loads, file, r);
    WriteIsExclusive(loads, file, r);
    WrittenToken(loads, file, r);
    NothingIsExclusive();
    if Printable(Load(loads, file), r) {
      SameAuth(Load(loads, w), Written(loads, file, r));
    }
    ClearIsSafe(loads, w, []);
  }

  // A second clear changes nothing, not even the text.
  lemma {:induction false} ClearTwice(loads: Loader, file: File)
    requires IsTomlLibrary(loads)
    ensures Clear(loads, Clear(loads, file)) == Clear(loads, file)
  {
    hide IsTomlLibrary, CleanEntries, HasToken, Exclusive;
    ClearIsSafe(loads, file, []);
  }

  // ------------------------------------------------------------------------- any run

  datatype Op = WriteOp(r: Request) | ClearOp

  function Apply(loads: Loader, file: File, op: Op): File {
    match op
    case WriteOp(r) => Write(loads, file, r)
    case ClearOp => Clear(loads, file)
  }

  function Run(loads: Loader, file: File, ops: seq<Op>): File {
    if |ops| == 0 then file else Apply(loads, Run(loads, file, ops[..|ops| - 1]), ops[|ops| - 1])
  }

  // What the last write found could be printed.
  ghost predicate LastWritePrintable(loads: Loader, file: File, ops: seq<Op>) {
    |ops| > 0 &&
    var front, op := ops[..|ops| - 1], ops[|ops| - 1];
    match op
    case WriteOp(r) => Printable(Load(loads, Run(loads, file, front)), r)
    case ClearOp => LastWritePrintable(loads, file, front)
  }

  // Over any sequence of writes and clears that begins with a write: the active provider of
  // the file has exactly one of the two auth fields if and only if the last write could be
  // printed; otherwise there is nothing left to be loaded.
  lemma {:induction false} ExclusiveAfterRun(loads: Loader, file: File, ops: seq<Op>)
    requires IsTomlLibrary(loads)
    requires |ops| > 0 && ops[0].WriteOp?
    requires forall op :: op in ops && op.WriteOp? ==> AreEntries(op.r.cleaned)
    ensures var l := Load(loads, Run(loads, file, ops));
            && (Exclusive(l) <==> LastWritePrintable(loads, file, ops))
            && (if LastWritePrintable(loads, file, ops) then CleanEntries(l) else l == [])
  {
    hide IsTomlLibrary, CleanEntries, AreEntries, Exclusive, Load, Write, Clear, Printable, HasToken, Active;
    var front, op := ops[..|ops| - 1], ops[|ops| - 1];
    assert op in ops && forall o :: o in front ==> o in ops;
    var f := Run(loads, file, front);
    match op {
      case WriteOp(r) =>
        WriteIsExclusive(loads, f, r);
        if Printable(Load(loads, f), r) {
          WriteIsClean(loads, f, r);
        }
      case ClearOp =>
        ExclusiveAfterRun(loads, file, front);
        ClearIsSafe(loads, f, []);
        NothingIsExclusive();
        CleanIsCleanButAuth(Load(loads, f));
    }
  }

  lemma {:induction false} WriteIsClean(loads: Loader, file: File, r: Request)
    requires IsTomlLibrary(loads) && AreEntries(r.cleaned) && Printable(Load(loads, file), r)
    ensures CleanEntries(Load(loads, Write(loads, file, r)))
  {
    hide IsTomlLibrary, CleanEntries, AreEntries, Written, Printable;
    WrittenShape(loads, file, r);
    WrittenIsClean(loads, file, r);
    LoadWritten(loads, Written(loads, file, r));
  }

  lemma {:induction false} CleanIsCleanButAuth(d: Dict)
    ensures CleanEntries(d) ==> CleanButAuth(d, Active(d))
  {
    hide CleanEntries, Active, CleanAt, AuthPath;
    if CleanEntries(d) {
      forall path ensures CleanAt(d, path) {
        CleanAlong(d, path);
      }
    }
  }

  // So a clean file and clean requests keep the file exclusive, whatever the order.
  lemma {:induction false} AlwaysExclusive(loads: Loader, file: File, ops: seq<Op>)
    requires IsTomlLibrary(loads) && CleanEntries(Load(loads, file))
    requires |ops| > 0 && ops[0].WriteOp?
    requires forall op :: op in ops && op.WriteOp? ==> AreEntries(op.r.cleaned) && CleanRequest(op.r)
    ensures LastWritePrintable(loads, file, ops)
    ensures Exclusive(Load(loads, Run(loads, file, ops))) && CleanEntries(Load(loads, Run(loads, file, ops)))
  {
    hide IsTomlLibrary, CleanEntries, AreEntries, CleanRequest, Printable, Exclusive, Load, Write, Clear;
    var front, op := ops[..|ops| - 1], ops[|ops| - 1];
    assert op in ops && forall o :: o in front ==> o in ops;
    if |front| == 0 {
      assert Run(loads, file, front) == file;
    } else {
      AlwaysExclusive(loads, file, front);
    }
    if op.WriteOp? {
      CleanIsPrintable(Load(loads, Run(loads, file, front)), op.r);
    }
    ExclusiveAfterRun(loads, file, ops);
  }

  lemma {:induction false} CleanIsPrintable(base: Dict, r: Request)
    requires CleanEntries(base) && CleanRequest(r)
    ensures Printable(base, r)
  {
    hide CleanEntries, CleanAt, Free, AuthPath, Active, Normalized, CleanRequest;
    forall path ensures CleanAt(base, path) {
      CleanAlong(base, path);
    }
  }

  // ------------------------------------------------------------------- the file on disk

  class CodexConfig {
    const loads: Loader
    var file: File

    constructor (loads: Loader, file: File)
      ensures this.loads == loads && this.file == file
    {
      this.loads, this.file := loads, file;
    }

    // `proper` is the check of the token's format, `persist` the opt-out. False where the
    // source raises while it cleans the settings; the file is then as it was.
    method WriteCodexSettings(settings: Dict, known: set<string>, url: string, token: Option<string>,
                              proper: string -> bool, persist: bool) returns (ok: bool)
      modifies this
      ensures ok == StripSensitive(settings, known).Some?
      ensures !ok ==> file == old(file)
      ensures ok ==> file == Write(loads, old(file), RequestOf(settings, known, url, token, proper, persist))
    {
      hide Normalize, DeepMerge, Recalibrate, Toml.Dump, Toml.Read, StripSensitive, CleanEntries, AreEntries, Children;
      var effective := token;
      if token.Some? && !proper(token.value) {
        effective := None;
      }
      var cleaned := StripSensitive(settings, known);
      if cleaned.None? {
        return false;
      }
      var normalized := Normalize(cleaned.value, url, effective);
      var persisted := effective;
      if persisted.Some? && |persisted.value| > 0 && !persist {
        persisted := None;
      }
      var merged := DeepMergeDicts(Load(loads, file), normalized);
      var text := Toml.DumpToml(Recalibrate(merged, persisted));
      file := Text(text);
      ok := true;
    }

    method ClearCodexBearerToken()
      modifies this
      ensures file == Clear(loads, old(file))
    {
      hide Recalibrate, Toml.Dump, Toml.Read, HasToken, CleanEntries, AreEntries, Children;
      if file.Missing? {
        NothingIsExclusive();
        return;
      }
      var merged := Load(loads, file);
      if HasToken(merged) {
        var text := Toml.DumpToml(Recalibrate(merged, None));
        file := Text(text);
      }
    }
  }

  function RequestOf(settings: Dict, known: set<string>, url: string, token: Option<string>,
                     proper: string -> bool, persist: bool): Request
    requires StripSensitive(settings, known).Some?
  {
    Request(StripSensitive(settings, known).value, url,
            if token.Some? && proper(token.value) then token else None, persist)
  }

  // Of a call as a whole: the token can be loaded afterwards if and only if there was one, it
  // had the proper format, the opt-out did not forbid it, and what was written could be printed.
  lemma TokenLands(loads: Loader, file: File, settings: Dict, known: set<string>, url: string, token: Option<string>,
                   proper: string -> bool, persist: bool)
    requires IsTomlLibrary(loads)
    requires StripSensitive(settings, known).Some? && AreEntries(StripSensitive(settings, known).value)
    ensures var r := RequestOf(settings, known, url, token, proper, persist);
            HasToken(Load(loads, Write(loads, file, r))) <==>
              && Printable(Load(loads, file), r)
              && token.Some? && token.value != "" && proper(token.value) && persist
  {
    hide IsTomlLibrary, AreEntries, Printable, HasToken, Load, Write, StripSensitive;
    ClearAfterWrite(loads, file, RequestOf(settings, known, url, token, proper, persist));
  }
}
