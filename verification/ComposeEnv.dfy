// Bootstrapping the secrets of a Compose deployment in its .env file.
module ComposeEnv {
  import opened EnvFile
  import opened PythonText
  import opened Wrappers

  datatype Key = SecurityMode | DbPassword | SecretKey | EncryptionKey | UploadKey

  const ALL: seq<Key> := [SecurityMode, DbPassword, SecretKey, EncryptionKey, UploadKey]

  function Name(k: Key): string {
    match k
    case SecurityMode => "OPENACE_SECURITY_MODE"
    case DbPassword => "DB_PASSWORD"
    case SecretKey => "SECRET_KEY"
    case EncryptionKey => "OPENACE_ENCRYPTION_KEY"
    case UploadKey => "UPLOAD_AUTH_KEY"
  }

  lemma NamesDiffer(a: Key, b: Key)
    ensures Name(a) == Name(b) ==> a == b
  {
    assert |Name(SecurityMode)| == 21 && |Name(DbPassword)| == 11 && |Name(SecretKey)| == 10;
    assert |Name(EncryptionKey)| == 22 && |Name(UploadKey)| == 15;
  }

  lemma NamesAreNames(k: Key)
    ensures IsName(Name(k))
  {
    hide IsName, Name;
    match k {
      case SecurityMode => ModeIsName();
      case DbPassword => PasswordIsName();
      case SecretKey => PasswordIsName();
      case EncryptionKey => EncryptionIsName();
      case UploadKey => EncryptionIsName();
    }
  }

  lemma ModeIsName()
    ensures IsName(Name(SecurityMode))
  {
  }

  lemma PasswordIsName()
    ensures IsName(Name(DbPassword)) && IsName(Name(SecretKey))
  {
  }

  lemma EncryptionIsName()
    ensures IsName(Name(EncryptionKey)) && IsName(Name(UploadKey))
  {
  }

  // The value of a setting; a missing one counts like an empty one.
  function Value(env: Env, k: Key): string { if Name(k) in env then env[Name(k)] else "" }

  const PRODUCTION := "production"

  predicate Forbidden(password: string) {
    password in {"ace-secret", "dev-password-change-in-production", "change-me", "password", "admin", "postgres",
                 "123456"}
  }

  // What each setting has to be.
  predicate Meets(v: string, k: Key) {
    match k
    case SecurityMode => v == PRODUCTION
    case DbPassword => |v| >= 9 && !Forbidden(v)
    case SecretKey => |v| >= 32
    case EncryptionKey => |v| >= 32
    case UploadKey => |v| > 0
  }

  predicate Valid(env: Env) { forall k: Key :: Meets(Value(env, k), k) }

  // --------------------------------------------------------------------- the decision

  // The shell's values ("" for none), what is known of an existing database volume (nothing
  // when Docker cannot tell), and the random values to draw.
  datatype Host = Host(external: Key -> string, volumes: Option<bool>, random: Key -> string)

  predicate SafeChar(c: char) {
    'A' <= c <= 'Z' || 'a' <= c <= 'z' || '0' <= c <= '9'
    || c == '_' || c == '.' || c == '~' || c == ':' || c == '/' || c == '+' || c == '@' || c == '%' || c == '-'
  }

  predicate Safe(v: string) { |v| > 0 && forall i :: 0 <= i < |v| ==> SafeChar(v[i]) }

  // The alphabets of the random values are part of the safe one.
  ghost predicate RandomIsSafe(host: Host) { forall k: Key :: Safe(host.random(k)) }

  // What a missing setting gets; nothing if the shell's value cannot be written safely.
  function Chosen(host: Host, k: Key): Option<string> {
    if |host.external(k)| > 0 then (if Safe(host.external(k)) then Some(host.external(k)) else None)
    else if k == SecurityMode then Some(PRODUCTION)
    else Some(host.random(k))
  }

  predicate Conflicts(env: Env, host: Host, k: Key) {
    |host.external(k)| > 0 && |Value(env, k)| > 0 && host.external(k) != Value(env, k)
  }

  function Additions(env: Env, host: Host, keys: seq<Key>): Option<seq<Binding>> {
    if |keys| == 0 then Some([])
    else
      var front, k := Additions(env, host, keys[..|keys| - 1]), keys[|keys| - 1];
      if front.None? then None
      else if |Value(env, k)| > 0 then front
      else if Chosen(host, k).None? then None
      else Some(front.value + [Binding(Name(k), Chosen(host, k).value)])
  }

  datatype Outcome = Refused | Checked | Kept | Wrote(lines: seq<string>)

  function LinesOf(file: Option<seq<string>>): seq<string> { if file.Some? then file.value else [] }

  function Bootstrapped(file: Option<seq<string>>, host: Host): Outcome {
    var lines := LinesOf(file);
    var env := Parse(lines);
    var adds := Additions(env, host, ALL);
    if exists k: Key :: Conflicts(env, host, k) then Refused
    else if |Value(env, DbPassword)| == 0 && host.volumes != Some(false) then Refused
    else if adds.None? || !Valid(Override(env, adds.value)) then Refused
    else if |adds.value| > 0 || file.None? then Wrote(UpdateOf(lines, adds.value))
    else Kept
  }

  // The values that --check looks at: the shell's where it has one.
  function Shown(env: Env, host: Host, k: Key): string {
    if |host.external(k)| > 0 then host.external(k) else Value(env, k)
  }

  function CheckedOnly(file: Option<seq<string>>, host: Host): Outcome {
    var env := Parse(LinesOf(file));
    if exists k: Key :: Conflicts(env, host, k) then Refused
    else if forall k: Key :: Meets(Shown(env, host, k), k) then Checked
    else Refused
  }

  // The file after a run.
  function FileAfter(file: Option<seq<string>>, r: Outcome): Option<seq<string>> {
    if r.Wrote? then Some(r.lines) else file
  }

  predicate Succeeds(r: Outcome) { r.Wrote? || r.Kept? }

  // ------------------------------------------------------------------------ the lemmas

  lemma SafeIsPlain(v: string)
    requires Safe(v)
    ensures Plain(v)
  {
    hide Rstrip;
    assert SafeChar(v[0]) && SafeChar(v[|v| - 1]);
    assert !Space(v[0]) && !Space(v[|v| - 1]);
    assert Lstrip(v) == v;
    RstripEnds(v);
  }

  lemma ProductionIsSafe()
    ensures Safe(PRODUCTION)
  {
  }

  lemma ChosenIsPlain(host: Host, k: Key)
    requires RandomIsSafe(host) && Chosen(host, k).Some?
    ensures Plain(Chosen(host, k).value) && |Chosen(host, k).value| > 0
  {
    hide Plain, PRODUCTION;
    ProductionIsSafe();
    SafeIsPlain(Chosen(host, k).value);
  }

  predicate Distinct(keys: seq<Key>) { forall i, j :: 0 <= i < j < |keys| ==> keys[i] != keys[j] }

  // The value a setting ends up with.
  function Settled(env: Env, host: Host, k: Key): string {
    if |Value(env, k)| > 0 || Chosen(host, k).None? then Value(env, k) else Chosen(host, k).value
  }

  lemma {:induction false} AdditionsAreProper(env: Env, host: Host, keys: seq<Key>)
    requires RandomIsSafe(host) && Distinct(keys) && Additions(env, host, keys).Some?
    ensures var adds := Additions(env, host, keys).value;
            && Proper(adds)
            && (forall b :: b in adds ==> exists k :: k in keys && b.key == Name(k))
            && (|adds| == 0 <==> forall k :: k in keys ==> |Value(env, k)| > 0)
  {
    hide Plain, IsName, Name, Chosen, RandomIsSafe, Proper, Value;
    if |keys| == 0 {
      NothingIsProper();
    } else {
      var front, k := keys[..|keys| - 1], keys[|keys| - 1];
      assert k in keys && forall x :: x in front ==> x in keys;
      assert forall x :: x in keys ==> x in front || x == k;
      AdditionsAreProper(env, host, front);
      if |Value(env, k)| == 0 {
        ChosenIsPlain(host, k);
        NamesAreNames(k);
        var adds := Additions(env, host, front).value;
        forall b | b in adds ensures b.key != Name(k) {
          var x :| x in front && b.key == Name(x);
          NamesDiffer(x, k);
        }
        ProperSnoc(adds, Binding(Name(k), Chosen(host, k).value));
      }
    }
  }

  lemma NothingIsProper()
    ensures Proper([])
  {
  }

  lemma ProperSnoc(adds: seq<Binding>, b: Binding)
    requires Proper(adds) && IsName(b.key) && Plain(b.value) && forall x :: x in adds ==> x.key != b.key
    ensures Proper(adds + [b])
  {
    hide IsName, Plain;
  }

  lemma OverrideSnoc(env: Env, adds: seq<Binding>, b: Binding)
    ensures Override(env, adds + [b]) == Override(env, adds)[b.key := b.value]
  {
    assert (adds + [b])[..|adds|] == adds;
  }

  lemma ValueAfter(env: Env, k: Key, v: string, x: Key)
    ensures Value(env[Name(k) := v], x) == if x == k then v else Value(env, x)
  {
    hide Name;
    NamesDiffer(x, k);
  }

  // What the additions make of each setting, and that they touch nothing else.
  lemma {:induction false} OverrideSettles(env: Env, host: Host, keys: seq<Key>, name: string)
    requires Additions(env, host, keys).Some?
    ensures var e := Override(env, Additions(env, host, keys).value);
            && (forall k :: k in keys ==> Value(e, k) == Settled(env, host, k))
            && (forall k :: k !in keys ==> Value(e, k) == Value(env, k))
            && ((forall k :: k in keys && Name(k) == name ==> |Value(env, k)| > 0) ==>
                  (name in e <==> name in env) && (name in e ==> e[name] == env[name]))
  {
    hide Name, Chosen, Value, Override;
    if |keys| == 0 {
      assert Override(env, []) == env by { OverrideNothing(env); }
    } else {
      var front, k := keys[..|keys| - 1], keys[|keys| - 1];
      assert k in keys && forall x :: x in front ==> x in keys;
      assert forall x :: x in keys ==> x in front || x == k;
      OverrideSettles(env, host, front, name);
      if |Value(env, k)| == 0 {
        var adds, v := Additions(env, host, front).value, Chosen(host, k).value;
        OverrideSnoc(env, adds, Binding(Name(k), v));
        var e := Override(env, adds);
        forall x: Key ensures Value(e[Name(k) := v], x) == if x == k then v else Value(e, x) {
          ValueAfter(e, k, v, x);
        }
      }
    }
  }

  lemma OverrideNothing(env: Env)
    ensures Override(env, []) == env
  {
  }

  lemma AllKeys(k: Key)
    ensures k in ALL && Distinct(ALL)
  {
    assert ALL[0] == SecurityMode && ALL[1] == DbPassword && ALL[2] == SecretKey
        && ALL[3] == EncryptionKey && ALL[4] == UploadKey;
  }

  // What the file says after a run that succeeds.
  lemma {:induction false} AfterSuccess(file: Option<seq<string>>, host: Host, k: Key, name: string)
    requires RandomIsSafe(host) && Succeeds(Bootstrapped(file, host))
    ensures var env, after := Parse(LinesOf(file)), Parse(LinesOf(FileAfter(file, Bootstrapped(file, host))));
            && Valid(after) && !Conflicts(env, host, k)
            && Value(after, k) == Settled(env, host, k) && |Value(after, k)| > 0
            && (|Value(env, k)| == 0 ==> Chosen(host, k).Some?)
            && ((forall x :: Name(x) == name ==> |Value(env, x)| > 0) ==>
                  (name in after <==> name in env) && (name in after ==> after[name] == env[name]))
  {
    hide Parse, Name, Chosen, RandomIsSafe, Valid, Proper, IsName, Plain, UpdateOf;
    var lines := LinesOf(file);
    var env := Parse(lines);
    var adds := Additions(env, host, ALL).value;
    AllKeys(k);
    AdditionsAreProper(env, host, ALL);
    OverrideSettles(env, host, ALL, name);
    ProperBindings(adds);
    UpdateLaw(lines, adds);
    if |Value(env, k)| == 0 {
      ChosenForMissing(env, host, ALL, k);
      ChosenIsPlain(host, k);
    }
  }

  lemma ProperBindings(adds: seq<Binding>)
    requires Proper(adds)
    ensures forall b :: b in adds ==> IsName(b.key) && Plain(b.value)
  {
  }

  lemma {:induction false} ChosenForMissing(env: Env, host: Host, keys: seq<Key>, k: Key)
    requires Additions(env, host, keys).Some? && k in keys && |Value(env, k)| == 0
    ensures Chosen(host, k).Some?
  {
    hide Chosen, Value;
    if k != keys[|keys| - 1] {
      ChosenForMissing(env, host, keys[..|keys| - 1], k);
    }
  }

  lemma PasswordNeedsNoVolume(file: Option<seq<string>>, host: Host)
    requires Succeeds(Bootstrapped(file, host)) && |Value(Parse(LinesOf(file)), DbPassword)| == 0
    ensures host.volumes == Some(false)
  {
    hide Parse, Valid, Additions, Value;
  }

  // A run that succeeds leaves a file that validates; every setting that had a value keeps
  // it, and so does every other variable; and a database password is invented only if there
  // is surely no volume of an older database.
  lemma {:induction false} SuccessValidates(file: Option<seq<string>>, host: Host, k: Key, name: string)
    requires RandomIsSafe(host) && Succeeds(Bootstrapped(file, host))
    ensures var env, after := Parse(LinesOf(file)), Parse(LinesOf(FileAfter(file, Bootstrapped(file, host))));
            && Valid(after)
            && (|Value(env, k)| > 0 ==> Value(after, k) == Value(env, k))
            && ((forall x :: Name(x) != name) ==>
                  (name in after <==> name in env) && (name in after ==> after[name] == env[name]))
            && (|Value(env, DbPassword)| == 0 ==> |Value(after, DbPassword)| > 0 && host.volumes == Some(false))
  {
    hide Parse, Name, Meets, Bootstrapped;
    AfterSuccess(file, host, k, name);
    AfterSuccess(file, host, DbPassword, name);
    if |Value(Parse(LinesOf(file)), DbPassword)| == 0 {
      PasswordNeedsNoVolume(file, host);
    }
  }

  function Text(env: Env, name: string): string { if name in env then env[name] else "" }

  // What makes a configuration valid, setting by setting.
  lemma {:induction false} ValidMeans(env: Env)
    ensures Valid(env) <==>
              && Text(env, "OPENACE_SECURITY_MODE") == "production"
              && |Text(env, "DB_PASSWORD")| >= 9 && Text(env, "DB_PASSWORD") != "dev-password-change-in-production"
              && Text(env, "DB_PASSWORD") != "ace-secret" && Text(env, "DB_PASSWORD") != "change-me"
              && |Text(env, "SECRET_KEY")| >= 32 && |Text(env, "OPENACE_ENCRYPTION_KEY")| >= 32
              && |Text(env, "UPLOAD_AUTH_KEY")| > 0
  {
    hide Forbidden;
    if |Text(env, "DB_PASSWORD")| >= 9 {
      LongOnes(Text(env, "DB_PASSWORD"));
    }
    forall k: Key ensures Value(env, k) == Text(env, Name(k)) {
    }
    assert Valid(env) <==>
      && Meets(Value(env, SecurityMode), SecurityMode) && Meets(Value(env, DbPassword), DbPassword)
      && Meets(Value(env, SecretKey), SecretKey) && Meets(Value(env, EncryptionKey), EncryptionKey)
      && Meets(Value(env, UploadKey), UploadKey);
  }

  // Of the well-known passwords three are long enough to need the ban.
  lemma LongOnes(password: string)
    requires |password| >= 9
    ensures Forbidden(password) <==>
            password == "dev-password-change-in-production" || password == "ace-secret" || password == "change-me"
  {
    assert |"password"| == 8 && |"admin"| == 5 && |"postgres"| == 8 && |"123456"| == 6;
  }

  // What a missing setting gets: the shell's value, or its own default, which for all but the
  // mode is a random value drawn for it.
  lemma {:induction false} MissingGets(file: Option<seq<string>>, host: Host, k: Key)
    requires RandomIsSafe(host) && Succeeds(Bootstrapped(file, host)) && |Value(Parse(LinesOf(file)), k)| == 0
    ensures Value(Parse(LinesOf(FileAfter(file, Bootstrapped(file, host)))), k)
            == if |host.external(k)| > 0 then host.external(k)
               else if k == SecurityMode then "production" else host.random(k)
  {
    hide Parse, Name, Meets, Bootstrapped, Safe;
    AfterSuccess(file, host, k, "");
  }

  // The value that a run would leave a setting with.
  function Wanted(env: Env, host: Host, k: Key): string {
    if |Value(env, k)| > 0 then Value(env, k)
    else if |host.external(k)| > 0 then host.external(k)
    else if k == SecurityMode then "production"
    else host.random(k)
  }

  // When a run is refused: the shell and the file differ on a setting; the password is missing
  // and there may be an older volume; a value to be taken from the shell has a character that
  // is not safe in the file; or a setting would not meet its condition.
  lemma {:induction false} RefusesExactly(file: Option<seq<string>>, host: Host)
    ensures var env := Parse(LinesOf(file));
            Bootstrapped(file, host) == Refused <==>
              || (exists k: Key :: host.external(k) != "" && Value(env, k) != "" && host.external(k) != Value(env, k))
              || (Value(env, DbPassword) == "" && host.volumes != Some(false))
              || (exists k: Key :: Value(env, k) == "" && host.external(k) != "" && !Safe(host.external(k)))
              || (exists k: Key :: !Meets(Wanted(env, host, k), k))
  {
    hide Parse, Name, Meets, Safe, Additions, Override, Valid, Value, Wanted;
    var env := Parse(LinesOf(file));
    assert forall k: Key :: Conflicts(env, host, k) <==>
             host.external(k) != "" && Value(env, k) != "" && host.external(k) != Value(env, k);
    AdditionsFailExactly(env, host, ALL);
    forall k: Key ensures k in ALL {
      AllKeys(k);
    }
    if Additions(env, host, ALL).Some? {
      ValidWhenWanted(env, host);
    }
  }

  lemma {:induction false} ValidWhenWanted(env: Env, host: Host)
    requires Additions(env, host, ALL).Some?
    ensures Valid(Override(env, Additions(env, host, ALL).value)) <==> forall k: Key :: Meets(Wanted(env, host, k), k)
  {
    hide Name, Meets, Safe;
    forall k: Key ensures k in ALL {
      AllKeys(k);
    }
    OverrideSettles(env, host, ALL, "");
    forall k: Key ensures Settled(env, host, k) == Wanted(env, host, k) {
      if |Value(env, k)| == 0 {
        ChosenForMissing(env, host, ALL, k);
      }
    }
  }

  lemma {:induction false} AdditionsFailExactly(env: Env, host: Host, keys: seq<Key>)
    ensures Additions(env, host, keys).None? <==>
            exists k :: k in keys && Value(env, k) == "" && host.external(k) != "" && !Safe(host.external(k))
  {
    hide Name, Safe, Value;
    if |keys| > 0 {
      var front, k := keys[..|keys| - 1], keys[|keys| - 1];
      AdditionsFailExactly(env, host, front);
      assert k in keys && forall x :: x in keys <==> x in front || x == k;
    }
  }

  // The check passes if and only if nothing conflicts and the settings as the shell and the
  // file have them meet their conditions.
  lemma {:induction false} ChecksExactly(file: Option<seq<string>>, host: Host)
    ensures var env := Parse(LinesOf(file));
            CheckedOnly(file, host) == Checked <==>
              && (forall k: Key :: host.external(k) != "" && Value(env, k) != "" ==> host.external(k) == Value(env, k))
              && (forall k: Key :: Meets(if host.external(k) != "" then host.external(k) else Value(env, k), k))
  {
    hide Parse, Name, Meets;
    var env := Parse(LinesOf(file));
    assert forall k: Key :: Conflicts(env, host, k) <==>
             host.external(k) != "" && Value(env, k) != "" && host.external(k) != Value(env, k);
    assert forall k: Key :: Shown(env, host, k) == if host.external(k) != "" then host.external(k) else Value(env, k);
  }

  lemma SafeLooksLike(c: char)
    ensures SafeChar(c) ==> !Space(c) && c != '"' && c != '\'' && c != '#' && c != '$' && c != '\\' && c != '='
    ensures SafeChar(c) <==>
              || 65 <= c as int <= 90 || 97 <= c as int <= 122 || 48 <= c as int <= 57
              || c in {'_', '.', '~', ':', '/', '+', '@', '%', '-'}
    ensures Safe([c]) <==> SafeChar(c)
    ensures !Safe([])
  {
    assert [c][0] == c;
  }

  lemma RunsThatSucceed(file: Option<seq<string>>, host: Host)
    ensures Succeeds(Bootstrapped(file, host)) <==> Bootstrapped(file, host) != Refused
  {
    hide Additions, Conflicts, Valid, Parse, UpdateOf;
  }

  // Run again from a shell that says the same or less, it adds nothing and changes nothing,
  // whatever the volumes and the random values are by then; and the check passes.
  lemma {:induction false} SecondRunKeeps(file: Option<seq<string>>, host: Host, again: Host)
    requires RandomIsSafe(host) && Succeeds(Bootstrapped(file, host))
    requires forall k: Key :: again.external(k) == host.external(k) || again.external(k) == ""
    ensures var after := FileAfter(file, Bootstrapped(file, host));
            after.Some? && Bootstrapped(after, again) == Kept && CheckedOnly(after, again) == Checked
  {
    hide Parse, Name, Meets, Bootstrapped, Safe;
    var after := FileAfter(file, Bootstrapped(file, host));
    var env, e := Parse(LinesOf(file)), Parse(LinesOf(after));
    forall k: Key ensures !Conflicts(e, again, k) && |Value(e, k)| > 0 && Meets(Value(e, k), k) {
      AfterSuccess(file, host, k, "");
    }
    WritesUnlessThere(file, host);
    NothingToAdd(e, again, ALL);
    KeptWhenComplete(after, again);
  }

  lemma WritesUnlessThere(file: Option<seq<string>>, host: Host)
    requires Succeeds(Bootstrapped(file, host))
    ensures FileAfter(file, Bootstrapped(file, host)).Some?
  {
    hide Parse, Valid, Additions, Value;
  }

  lemma KeptWhenComplete(file: Option<seq<string>>, host: Host)
    requires file.Some?
    requires var env := Parse(LinesOf(file));
             && (forall k: Key :: !Conflicts(env, host, k) && |Value(env, k)| > 0 && Meets(Value(env, k), k))
             && Additions(env, host, ALL) == Some([])
    ensures Bootstrapped(file, host) == Kept && CheckedOnly(file, host) == Checked
  {
    hide Parse, Meets, Name, Additions;
    var env := Parse(LinesOf(file));
    assert Override(env, []) == env;
    forall k: Key ensures Meets(Shown(env, host, k), k) {
      assert !Conflicts(env, host, k);
    }
  }

  lemma {:induction false} NothingToAdd(env: Env, host: Host, keys: seq<Key>)
    requires forall k: Key :: |Value(env, k)| > 0
    ensures Additions(env, host, keys) == Some([])
  {
    hide Value;
    if |keys| > 0 {
      NothingToAdd(env, host, keys[..|keys| - 1]);
    }
  }

  // ------------------------------------------------------------------------ the script

  // The settings that fail, in order.
  // The order in which the settings are reported.
  function Rank(k: Key): nat {
    match k
    case SecurityMode => 0
    case DbPassword => 1
    case SecretKey => 2
    case EncryptionKey => 3
    case UploadKey => 4
  }

  predicate InOrder(errors: seq<Key>) { forall i, j :: 0 <= i < j < |errors| ==> Rank(errors[i]) < Rank(errors[j]) }

  method Validate(env: Env) returns (errors: seq<Key>)
    ensures |errors| == 0 <==> Valid(env)
    ensures forall k: Key :: k in errors <==> !Meets(Value(env, k), k)
    ensures InOrder(errors)
  {
    hide Name, Meets;
    errors := [];
    AllKeys(SecurityMode);
    for i := 0 to |ALL|
      invariant forall k: Key :: k in errors <==> k in ALL[..i] && !Meets(Value(env, k), k)
      invariant InOrder(errors) && forall k :: k in errors ==> Rank(k) < i
    {
      assert Rank(ALL[i]) == i;
      if !Meets(Value(env, ALL[i]), ALL[i]) {
        errors := errors + [ALL[i]];
      }
    }
    forall k: Key ensures k in ALL[..|ALL|] {
      AllKeys(k);
    }
    if |errors| > 0 {
      assert errors[0] in errors;
    }
  }

  class ComposeProject {
    var envFile: Option<seq<string>>

    constructor (envFile: Option<seq<string>>)
      ensures this.envFile == envFile
    {
      this.envFile := envFile;
    }

    // A symbolic link in place of the file is refused. `ok` is false where the script raises;
    // the file is then as it was.
    method Bootstrap(host: Host, isLink: bool, checkOnly: bool) returns (ok: bool)
      requires RandomIsSafe(host)
      modifies this
      ensures isLink ==> !ok && envFile == old(envFile)
      ensures !isLink && checkOnly ==> ok == CheckedOnly(old(envFile), host).Checked? && envFile == old(envFile)
      ensures !isLink && !checkOnly ==> ok == Succeeds(Bootstrapped(old(envFile), host))
      ensures !isLink && !checkOnly ==> envFile == FileAfter(old(envFile), Bootstrapped(old(envFile), host))
    {
      hide Parse, Name, Meets, Additions, UpdateOf, RandomIsSafe, Override, Proper;
      if isLink {
        return false;
      }
      var lines := LinesOf(envFile);
      var current := ParseEnv(lines);
      var clash := FindConflict(current, host);
      if clash {
        return false;
      }
      if checkOnly {
        ok := CheckShown(current, host);
        return;
      }
      if |Value(current, DbPassword)| == 0 && host.volumes != Some(false) {
        return false;
      }
      var additions := CollectAdditions(current, host);
      if additions.None? {
        return false;
      }
      var errors := Validate(Override(current, additions.value));
      if |errors| > 0 {
        return false;
      }
      AllKeys(SecurityMode);
      AdditionsAreProper(current, host, ALL);
      if |additions.value| > 0 || envFile.None? {
        var updated := UpdateLines(lines, additions.value);
        envFile := Some(updated);
      }
      ok := true;
    }
  }

  method FindConflict(env: Env, host: Host) returns (clash: bool)
    ensures clash <==> exists k: Key :: Conflicts(env, host, k)
  {
    hide Conflicts;
    clash := false;
    for i := 0 to |ALL|
      invariant clash <==> exists k: Key :: k in ALL[..i] && Conflicts(env, host, k)
    {
      if Conflicts(env, host, ALL[i]) {
        clash := true;
      }
      assert ALL[..i + 1] == ALL[..i] + [ALL[i]];
    }
    forall k: Key ensures k in ALL[..|ALL|] {
      AllKeys(k);
    }
  }

  method CheckShown(env: Env, host: Host) returns (ok: bool)
    ensures ok <==> forall k: Key :: Meets(Shown(env, host, k), k)
  {
    hide Shown, Meets;
    ok := true;
    for i := 0 to |ALL|
      invariant ok <==> forall k: Key :: k in ALL[..i] ==> Meets(Shown(env, host, k), k)
    {
      if !Meets(Shown(env, host, ALL[i]), ALL[i]) {
        ok := false;
      }
      assert ALL[..i + 1] == ALL[..i] + [ALL[i]];
    }
    forall k: Key ensures k in ALL[..|ALL|] {
      AllKeys(k);
    }
  }

  method CollectAdditions(env: Env, host: Host) returns (additions: Option<seq<Binding>>)
    ensures additions == Additions(env, host, ALL)
  {
    hide Name, Chosen, Value;
    additions := Some([]);
    for i := 0 to |ALL|
      invariant additions == Additions(env, host, ALL[..i])
    {
      assert ALL[..i + 1][..i] == ALL[..i];
      if additions.Some? && |Value(env, ALL[i])| == 0 {
        var chosen := Chosen(host, ALL[i]);
        additions := if chosen.Some? then Some(additions.value + [Binding(Name(ALL[i]), chosen.value)]) else None;
      }
    }
    assert ALL[..|ALL|] == ALL;
  }
}
