// Rotating the agent's token: which commands are applied, what the disk shows meanwhile, and
// that the order in which commands arrive does not matter.
module TokenRotation {
  import opened ConfigFiles
  import opened ConfigStore
  import opened Wrappers

  // A rotate_token command. Without a version it is not filtered by version.
  datatype Command = Rotate(token: string, version: Option<int>)

  // The verdict of the server on a token.
  type Probe = string -> bool

  function VersionOf(d: Data): Option<int> {
    if VERSION_KEY in d && d[VERSION_KEY].Number? then Some(d[VERSION_KEY].number) else None
  }

  function TokenOf(d: Data): Option<string> {
    if TOKEN_KEY in d && d[TOKEN_KEY].Text? then Some(d[TOKEN_KEY].text) else None
  }

  predicate Applies(last: Option<int>, cmd: Command, probe: Probe) {
    && |cmd.token| >= 16
    && !(cmd.version.Some? && last.Some? && cmd.version.value <= last.value)
    && probe(cmd.token)
  }

  function WithToken(d: Data, token: string): Data { d[TOKEN_KEY := Text(token)] }

  function WithVersion(d: Data, version: Option<int>): Data {
    if version.Some? then d[VERSION_KEY := Number(version.value)] else d
  }

  function Rotated(d: Data, cmd: Command, probe: Probe): Data {
    if Applies(VersionOf(d), cmd, probe) then WithVersion(WithToken(d, cmd.token), cmd.version) else d
  }

  // What the configuration can be while the new token is being stored.
  predicate MidToken(c: Codec, own: Option<string>, before: Option<string>, d1: Data) {
    own == before || own == Some(c.dumps(d1)) || own == Some(Sealed(c, d1))
  }

  // What it can be during a rotation: the old text, the new token with the old version, or
  // both new.
  predicate MidRotation(c: Codec, own: Option<string>, before: Option<string>, d1: Data, d2: Data) {
    MidToken(c, own, before, d1) || own == Some(Sealed(c, d2))
  }

  // All states of the disk from one on.
  ghost predicate AllMidToken(c: Codec, trace: seq<Files>, from: nat, before: Option<string>, d1: Data) {
    forall i :: from <= i < |trace| ==> MidToken(c, FileAt(trace[i], Config), before, d1)
  }

  ghost predicate AllMidRotation(c: Codec, trace: seq<Files>, from: nat, before: Option<string>, d1: Data, d2: Data) {
    forall i :: from <= i < |trace| ==> MidRotation(c, FileAt(trace[i], Config), before, d1, d2)
  }

  lemma TokenStored(c: Codec, trace: seq<Files>, from: nat, before: Option<string>, d1: Data, text: string)
    requires OldOrNew(trace, from, before, text) && (text == c.dumps(d1) || text == Sealed(c, d1))
    ensures AllMidToken(c, trace, from, before, d1)
  {
    hide Sealed;
  }

  lemma StoredAgain(c: Codec, trace: seq<Files>, more: seq<Files>, from: nat, before: Option<string>,
                    own: Option<string>, d1: Data)
    requires trace <= more && AllMidToken(c, trace, from, before, d1) && MidToken(c, own, before, d1)
    requires OldOrNew(more, |trace|, own, Sealed(c, d1))
    ensures AllMidToken(c, more, from, before, d1)
  {
    hide Sealed;
  }

  lemma VersionStored(c: Codec, trace: seq<Files>, more: seq<Files>, from: nat, before: Option<string>,
                      own: Option<string>, d1: Data, d2: Data)
    requires trace <= more && AllMidToken(c, trace, from, before, d1) && MidToken(c, own, before, d1)
    requires OldOrNew(more, |trace|, own, Sealed(c, d2))
    ensures AllMidRotation(c, more, from, before, d1, d2)
  {
    hide Sealed;
  }

  lemma NoVersionToStore(c: Codec, trace: seq<Files>, from: nat, before: Option<string>, d1: Data)
    requires AllMidToken(c, trace, from, before, d1)
    ensures AllMidRotation(c, trace, from, before, d1, d1)
  {
  }

  lemma MidAtTheEnd(c: Codec, own: Option<string>, last: Option<string>, before: Option<string>, d1: Data, d2: Data)
    requires MidToken(c, own, before, d1) && (last == own || last == Some(Sealed(c, d2)))
    ensures MidRotation(c, last, before, d1, d2)
  {
    hide Sealed;
  }

  // When a command takes effect, and what it changes: at least 16 characters, a version above
  // the stored one where both have one, and a token that the server accepts.
  lemma {:induction false} RotatesExactly(d: Data, cmd: Command, probe: Probe, k: string)
    ensures var r := Rotated(d, cmd, probe);
            var last := if "last_token_version" in d && d["last_token_version"].Number?
                        then Some(d["last_token_version"].number) else None;
            var taken := |cmd.token| >= 16 && probe(cmd.token)
                         && (cmd.version.None? || last.None? || cmd.version.value > last.value);
            && (!taken ==> r == d)
            && (taken ==> "agent_token" in r && r["agent_token"] == Text(cmd.token))
            && (taken && cmd.version.Some? ==>
                  "last_token_version" in r && r["last_token_version"] == Number(cmd.version.value))
            && (k != "agent_token" && (k != "last_token_version" || cmd.version.None?) ==>
                  (k in r <==> k in d) && (k in r ==> r[k] == d[k]))
  {
    KeysDiffer();
  }

  // -------------------------------------------------------------- runs with restarts

  // The data in memory, and the disk.
  datatype Agent = Agent(data: Data, files: Files)

  // `after` is the disk at the end of the step; if `crashed` the process died then and a new
  // one has started. An update changes other settings, or supplies a version that is missing.
  datatype Step =
    | Rotation(cmd: Command, after: Files, crashed: bool)
    | Update(d: Data, after: Files, crashed: bool)
    | Restart

  predicate CanStep(c: Codec, defaults: Data, probe: Probe, a: Agent, step: Step) {
    match step
    case Rotation(cmd, after, _) =>
      var d1 := WithToken(a.data, cmd.token);
      && Applies(VersionOf(a.data), cmd, probe)
      && MidRotation(c, FileAt(after, Config), FileAt(a.files, Config), d1, WithVersion(d1, cmd.version))
    case Update(d, after, _) =>
      && Complete(defaults, d)
      && (VersionOf(d) == VersionOf(a.data) || VersionOf(a.data).None?)
      && (FileAt(after, Config) == FileAt(a.files, Config) || FileAt(after, Config) == Some(Sealed(c, d)))
    case Restart => true
  }

  function DiskAfter(a: Agent, step: Step): Files { if step.Restart? then a.files else step.after }

  predicate Restarts(step: Step) { step.Restart? || step.crashed }

  function NextAgent(c: Codec, defaults: Data, probe: Probe, a: Agent, step: Step): Agent {
    var files := DiskAfter(a, step);
    if Restarts(step) then Agent(Recovered(c, defaults, files), files)
    else if step.Update? then Agent(step.d, files)
    else Agent(Rotated(a.data, step.cmd, probe), files)
  }

  predicate CanRun(c: Codec, defaults: Data, probe: Probe, a: Agent, steps: seq<Step>)
    decreases |steps|, 1
  {
    |steps| == 0
    || (CanRun(c, defaults, probe, a, steps[..|steps| - 1])
        && CanStep(c, defaults, probe, AgentAfter(c, defaults, probe, a, steps[..|steps| - 1]), steps[|steps| - 1]))
  }

  function AgentAfter(c: Codec, defaults: Data, probe: Probe, a: Agent, steps: seq<Step>): Agent
    requires CanRun(c, defaults, probe, a, steps)
    decreases |steps|, 2
  {
    if |steps| == 0 then a
    else NextAgent(c, defaults, probe, AgentAfter(c, defaults, probe, a, steps[..|steps| - 1]), steps[|steps| - 1])
  }

  predicate NotAbove(v: Option<int>, w: Option<int>) { v.None? || (w.Some? && v.value <= w.value) }

  // A configuration file that is not there, or holds data with all the default settings.
  predicate Stored(c: Codec, defaults: Data, files: Files) {
    Config !in files
    || (Holds(c, files, Recovered(c, defaults, files)) && Complete(defaults, Recovered(c, defaults, files)))
  }

  // The version on disk does not exceed that in memory.
  predicate Behind(c: Codec, defaults: Data, a: Agent) {
    && Stored(c, defaults, a.files) && Complete(defaults, a.data)
    && NotAbove(VersionOf(Recovered(c, defaults, a.files)), VersionOf(a.data))
  }

  // An agent that has just started.
  predicate Started(c: Codec, defaults: Data, a: Agent) {
    |defaults| > 0 && Stored(c, defaults, a.files) && a.data == Recovered(c, defaults, a.files)
  }

  // A process can start without a configuration file, and on one that was saved.
  lemma StartsOnWhatWasSaved(c: Codec, defaults: Data, files: Files, d: Data)
    requires IsCodec(c) && Complete(defaults, d) && |defaults| > 0
    ensures Started(c, defaults, Agent(defaults, map[]))
    ensures Holds(c, files, d) ==> Started(c, defaults, Agent(d, files))
  {
    hide Validated, IsCodec, Sealed, Usable;
    NoFileNoBackup(c, defaults, map[]);
    if Holds(c, files, d) {
      HeldIsRecovered(c, defaults, files, d);
    }
  }

  // Whatever of a rotation or an update has reached the disk, in whichever form, is a step.
  lemma StepsAreOpen(c: Codec, defaults: Data, probe: Probe, a: Agent, cmd: Command, d: Data, after: Files,
                     crashed: bool)
    ensures var d1 := a.data["agent_token" := Text(cmd.token)];
            var taken := |cmd.token| >= 16 && probe(cmd.token) && cmd.version.Some?
                         && (VersionOf(a.data).None? || cmd.version.value > VersionOf(a.data).value);
            var own := FileAt(after, Config);
            && (taken && (own == FileAt(a.files, Config) || own == Some(c.dumps(d1)) || own == Some(Sealed(c, d1))
                          || own == Some(Sealed(c, d1["last_token_version" := Number(cmd.version.value)]))) ==>
                  CanStep(c, defaults, probe, a, Rotation(cmd, after, crashed)))
            && (Complete(defaults, d) && (VersionOf(d) == VersionOf(a.data) || VersionOf(a.data).None?)
                && (own == FileAt(a.files, Config) || own == Some(Sealed(c, d))) ==>
                  CanStep(c, defaults, probe, a, Update(d, after, crashed)))
  {
    hide Sealed, VersionOf, Complete;
  }

  // A file that holds d, or what there was.
  lemma {:induction false} FileHolds(c: Codec, defaults: Data, f: Files, before: Files, d: Data)
    requires IsCodec(c) && Stored(c, defaults, before) && Complete(defaults, d)
    requires FileAt(f, Config) == FileAt(before, Config)
             || FileAt(f, Config) == Some(c.dumps(d)) || FileAt(f, Config) == Some(Sealed(c, d))
    ensures Stored(c, defaults, f)
    ensures Recovered(c, defaults, f)
            == if FileAt(f, Config) == FileAt(before, Config) then Recovered(c, defaults, before) else d
  {
    hide Sealed, Recovered, IsCodec, Complete;
    if FileAt(f, Config) == FileAt(before, Config) {
      if Config in before {
        HeldIsRecovered(c, defaults, f, Recovered(c, defaults, before));
      } else {
        NothingRecovered(c, defaults, f);
        NothingRecovered(c, defaults, before);
      }
    } else {
      HeldIsRecovered(c, defaults, f, d);
    }
  }

  lemma NothingRecovered(c: Codec, defaults: Data, f: Files)
    requires Config !in f
    ensures Recovered(c, defaults, f) == defaults
  {
  }

  lemma RotationKeepsSettings(d: Data, cmd: Command)
    ensures var d1 := WithToken(d, cmd.token); var d2 := WithVersion(d1, cmd.version);
            && d.Keys <= d1.Keys <= d2.Keys
            && VersionOf(d1) == VersionOf(d) && TokenOf(d1) == Some(cmd.token) && TokenOf(d2) == Some(cmd.token)
            && VersionOf(d2) == if cmd.version.Some? then cmd.version else VersionOf(d)
  {
    hide TOKEN_KEY, VERSION_KEY;
    KeysDiffer();
  }

  lemma {:induction false} StillComplete(defaults: Data, d: Data, e: Data)
    requires Complete(defaults, d) && d.Keys <= e.Keys
    ensures Complete(defaults, e)
  {
    var k :| k in d;
    assert k in e.Keys;
  }

  // What is found on disk during a rotation, and its version.
  lemma {:induction false} FoundDuringRotation(c: Codec, defaults: Data, probe: Probe, a: Agent, cmd: Command, f: Files)
    requires IsCodec(c) && Behind(c, defaults, a) && CanStep(c, defaults, probe, a, Rotation(cmd, f, true))
    ensures var d1, r := WithToken(a.data, cmd.token), Recovered(c, defaults, f);
            && (r == Recovered(c, defaults, a.files) || r == d1 || r == WithVersion(d1, cmd.version))
            && Stored(c, defaults, f)
            && NotAbove(VersionOf(r), VersionOf(Rotated(a.data, cmd, probe)))
            && Complete(defaults, Rotated(a.data, cmd, probe))
  {
    hide Sealed, Recovered, IsCodec, Complete, WithToken, WithVersion, VersionOf, Stored;
    var d1 := WithToken(a.data, cmd.token);
    var d2 := WithVersion(d1, cmd.version);
    RotationKeepsSettings(a.data, cmd);
    StillComplete(defaults, a.data, d1);
    StillComplete(defaults, a.data, d2);
    FileHolds(c, defaults, f, a.files, if FileAt(f, Config) == Some(Sealed(c, d2)) then d2 else d1);
  }

  lemma {:induction false} StepStaysBehind(c: Codec, defaults: Data, probe: Probe, a: Agent, step: Step)
    requires IsCodec(c) && |defaults| > 0 && Behind(c, defaults, a) && CanStep(c, defaults, probe, a, step)
    ensures Behind(c, defaults, NextAgent(c, defaults, probe, a, step))
  {
    hide Sealed, Recovered, IsCodec, WithToken, WithVersion, VersionOf, MidRotation, Applies;
    match step {
      case Rotation(cmd, after, _) => FoundDuringRotation(c, defaults, probe, a, cmd, after);
      case Update(d, after, _) => FileHolds(c, defaults, after, a.files, d);
      case Restart =>
    }
    var files := DiskAfter(a, step);
    if Config !in files {
      NothingRecovered(c, defaults, files);
    }
  }

  // Over any run of rotations, other updates, saves that fail, crashes and restarts.
  lemma {:induction false} DiskIsNeverAhead(c: Codec, defaults: Data, probe: Probe, a: Agent, steps: seq<Step>)
    requires IsCodec(c) && Started(c, defaults, a) && CanRun(c, defaults, probe, a, steps)
    ensures Behind(c, defaults, AgentAfter(c, defaults, probe, a, steps))
  {
    hide Recovered, IsCodec, CanStep, NextAgent;
    if |steps| == 0 {
      if Config !in a.files {
        NothingRecovered(c, defaults, a.files);
      }
    } else {
      DiskIsNeverAhead(c, defaults, probe, a, steps[..|steps| - 1]);
      StepStaysBehind(c, defaults, probe, AgentAfter(c, defaults, probe, a, steps[..|steps| - 1]), steps[|steps| - 1]);
    }
  }

  // So whenever a rotation is interrupted, the new version never comes with another token
  // than the new one; what a new process finds is the old data or that of this rotation.
  lemma {:induction false} NoMixedPair(c: Codec, defaults: Data, probe: Probe, a: Agent, steps: seq<Step>,
                                       cmd: Command, f: Files)
    requires IsCodec(c) && Started(c, defaults, a) && CanRun(c, defaults, probe, a, steps)
    requires CanStep(c, defaults, probe, AgentAfter(c, defaults, probe, a, steps), Rotation(cmd, f, true))
    requires cmd.version.Some?
    ensures var now, r := AgentAfter(c, defaults, probe, a, steps), Recovered(c, defaults, f);
            var d1 := WithToken(now.data, cmd.token);
            && (VersionOf(r) == cmd.version ==> TokenOf(r) == Some(cmd.token))
            && (r == Recovered(c, defaults, now.files) || r == d1 || r == WithVersion(d1, cmd.version))
  {
    hide Recovered, IsCodec, WithToken, WithVersion, VersionOf, TokenOf, MidRotation, AgentAfter, CanRun;
    hide Stored, Complete;
    var now := AgentAfter(c, defaults, probe, a, steps);
    DiskIsNeverAhead(c, defaults, probe, a, steps);
    FoundDuringRotation(c, defaults, probe, now, cmd, f);
    RotationKeepsSettings(now.data, cmd);
  }

  // The disk has the version that is in memory.
  predicate Synced(c: Codec, defaults: Data, a: Agent) {
    VersionOf(Recovered(c, defaults, a.files)) == VersionOf(a.data)
  }

  // A process starts on a configuration file that the step has left as it was, while the disk
  // lags behind: nothing has been saved since the version in memory was taken.
  predicate Forgets(c: Codec, defaults: Data, a: Agent, step: Step) {
    Restarts(step) && !Synced(c, defaults, a) && FileAt(DiskAfter(a, step), Config) == FileAt(a.files, Config)
  }

  // The version in memory falls by exactly such a step.
  lemma {:induction false} VersionFallsExactly(c: Codec, defaults: Data, probe: Probe, a: Agent, step: Step)
    requires IsCodec(c) && |defaults| > 0 && Behind(c, defaults, a) && CanStep(c, defaults, probe, a, step)
    ensures !NotAbove(VersionOf(a.data), VersionOf(NextAgent(c, defaults, probe, a, step).data))
            <==> Forgets(c, defaults, a, step)
  {
    hide Sealed, Recovered, IsCodec, Complete, WithToken, WithVersion, VersionOf, Stored;
    match step {
      case Rotation(cmd, after, _) =>
        var d1 := WithToken(a.data, cmd.token);
        var d2 := WithVersion(d1, cmd.version);
        RotationKeepsSettings(a.data, cmd);
        StillComplete(defaults, a.data, d1);
        StillComplete(defaults, a.data, d2);
        FileHolds(c, defaults, after, a.files, if FileAt(after, Config) == Some(Sealed(c, d2)) then d2 else d1);
      case Update(d, after, _) => FileHolds(c, defaults, after, a.files, d);
      case Restart =>
    }
  }

  ghost predicate NeverFalls(c: Codec, defaults: Data, probe: Probe, a: Agent, steps: seq<Step>)
    requires CanRun(c, defaults, probe, a, steps)
  {
    |steps| > 0 ==>
      var front := steps[..|steps| - 1];
      && NeverFalls(c, defaults, probe, a, front)
      && NotAbove(VersionOf(AgentAfter(c, defaults, probe, a, front).data),
                  VersionOf(AgentAfter(c, defaults, probe, a, steps).data))
  }

  ghost predicate NeverForgets(c: Codec, defaults: Data, probe: Probe, a: Agent, steps: seq<Step>)
    requires CanRun(c, defaults, probe, a, steps)
  {
    |steps| > 0 ==>
      var front := steps[..|steps| - 1];
      && NeverForgets(c, defaults, probe, a, front)
      && !Forgets(c, defaults, AgentAfter(c, defaults, probe, a, front), steps[|steps| - 1])
  }

  // The exact condition over runs.
  lemma {:induction false} NeverFallsCharacterised(c: Codec, defaults: Data, probe: Probe, a: Agent, steps: seq<Step>)
    requires IsCodec(c) && Started(c, defaults, a) && CanRun(c, defaults, probe, a, steps)
    ensures NeverFalls(c, defaults, probe, a, steps) <==> NeverForgets(c, defaults, probe, a, steps)
  {
    hide IsCodec, Stored, Recovered, Behind, CanStep, NextAgent, Forgets, NotAbove, VersionOf;
    if |steps| > 0 {
      var front := steps[..|steps| - 1];
      NeverFallsCharacterised(c, defaults, probe, a, front);
      DiskIsNeverAhead(c, defaults, probe, a, front);
      VersionFallsExactly(c, defaults, probe, AgentAfter(c, defaults, probe, a, front), steps[|steps| - 1]);
    }
  }

  lemma {:induction false} VersionsRise(c: Codec, defaults: Data, probe: Probe, a: Agent,
                                        steps: seq<Step>, more: seq<Step>)
    requires CanRun(c, defaults, probe, a, steps) && CanRun(c, defaults, probe, a, steps + more)
    requires NeverFalls(c, defaults, probe, a, steps + more)
    ensures NotAbove(VersionOf(AgentAfter(c, defaults, probe, a, steps).data),
                     VersionOf(AgentAfter(c, defaults, probe, a, steps + more).data))
  {
    hide CanStep, NextAgent, VersionOf;
    if |more| == 0 {
      assert steps + more == steps;
    } else {
      assert (steps + more)[..|steps + more| - 1] == steps + more[..|more| - 1];
      VersionsRise(c, defaults, probe, a, steps, more[..|more| - 1]);
    }
  }

  predicate Overtaken(last: Option<int>, cmd: Command) {
    cmd.version.Some? && last.Some? && cmd.version.value <= last.value
  }

  // Then the filter does what it is for: a command that has been overtaken at any time is
  // refused ever after, crashes, failed saves and restarts included.
  lemma {:induction false} OvertakenStaysOut(c: Codec, defaults: Data, probe: Probe, a: Agent,
                                             steps: seq<Step>, more: seq<Step>, cmd: Command)
    requires IsCodec(c) && Started(c, defaults, a)
    requires CanRun(c, defaults, probe, a, steps) && CanRun(c, defaults, probe, a, steps + more)
    requires NeverForgets(c, defaults, probe, a, steps + more)
    requires Overtaken(VersionOf(AgentAfter(c, defaults, probe, a, steps).data), cmd)
    ensures !Applies(VersionOf(AgentAfter(c, defaults, probe, a, steps + more).data), cmd, probe)
  {
    hide IsCodec, Started, VersionOf, AgentAfter, CanRun, NeverFalls, NeverForgets;
    NeverFallsCharacterised(c, defaults, probe, a, steps + more);
    VersionsRise(c, defaults, probe, a, steps, more);
  }

  // At every step, what had been overtaken before it is refused after it.
  ghost predicate KeepsOut(c: Codec, defaults: Data, probe: Probe, a: Agent, steps: seq<Step>)
    requires CanRun(c, defaults, probe, a, steps)
  {
    |steps| > 0 ==>
      var front := steps[..|steps| - 1];
      && KeepsOut(c, defaults, probe, a, front)
      && Refuses(VersionOf(AgentAfter(c, defaults, probe, a, front).data),
                 VersionOf(AgentAfter(c, defaults, probe, a, steps).data), probe)
  }

  ghost predicate Refuses(before: Option<int>, after: Option<int>, probe: Probe) {
    forall cmd :: Overtaken(before, cmd) ==> !Applies(after, cmd, probe)
  }

  lemma RefusesExactly(before: Option<int>, after: Option<int>, probe: Probe, token: string)
    requires |token| >= 16 && probe(token)
    ensures Refuses(before, after, probe) <==> NotAbove(before, after)
  {
    assert before.Some? ==> Overtaken(before, Rotate(token, before));
  }

  // And only then, if the server accepts any token at all.
  lemma {:induction false} KeepsOutCharacterised(c: Codec, defaults: Data, probe: Probe, a: Agent, steps: seq<Step>,
                                                 token: string)
    requires IsCodec(c) && Started(c, defaults, a) && CanRun(c, defaults, probe, a, steps)
    requires |token| >= 16 && probe(token)
    ensures KeepsOut(c, defaults, probe, a, steps) <==> NeverForgets(c, defaults, probe, a, steps)
  {
    hide IsCodec, Started, NeverForgets, CanStep, NextAgent, Refuses, NotAbove, VersionOf;
    NeverFallsCharacterised(c, defaults, probe, a, steps);
    if |steps| > 0 {
      var front := steps[..|steps| - 1];
      NeverFallsCharacterised(c, defaults, probe, a, front);
      KeepsOutCharacterised(c, defaults, probe, a, front, token);
      RefusesExactly(VersionOf(AgentAfter(c, defaults, probe, a, front).data),
                     VersionOf(AgentAfter(c, defaults, probe, a, steps).data), probe, token);
    }
  }

  // It does not after a rotation whose saves all fail, and a restart: the command that had been
  // overtaken is accepted again.
  lemma {:induction false} OvertakenAccepted(c: Codec, defaults: Data, probe: Probe, a: Agent, cmd: Command,
                                             late: Command)
    requires Started(c, defaults, a)
    requires Applies(VersionOf(a.data), cmd, probe) && Applies(VersionOf(a.data), late, probe)
    requires cmd.version.Some? && late.version.Some? && late.version.value <= cmd.version.value
    ensures var failed := Rotation(cmd, a.files, false);
            var b := NextAgent(c, defaults, probe, a, failed);
            && CanStep(c, defaults, probe, a, failed) && CanStep(c, defaults, probe, b, Restart)
            && !Applies(VersionOf(b.data), late, probe)
            && Applies(VersionOf(NextAgent(c, defaults, probe, b, Restart).data), late, probe)
  {
    hide Recovered, TOKEN_KEY, VERSION_KEY, Sealed;
    KeysDiffer();
  }

  // ------------------------------------------------------------------------ the agent

  class RemoteAgent {
    const config: AgentConfig

    constructor (config: AgentConfig)
      ensures this.config == config
    {
      this.config := config;
    }

    // The atomic way first, the plain one if that raises.
    method StoreToken(token: string)
      modifies config, config.disk
      ensures config.data == WithToken(old(config.data), token)
      ensures old(config.disk.trace) <= config.disk.trace
      ensures AllMidToken(config.codec, config.disk.trace, |old(config.disk.trace)|,
                          FileAt(old(config.disk.files), Config), config.data)
      ensures MidToken(config.codec, FileAt(config.disk.files, Config),
                       FileAt(old(config.disk.files), Config), config.data)
      ensures config.disk.healthy ==> FileAt(config.disk.files, Config) == Some(config.codec.dumps(config.data))
    {
      hide TOKEN_KEY, Sealed, OldOrNew, AllMidToken;
      var raised := config.SaveAgentTokenAtomic(token);
      ghost var c, before, from := config.codec, FileAt(old(config.disk.files), Config), |old(config.disk.trace)|;
      TokenStored(c, config.disk.trace, from, before, config.data, c.dumps(config.data));
      if raised {
        ghost var trace, own := config.disk.trace, FileAt(config.disk.files, Config);
        assert config.data[TOKEN_KEY := Text(token)] == config.data;
        config.SaveAgentToken(token);
        StoredAgain(c, trace, config.disk.trace, from, before, own, config.data);
      }
    }

    method CmdRotateToken(cmd: Command, probe: Probe)
      modifies config, config.disk
      ensures config.data == Rotated(old(config.data), cmd, probe)
      ensures old(config.disk.trace) <= config.disk.trace
      ensures !Applies(VersionOf(old(config.data)), cmd, probe) ==>
                config.disk.trace == old(config.disk.trace) && config.disk.files == old(config.disk.files)
      ensures var d1 := WithToken(old(config.data), cmd.token);
              AllMidRotation(config.codec, config.disk.trace, |old(config.disk.trace)|,
                             FileAt(old(config.disk.files), Config), d1, WithVersion(d1, cmd.version))
      ensures var d1 := WithToken(old(config.data), cmd.token);
              Applies(VersionOf(old(config.data)), cmd, probe) ==>
                MidRotation(config.codec, FileAt(config.disk.files, Config),
                            FileAt(old(config.disk.files), Config), d1, WithVersion(d1, cmd.version))
      ensures config.disk.healthy && Applies(VersionOf(old(config.data)), cmd, probe) ==>
                FileAt(config.disk.files, Config)
                == Some(if cmd.version.Some? then Sealed(config.codec, config.data)
                        else config.codec.dumps(config.data))
    {
      hide TOKEN_KEY, VERSION_KEY, Sealed, OldOrNew, AllMidToken, MidToken, MidRotation;
      if |cmd.token| < 16 {
        return;
      }
      var last := VersionOf(config.data);
      if cmd.version.Some? && last.Some? && cmd.version.value <= last.value {
        return;
      }
      if !probe(cmd.token) {
        return;
      }
      ghost var c, before, from := config.codec, FileAt(old(config.disk.files), Config), |old(config.disk.trace)|;
      StoreToken(cmd.token);
      ghost var d1, trace, own := config.data, config.disk.trace, FileAt(config.disk.files, Config);
      if cmd.version.Some? {
        config.Update(VERSION_KEY, Number(cmd.version.value));
        var _ := config.Save();
        VersionStored(c, trace, config.disk.trace, from, before, own, d1, config.data);
        MidAtTheEnd(c, own, FileAt(config.disk.files, Config), before, d1, config.data);
      } else {
        NoVersionToStore(c, trace, from, before, d1);
        MidAtTheEnd(c, own, own, before, d1, d1);
      }
    }
  }

  // ------------------------------------------------------------------------ confluence

  // The pair that rotations act on.
  datatype Held = Held(token: Option<string>, version: Option<int>)

  function HeldBy(d: Data): Held { Held(TokenOf(d), VersionOf(d)) }

  function Take(h: Held, cmd: Command, probe: Probe): Held {
    if Applies(h.version, cmd, probe)
    then Held(Some(cmd.token), if cmd.version.Some? then cmd.version else h.version)
    else h
  }

  // The data and the pair move together.
  lemma RotatedHolds(d: Data, cmd: Command, probe: Probe)
    ensures HeldBy(Rotated(d, cmd, probe)) == Take(HeldBy(d), cmd, probe)
  {
    hide TOKEN_KEY, VERSION_KEY;
    KeysDiffer();
  }

  function TakeAll(h: Held, cmds: seq<Command>, probe: Probe): Held {
    if |cmds| == 0 then h else Take(TakeAll(h, cmds[..|cmds| - 1], probe), cmds[|cmds| - 1], probe)
  }

  predicate Below(last: Option<int>, v: int) { last.None? || last.value < v }

  // A command that would be applied to the initial pair.
  predicate Eligible(h: Held, cmd: Command, probe: Probe) {
    cmd.version.Some? && |cmd.token| >= 16 && probe(cmd.token) && Below(h.version, cmd.version.value)
  }

  // The pair is the initial one if no command is eligible, and that of an eligible command
  // with the highest version otherwise.
  ghost predicate IsBest(h: Held, cmds: seq<Command>, probe: Probe, r: Held) {
    if forall cmd :: cmd in cmds ==> !Eligible(h, cmd, probe) then r == h
    else
      && r.version.Some? && r.token.Some?
      && Rotate(r.token.value, r.version) in cmds && Eligible(h, Rotate(r.token.value, r.version), probe)
      && forall cmd :: cmd in cmds && Eligible(h, cmd, probe) ==> cmd.version.value <= r.version.value
  }

  predicate AllVersioned(cmds: seq<Command>) { forall cmd :: cmd in cmds ==> cmd.version.Some? }

  lemma {:induction false} EndsWithTheBest(h: Held, cmds: seq<Command>, probe: Probe)
    requires AllVersioned(cmds)
    ensures IsBest(h, cmds, probe, TakeAll(h, cmds, probe))
    ensures var r := TakeAll(h, cmds, probe);
            h.version.Some? ==> r.version.Some? && h.version.value <= r.version.value
    decreases |cmds|
  {
    if |cmds| > 0 {
      var front, cmd := cmds[..|cmds| - 1], cmds[|cmds| - 1];
      assert cmd in cmds && (forall x :: x in front ==> x in cmds);
      assert forall x :: x in cmds ==> x in front || x == cmd;
      EndsWithTheBest(h, front, probe);
      var m, r := TakeAll(h, front, probe), TakeAll(h, cmds, probe);
      assert r == Take(m, cmd, probe);
      if exists x :: x in front && Eligible(h, x, probe) {
        var x :| x in front && Eligible(h, x, probe);
        assert x in cmds;
      }
      if Eligible(h, cmd, probe) {
        assert cmd == Rotate(cmd.token, cmd.version);
      }
    }
  }

  // One token per version.
  predicate OneTokenPerVersion(cmds: seq<Command>) {
    forall a, b :: a in cmds && b in cmds && a.version == b.version ==> a.token == b.token
  }

  // Any two deliveries of the same commands, in whatever order and however often each, end
  // with the same token and version.
  lemma OrderDoesNotMatter(h: Held, one: seq<Command>, two: seq<Command>, probe: Probe)
    requires AllVersioned(one) && OneTokenPerVersion(one)
    requires forall cmd :: cmd in one <==> cmd in two
    ensures TakeAll(h, one, probe) == TakeAll(h, two, probe)
  {
    hide TakeAll, Eligible;
    EndsWithTheBest(h, one, probe);
    EndsWithTheBest(h, two, probe);
    var a, b := TakeAll(h, one, probe), TakeAll(h, two, probe);
    if !(forall cmd :: cmd in one ==> !Eligible(h, cmd, probe)) {
      assert Rotate(a.token.value, a.version) in one && Rotate(b.token.value, b.version) in two;
    }
  }
}
