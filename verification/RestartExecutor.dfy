// The executor's restart method on session objects that are updated in place, proved to be a
// run of steps of RestartProtocol.
module RestartExecutor {
  import opened RestartProtocol
  import opened Wrappers

  // What thread t does under the restart lock when nobody gets in between. `found` and
  // `spawns` say whether the executable is found and whether it can be started.
  function CallOf(s: State, t: Tid, outcome: StopOutcome, found: bool, spawns: bool): seq<Step>
    requires Enabled(s, Acquire(t)) && s.threads[t].sid in s.registry
  {
    var seen := s.threads[t].pc.seen;
    var gone := s.objects[seen].reaped;
    if s.registry[s.threads[t].sid] != seen then [Acquire(t), LookAgain(t)]
    else if !gone && outcome.Raises? then [Acquire(t), LookAgain(t), Stop(t, Raises)]
    else
      [Acquire(t), LookAgain(t), Stop(t, if gone then Ends else outcome)]
      + if !found then [Miss(t)] else if !spawns then [Spawn(t, false)] else [Spawn(t, true), Install(t), Finish(t)]
  }

  lemma CallOfCases(s: State, t: Tid, outcome: StopOutcome, found: bool, spawns: bool)
    requires Enabled(s, Acquire(t)) && s.threads[t].sid in s.registry
    ensures var seen, start := s.threads[t].pc.seen, [Acquire(t), LookAgain(t)];
            var gone := s.objects[seen].reaped;
            var stopped := start + [Stop(t, if gone then Ends else outcome)];
            CallOf(s, t, outcome, found, spawns) ==
            if s.registry[s.threads[t].sid] != seen then start
            else if !gone && outcome.Raises? then stopped
            else if !found then stopped + [Miss(t)]
            else if !spawns then stopped + [Spawn(t, false)]
            else stopped + [Spawn(t, true), Install(t), Finish(t)]
  {
  }

  // `place` is where the object stands among all session objects, `holder` who has its
  // restart lock, `startedBy` whose restart made it.
  class SessionProcess {
    const sid: Sid
    ghost const place: nat
    ghost const startedBy: Option<Tid>
    var alive: bool
    var reaped: bool
    ghost var holder: Option<Tid>

    constructor (sid: Sid, ghost place: nat, ghost startedBy: Option<Tid>)
      ensures this.sid == sid && this.place == place
      ensures Value() == SessionObject(sid, true, false, None, startedBy)
    {
      this.sid, this.place, this.startedBy := sid, place, startedBy;
      alive, reaped, holder := true, false, None;
    }

    ghost function Value(): SessionObject
      reads this
    {
      SessionObject(sid, alive, reaped, holder, startedBy)
    }

    // The pid, or nothing once the exit has been noticed. A pid stands for its process.
    function Pid(): Option<SessionProcess>
      reads this
    {
      if reaped then None else Some(this)
    }

    // stop(), called on a process that counts as running.
    method StopProcess(outcome: StopOutcome) returns (raised: bool)
      modifies `alive, `reaped
      ensures raised == outcome.Raises?
      ensures Value() == if outcome.Ends? then old(Value()).(alive := false, reaped := true) else old(Value())
    {
      raised := false;
      match outcome {
        case Ends => alive, reaped := false, true;
        case Survives =>
        case Raises => raised := true;
      }
    }
  }

  ghost function PlaceOf(r: Result<SessionProcess>): Result<nat> {
    match r
    case Success(pid) => Success(if pid.Some? then Some(pid.value.place) else None)
    case SessionNotFound => SessionNotFound
    case ToolNotFound => ToolNotFound
    case SpawnFailed => SpawnFailed
    case Raised => Raised
  }

  // The registry, and what the protocol records beside it: all session objects ever made, the
  // calls, and which objects were replaced or given up on.
  class ProcessExecutor {
    var sessions: map<Sid, SessionProcess>
    ghost var made: seq<SessionProcess>
    ghost var calls: map<Tid, Thread>
    ghost var replaced: seq<nat>
    ghost var survivors: set<nat>

    ghost predicate Valid()
      reads this, made
    {
      && (forall i :: 0 <= i < |made| ==> made[i].place == i)
      && (forall sid :: sid in sessions ==> sessions[sid] in made)
    }

    ghost function Now(): State
      reads this, made
    {
      var all := made;
      State(map sid | sid in sessions :: sessions[sid].place,
            seq(|all|, i requires 0 <= i < |all| reads all => all[i].Value()),
            calls, replaced, survivors)
    }

    constructor ()
      ensures Valid() && Now() == State(map[], [], map[], [], {})
    {
      sessions, made, calls, replaced, survivors := map[], [], map[], [], {};
    }

    // The call begins with a look at the registry; null if the session is not there.
    method FirstLook(t: Tid, sid: Sid) returns (seen: SessionProcess?)
      requires Valid() && t !in calls
      modifies `calls
      ensures Valid() && Enabled(old(Now()), Begin(t, sid)) && Now() == Next(old(Now()), Begin(t, sid))
      ensures seen == if sid in sessions then sessions[sid] else null
      ensures var pc := if sid in sessions then HaveOld(sessions[sid].place) else Done(SessionNotFound);
              calls == old(calls)[t := Thread(sid, pc)]
    {
      if sid !in sessions {
        calls := calls[t := Thread(sid, Done(SessionNotFound))];
        return null;
      }
      seen := sessions[sid];
      calls := calls[t := Thread(sid, HaveOld(seen.place))];
    }

    // Entering and leaving the restart lock.
    ghost method TakeLock(t: Tid, seen: SessionProcess)
      requires Valid() && seen in made && Enabled(Now(), Acquire(t)) && calls[t].pc.seen == seen.place
      modifies `calls, seen`holder
      ensures Valid() && Now() == Next(old(Now()), Acquire(t))
      ensures calls == old(calls)[t := Thread(old(calls[t].sid), Locked(seen.place))]
    {
      seen.holder := Some(t);
      calls := calls[t := Thread(calls[t].sid, Locked(seen.place))];
      SameBut(old(Now()).objects, Now().objects, seen.place);
    }

    ghost method Leave(t: Tid, seen: SessionProcess, result: Result<nat>)
      requires Valid() && seen in made && t in calls && Holding(calls[t].pc) && calls[t].pc.seen == seen.place
      modifies `calls, seen`holder
      ensures Valid() && Now() == Left(old(Now()), t, result)
      ensures calls == old(calls)[t := Thread(old(calls[t].sid), Done(result))]
    {
      seen.holder := None;
      calls := calls[t := Thread(calls[t].sid, Done(result))];
      SameBut(old(Now()).objects, Now().objects, seen.place);
    }

    // Another object than the one seen before: somebody else has restarted it.
    ghost method SecondLook(t: Tid, sid: Sid, seen: SessionProcess)
      requires Valid() && seen in made && sid in sessions && t in calls && calls[t] == Thread(sid, Locked(seen.place))
      modifies `calls, seen`holder
      ensures Valid() && Enabled(old(Now()), LookAgain(t)) && Now() == Next(old(Now()), LookAgain(t))
      ensures var late := Done(PlaceOf(Success(sessions[sid].Pid())));
              calls == old(calls)[t := Thread(sid, if sessions[sid] != seen then late else Confirmed(seen.place))]
    {
      if sessions[sid] != seen {
        Leave(t, seen, PlaceOf(Success(sessions[sid].Pid())));
      } else {
        calls := calls[t := Thread(sid, Confirmed(seen.place))];
      }
    }

    // Stops the old process unless its exit has been noticed.
    method StopOld(t: Tid, seen: SessionProcess, outcome: StopOutcome) returns (raised: bool)
      requires Valid() && seen in made && t in calls && calls[t].pc == Confirmed(seen.place)
      modifies `calls, `survivors, seen
      ensures var how := if old(seen.reaped) then Ends else outcome;
              Valid() && Enabled(old(Now()), Stop(t, how)) && Now() == Next(old(Now()), Stop(t, how))
      ensures raised == (!old(seen.reaped) && outcome.Raises?)
      ensures calls
              == old(calls)[t := Thread(old(calls[t].sid), if raised then Done(Result.Raised) else Stopped(seen.place))]
    {
      raised := false;
      if !seen.reaped {
        raised := seen.StopProcess(outcome);
      }
      if raised {
        Leave(t, seen, Result.Raised);
      } else {
        if !old(seen.reaped) && outcome.Survives? {
          survivors := survivors + {seen.place};
        }
        calls := calls[t := Thread(calls[t].sid, Stopped(seen.place))];
      }
      SameBut(old(Now()).objects, Now().objects, seen.place);
    }

    method StartNew(t: Tid, sid: Sid, ghost seen: SessionProcess) returns (process: SessionProcess)
      requires Valid() && seen in made && t in calls && calls[t] == Thread(sid, Stopped(seen.place))
      modifies `calls, `made
      ensures Valid() && Enabled(old(Now()), Spawn(t, true)) && Now() == Next(old(Now()), Spawn(t, true))
      ensures fresh(process) && process in made && seen in made
      ensures calls == old(calls)[t := Thread(sid, Spawned(seen.place, process.place))]
      ensures process.Pid() == Some(process)
    {
      process := new SessionProcess(sid, |made|, Some(t));
      calls := calls[t := Thread(sid, Spawned(seen.place, |made|))];
      made := made + [process];
    }

    method Register(t: Tid, sid: Sid, ghost seen: SessionProcess, process: SessionProcess)
      requires Valid() && seen in made && process in made
      requires t in calls && calls[t] == Thread(sid, Spawned(seen.place, process.place))
      modifies `calls, `sessions, `replaced
      ensures Valid() && Enabled(old(Now()), Install(t)) && Now() == Next(old(Now()), Install(t))
      ensures calls == old(calls)[t := Thread(sid, Installed(seen.place, process.place))]
      ensures sessions == old(sessions)[sid := process]
    {
      sessions := sessions[sid := process];
      replaced := replaced + [seen.place];
      calls := calls[t := Thread(sid, Installed(seen.place, process.place))];
    }

    method StartAndRegister(t: Tid, sid: Sid, ghost seen: SessionProcess, ghost s: State, ghost steps: seq<Step>)
      returns (r: Result<SessionProcess>)
      requires Valid() && seen in made && t in calls && calls[t] == Thread(sid, Stopped(seen.place))
      requires Possible(s, steps) && Now() == After(s, steps)
      modifies this, seen`holder
      ensures Valid() && t in calls && calls[t] == Thread(sid, Done(PlaceOf(r)))
      ensures Possible(s, steps + [Spawn(t, true), Install(t), Finish(t)])
      ensures Now() == After(s, steps + [Spawn(t, true), Install(t), Finish(t)])
      ensures sid in sessions && fresh(sessions[sid]) && r == Success(Some(sessions[sid]))
    {
      hide Possible, After, Next, Left, Enabled, Now;
      ghost var one, two := steps + [Spawn(t, true)], steps + [Spawn(t, true), Install(t)];
      assert one + [Install(t)] == two && two + [Finish(t)] == steps + [Spawn(t, true), Install(t), Finish(t)];
      var process := StartNew(t, sid, seen);
      OneMore(s, steps, Spawn(t, true));
      Register(t, sid, seen, process);
      OneMore(s, one, Install(t));
      r := Success(process.Pid());
      FinishIsLeaving(t, seen, process);
      OneMore(s, two, Finish(t));
      Leave(t, seen, PlaceOf(r));
    }

    // The steps that only leave the lock.
    lemma FinishIsLeaving(t: Tid, seen: SessionProcess, process: SessionProcess)
      requires Valid() && seen in made && t in calls && calls[t].pc == Installed(seen.place, process.place)
      ensures Enabled(Now(), Finish(t)) && Holding(Now().threads[t].pc)
      ensures Next(Now(), Finish(t)) == Left(Now(), t, Success(Some(process.place)))
    {
    }

    lemma FailureIsLeaving(t: Tid, seen: SessionProcess)
      requires Valid() && seen in made && t in calls && calls[t].pc == Stopped(seen.place)
      ensures Enabled(Now(), Miss(t)) && Next(Now(), Miss(t)) == Left(Now(), t, Result.ToolNotFound)
      ensures Enabled(Now(), Spawn(t, false)) && Next(Now(), Spawn(t, false)) == Left(Now(), t, Result.SpawnFailed)
    {
    }

    // What the protocol's state says of the session.
    lemma Recorded(t: Tid, sid: Sid, seen: SessionProcess)
      requires Valid() && sid in sessions && seen in made && seen.holder.None?
      requires t in calls && calls[t] == Thread(sid, HaveOld(seen.place))
      ensures Enabled(Now(), Acquire(t)) && t in Now().threads && Now().threads[t] == calls[t]
      ensures sid in Now().registry && (Now().registry[sid] == seen.place <==> sessions[sid] == seen)
      ensures seen.place < |Now().objects| && Now().objects[seen.place].reaped == seen.reaped
    {
    }

    // The rest of the call, once the lock is free; other threads may have run in between.
    method UnderRestartLock(t: Tid, sid: Sid, seen: SessionProcess, outcome: StopOutcome, found: bool, spawns: bool)
      returns (r: Result<SessionProcess>)
      requires Valid() && sid in sessions && seen in made && seen.holder.None?
      requires t in calls && calls[t] == Thread(sid, HaveOld(seen.place))
      modifies this, seen
      ensures Valid() && t in calls && calls[t] == Thread(sid, Done(PlaceOf(r)))
      ensures Possible(old(Now()), CallOf(old(Now()), t, outcome, found, spawns))
      ensures Now() == After(old(Now()), CallOf(old(Now()), t, outcome, found, spawns))
      ensures old(sessions[sid] != seen) ==> r == Success(old(sessions[sid].Pid()))
      ensures old(sessions[sid] == seen) ==>
                if !old(seen.reaped) && outcome.Raises? then r == Raised
                else if !found then r == ToolNotFound
                else if !spawns then r == SpawnFailed
                else sid in sessions && fresh(sessions[sid]) && r == Success(Some(sessions[sid]))
    {
      hide Possible, After, Next, Left, Now, CallOf, Enabled;
      ghost var s := Now();
      Recorded(t, sid, seen);
      CallOfCases(s, t, outcome, found, spawns);
      ghost var steps := LockAndLook(t, sid, seen);
      if sessions[sid] != seen {
        return Success(sessions[sid].Pid());
      }
      ghost var how := if seen.reaped then Ends else outcome;
      var raised := StopOld(t, seen, outcome);
      OneMore(s, steps, Stop(t, how));
      steps := steps + [Stop(t, how)];
      if raised {
        return Raised;
      }
      if !found {
        FailureIsLeaving(t, seen);
        OneMore(s, steps, Miss(t));
        Leave(t, seen, Result.ToolNotFound);
        return ToolNotFound;
      }
      if !spawns {
        FailureIsLeaving(t, seen);
        OneMore(s, steps, Spawn(t, false));
        Leave(t, seen, Result.SpawnFailed);
        return SpawnFailed;
      }
      r := StartAndRegister(t, sid, seen, s, steps);
    }

    ghost method LockAndLook(t: Tid, sid: Sid, seen: SessionProcess) returns (steps: seq<Step>)
      requires Valid() && sid in sessions && seen in made && seen.holder.None?
      requires t in calls && calls[t] == Thread(sid, HaveOld(seen.place))
      modifies `calls, seen`holder
      ensures Valid() && steps == [Acquire(t), LookAgain(t)]
      ensures Possible(old(Now()), steps) && Now() == After(old(Now()), steps)
      ensures var late := Done(PlaceOf(Success(sessions[sid].Pid())));
              calls == old(calls)[t := Thread(sid, if sessions[sid] != seen then late else Confirmed(seen.place))]
    {
      hide Possible, After, Next, Left;
      ghost var s := Now();
      NoSteps(s);
      OneMore(s, [], Acquire(t));
      steps := [Acquire(t)];
      assert [] + steps == steps;
      TakeLock(t, seen);
      SecondLook(t, sid, seen);
      OneMore(s, steps, LookAgain(t));
      assert steps + [LookAgain(t)] == [Acquire(t), LookAgain(t)];
      steps := [Acquire(t), LookAgain(t)];
    }

    // The whole call when nobody gets in between. `found` and `spawns` say how the
    // environment behaves.
    method RestartSession(t: Tid, sid: Sid, outcome: StopOutcome, found: bool, spawns: bool)
      returns (r: Result<SessionProcess>)
      requires Valid() && t !in calls && forall o :: o in made ==> o.holder.None?
      modifies this, made
      ensures Valid() && t in calls && calls[t] == Thread(sid, Done(PlaceOf(r)))
      ensures r == SessionNotFound <==> sid !in old(sessions)
      ensures sid in old(sessions) ==>
                if !old(sessions[sid].reaped) && outcome.Raises? then r == Raised
                else if !found then r == ToolNotFound
                else if !spawns then r == SpawnFailed
                else sid in sessions && fresh(sessions[sid]) && r == Success(Some(sessions[sid]))
      ensures Enabled(old(Now()), Begin(t, sid))
      ensures sid !in old(sessions) ==> Now() == Next(old(Now()), Begin(t, sid))
      ensures sid in old(sessions) ==>
                var s := Next(old(Now()), Begin(t, sid));
                && Enabled(s, Acquire(t)) && Possible(s, CallOf(s, t, outcome, found, spawns))
                && Now() == After(s, CallOf(s, t, outcome, found, spawns))
    {
      hide Possible, After;
      var seen := FirstLook(t, sid);
      if seen == null {
        return SessionNotFound;
      }
      r := UnderRestartLock(t, sid, seen, outcome, found, spawns);
    }
  }

  lemma SameBut(a: seq<SessionObject>, b: seq<SessionObject>, k: nat)
    requires k < |a| == |b| && forall i :: 0 <= i < |a| && i != k ==> a[i] == b[i]
    ensures b == a[k := b[k]]
  {
  }
}
