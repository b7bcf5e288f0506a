// The restart of CLI processes as a protocol between any number of threads: a registry under
// a lock, one restart lock per session object, and a second look at the registry.
module RestartProtocol {
  import opened Wrappers

  type Sid = nat
  type Tid = nat

  // A session object and its process. `reaped` is what is_running looks at: a process that
  // has exited counts as running until somebody collects its return code. `holder` has the
  // object's restart lock; `startedBy` is the thread whose restart made the object, if any.
  datatype SessionObject =
    SessionObject(sid: Sid, alive: bool, reaped: bool, holder: Option<Tid>, startedBy: Option<Tid>)

  // A pid stands for what P has of the process that has it.
  datatype Result<P> = Success(pid: Option<P>) | SessionNotFound | ToolNotFound | SpawnFailed | Raised

  // Where a call of _restart_session stands. `seen` is the object of its first look.
  datatype Pc =
    | HaveOld(seen: nat)
    | Locked(seen: nat)
    | Confirmed(seen: nat)
    | Stopped(seen: nat)
    | Spawned(seen: nat, next: nat)
    | Installed(seen: nat, next: nat)
    | Done(result: Result<nat>)

  datatype Thread = Thread(sid: Sid, pc: Pc)

  // What stop() comes to: the process is gone; or signalling it failed with an OSError, which
  // stop() swallows; or the wait after the kill timed out, which it does not.
  datatype StopOutcome = Ends | Survives | Raises

  datatype State = State(
    registry: map<Sid, nat>,
    objects: seq<SessionObject>,
    threads: map<Tid, Thread>,
    replaced: seq<nat>,     // the objects that were replaced, in order
    survivors: set<nat>)    // the objects that stop() returned from without ending the process

  datatype Step =
    | Begin(t: Tid, sid: Sid)
    | Acquire(t: Tid)
    | LookAgain(t: Tid)
    | Stop(t: Tid, outcome: StopOutcome)
    | Miss(t: Tid)               // the executable is not found
    | Spawn(t: Tid, ok: bool)
    | Install(t: Tid)
    | Finish(t: Tid)
    | Die(o: nat)                // a process exits on its own
    | Reap(o: nat)

  predicate Holding(pc: Pc) { !pc.HaveOld? && !pc.Done? }

  predicate At(s: State, t: Tid) { t in s.threads && (Holding(s.threads[t].pc) ==> s.threads[t].pc.seen < |s.objects|) }

  predicate Enabled(s: State, step: Step) {
    match step
    case Begin(t, sid) => t !in s.threads && (sid in s.registry ==> s.registry[sid] < |s.objects|)
    case Acquire(t) =>
      At(s, t) && s.threads[t].pc.HaveOld? && s.threads[t].pc.seen < |s.objects|
      && s.objects[s.threads[t].pc.seen].holder.None?
    case LookAgain(t) =>
      At(s, t) && s.threads[t].pc.Locked? && s.threads[t].sid in s.registry
      && s.registry[s.threads[t].sid] < |s.objects|
    case Stop(t, outcome) =>
      At(s, t) && s.threads[t].pc.Confirmed? && (!outcome.Ends? ==> !s.objects[s.threads[t].pc.seen].reaped)
    case Miss(t) => At(s, t) && s.threads[t].pc.Stopped?
    case Spawn(t, _) => At(s, t) && s.threads[t].pc.Stopped?
    case Install(t) => At(s, t) && s.threads[t].pc.Spawned?
    case Finish(t) => At(s, t) && s.threads[t].pc.Installed?
    case Die(o) => o < |s.objects| && s.objects[o].alive
    case Reap(o) => o < |s.objects| && !s.objects[o].alive
  }

  function Moved(s: State, t: Tid, pc: Pc): State
    requires t in s.threads
  {
    s.(threads := s.threads[t := s.threads[t].(pc := pc)])
  }

  function WithObject(s: State, o: nat, obj: SessionObject): State
    requires o < |s.objects|
  {
    s.(objects := s.objects[o := obj])
  }

  // Out of the restart lock with a result.
  function Left(s: State, t: Tid, result: Result<nat>): State
    requires t in s.threads && Holding(s.threads[t].pc) && s.threads[t].pc.seen < |s.objects|
  {
    var seen := s.threads[t].pc.seen;
    Moved(WithObject(s, seen, s.objects[seen].(holder := None)), t, Done(result))
  }

  function PidOf(s: State, o: nat): Option<nat>
    requires o < |s.objects|
  {
    if s.objects[o].reaped then None else Some(o)
  }

  function Next(s: State, step: Step): State
    requires Enabled(s, step)
  {
    match step
    case Begin(t, sid) =>
      var pc := if sid in s.registry then HaveOld(s.registry[sid]) else Done(SessionNotFound);
      s.(threads := s.threads[t := Thread(sid, pc)])
    case Acquire(t) =>
      var seen := s.threads[t].pc.seen;
      Moved(WithObject(s, seen, s.objects[seen].(holder := Some(t))), t, Locked(seen))
    case LookAgain(t) =>
      var seen, current := s.threads[t].pc.seen, s.registry[s.threads[t].sid];
      if current != seen then Left(s, t, Success(PidOf(s, current))) else Moved(s, t, Confirmed(seen))
    case Stop(t, outcome) => AfterStop(s, t, outcome)
    case Miss(t) => Left(s, t, ToolNotFound)
    case Spawn(t, ok) =>
      if !ok then Left(s, t, SpawnFailed)
      else
        var started := s.(objects := s.objects + [SessionObject(s.threads[t].sid, true, false, None, Some(t))]);
        Moved(started, t, Spawned(s.threads[t].pc.seen, |s.objects|))
    case Install(t) =>
      var pc := s.threads[t].pc;
      Moved(s.(registry := s.registry[s.threads[t].sid := pc.next], replaced := s.replaced + [pc.seen]),
            t, Installed(pc.seen, pc.next))
    case Finish(t) => Left(s, t, Success(Some(s.threads[t].pc.next)))
    case Die(o) => WithObject(s, o, s.objects[o].(alive := false))
    case Reap(o) => WithObject(s, o, s.objects[o].(reaped := true))
  }

  function AfterStop(s: State, t: Tid, outcome: StopOutcome): State
    requires t in s.threads && s.threads[t].pc.Confirmed? && s.threads[t].pc.seen < |s.objects|
  {
    var seen := s.threads[t].pc.seen;
    if s.objects[seen].reaped then Moved(s, t, Stopped(seen))
    else
      match outcome
      case Ends => Moved(WithObject(s, seen, s.objects[seen].(alive := false, reaped := true)), t, Stopped(seen))
      case Survives => Moved(s.(survivors := s.survivors + {seen}), t, Stopped(seen))
      case Raises => Left(s, t, Raised)
  }

  // ------------------------------------------------------------------------- runs

  // Any number of sessions, one object each, whatever their processes are doing.
  ghost predicate Initial(s: State) {
    && s.threads == map[] && s.replaced == [] && s.survivors == {}
    && (forall sid :: sid in s.registry ==>
          s.registry[sid] < |s.objects| && s.objects[s.registry[sid]].sid == sid)
    && (forall o :: 0 <= o < |s.objects| ==>
          && s.objects[o].holder.None? && (s.objects[o].reaped ==> !s.objects[o].alive)
          && s.objects[o].sid in s.registry && s.registry[s.objects[o].sid] == o)
  }

  predicate Possible(s: State, steps: seq<Step>)
    decreases |steps|, 1
  {
    |steps| == 0
    || (Possible(s, steps[..|steps| - 1]) && Enabled(After(s, steps[..|steps| - 1]), steps[|steps| - 1]))
  }

  function After(s: State, steps: seq<Step>): State
    requires Possible(s, steps)
    decreases |steps|, 2
  {
    if |steps| == 0 then s else Next(After(s, steps[..|steps| - 1]), steps[|steps| - 1])
  }

  // -------------------------------------------------------------------- the invariant

  ghost predicate RegistryOk(s: State) {
    forall sid :: sid in s.registry ==>
      s.registry[sid] < |s.objects| && s.objects[s.registry[sid]].sid == sid
  }

  predicate Committed(pc: Pc) { pc.Confirmed? || pc.Stopped? || pc.Spawned? }

  // Only the holder of the lock of the registered object can be past the second look, and
  // once it is past stopping that object, the object is dead.
  predicate ThreadOk(s: State, t: Tid)
    requires t in s.threads
  {
    var sid, pc := s.threads[t].sid, s.threads[t].pc;
    pc.Done?
    || (&& pc.seen < |s.objects| && s.objects[pc.seen].sid == sid && sid in s.registry
        && (Holding(pc) ==> s.objects[pc.seen].holder == Some(t))
        && (s.registry[sid] == pc.seen || pc.seen in s.replaced)
        && (Committed(pc) ==> s.registry[sid] == pc.seen)
        && (pc.Stopped? || pc.Spawned? ==> !s.objects[pc.seen].alive || pc.seen in s.survivors)
        && (pc.Spawned? ==>
              pc.next < |s.objects| && pc.next != pc.seen && s.objects[pc.next].sid == sid
              && s.objects[pc.next].startedBy == Some(t) && pc.next !in s.replaced)
        && (pc.Installed? ==>
              pc.next < |s.objects| && s.objects[pc.next].sid == sid
              && (s.registry[sid] == pc.next || pc.next in s.replaced)))
  }

  // A live process is registered, or about to be, or one that stop() gave up on.
  predicate ObjectOk(s: State, o: nat)
    requires o < |s.objects|
  {
    var obj := s.objects[o];
    && (obj.reaped ==> !obj.alive)
    && (obj.holder.Some? ==> var t := obj.holder.value;
          t in s.threads && Holding(s.threads[t].pc) && s.threads[t].pc.seen == o)
    && (obj.alive ==> o in s.survivors || Registered(s, o) || AboutToRegister(s, o))
  }

  predicate Registered(s: State, o: nat)
    requires o < |s.objects|
  {
    s.objects[o].sid in s.registry && s.registry[s.objects[o].sid] == o
  }

  predicate AboutToRegister(s: State, o: nat)
    requires o < |s.objects|
  {
    var t := s.objects[o].startedBy;
    t.Some? && t.value in s.threads && s.threads[t.value].pc.Spawned? && s.threads[t.value].pc.next == o
  }

  ghost predicate ReplacedOk(s: State) {
    && (forall i :: 0 <= i < |s.replaced| ==>
          s.replaced[i] < |s.objects| && !Registered(s, s.replaced[i])
          && (s.objects[s.replaced[i]].alive ==> s.replaced[i] in s.survivors))
    && (forall i, j :: 0 <= i < j < |s.replaced| ==> s.replaced[i] != s.replaced[j])
  }

  ghost predicate Inv(s: State) {
    && RegistryOk(s)
    && (forall t :: t in s.threads ==> ThreadOk(s, t))
    && (forall o :: 0 <= o < |s.objects| ==> ObjectOk(s, o))
    && ReplacedOk(s)
  }

  // A step that registers nothing and starts no process among the old ones.
  lemma {:induction false} ReplacedStays(s: State, n: State)
    requires ReplacedOk(s) && n.registry == s.registry && n.replaced == s.replaced
    requires |s.objects| <= |n.objects| && s.survivors <= n.survivors
    requires forall o :: 0 <= o < |s.objects| ==>
               n.objects[o].sid == s.objects[o].sid && (n.objects[o].alive ==> s.objects[o].alive)
    ensures ReplacedOk(n)
  {
  }

  lemma InitialInv(s: State)
    requires Initial(s)
    ensures Inv(s)
  {
  }

  lemma {:induction false} LeavingKeepsInv(s: State, t: Tid, result: Result<nat>)
    requires Inv(s) && t in s.threads && Holding(s.threads[t].pc) && s.threads[t].pc.seen < |s.objects|
    requires !s.threads[t].pc.Spawned?
    ensures Inv(Left(s, t, result))
  {
    hide ReplacedOk;
    var n := Left(s, t, result);
    ReplacedStays(s, n);
    assert ThreadOk(s, t);
    forall u | u in n.threads ensures ThreadOk(n, u) {
      assert u in s.threads ==> ThreadOk(s, u);
    }
    forall p | 0 <= p < |n.objects| ensures ObjectOk(n, p) {
      assert p < |s.objects| ==> ObjectOk(s, p);
    }
  }

  lemma BeginKeepsInv(s: State, t: Tid, sid: Sid)
    requires Inv(s) && Enabled(s, Begin(t, sid))
    ensures Inv(Next(s, Begin(t, sid)))
  {
    var n := Next(s, Begin(t, sid));
    forall u | u in n.threads ensures ThreadOk(n, u) {
      assert u in s.threads ==> ThreadOk(s, u);
    }
    forall p | 0 <= p < |n.objects| ensures ObjectOk(n, p) {
      assert p < |s.objects| ==> ObjectOk(s, p);
    }
  }

  lemma {:induction false} AcquireKeepsInv(s: State, t: Tid)
    requires Inv(s) && Enabled(s, Acquire(t))
    ensures Inv(Next(s, Acquire(t)))
  {
    hide ReplacedOk;
    var n := Next(s, Acquire(t));
    ReplacedStays(s, n);
    assert ThreadOk(s, t);
    forall u | u in n.threads ensures ThreadOk(n, u) {
      assert u in s.threads ==> ThreadOk(s, u);
    }
    forall p | 0 <= p < |n.objects| ensures ObjectOk(n, p) {
      assert p < |s.objects| ==> ObjectOk(s, p);
    }
  }

  lemma {:induction false} LookAgainKeepsInv(s: State, t: Tid)
    requires Inv(s) && Enabled(s, LookAgain(t))
    ensures Inv(Next(s, LookAgain(t)))
  {
    hide Inv, Left, ThreadOk, ObjectOk;
    var seen, current := s.threads[t].pc.seen, s.registry[s.threads[t].sid];
    if current != seen {
      LeavingKeepsInv(s, t, Success(PidOf(s, current)));
    } else {
      ConfirmingKeepsInv(s, t);
    }
  }

  lemma ConfirmingKeepsInv(s: State, t: Tid)
    requires Inv(s) && Enabled(s, LookAgain(t)) && s.registry[s.threads[t].sid] == s.threads[t].pc.seen
    ensures Inv(Moved(s, t, Confirmed(s.threads[t].pc.seen)))
  {
    hide ReplacedOk;
    var n := Moved(s, t, Confirmed(s.threads[t].pc.seen));
    ReplacedStays(s, n);
    assert ThreadOk(s, t);
    forall u | u in n.threads ensures ThreadOk(n, u) {
      assert u in s.threads ==> ThreadOk(s, u);
    }
    forall p | 0 <= p < |n.objects| ensures ObjectOk(n, p) {
      assert p < |s.objects| ==> ObjectOk(s, p);
    }
  }

  lemma SkippedStopKeepsInv(s: State, t: Tid)
    requires Inv(s) && t in s.threads && s.threads[t].pc.Confirmed? && s.threads[t].pc.seen < |s.objects|
             && s.objects[s.threads[t].pc.seen].reaped
    ensures Inv(Moved(s, t, Stopped(s.threads[t].pc.seen)))
  {
    var n := Moved(s, t, Stopped(s.threads[t].pc.seen));
    assert ThreadOk(s, t);
    assert ObjectOk(s, s.threads[t].pc.seen);
    forall u | u in n.threads ensures ThreadOk(n, u) {
      assert u in s.threads ==> ThreadOk(s, u);
    }
    forall p | 0 <= p < |n.objects| ensures ObjectOk(n, p) {
      assert p < |s.objects| ==> ObjectOk(s, p);
    }
  }

  lemma {:induction false} EndedKeepsInv(s: State, t: Tid)
    requires Inv(s) && t in s.threads && s.threads[t].pc.Confirmed? && s.threads[t].pc.seen < |s.objects|
    ensures var seen := s.threads[t].pc.seen;
            Inv(Moved(WithObject(s, seen, s.objects[seen].(alive := false, reaped := true)), t, Stopped(seen)))
  {
    hide ReplacedOk;
    var seen := s.threads[t].pc.seen;
    var n := Moved(WithObject(s, seen, s.objects[seen].(alive := false, reaped := true)), t, Stopped(seen));
    ReplacedStays(s, n);
    assert ThreadOk(s, t);
    forall u | u in n.threads ensures ThreadOk(n, u) {
      assert u in s.threads ==> ThreadOk(s, u);
    }
    forall p | 0 <= p < |n.objects| ensures ObjectOk(n, p) {
      assert p < |s.objects| ==> ObjectOk(s, p);
    }
  }

  lemma SurvivedKeepsInv(s: State, t: Tid)
    requires Inv(s) && t in s.threads && s.threads[t].pc.Confirmed? && s.threads[t].pc.seen < |s.objects|
    ensures Inv(Moved(s.(survivors := s.survivors + {s.threads[t].pc.seen}), t, Stopped(s.threads[t].pc.seen)))
  {
    var n := Moved(s.(survivors := s.survivors + {s.threads[t].pc.seen}), t, Stopped(s.threads[t].pc.seen));
    assert ThreadOk(s, t);
    forall u | u in n.threads ensures ThreadOk(n, u) {
      assert u in s.threads ==> ThreadOk(s, u);
    }
    forall p | 0 <= p < |n.objects| ensures ObjectOk(n, p) {
      assert p < |s.objects| ==> ObjectOk(s, p);
    }
  }

  lemma {:induction false} StopKeepsInv(s: State, t: Tid, outcome: StopOutcome)
    requires Inv(s) && Enabled(s, Stop(t, outcome))
    ensures Inv(Next(s, Stop(t, outcome)))
  {
    hide Inv, Left, ThreadOk, ObjectOk, Moved, WithObject;
    if s.objects[s.threads[t].pc.seen].reaped {
      SkippedStopKeepsInv(s, t);
    } else {
      match outcome {
        case Ends => EndedKeepsInv(s, t);
        case Survives => SurvivedKeepsInv(s, t);
        case Raises => LeavingKeepsInv(s, t, Raised);
      }
    }
  }

  lemma {:induction false} SpawnKeepsInv(s: State, t: Tid)
    requires Inv(s) && Enabled(s, Spawn(t, true))
    ensures Inv(Next(s, Spawn(t, true)))
  {
    var n := Next(s, Spawn(t, true));
    assert ThreadOk(s, t);
    assert |s.objects| !in s.replaced;
    forall u | u in n.threads ensures ThreadOk(n, u) {
      assert u in s.threads ==> ThreadOk(s, u);
    }
    forall p | 0 <= p < |n.objects| ensures ObjectOk(n, p) {
      assert p < |s.objects| ==> ObjectOk(s, p);
    }
  }

  lemma {:induction false} InstallKeepsInv(s: State, t: Tid)
    requires Inv(s) && Enabled(s, Install(t))
    ensures Inv(Next(s, Install(t)))
  {
    hide ReplacedOk;
    var n := Next(s, Install(t));
    assert ThreadOk(s, t);
    forall u | u in n.threads ensures ThreadOk(n, u) {
      assert u in s.threads ==> ThreadOk(s, u);
    }
    forall p | 0 <= p < |n.objects| ensures ObjectOk(n, p) {
      assert p < |s.objects| ==> ObjectOk(s, p);
    }
    InstallReplaces(s, t);
  }

  lemma InstallReplaces(s: State, t: Tid)
    requires RegistryOk(s) && ReplacedOk(s) && t in s.threads && ThreadOk(s, t) && Enabled(s, Install(t))
    ensures ReplacedOk(Next(s, Install(t)))
  {
  }

  lemma {:induction false} DieKeepsInv(s: State, o: nat)
    requires Inv(s) && Enabled(s, Die(o))
    ensures Inv(Next(s, Die(o)))
  {
    var n := Next(s, Die(o));
    forall u | u in n.threads ensures ThreadOk(n, u) {
      assert u in s.threads ==> ThreadOk(s, u);
    }
    forall p | 0 <= p < |n.objects| ensures ObjectOk(n, p) {
      assert p < |s.objects| ==> ObjectOk(s, p);
    }
  }

  lemma {:induction false} ReapKeepsInv(s: State, o: nat)
    requires Inv(s) && Enabled(s, Reap(o))
    ensures Inv(Next(s, Reap(o)))
  {
    var n := Next(s, Reap(o));
    forall u | u in n.threads ensures ThreadOk(n, u) {
      assert u in s.threads ==> ThreadOk(s, u);
    }
    forall p | 0 <= p < |n.objects| ensures ObjectOk(n, p) {
      assert p < |s.objects| ==> ObjectOk(s, p);
    }
  }

  lemma {:induction false} StepKeepsInv(s: State, step: Step)
    requires Inv(s) && Enabled(s, step)
    ensures Inv(Next(s, step))
  {
    hide Inv, Left, ThreadOk, ObjectOk, Moved, WithObject, AfterStop;
    match step {
      case Begin(t, sid) => BeginKeepsInv(s, t, sid);
      case Acquire(t) => AcquireKeepsInv(s, t);
      case LookAgain(t) => LookAgainKeepsInv(s, t);
      case Stop(t, outcome) => StopKeepsInv(s, t, outcome);
      case Miss(t) => LeavingKeepsInv(s, t, ToolNotFound);
      case Spawn(t, ok) =>
        if ok {
          SpawnKeepsInv(s, t);
        } else {
          LeavingKeepsInv(s, t, SpawnFailed);
        }
      case Install(t) => InstallKeepsInv(s, t);
      case Finish(t) => LeavingKeepsInv(s, t, Success(Some(s.threads[t].pc.next)));
      case Die(o) => DieKeepsInv(s, o);
      case Reap(o) => ReapKeepsInv(s, o);
    }
  }

  lemma {:induction false} ReachableInv(s: State, steps: seq<Step>)
    requires Initial(s) && Possible(s, steps)
    ensures Inv(After(s, steps))
  {
    hide Inv, Initial, Enabled, Next;
    if |steps| == 0 {
      InitialInv(s);
    } else {
      ReachableInv(s, steps[..|steps| - 1]);
      StepKeepsInv(After(s, steps[..|steps| - 1]), steps[|steps| - 1]);
    }
  }

  // ------------------------------------------------------------------------ safety

  predicate BothAlive(s: State, o: nat, p: nat) {
    o < |s.objects| && p < |s.objects| && s.objects[o].sid == s.objects[p].sid
    && s.objects[o].alive && s.objects[p].alive
  }

  lemma OneAlivePerSession(s: State, o: nat, p: nat)
    requires Inv(s) && BothAlive(s, o, p) && o !in s.survivors && p !in s.survivors
    ensures o == p
  {
    assert ObjectOk(s, o) && ObjectOk(s, p);
    if AboutToRegister(s, o) {
      assert ThreadOk(s, s.objects[o].startedBy.value);
    }
    if AboutToRegister(s, p) {
      assert ThreadOk(s, s.objects[p].startedBy.value);
    }
  }

  // Two processes of one session are never alive at once, counting one that has been spawned
  // and not yet registered, unless stop() has returned from one of the two without ending it.
  lemma {:induction false} AtMostOneAlive(s: State, steps: seq<Step>, o: nat, p: nat)
    requires Initial(s) && Possible(s, steps) && BothAlive(After(s, steps), o, p)
    ensures o == p || o in After(s, steps).survivors || p in After(s, steps).survivors
  {
    hide Inv, Initial, After, BothAlive;
    ReachableInv(s, steps);
    if o !in After(s, steps).survivors && p !in After(s, steps).survivors {
      OneAlivePerSession(After(s, steps), o, p);
    }
  }

  ghost predicate AtMostOne(s: State) { forall o: nat, p: nat :: BothAlive(s, o, p) ==> o == p }

  // A process of the session that is alive although stop() has returned.
  predicate GaveUpOn(s: State, o: nat, sid: Sid) {
    o < |s.objects| && s.objects[o].alive && s.objects[o].sid == sid && o in s.survivors
  }

  // A successor is started beside such a process.
  ghost predicate SpawnsBeside(s: State, step: Step) {
    step.Spawn? && step.ok && step.t in s.threads && exists o: nat :: GaveUpOn(s, o, s.threads[step.t].sid)
  }

  lemma OnlySpawnsStart(s: State, step: Step, o: nat)
    requires Enabled(s, step) && o < |Next(s, step).objects| && Next(s, step).objects[o].alive
    ensures o < |s.objects| ==> s.objects[o].alive && Next(s, step).objects[o].sid == s.objects[o].sid
    ensures o >= |s.objects| ==>
              step.Spawn? && step.ok && o == |s.objects| && Next(s, step).objects[o].sid == s.threads[step.t].sid
  {
  }

  lemma SpawnStarts(s: State, t: Tid, o: nat)
    requires Enabled(s, Spawn(t, true)) && GaveUpOn(s, o, s.threads[t].sid)
    ensures BothAlive(Next(s, Spawn(t, true)), o, |s.objects|)
  {
  }

  // When a successor is about to be spawned, nothing of its session is alive but what
  // stop() has given up on.
  lemma {:induction false} AliveAtSpawn(s: State, t: Tid, o: nat)
    requires Inv(s) && Enabled(s, Spawn(t, true))
    requires o < |s.objects| && s.objects[o].alive && s.objects[o].sid == s.threads[t].sid
    ensures o in s.survivors
  {
    hide ReplacedOk;
    assert ThreadOk(s, t) && ObjectOk(s, o);
    assert AboutToRegister(s, o) ==> ThreadOk(s, s.objects[o].startedBy.value);
  }

  // From one process alive per session to two, exactly by such a step.
  lemma {:induction false} BreaksAtMostOne(s: State, step: Step)
    requires Inv(s) && AtMostOne(s) && Enabled(s, step)
    ensures AtMostOne(Next(s, step)) <==> !SpawnsBeside(s, step)
  {
    hide Inv, Enabled, Next, GaveUpOn;
    var n := Next(s, step);
    if SpawnsBeside(s, step) {
      var o: nat :| GaveUpOn(s, o, s.threads[step.t].sid);
      SpawnStarts(s, step.t, o);
      assert o < |s.objects| by { Within(s, o, s.threads[step.t].sid); }
    } else {
      forall o: nat, p: nat | BothAlive(n, o, p)
        ensures o == p
      {
        NoSecond(s, step, o, p);
        NoSecond(s, step, p, o);
      }
    }
  }

  lemma Within(s: State, o: nat, sid: Sid)
    requires GaveUpOn(s, o, sid)
    ensures o < |s.objects|
  {
  }

  lemma {:induction false} NoSecond(s: State, step: Step, o: nat, p: nat)
    requires Inv(s) && AtMostOne(s) && Enabled(s, step) && BothAlive(Next(s, step), o, p)
    ensures o < |s.objects| ==> o == p || SpawnsBeside(s, step)
    ensures o >= |s.objects| ==> o == |s.objects|
  {
    hide Inv, Enabled, Next;
    OnlySpawnsStart(s, step, o);
    OnlySpawnsStart(s, step, p);
    if o < |s.objects| {
      if p < |s.objects| {
        assert BothAlive(s, o, p);
      } else {
        SpawnEnabled(s, step);
        AliveAtSpawn(s, step.t, o);
        assert GaveUpOn(s, o, s.threads[step.t].sid);
      }
    }
  }

  lemma SpawnEnabled(s: State, step: Step)
    requires Enabled(s, step) && step.Spawn? && step.ok
    ensures step == Spawn(step.t, true) && step.t in s.threads
  {
  }

  ghost predicate NeverTwo(s: State, steps: seq<Step>)
    requires Possible(s, steps)
  {
    AtMostOne(After(s, steps)) && (|steps| > 0 ==> NeverTwo(s, steps[..|steps| - 1]))
  }

  ghost predicate NeverBeside(s: State, steps: seq<Step>)
    requires Possible(s, steps)
  {
    |steps| > 0 ==>
      && NeverBeside(s, steps[..|steps| - 1])
      && !SpawnsBeside(After(s, steps[..|steps| - 1]), steps[|steps| - 1])
  }

  // The exact condition: a run never has two processes of a session alive if and only if it
  // never starts one beside a process that stop() gave up on.
  lemma {:induction false} NeverTwoCharacterised(s: State, steps: seq<Step>)
    requires Initial(s) && Possible(s, steps)
    ensures NeverTwo(s, steps) <==> NeverBeside(s, steps)
  {
    hide Initial, Inv, After, Enabled, Next, AtMostOne, SpawnsBeside;
    NoSteps(s);
    if |steps| == 0 {
      OneAliveAtFirst(s);
    } else {
      var front, step := steps[..|steps| - 1], steps[|steps| - 1];
      NeverTwoCharacterised(s, front);
      ReachableInv(s, front);
      assert front + [step] == steps;
      OneMore(s, front, step);
      if NeverTwo(s, front) {
        BreaksAtMostOne(After(s, front), step);
      }
    }
  }

  lemma OneAliveAtFirst(s: State)
    requires Initial(s)
    ensures AtMostOne(s)
  {
  }

  // The exception is real: a stop() that swallows an error leaves two processes alive.
  lemma FailedStopLeavesTwo() returns (s: State, steps: seq<Step>)
    ensures Initial(s) && Possible(s, steps) && BothAlive(After(s, steps), 0, 1)
  {
    hide Possible, After;
    s := State(map[0 := 0], [SessionObject(0, true, false, None, None)], map[], [], {});
    steps := [];
    NoSteps(s);
    OneMore(s, steps, Begin(0, 0));
    steps := steps + [Begin(0, 0)];
    OneMore(s, steps, Acquire(0));
    steps := steps + [Acquire(0)];
    OneMore(s, steps, LookAgain(0));
    steps := steps + [LookAgain(0)];
    OneMore(s, steps, Stop(0, Survives));
    steps := steps + [Stop(0, Survives)];
    OneMore(s, steps, Spawn(0, true));
    steps := steps + [Spawn(0, true)];
  }

  lemma NoSteps(s: State)
    ensures Possible(s, []) && After(s, []) == s
  {
  }

  lemma OneMore(s: State, steps: seq<Step>, step: Step)
    requires Possible(s, steps) && Enabled(After(s, steps), step)
    ensures Possible(s, steps + [step]) && After(s, steps + [step]) == Next(After(s, steps), step)
  {
    hide Enabled, Next;
    assert (steps + [step])[..|steps|] == steps;
  }

  // Each session object is replaced at most once, and what was replaced is dead (or has
  // survived its stop) and is never registered again.
  lemma {:induction false} ReplacedAtMostOnce(s: State, steps: seq<Step>)
    requires Initial(s) && Possible(s, steps)
    ensures var n := After(s, steps);
            && (forall i :: 0 <= i < |n.replaced| ==>
                  && n.replaced[i] < |n.objects|
                  && (n.objects[n.replaced[i]].alive ==> n.replaced[i] in n.survivors)
                  && (forall sid :: sid in n.registry ==> n.registry[sid] != n.replaced[i]))
            && (forall i, j :: 0 <= i < j < |n.replaced| ==> n.replaced[i] != n.replaced[j])
  {
    hide Initial, After, ThreadOk, ObjectOk;
    ReachableInv(s, steps);
  }

  // Whenever a successor is about to be spawned, the object it replaces is the registered
  // one, its lock is held by this thread, and its process has ended.
  lemma {:induction false} StoppedBeforeSpawn(s: State, steps: seq<Step>, t: Tid)
    requires Initial(s) && Possible(s, steps) && Enabled(After(s, steps), Spawn(t, true))
    ensures var n := After(s, steps);
            var seen := n.threads[t].pc.seen;
            && Registered(n, seen) && n.objects[seen].holder == Some(t)
            && (n.objects[seen].alive ==> seen in n.survivors)
  {
    hide Initial, After, RegistryOk, ObjectOk, ReplacedOk;
    ReachableInv(s, steps);
    assert ThreadOk(After(s, steps), t);
  }

  lemma DeadAfterStep(s: State, step: Step, o: nat)
    requires Enabled(s, step) && o < |s.objects| && !s.objects[o].alive
    ensures o < |Next(s, step).objects| && !Next(s, step).objects[o].alive
  {
  }

  // A process that has ended stays ended, however the run goes on, so the order of stop and
  // spawn cannot be undone.
  lemma {:induction false} DeadStaysDead(s: State, steps: seq<Step>, more: seq<Step>, o: nat)
    requires Possible(s, steps) && Possible(s, steps + more)
    requires o < |After(s, steps).objects| && !After(s, steps).objects[o].alive
    ensures o < |After(s, steps + more).objects| && !After(s, steps + more).objects[o].alive
  {
    hide Enabled, Next;
    if |more| == 0 {
      assert steps + more == steps;
    } else {
      var before := steps + more[..|more| - 1];
      assert (steps + more)[..|steps + more| - 1] == before;
      DeadStaysDead(s, steps, more[..|more| - 1], o);
      DeadAfterStep(After(s, before), more[|more| - 1], o);
    }
  }

  // What ends a process: it exits, or stop() ends it.
  predicate EndsIt(s: State, step: Step, o: nat) {
    step == Die(o) || StopsIt(s, step, o)
  }

  predicate StopsIt(s: State, step: Step, o: nat) {
    && step.Stop? && step.outcome == Ends && Enabled(s, step)
    && s.threads[step.t].pc == Confirmed(o) && !s.objects[o].reaped
  }

  predicate EndedIn(s: State, steps: seq<Step>, o: nat)
    requires Possible(s, steps)
  {
    |steps| > 0 && (EndedIn(s, steps[..|steps| - 1], o)
                    || EndsIt(After(s, steps[..|steps| - 1]), steps[|steps| - 1], o))
  }

  predicate NoticedIn(s: State, steps: seq<Step>, o: nat)
    requires Possible(s, steps)
  {
    |steps| > 0 && (NoticedIn(s, steps[..|steps| - 1], o) || steps[|steps| - 1] == Reap(o)
                    || StopsIt(After(s, steps[..|steps| - 1]), steps[|steps| - 1], o))
  }

  lemma OneStepOnProcess(s: State, step: Step, o: nat)
    requires Enabled(s, step) && o < |s.objects|
    ensures var t := Next(s, step);
            && o < |t.objects|
            && (t.objects[o].alive <==> s.objects[o].alive && !EndsIt(s, step, o))
            && (t.objects[o].reaped <==> s.objects[o].reaped || step == Reap(o) || StopsIt(s, step, o))
  {
  }

  // A process lives until one of these happens, and its exit is noticed by a poll or by stop().
  lemma {:induction false} ProcessesEnd(s: State, steps: seq<Step>, more: seq<Step>, o: nat)
    requires Possible(s, steps) && Possible(s, steps + more) && o < |After(s, steps).objects|
    requires !EndedIn(s, steps, o) && !NoticedIn(s, steps, o)
    ensures var n, m := After(s, steps), After(s, steps + more);
            && o < |m.objects|
            && (m.objects[o].alive <==> n.objects[o].alive && !EndedIn(s, steps + more, o))
            && (m.objects[o].reaped <==> n.objects[o].reaped || NoticedIn(s, steps + more, o))
  {
    hide Enabled, Next, EndsIt, StopsIt;
    if |more| == 0 {
      assert steps + more == steps;
    } else {
      var before, step := steps + more[..|more| - 1], more[|more| - 1];
      assert (steps + more)[..|steps + more| - 1] == before;
      ProcessesEnd(s, steps, more[..|more| - 1], o);
      OneStepOnProcess(After(s, before), step, o);
    }
  }

  // No process is lost: a live one is in the registry, or a thread that holds the lock of the
  // registered object is about to put it there, or stop() has given up on it.
  lemma {:induction false} NoOrphans(s: State, steps: seq<Step>, o: nat)
    requires Initial(s) && Possible(s, steps) && o < |After(s, steps).objects| && After(s, steps).objects[o].alive
    ensures var n := After(s, steps);
            o in n.survivors || Registered(n, o)
            || (AboutToRegister(n, o)
                && var pc := n.threads[n.objects[o].startedBy.value].pc;
                   pc.seen < |n.objects| && Registered(n, pc.seen) && n.objects[pc.seen].sid == n.objects[o].sid)
  {
    hide Initial, After, RegistryOk, ReplacedOk;
    ReachableInv(s, steps);
    var n := After(s, steps);
    assert ObjectOk(n, o);
    if AboutToRegister(n, o) {
      assert ThreadOk(n, n.objects[o].startedBy.value);
    }
  }

  // A caller that finds another object on its second look succeeds without a restart of its
  // own: what it had seen has been replaced by then.
  lemma {:induction false} LateCallerSpawnsNothing(s: State, steps: seq<Step>, t: Tid)
    requires Initial(s) && Possible(s, steps) && Enabled(After(s, steps), LookAgain(t))
    ensures var n := After(s, steps);
            var seen, current := n.threads[t].pc.seen, n.registry[n.threads[t].sid];
            current != seen ==>
              && seen in n.replaced
              && Next(n, LookAgain(t)).threads[t].pc == Done(Success(PidOf(n, current)))
              && |Next(n, LookAgain(t)).objects| == |n.objects|
  {
    hide Initial, After, RegistryOk, ObjectOk, ReplacedOk;
    ReachableInv(s, steps);
    assert ThreadOk(After(s, steps), t);
  }

  // What a call returns. A pid is that of a process that is registered for the session, or was
  // until a later restart replaced it; success without a pid means that the registered
  // process has been found to have exited. A failure leaves the registry alone and says why.
  lemma {:induction false} ReturnsMean(s: State, steps: seq<Step>, step: Step, t: Tid)
    requires Initial(s) && Possible(s, steps) && Enabled(After(s, steps), step)
    requires var n, m := After(s, steps), Next(After(s, steps), step);
             t in m.threads && m.threads[t].pc.Done? && !(t in n.threads && n.threads[t].pc.Done?)
    ensures var n, m := After(s, steps), Next(After(s, steps), step);
            var sid, result := m.threads[t].sid, m.threads[t].pc.result;
            && m.registry == n.registry
            && (result == SessionNotFound <==> sid !in n.registry)
            && (result == ToolNotFound <==> step == Miss(t))
            && (result == SpawnFailed <==> step == Spawn(t, false))
            && (result == Raised <==> step == Stop(t, Raises))
            && (result.Success? && result.pid.Some? ==>
                  && result.pid.value < |m.objects| && m.objects[result.pid.value].sid == sid
                  && (m.registry[sid] == result.pid.value || result.pid.value in m.replaced))
            && (result.Success? && result.pid.None? ==>
                  sid in m.registry && m.registry[sid] < |m.objects| && m.objects[m.registry[sid]].reaped)
  {
    hide Initial, Possible, After, ObjectOk, ReplacedOk;
    ReachableInv(s, steps);
    var n := After(s, steps);
    if t in n.threads {
      assert ThreadOk(n, t);
    }
  }

  // --------------------------------------------------------------------- no deadlock

  // The step a thread takes next, when it is not waiting for a lock.
  function NextStepOf(t: Tid, pc: Pc): Step {
    match pc
    case HaveOld(_) => Acquire(t)
    case Locked(_) => LookAgain(t)
    case Confirmed(_) => Stop(t, Ends)
    case Stopped(_) => Spawn(t, true)
    case Spawned(_, _) => Install(t)
    case Installed(_, _) => Finish(t)
    case Done(_) => Begin(t, 0)
  }

  // A call that has not returned can go on, or the holder of the lock it waits for can.
  lemma {:induction false} NoDeadlock(s: State, steps: seq<Step>, t: Tid) returns (u: Tid)
    requires Initial(s) && Possible(s, steps) && t in After(s, steps).threads
    requires !After(s, steps).threads[t].pc.Done?
    ensures var n := After(s, steps);
            u in n.threads && !n.threads[u].pc.Done? && Enabled(n, NextStepOf(u, n.threads[u].pc))
  {
    hide Initial, After;
    ReachableInv(s, steps);
    var n := After(s, steps);
    u := t;
    assert ThreadOk(n, t);
    if n.threads[t].pc.HaveOld? && n.objects[n.threads[t].pc.seen].holder.Some? {
      assert ObjectOk(n, n.threads[t].pc.seen);
      u := n.objects[n.threads[t].pc.seen].holder.value;
      assert ThreadOk(n, u);
    }
  }
}
