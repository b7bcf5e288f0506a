// Requests and responses of a ZCode session: any number of requester threads, one reader
// thread and any number of threads that answer interaction requests, interleaved freely.
module ZCodeCorrelation {
  import opened Wrappers

  // Message ids. Those of our own requests are fresh UUIDs.
  type Id = nat

  datatype Body = Result(value: string) | Error(error: string)

  datatype Method = RequestUserInput | RequestPermission | OtherMethod(name: string)

  // A line from the app-server. Notifications carry no id and touch none of this state.
  datatype Message =
    | Response(id: Id, body: Body)
    | ServerRequest(id: Id, asks: Method)
    | Notification

  datatype Reply = Decline | Allow | Unhandled(name: string) | FromUser(answer: string)

  datatype Answer = Answer(id: Id, reply: Reply)

  // `interactive`: there is a permission callback. `textPipe`: the process's stdin also takes
  // str, as the sandbox adapter's does; that of a process started by the executor takes only
  // bytes. Requests are written as bytes, replies to server requests as str.
  datatype Config = Config(interactive: bool, textPipe: bool)

  // ------------------------------------------------------------------------ one call

  datatype Holder = Holder(body: Option<Body>, isSet: bool)

  const EMPTY: Holder := Holder(None, false)

  // Where a call of _request stands. Failing and TimedOut are about to drop their entry;
  // Raised has left through an exception that _request does not handle.
  datatype Stage = Registered | Waiting | Failing | TimedOut | Raised | Returned(outcome: Option<Body>)

  // `pending`: the call's id is a key of _pending. `since`: how many messages had been
  // received when the call began.
  datatype Call = Call(stage: Stage, pending: bool, holder: Holder, since: nat)

  datatype Act =
    | Write
    | WriteFails   // an OSError or an AttributeError
    | WriteRaises  // any other exception
    | Wake         // the wait returns true
    | TimeOut      // the wait returns false
    | Unregister

  predicate CanAct(call: Call, act: Act) {
    match act
    case Write => call.stage.Registered?
    case WriteFails => call.stage.Registered?
    case WriteRaises => call.stage.Registered?
    case Wake => call.stage.Waiting? && call.holder.isSet
    case TimeOut => call.stage.Waiting? && !call.holder.isSet
    case Unregister => call.stage.Failing? || call.stage.TimedOut?
  }

  function Acted(call: Call, act: Act): Call {
    match act
    case Write => call.(stage := Waiting)
    case WriteFails => call.(stage := Failing)
    case WriteRaises => call.(stage := Raised)
    case Wake => call.(stage := Returned(call.holder.body))
    case TimeOut => call.(stage := TimedOut)
    case Unregister => call.(stage := Returned(None), pending := false)
  }

  // ------------------------------------------------------------------- the whole session

  // Where the reader stands: it has popped a holder, it has stored the response in it, it is
  // about to tell the user, it is about to write a reply, or it has died of an exception.
  datatype Reader =
    | Idle
    | Popped(id: Id, body: Body)
    | Stored(id: Id)
    | Forwarding(id: Id)
    | Answering(answer: Answer)
    | Dead

  // The interaction requests: `recorded` is _pending_server_requests, `claims` is what the
  // responders have claimed and are about to write, `dropped` the replies never written.
  datatype Desk = Desk(
    recorded: set<Id>,
    claims: seq<Answer>,
    forwarded: seq<Id>,
    sent: seq<Answer>,
    dropped: seq<Answer>)

  datatype State = State(
    running: bool,
    received: seq<Message>,
    reader: Reader,
    calls: map<Id, Call>,
    desk: Desk)

  const INITIAL: State := State(true, [], Idle, map[], Desk({}, [], [], [], []))

  datatype Step =
    | Request(id: Id)                // _request begins
    | Caller(id: Id, act: Act)
    | Read(message: Message)         // the reader parses a line and takes its first step on it
    | Store
    | SetEvent
    | Forward
    | AnswerNow(written: bool)
    | Claim(id: Id, text: string)    // a responder under the lock
    | Respond(k: nat, written: bool) // the responder that holds claim k writes
    | Exit

  predicate AsksUser(c: Config, m: Method) { c.interactive && !m.OtherMethod? }

  function Policy(m: Method): Reply {
    match m
    case RequestUserInput => Decline
    case RequestPermission => Allow
    case OtherMethod(name) => Unhandled(name)
  }

  predicate Requested(log: seq<Message>, id: Id) {
    exists m :: m in log && m.ServerRequest? && m.id == id
  }

  predicate Enabled(s: State, step: Step) {
    match step
    case Request(id) => id !in s.calls
    case Caller(id, act) => id in s.calls && CanAct(s.calls[id], act)
    case Read(m) => s.reader.Idle? && (m.ServerRequest? ==> !Requested(s.received, m.id))
    case Store => s.reader.Popped? && s.reader.id in s.calls
    case SetEvent => s.reader.Stored? && s.reader.id in s.calls
    case Forward => s.reader.Forwarding?
    case AnswerNow(_) => s.reader.Answering?
    case Claim(_, _) => true
    case Respond(k, _) => k < |s.desk.claims|
    case Exit => s.running
  }

  function Next(c: Config, s: State, step: Step): State
    requires Enabled(s, step)
  {
    match step
    case Request(id) =>
      var stage := if s.running then Registered else Returned(None);
      s.(calls := s.calls[id := Call(stage, s.running, EMPTY, |s.received|)])
    case Caller(id, act) => s.(calls := s.calls[id := Acted(s.calls[id], act)])
    case Read(m) => AfterRead(c, s.(received := s.received + [m]), m)
    case Store =>
      var id := s.reader.id;
      s.(calls := s.calls[id := s.calls[id].(holder := s.calls[id].holder.(body := Some(s.reader.body)))],
         reader := Stored(id))
    case SetEvent =>
      var id := s.reader.id;
      s.(calls := s.calls[id := s.calls[id].(holder := s.calls[id].holder.(isSet := true))], reader := Idle)
    case Forward => s.(desk := s.desk.(forwarded := s.desk.forwarded + [s.reader.id]), reader := Idle)
    case AnswerNow(written) =>
      s.(desk := Replied(s.desk, s.reader.answer, s.running && c.textPipe && written),
         reader := if s.running && !c.textPipe then Dead else Idle)
    case Claim(id, text) => s.(desk := Claimed(s.desk, id, text))
    case Respond(k, written) =>
      var rest := s.desk.(claims := s.desk.claims[..k] + s.desk.claims[k + 1..]);
      s.(desk := Replied(rest, s.desk.claims[k], s.running && c.textPipe && written))
    case Exit => s.(running := false)
  }

  function AfterRead(c: Config, s: State, m: Message): State {
    match m
    case Response(id, body) =>
      if id in s.calls && s.calls[id].pending
      then s.(calls := s.calls[id := s.calls[id].(pending := false)], reader := Popped(id, body))
      else s
    case ServerRequest(id, asks) =>
      if AsksUser(c, asks) then s.(desk := s.desk.(recorded := s.desk.recorded + {id}), reader := Forwarding(id))
      else s.(reader := Answering(Answer(id, Policy(asks))))
    case Notification => s
  }

  // A claim of an id that is not on record fails and changes nothing.
  function Claimed(d: Desk, id: Id, text: string): Desk {
    if id !in d.recorded then d
    else d.(recorded := d.recorded - {id}, claims := d.claims + [Answer(id, FromUser(text))])
  }

  // _send_response writes nothing when the process is gone, when the write fails, and when
  // the pipe is binary; in the last case it raises.
  function Replied(d: Desk, a: Answer, written: bool): Desk {
    if written then d.(sent := d.sent + [a]) else d.(dropped := d.dropped + [a])
  }

  // ------------------------------------------------------------------------- runs

  predicate Possible(c: Config, steps: seq<Step>)
    decreases |steps|, 1
  {
    |steps| == 0
    || (Possible(c, steps[..|steps| - 1]) && Enabled(At(c, steps[..|steps| - 1]), steps[|steps| - 1]))
  }

  function At(c: Config, steps: seq<Step>): State
    requires Possible(c, steps)
    decreases |steps|, 2
  {
    if |steps| == 0 then INITIAL
    else Next(c, At(c, steps[..|steps| - 1]), steps[|steps| - 1])
  }

  lemma NoSteps(c: Config)
    ensures Possible(c, []) && At(c, []) == INITIAL
  {
  }

  lemma OneMore(c: Config, steps: seq<Step>, step: Step)
    requires Possible(c, steps) && Enabled(At(c, steps), step)
    ensures Possible(c, steps + [step]) && At(c, steps + [step]) == Next(c, At(c, steps), step)
  {
    hide Enabled, Next;
    assert (steps + [step])[..|steps|] == steps;
  }

  // ------------------------------------------------------- our requests, their responses

  // The first response to id that arrived once `from` messages had been received.
  function FirstResponse(log: seq<Message>, from: nat, id: Id): Option<Body> {
    if |log| <= from then None
    else
      var earlier, m := FirstResponse(log[..|log| - 1], from, id), log[|log| - 1];
      if earlier.Some? then earlier
      else if m.Response? && m.id == id then Some(m.body) else None
  }

  lemma FirstResponseSnoc(log: seq<Message>, m: Message, from: nat, id: Id)
    requires from <= |log|
    ensures var earlier := FirstResponse(log, from, id);
            FirstResponse(log + [m], from, id)
            == if earlier.Some? then earlier else if m.Response? && m.id == id then Some(m.body) else None
  {
    assert (log + [m])[..|log|] == log;
  }

  lemma NoResponseYet(log: seq<Message>, id: Id)
    ensures FirstResponse(log, |log|, id) == None
  {
  }

  // What is true of one call, `first` being the first response to it so far.
  predicate Correlated(id: Id, call: Call, reader: Reader, first: Option<Body>) {
    && (call.pending <==> first.None? && !call.stage.Returned?)
    && (call.stage.Returned? && call.stage.outcome.Some? ==> call.holder == Holder(first, true))
    && (if reader.Popped? && reader.id == id then call.holder == EMPTY && first == Some(reader.body)
        else if reader.Stored? && reader.id == id then call.holder == Holder(first, false) && first.Some?
        else if call.holder == EMPTY then first.None? || call.stage.Returned?
        else call.holder == Holder(first, true) && first.Some?)
    && (call.stage.Returned? && call.stage.outcome.Some? ==> call.stage.outcome == first)
  }

  ghost predicate AllCorrelated(s: State) {
    && (forall id :: id in s.calls ==>
          && s.calls[id].since <= |s.received|
          && Correlated(id, s.calls[id], s.reader, FirstResponse(s.received, s.calls[id].since, id)))
    && (s.reader.Popped? || s.reader.Stored? ==> s.reader.id in s.calls)
  }

  // A response to the call's own id.
  lemma OwnResponse(id: Id, call: Call, body: Body, first: Option<Body>)
    requires Correlated(id, call, Idle, first)
    ensures call.pending ==> first.None? && Correlated(id, call.(pending := false), Popped(id, body), Some(body))
    ensures !call.pending && first.None? ==> Correlated(id, call, Idle, Some(body))
  {
  }

  // The reader's other business does not concern the call.
  lemma OtherBusiness(id: Id, call: Call, reader: Reader, reader': Reader, first: Option<Body>)
    requires Correlated(id, call, reader, first)
    requires (reader.Popped? || reader.Stored? ==> reader.id != id)
    requires (reader'.Popped? || reader'.Stored? ==> reader'.id != id)
    ensures Correlated(id, call, reader', first)
  {
  }

  lemma ActKeepsCorrelated(id: Id, call: Call, act: Act, reader: Reader, first: Option<Body>)
    requires Correlated(id, call, reader, first) && CanAct(call, act)
    ensures Correlated(id, Acted(call, act), reader, first) && Acted(call, act).since == call.since
  {
  }

  lemma ResolvingKeepsCorrelated(id: Id, call: Call, body: Body, first: Option<Body>)
    ensures Correlated(id, call, Popped(id, body), first) ==>
              Correlated(id, call.(holder := call.holder.(body := Some(body))), Stored(id), first)
    ensures Correlated(id, call, Stored(id), first) ==>
              Correlated(id, call.(holder := call.holder.(isSet := true)), Idle, first)
  {
  }

  lemma {:induction false} ReadKeepsCorrelated(c: Config, s: State, m: Message)
    requires AllCorrelated(s) && Enabled(s, Read(m))
    ensures AllCorrelated(Next(c, s, Read(m)))
  {
    hide FirstResponse, AsksUser, Policy, Requested, Correlated;
    var t := Next(c, s, Read(m));
    forall id | id in t.calls
      ensures t.calls[id].since <= |t.received|
      ensures Correlated(id, t.calls[id], t.reader, FirstResponse(t.received, t.calls[id].since, id))
    {
      var first := FirstResponse(s.received, s.calls[id].since, id);
      FirstResponseSnoc(s.received, m, s.calls[id].since, id);
      if m.Response? && m.id == id {
        OwnResponse(id, s.calls[id], m.body, first);
      } else {
        OtherBusiness(id, s.calls[id], s.reader, t.reader, first);
      }
    }
  }

  lemma {:induction false} StepKeepsCorrelated(c: Config, s: State, step: Step)
    requires AllCorrelated(s) && Enabled(s, step) && !step.Read?
    ensures AllCorrelated(Next(c, s, step))
  {
    hide FirstResponse, AsksUser, Policy, Requested, Correlated, CanAct, Acted;
    var t := Next(c, s, step);
    forall id | id in t.calls
      ensures t.calls[id].since <= |t.received|
      ensures Correlated(id, t.calls[id], t.reader, FirstResponse(t.received, t.calls[id].since, id))
    {
      if id !in s.calls {
        NoResponseYet(s.received, id);
        NewCall(id, t.calls[id], s.reader);
      } else {
        var call, first := s.calls[id], FirstResponse(s.received, s.calls[id].since, id);
        if step.Caller? && step.id == id {
          ActKeepsCorrelated(id, call, step.act, s.reader, first);
        } else if (step.Store? || step.SetEvent?) && s.reader.id == id {
          ResolvingKeepsCorrelated(id, call, if step.Store? then s.reader.body else Result(""), first);
        } else if t.reader != s.reader {
          OtherBusiness(id, call, s.reader, t.reader, first);
        }
      }
    }
  }

  lemma NewCall(id: Id, call: Call, reader: Reader)
    requires call.holder == EMPTY && (call.stage == if call.pending then Registered else Returned(None))
    requires (reader.Popped? || reader.Stored? ==> reader.id != id)
    ensures Correlated(id, call, reader, None)
  {
  }

  lemma InitiallyCorrelated()
    ensures AllCorrelated(INITIAL)
  {
  }

  lemma {:induction false} EveryRunIsCorrelated(c: Config, steps: seq<Step>)
    requires Possible(c, steps)
    ensures AllCorrelated(At(c, steps))
  {
    hide AllCorrelated, Enabled, Next;
    InitiallyCorrelated();
    if |steps| > 0 {
      var s, step := At(c, steps[..|steps| - 1]), steps[|steps| - 1];
      EveryRunIsCorrelated(c, steps[..|steps| - 1]);
      if step.Read? {
        ReadKeepsCorrelated(c, s, step.message);
      } else {
        StepKeepsCorrelated(c, s, step);
      }
    }
  }

  // What FirstResponse means.
  predicate IsFirstResponse(log: seq<Message>, from: nat, id: Id, k: nat) {
    && from <= k < |log| && log[k].Response? && log[k].id == id
    && forall j :: from <= j < k ==> !(log[j].Response? && log[j].id == id)
  }

  lemma {:induction false} FirstResponseFound(log: seq<Message>, from: nat, id: Id) returns (k: nat)
    ensures FirstResponse(log, from, id).Some? ==>
              IsFirstResponse(log, from, id, k) && log[k].body == FirstResponse(log, from, id).value
    ensures FirstResponse(log, from, id).None? ==>
              forall j :: from <= j < |log| ==> !(log[j].Response? && log[j].id == id)
  {
    k := 0;
    if |log| > from {
      var front := log[..|log| - 1];
      k := FirstResponseFound(front, from, id);
      if FirstResponse(front, from, id).None? {
        k := |log| - 1;
        forall j | from <= j < |log| - 1 ensures !(log[j].Response? && log[j].id == id) {
          assert front[j] == log[j];
        }
      } else {
        forall j | from <= j < k ensures !(log[j].Response? && log[j].id == id) {
          assert front[j] == log[j];
        }
      }
    }
  }

  // Whatever a requester gets back was sent in answer to its own id, after it had asked, and
  // is the first such response. A call that gets nothing back has timed out or failed.
  lemma {:induction false} OwnAnswerOnly(c: Config, steps: seq<Step>, id: Id) returns (k: nat)
    requires Possible(c, steps)
    requires id in At(c, steps).calls && At(c, steps).calls[id].stage.Returned?
    requires At(c, steps).calls[id].stage.outcome.Some?
    ensures var s := At(c, steps);
            && IsFirstResponse(s.received, s.calls[id].since, id, k)
            && s.received[k].body == s.calls[id].stage.outcome.value
  {
    hide At, FirstResponse, IsFirstResponse;
    EveryRunIsCorrelated(c, steps);
    k := FirstResponseFound(At(c, steps).received, At(c, steps).calls[id].since, id);
  }

  // An id is in _pending exactly while its call has not returned and no response has come. A
  // call that an exception has ended has not returned.
  lemma PendingExactly(c: Config, steps: seq<Step>, id: Id)
    requires Possible(c, steps) && id in At(c, steps).calls
    ensures var s := At(c, steps);
            var call := s.calls[id];
            && (call.pending <==> !call.stage.Returned? && FirstResponse(s.received, call.since, id).None?)
  {
    hide At, FirstResponse;
    EveryRunIsCorrelated(c, steps);
  }

  // So a call that returns leaves no id behind, but one that raises does: from then on its id
  // stays in _pending until a response comes, if one ever does.
  lemma {:induction false} RaisedStaysPending(c: Config, steps: seq<Step>, more: seq<Step>, id: Id)
    requires Possible(c, steps) && Possible(c, steps + more)
    requires id in At(c, steps).calls && At(c, steps).calls[id].stage.Raised?
    ensures var t := At(c, steps + more);
            && id in t.calls && t.calls[id].stage.Raised?
            && (t.calls[id].pending <==> FirstResponse(t.received, t.calls[id].since, id).None?)
  {
    hide At, Enabled, Next, FirstResponse, AllCorrelated, Correlated;
    if |more| == 0 {
      assert steps + more == steps;
    } else {
      var before := steps + more[..|more| - 1];
      assert (steps + more)[..|steps + more| - 1] == before;
      RaisedStaysPending(c, steps, more[..|more| - 1], id);
      LastStep(c, steps + more);
      RaisedStays(c, At(c, before), more[|more| - 1], id);
    }
    PendingExactly(c, steps + more, id);
  }

  lemma RaisedStays(c: Config, s: State, step: Step, id: Id)
    requires Enabled(s, step) && id in s.calls && s.calls[id].stage.Raised?
    ensures id in Next(c, s, step).calls && Next(c, s, step).calls[id].stage.Raised?
  {
  }

  lemma RaisedExample(c: Config) returns (steps: seq<Step>)
    ensures Possible(c, steps) && |steps| == 2 && 0 in At(c, steps).calls
    ensures At(c, steps).calls[0].stage.Raised? && At(c, steps).calls[0].pending
  {
    hide Possible, At;
    NoSteps(c);
    OneMore(c, [], Request(0));
    assert [] + [Request(0)] == [Request(0)];
    OneMore(c, [Request(0)], Caller(0, WriteRaises));
    steps := [Request(0)] + [Caller(0, WriteRaises)];
  }

  // A response that finds its call answered or gone leaves no trace but in the log.
  lemma LateResponsesChangeNothing(c: Config, steps: seq<Step>, id: Id, body: Body)
    requires Possible(c, steps) && At(c, steps).reader.Idle?
    requires var s := At(c, steps);
             id in s.calls ==> s.calls[id].stage.Returned? || FirstResponse(s.received, s.calls[id].since, id).Some?
    ensures var s, m := At(c, steps), Response(id, body);
            Enabled(s, Read(m)) && Next(c, s, Read(m)) == s.(received := s.received + [m])
  {
    hide At, FirstResponse;
    EveryRunIsCorrelated(c, steps);
  }

  // No response is lost on a caller that still waits: once the reader has dealt with it the
  // wait can only end by returning it.
  lemma {:induction false} WaitersAreWoken(c: Config, steps: seq<Step>, id: Id)
    requires Possible(c, steps) && At(c, steps).reader.Idle?
    requires id in At(c, steps).calls && At(c, steps).calls[id].stage.Waiting?
    ensures var s := At(c, steps);
            var call, first := s.calls[id], FirstResponse(s.received, s.calls[id].since, id);
            && (first.Some? <==> CanAct(call, Wake))
            && (first.None? <==> CanAct(call, TimeOut))
            && (first.Some? ==> Acted(call, Wake).stage == Returned(first))
  {
    hide At, FirstResponse;
    EveryRunIsCorrelated(c, steps);
  }

  // -------------------------------------------------------------- the course of a call

  // What the thread that made the call has done since.
  function ActsOf(steps: seq<Step>, id: Id): seq<Act> {
    if |steps| == 0 then []
    else
      var front, step := ActsOf(steps[..|steps| - 1], id), steps[|steps| - 1];
      if step.Caller? && step.id == id then front + [step.act] else front
  }

  // Where that leads to. A call that begins after the process has gone returns at once.
  predicate Course(acts: seq<Act>, stage: Stage) {
    match stage
    case Registered => acts == []
    case Waiting => acts == [Write]
    case Failing => acts == [WriteFails]
    case Raised => acts == [WriteRaises]
    case TimedOut => acts == [Write, TimeOut]
    case Returned(outcome) =>
      if outcome.Some? then acts == [Write, Wake]
      else acts == [] || acts == [WriteFails, Unregister] || acts == [Write, TimeOut, Unregister]
  }

  lemma ActKeepsCourse(acts: seq<Act>, id: Id, call: Call, act: Act, reader: Reader, first: Option<Body>)
    requires Course(acts, call.stage) && CanAct(call, act) && Correlated(id, call, reader, first)
    ensures Course(acts + [act], Acted(call, act).stage)
  {
  }

  // Every call runs its course, and goes on as long as it has not come to the end of it: it
  // writes, if the write fails it gives up its entry, if not it waits, and if the wait ends
  // without a response it gives up its entry then.
  lemma {:induction false} CallsRunTheirCourse(c: Config, steps: seq<Step>, id: Id)
    requires Possible(c, steps)
    ensures id in At(c, steps).calls ==> Course(ActsOf(steps, id), At(c, steps).calls[id].stage)
    ensures id !in At(c, steps).calls ==> ActsOf(steps, id) == []
  {
    hide Course, CanAct, Acted, Correlated;
    if |steps| > 0 {
      var front, step := steps[..|steps| - 1], steps[|steps| - 1];
      var s := At(c, front);
      CallsRunTheirCourse(c, front, id);
      EveryRunIsCorrelated(c, front);
      if step.Caller? && step.id == id {
        ActKeepsCourse(ActsOf(front, id), id, s.calls[id], step.act, s.reader,
                       FirstResponse(s.received, s.calls[id].since, id));
      } else {
        StageStays(c, s, step, id);
      }
    }
  }

  lemma StageStays(c: Config, s: State, step: Step, id: Id)
    requires Enabled(s, step) && !(step.Caller? && step.id == id)
    ensures id in s.calls ==> id in Next(c, s, step).calls && Next(c, s, step).calls[id].stage == s.calls[id].stage
    ensures id !in s.calls && id in Next(c, s, step).calls ==> Course([], Next(c, s, step).calls[id].stage)
  {
  }

  // What a call can do next is decided by what it has done, and for a wait by its holder.
  lemma {:induction false} NextActs(c: Config, steps: seq<Step>, id: Id, act: Act)
    requires Possible(c, steps) && id in At(c, steps).calls
    ensures var call, acts := At(c, steps).calls[id], ActsOf(steps, id);
            Enabled(At(c, steps), Caller(id, act)) <==>
              match act
              case Write | WriteFails | WriteRaises => acts == [] && !call.stage.Returned?
              case Wake => acts == [Write] && call.holder.isSet
              case TimeOut => acts == [Write] && !call.holder.isSet
              case Unregister => acts == [WriteFails] || acts == [Write, TimeOut]
  {
    hide At, ActsOf;
    CallsRunTheirCourse(c, steps, id);
  }

  // The process runs until it exits, and a call that begins later returns nothing at once.
  lemma {:induction false} RunsUntilExit(c: Config, steps: seq<Step>)
    requires Possible(c, steps)
    ensures At(c, steps).running <==> Exit !in steps
    ensures forall id :: id !in At(c, steps).calls && Exit in steps ==>
              Next(c, At(c, steps), Request(id)).calls[id].stage == Returned(None)
  {
    if |steps| > 0 {
      var front, step := steps[..|steps| - 1], steps[|steps| - 1];
      assert steps == front + [step];
      RunsUntilExit(c, front);
      StepsAndRunning(c, At(c, front), step);
    }
  }

  lemma StepsAndRunning(c: Config, s: State, step: Step)
    requires Enabled(s, step)
    ensures Next(c, s, step).running <==> s.running && step != Exit
  {
  }

  // A holder is resolved at most once: from then on no step changes it.
  lemma {:induction false} HoldersSettle(c: Config, steps: seq<Step>, more: seq<Step>, id: Id)
    requires Possible(c, steps + more) && Possible(c, steps)
    requires id in At(c, steps).calls && At(c, steps).calls[id].holder.isSet
    ensures id in At(c, steps + more).calls
    ensures At(c, steps + more).calls[id].holder == At(c, steps).calls[id].holder
  {
    hide At, Enabled, Next, AllCorrelated;
    if |more| == 0 {
      assert steps + more == steps;
    } else {
      var before := steps + more[..|more| - 1];
      assert (steps + more)[..|steps + more| - 1] == before;
      HoldersSettle(c, steps, more[..|more| - 1], id);
      EveryRunIsCorrelated(c, before);
      LastStep(c, steps + more);
      SetHoldersStay(c, At(c, before), more[|more| - 1], id);
    }
  }

  lemma LastStep(c: Config, steps: seq<Step>)
    requires |steps| > 0 && Possible(c, steps)
    ensures var front, step := steps[..|steps| - 1], steps[|steps| - 1];
            Possible(c, front) && Enabled(At(c, front), step) && At(c, steps) == Next(c, At(c, front), step)
  {
  }

  lemma SetHoldersStay(c: Config, s: State, step: Step, id: Id)
    requires AllCorrelated(s) && Enabled(s, step) && id in s.calls && s.calls[id].holder.isSet
    ensures id in Next(c, s, step).calls && Next(c, s, step).calls[id].holder == s.calls[id].holder
  {
    hide FirstResponse, AsksUser, Policy, Requested;
    assert Correlated(id, s.calls[id], s.reader, FirstResponse(s.received, s.calls[id].since, id));
  }

  // -------------------------------------------------------------------- server requests

  function One(b: bool): nat { if b then 1 else 0 }

  function Count(answers: seq<Answer>, id: Id): nat {
    if |answers| == 0 then 0
    else Count(answers[..|answers| - 1], id) + One(answers[|answers| - 1].id == id)
  }

  // Where a server request can be: on record, about to be answered by the reader, claimed by
  // a responder, answered, or given up.
  function Places(s: State, id: Id): nat {
    One(id in s.desk.recorded) + One(s.reader.Answering? && s.reader.answer.id == id)
    + Count(s.desk.claims, id) + Count(s.desk.sent, id) + Count(s.desk.dropped, id)
  }

  lemma CountSnoc(answers: seq<Answer>, a: Answer, id: Id)
    ensures Count(answers + [a], id) == Count(answers, id) + One(a.id == id)
  {
    assert (answers + [a])[..|answers|] == answers;
  }

  lemma {:induction false} CountWithout(answers: seq<Answer>, k: nat, id: Id)
    requires k < |answers|
    ensures Count(answers[..k] + answers[k + 1..], id) == Count(answers, id) - One(answers[k].id == id)
  {
    var n := |answers| - 1;
    if k == n {
      assert answers[..k] + answers[k + 1..] == answers[..n];
    } else {
      var rest := answers[..n][..k] + answers[..n][k + 1..];
      assert answers[..k] + answers[k + 1..] == rest + [answers[n]];
      CountSnoc(rest, answers[n], id);
      CountWithout(answers[..n], k, id);
    }
  }

  lemma RequestedSnoc(log: seq<Message>, m: Message, id: Id)
    ensures Requested(log + [m], id) <==> Requested(log, id) || (m.ServerRequest? && m.id == id)
  {
    assert m in log + [m];
  }

  lemma StepKeepsPlaces(c: Config, s: State, step: Step, id: Id)
    requires Enabled(s, step) && Places(s, id) == One(Requested(s.received, id))
    ensures Places(Next(c, s, step), id) == One(Requested(Next(c, s, step).received, id))
  {
    hide FirstResponse, AsksUser, Policy, Requested, Count, CanAct, Acted;
    match step {
      case Read(m) => RequestedSnoc(s.received, m, id);
      case AnswerNow(_) =>
        CountSnoc(s.desk.sent, s.reader.answer, id);
        CountSnoc(s.desk.dropped, s.reader.answer, id);
      case Claim(claimed, text) => CountSnoc(s.desk.claims, Answer(claimed, FromUser(text)), id);
      case Respond(k, _) =>
        CountWithout(s.desk.claims, k, id);
        CountSnoc(s.desk.sent, s.desk.claims[k], id);
        CountSnoc(s.desk.dropped, s.desk.claims[k], id);
      case _ =>
    }
  }

  // Every server request is in exactly one place at any time, and only server requests are:
  // each is answered at once or recorded, and then claimed and answered at most once.
  lemma {:induction false} EveryRequestHasOnePlace(c: Config, steps: seq<Step>, id: Id)
    requires Possible(c, steps)
    ensures Places(At(c, steps), id) == One(Requested(At(c, steps).received, id))
  {
    hide Enabled, Next, Places, Requested;
    if |steps| == 0 {
      NoPlaces(id);
    } else {
      EveryRequestHasOnePlace(c, steps[..|steps| - 1], id);
      StepKeepsPlaces(c, At(c, steps[..|steps| - 1]), steps[|steps| - 1], id);
    }
  }

  lemma NoPlaces(id: Id)
    ensures Places(INITIAL, id) == 0 && !Requested(INITIAL.received, id)
  {
  }

  // The reply is the one the request's method calls for: the user's if the user is asked,
  // the policy's otherwise.
  ghost predicate Suits(c: Config, log: seq<Message>, a: Answer) {
    exists m :: m in log && m.ServerRequest? && m.id == a.id
                && if AsksUser(c, m.asks) then a.reply.FromUser? else a.reply == Policy(m.asks)
  }

  ghost predicate ForUser(c: Config, log: seq<Message>, id: Id) {
    exists m :: m in log && m.ServerRequest? && m.id == id && AsksUser(c, m.asks)
  }

  ghost predicate AllSuit(c: Config, log: seq<Message>, answers: seq<Answer>) {
    forall a :: a in answers ==> Suits(c, log, a)
  }

  ghost predicate DeskIsRight(c: Config, s: State) {
    && AllSuit(c, s.received, s.desk.claims) && AllSuit(c, s.received, s.desk.sent)
    && AllSuit(c, s.received, s.desk.dropped)
    && (s.reader.Answering? ==> Suits(c, s.received, s.reader.answer) && s.reader.answer.id !in s.desk.forwarded)
    && (s.reader.Forwarding? ==> Requested(s.received, s.reader.id))
    && (forall id :: id in s.desk.recorded ==> ForUser(c, s.received, id))
    && (forall id :: id in s.desk.forwarded ==> Requested(s.received, id))
  }

  lemma LongerLog(c: Config, log: seq<Message>, m: Message, answers: seq<Answer>)
    ensures AllSuit(c, log, answers) ==> AllSuit(c, log + [m], answers)
    ensures forall id :: ForUser(c, log, id) ==> ForUser(c, log + [m], id)
    ensures forall id :: Requested(log, id) ==> Requested(log + [m], id)
    ensures m.ServerRequest? && !AsksUser(c, m.asks) ==> Suits(c, log + [m], Answer(m.id, Policy(m.asks)))
    ensures m.ServerRequest? && AsksUser(c, m.asks) ==> ForUser(c, log + [m], m.id)
    ensures m.ServerRequest? ==> Requested(log + [m], m.id)
  {
    hide AsksUser, Policy;
    var longer := log + [m];
    assert m in longer && forall x :: x in log ==> x in longer;
    forall a | Suits(c, log, a) ensures Suits(c, longer, a) {
      var x :| x in log && x.ServerRequest? && x.id == a.id
               && if AsksUser(c, x.asks) then a.reply.FromUser? else a.reply == Policy(x.asks);
      assert x in longer;
    }
    forall id | ForUser(c, log, id) ensures ForUser(c, longer, id) {
      var x :| x in log && x.ServerRequest? && x.id == id && AsksUser(c, x.asks);
      assert x in longer;
    }
  }

  lemma UserAnswerSuits(c: Config, log: seq<Message>, id: Id, text: string)
    requires ForUser(c, log, id)
    ensures Suits(c, log, Answer(id, FromUser(text)))
  {
  }

  lemma {:induction false} StepKeepsDesk(c: Config, s: State, step: Step)
    requires DeskIsRight(c, s) && Enabled(s, step)
    ensures DeskIsRight(c, Next(c, s, step))
  {
    hide AsksUser, Policy, Requested, CanAct, Acted, Suits, ForUser;
    match step {
      case Read(m) =>
        LongerLog(c, s.received, m, s.desk.claims);
        LongerLog(c, s.received, m, s.desk.sent);
        LongerLog(c, s.received, m, s.desk.dropped);
      case Claim(id, text) =>
        if id in s.desk.recorded {
          UserAnswerSuits(c, s.received, id, text);
        }
      case _ =>
    }
  }

  lemma {:induction false} DeskIsAlwaysRight(c: Config, steps: seq<Step>)
    requires Possible(c, steps)
    ensures DeskIsRight(c, At(c, steps))
  {
    hide Enabled, Next, DeskIsRight;
    InitiallyRight(c);
    if |steps| > 0 {
      DeskIsAlwaysRight(c, steps[..|steps| - 1]);
      StepKeepsDesk(c, At(c, steps[..|steps| - 1]), steps[|steps| - 1]);
    }
  }

  lemma InitiallyRight(c: Config)
    ensures DeskIsRight(c, INITIAL)
  {
  }

  // At most one reply per server request ever gets written, and it is the right one.
  lemma {:induction false} AnsweredAtMostOnce(c: Config, steps: seq<Step>, id: Id)
    requires Possible(c, steps)
    ensures Count(At(c, steps).desk.sent, id) <= 1
    ensures AllSuit(c, At(c, steps).received, At(c, steps).desk.sent)
  {
    hide At, Count, Suits, AllSuit, Requested;
    EveryRequestHasOnePlace(c, steps, id);
    DeskIsAlwaysRight(c, steps);
  }

  // Which reply that is. In an unattended session a question to the user is declined and a
  // permission allowed; in an attended one both get the user's answer; any other request is
  // refused, naming its method, in either.
  lemma {:induction false} RepliesAreRight(c: Config, steps: seq<Step>, a: Answer)
    requires Possible(c, steps) && a in At(c, steps).desk.sent
    ensures exists m :: m in At(c, steps).received && m.ServerRequest? && m.id == a.id
              && (m.asks == RequestUserInput && !c.interactive ==> a.reply == Decline)
              && (m.asks == RequestPermission && !c.interactive ==> a.reply == Allow)
              && (m.asks.OtherMethod? ==> a.reply == Unhandled(m.asks.name))
              && (!m.asks.OtherMethod? && c.interactive ==> a.reply.FromUser?)
  {
    hide At;
    DeskIsAlwaysRight(c, steps);
    assert Suits(c, At(c, steps).received, a);
    var m :| m in At(c, steps).received && m.ServerRequest? && m.id == a.id
             && if AsksUser(c, m.asks) then a.reply.FromUser? else a.reply == Policy(m.asks);
    assert m in At(c, steps).received;
  }

  ghost predicate WasClaimed(steps: seq<Step>, id: Id, text: string) { Claim(id, text) in steps }

  ghost predicate TextsAreClaimed(steps: seq<Step>, answers: seq<Answer>) {
    forall a :: a in answers && a.reply.FromUser? ==> WasClaimed(steps, a.id, a.reply.answer)
  }

  // The user's answers are written as they were given.
  lemma {:induction false} TextsAreTheUsers(c: Config, steps: seq<Step>)
    requires Possible(c, steps)
    ensures TextsAreClaimed(steps, At(c, steps).desk.sent) && TextsAreClaimed(steps, At(c, steps).desk.claims)
    ensures At(c, steps).reader.Answering? ==> !At(c, steps).reader.answer.reply.FromUser?
  {
    hide WasClaimed;
    if |steps| > 0 {
      var front, step := steps[..|steps| - 1], steps[|steps| - 1];
      assert front + [step] == steps;
      TextsAreTheUsers(c, front);
      MoreClaims(front, step, At(c, front).desk.sent);
      MoreClaims(front, step, At(c, front).desk.claims);
      OneMoreText(c, At(c, front), front, step);
    }
  }

  lemma MoreClaims(steps: seq<Step>, step: Step, answers: seq<Answer>)
    requires TextsAreClaimed(steps, answers)
    ensures TextsAreClaimed(steps + [step], answers)
    ensures step.Claim? ==> WasClaimed(steps + [step], step.id, step.text)
  {
    assert step in steps + [step];
  }

  lemma {:induction false} OneMoreText(c: Config, s: State, front: seq<Step>, step: Step)
    requires Enabled(s, step)
    requires TextsAreClaimed(front + [step], s.desk.sent) && TextsAreClaimed(front + [step], s.desk.claims)
    requires step.Claim? ==> WasClaimed(front + [step], step.id, step.text)
    requires s.reader.Answering? ==> !s.reader.answer.reply.FromUser?
    ensures var t := Next(c, s, step);
            && TextsAreClaimed(front + [step], t.desk.sent) && TextsAreClaimed(front + [step], t.desk.claims)
            && (t.reader.Answering? ==> !t.reader.answer.reply.FromUser?)
  {
    hide WasClaimed, Requested, CanAct, Acted, AsksUser;
  }

  // Of any number of responders at most one gets to claim a request.
  lemma ClaimedAtMostOnce(c: Config, steps: seq<Step>, id: Id, text: string)
    requires Possible(c, steps)
    ensures var d := At(c, steps).desk;
            id in d.recorded ==>
              var d' := Claimed(d, id, text);
              && Count(d.claims, id) + Count(d.sent, id) + Count(d.dropped, id) == 0
              && Count(d'.claims, id) == 1 && id !in d'.recorded
    ensures var d := At(c, steps).desk;
            Count(d.claims, id) + Count(d.sent, id) + Count(d.dropped, id) > 0 ==> Claimed(d, id, text) == d
  {
    hide At, Count, Requested;
    EveryRequestHasOnePlace(c, steps, id);
    CountSnoc(At(c, steps).desk.claims, Answer(id, FromUser(text)), id);
  }

  // A request is recorded before the user is told of it, so a user who has been told finds it
  // on record unless somebody else has claimed it.
  lemma {:induction false} ToldMeansClaimable(c: Config, steps: seq<Step>, id: Id)
    requires Possible(c, steps) && id in At(c, steps).desk.forwarded
    ensures var d := At(c, steps).desk;
            id in d.recorded <==> Count(d.claims, id) + Count(d.sent, id) + Count(d.dropped, id) == 0
  {
    hide At, Count, Suits, AllSuit, Requested;
    EveryRequestHasOnePlace(c, steps, id);
    DeskIsAlwaysRight(c, steps);
  }

  // ------------------------------------------------------------- the kind of the pipe

  lemma {:induction false} ReplyOnlyOnTextPipe(c: Config, steps: seq<Step>)
    requires Possible(c, steps)
    ensures !c.textPipe ==> At(c, steps).desk.sent == []
    ensures c.textPipe ==> !At(c, steps).reader.Dead?
  {
    if |steps| > 0 {
      ReplyOnlyOnTextPipe(c, steps[..|steps| - 1]);
      NextReply(c, At(c, steps[..|steps| - 1]), steps[|steps| - 1]);
    }
  }

  lemma NextReply(c: Config, s: State, step: Step)
    requires Enabled(s, step)
    ensures !c.textPipe && s.desk.sent == [] ==> Next(c, s, step).desk.sent == []
    ensures c.textPipe && !s.reader.Dead? ==> !Next(c, s, step).reader.Dead?
  {
  }

  lemma {:induction false} CountFound(answers: seq<Answer>, id: Id) returns (k: nat)
    requires Count(answers, id) > 0
    ensures k < |answers| && answers[k].id == id
  {
    k := |answers| - 1;
    if answers[k].id != id {
      k := CountFound(answers[..k], id);
    }
  }

  // On a text pipe a request that was not given up can be answered while the process runs,
  // wherever it is, in at most two more steps.
  lemma {:induction false} AnswerIsPossible(c: Config, steps: seq<Step>, id: Id) returns (more: seq<Step>)
    requires Possible(c, steps) && c.textPipe && At(c, steps).running
    requires Requested(At(c, steps).received, id) && Count(At(c, steps).desk.dropped, id) == 0
    ensures |more| <= 2 && Possible(c, steps + more) && Count(At(c, steps + more).desk.sent, id) == 1
  {
    hide Possible, At, Count, Requested, AfterRead, Acted, CanAct;
    EveryRequestHasOnePlace(c, steps, id);
    var s := At(c, steps);
    var ready, now := s, steps;
    more := [];
    assert steps + more == steps;
    if Count(s.desk.sent, id) == 0 {
      if id in s.desk.recorded {
        var claim := Claim(id, "");
        OneMore(c, steps, claim);
        now, more := steps + [claim], [claim];
        CountSnoc(s.desk.claims, Answer(id, FromUser("")), id);
      }
      var write := AnswerNow(true);
      if Count(At(c, now).desk.claims, id) > 0 {
        var k := CountFound(At(c, now).desk.claims, id);
        write := Respond(k, true);
        CountSnoc(s.desk.sent, At(c, now).desk.claims[k], id);
      } else {
        CountSnoc(s.desk.sent, s.reader.answer, id);
      }
      OneMore(c, now, write);
      more := more + [write];
      assert steps + more == now + [write];
    }
  }

  ghost predicate CanStillAnswer(c: Config, steps: seq<Step>, id: Id) {
    exists more :: Possible(c, steps + more) && Count(At(c, steps + more).desk.sent, id) > 0
  }

  // Whether a server request can still be answered hangs on the pipe alone: with a process
  // that the executor started, whose stdin takes only bytes, none ever is.
  lemma {:induction false} RepliesNeedATextPipe(c: Config, steps: seq<Step>, id: Id)
    requires Possible(c, steps) && At(c, steps).running
    requires Requested(At(c, steps).received, id) && Count(At(c, steps).desk.dropped, id) == 0
    ensures CanStillAnswer(c, steps, id) <==> c.textPipe
  {
    hide Possible, At, Requested;
    if c.textPipe {
      var more := AnswerIsPossible(c, steps, id);
    } else {
      forall more | Possible(c, steps + more) ensures Count(At(c, steps + more).desk.sent, id) == 0 {
        ReplyOnlyOnTextPipe(c, steps + more);
      }
    }
  }

  // How many replies were to be written after the process had gone, in a write that failed,
  // or to a binary pipe.
  function Losses(c: Config, steps: seq<Step>): nat
    requires Possible(c, steps)
  {
    if |steps| == 0 then 0
    else
      var front, step := steps[..|steps| - 1], steps[|steps| - 1];
      Losses(c, front)
      + One((step.AnswerNow? || step.Respond?) && !(At(c, front).running && c.textPipe && step.written))
  }

  lemma {:induction false} LossesAreDropped(c: Config, steps: seq<Step>)
    requires Possible(c, steps)
    ensures |At(c, steps).desk.dropped| == Losses(c, steps)
  {
    hide Enabled, Next;
    if |steps| > 0 {
      LossesAreDropped(c, steps[..|steps| - 1]);
      OneLoss(c, At(c, steps[..|steps| - 1]), steps[|steps| - 1]);
    }
  }

  lemma OneLoss(c: Config, s: State, step: Step)
    requires Enabled(s, step)
    ensures |Next(c, s, step).desk.dropped| == |s.desk.dropped|
              + One((step.AnswerNow? || step.Respond?) && !(s.running && c.textPipe && step.written))
  {
  }

  // If nothing like that has happened no request is lost: unless somebody is about to write
  // the reply, each is on record or answered, and not both. If it has, some request is lost.
  lemma {:induction false} NothingIsLost(c: Config, steps: seq<Step>, id: Id)
    requires Possible(c, steps)
    ensures var s := At(c, steps);
            && |s.desk.dropped| == Losses(c, steps)
            && (Losses(c, steps) == 0 && !s.reader.Answering? && s.desk.claims == [] ==>
                  One(id in s.desk.recorded) + Count(s.desk.sent, id) == One(Requested(s.received, id)))
            && (Losses(c, steps) > 0 ==>
                  var lost := s.desk.dropped[0].id;
                  Requested(s.received, lost) && lost !in s.desk.recorded && Count(s.desk.sent, lost) == 0)
  {
    hide Possible, At, Requested, Losses;
    LossesAreDropped(c, steps);
    EveryRequestHasOnePlace(c, steps, id);
    var dropped := At(c, steps).desk.dropped;
    if |dropped| > 0 {
      EveryRequestHasOnePlace(c, steps, dropped[0].id);
      CountsFirst(dropped);
    }
  }

  lemma {:induction false} CountsFirst(answers: seq<Answer>)
    requires |answers| > 0
    ensures Count(answers, answers[0].id) > 0
  {
    if |answers| > 1 {
      CountsFirst(answers[..|answers| - 1]);
    }
  }

  // A server request that the reader answers itself.
  ghost predicate SomeUnasked(c: Config, log: seq<Message>) {
    exists m :: m in log && m.ServerRequest? && !AsksUser(c, m.asks)
  }

  lemma UnaskedSnoc(c: Config, log: seq<Message>, m: Message)
    ensures SomeUnasked(c, log + [m]) <==> SomeUnasked(c, log) || (m.ServerRequest? && !AsksUser(c, m.asks))
  {
    assert m in log + [m];
  }

  // The reader is dead only if it has answered a server request on a binary pipe; and while
  // the process runs it is dead, or about to be, if it has.
  ghost predicate DiesOfAnswering(c: Config, s: State) {
    && (s.reader.Dead? || s.reader.Answering? ==> SomeUnasked(c, s.received))
    && (s.reader.Dead? ==> !c.textPipe)
    && (s.running ==>
          (s.reader.Dead? <==> !c.textPipe && SomeUnasked(c, s.received) && !s.reader.Answering?))
  }

  // On a binary pipe the reader dies of the first server request that it answers itself,
  // attended session or not.
  lemma {:induction false} ReaderDiesOnBinaryPipe(c: Config, steps: seq<Step>)
    requires Possible(c, steps)
    ensures DiesOfAnswering(c, At(c, steps))
  {
    hide DiesOfAnswering, Enabled, Next;
    if |steps| == 0 {
      NothingUnasked(c);
    } else {
      ReaderDiesOnBinaryPipe(c, steps[..|steps| - 1]);
      ReaderGoesOn(c, At(c, steps[..|steps| - 1]), steps[|steps| - 1]);
    }
  }

  lemma NothingUnasked(c: Config)
    ensures DiesOfAnswering(c, INITIAL)
  {
  }

  lemma ReaderGoesOn(c: Config, s: State, step: Step)
    requires Enabled(s, step) && DiesOfAnswering(c, s)
    ensures DiesOfAnswering(c, Next(c, s, step))
  {
    hide SomeUnasked, AsksUser, Requested, CanAct, Acted, Policy;
    if step.Read? {
      UnaskedSnoc(c, s.received, step.message);
    }
  }

  // One message at a time: of which the reader dies while the process runs.
  lemma DeadlyMessages(c: Config, s: State, m: Message, written: bool)
    requires s.running && Enabled(s, Read(m))
    ensures var t := Next(c, s, Read(m));
            Enabled(t, AnswerNow(written)) && Next(c, t, AnswerNow(written)).reader.Dead?
            <==> m.ServerRequest? && !AsksUser(c, m.asks) && !c.textPipe
  {
    hide Requested, AsksUser, Policy;
  }

  // From then on no call returns a response that had not already arrived.
  lemma {:induction false} DeadReaderStrandsCalls(c: Config, steps: seq<Step>, more: seq<Step>, id: Id)
    requires Possible(c, steps) && Possible(c, steps + more) && At(c, steps).reader.Dead?
    ensures At(c, steps + more).received == At(c, steps).received && At(c, steps + more).reader.Dead?
    ensures var s, t := At(c, steps), At(c, steps + more);
            id in t.calls && t.calls[id].stage.Returned? && t.calls[id].stage.outcome.Some? ==>
              FirstResponse(s.received, t.calls[id].since, id) == t.calls[id].stage.outcome
  {
    hide At, FirstResponse, Next, AllCorrelated;
    EveryRunIsCorrelated(c, steps + more);
    ReturnedIsFirst(At(c, steps + more), id);
    if |more| == 0 {
      assert steps + more == steps;
    } else {
      assert (steps + more)[..|steps + more| - 1] == steps + more[..|more| - 1];
      LastStep(c, steps + more);
      DeadReaderStrandsCalls(c, steps, more[..|more| - 1], id);
      DeadReaderReadsNothing(c, At(c, steps + more[..|more| - 1]), more[|more| - 1]);
    }
  }

  lemma ReturnedIsFirst(s: State, id: Id)
    requires AllCorrelated(s)
    ensures id in s.calls && s.calls[id].stage.Returned? && s.calls[id].stage.outcome.Some? ==>
              FirstResponse(s.received, s.calls[id].since, id) == s.calls[id].stage.outcome
  {
  }

  lemma DeadReaderReadsNothing(c: Config, s: State, step: Step)
    requires Enabled(s, step) && s.reader.Dead?
    ensures Next(c, s, step).received == s.received && Next(c, s, step).reader.Dead?
  {
  }
}
