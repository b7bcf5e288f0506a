// The methods of a ZCode session as they run when no other thread gets in between, each
// proved to be the run of steps that ZCodeCorrelation interleaves.
module ZCodeSession {
  import opened ZCodeCorrelation
  import opened Wrappers

  // The reader's whole treatment of one message.
  function Handled(c: Config, s: State, m: Message, writable: bool): State
    requires Enabled(s, Read(m))
  {
    var t := Next(c, s, Read(m));
    match t.reader
    case Popped(_, _) => Next(c, Next(c, t, Store), SetEvent)
    case _ => Served(c, t, writable)
  }

  // What follows the first step on a server request.
  function Served(c: Config, t: State, writable: bool): State {
    match t.reader
    case Forwarding(_) => Next(c, t, Forward)
    case Answering(_) => Next(c, t, AnswerNow(writable))
    case _ => t
  }

  datatype WriteOutcome = Written | WriteError

  class AppServerSession {
    const c: Config
    var running: bool
    var readerAlive: bool
    var calls: map<Id, Call>       // the holders, and which of them are in _pending
    var recorded: set<Id>          // _pending_server_requests
    var received: seq<Message>
    var forwarded: seq<Id>
    var claims: seq<Answer>        // what other responders have claimed and not yet written
    var sent: seq<Answer>
    var dropped: seq<Answer>

    function Now(): State
      reads this
    {
      State(running, received, if readerAlive then Idle else Dead, calls,
                  Desk(recorded, claims, forwarded, sent, dropped))
    }

    constructor (c: Config)
      ensures Now() == INITIAL && this.c == c
    {
      this.c := c;
      running, readerAlive, calls, recorded := true, true, map[], {};
      received, forwarded, claims, sent, dropped := [], [], [], [], [];
    }

    // Raises on a binary pipe, since it writes a str.
    method SendResponse(a: Answer, writable: bool) returns (raised: bool)
      modifies `sent, `dropped
      ensures raised == (running && !c.textPipe)
      ensures Now().desk == Replied(old(Now().desk), a, running && c.textPipe && writable)
    {
      raised := false;
      if !running {
        dropped := dropped + [a];
        return;
      }
      if !c.textPipe {
        dropped := dropped + [a];
        return true;
      }
      if writable {
        sent := sent + [a];
      } else {
        dropped := dropped + [a];
      }
    }

    method HandleServerRequest(id: Id, asks: Method, writable: bool)
      requires readerAlive
      modifies `recorded, `forwarded, `sent, `dropped, `readerAlive
      ensures Now() == Served(c, AfterRead(c, old(Now()), ServerRequest(id, asks)), writable)
      ensures c.interactive && !asks.OtherMethod? ==>
                recorded == old(recorded) + {id} && forwarded == old(forwarded) + [id] && sent == old(sent)
      ensures running && c.textPipe && writable ==>
                && (!c.interactive && asks == RequestUserInput ==> sent == old(sent) + [Answer(id, Decline)])
                && (!c.interactive && asks == RequestPermission ==> sent == old(sent) + [Answer(id, Allow)])
                && (asks.OtherMethod? ==> sent == old(sent) + [Answer(id, Unhandled(asks.name))])
    {
      if asks.RequestUserInput? && c.interactive {
        recorded := recorded + {id};
        forwarded := forwarded + [id];
        return;
      }
      if asks.RequestPermission? && c.interactive {
        recorded := recorded + {id};
        forwarded := forwarded + [id];
        return;
      }
      var raised;
      if asks.RequestUserInput? {
        raised := SendResponse(Answer(id, Decline), writable);
      } else if asks.RequestPermission? {
        raised := SendResponse(Answer(id, Allow), writable);
      } else {
        raised := SendResponse(Answer(id, Unhandled(asks.name)), writable);
      }
      readerAlive := !raised;
    }

    method HandleMessage(m: Message, writable: bool)
      requires readerAlive && Enabled(Now(), Read(m))
      modifies this
      ensures Now() == Handled(c, old(Now()), m, writable)
    {
      hide Requested;
      received := received + [m];
      match m {
        case ServerRequest(id, asks) =>
          HandleServerRequest(id, asks, writable);
        case Response(id, body) =>
          if id in calls && calls[id].pending {
            calls := calls[id := calls[id].(pending := false)];
            calls := calls[id := calls[id].(holder := Holder(Some(body), calls[id].holder.isSet))];
            calls := calls[id := calls[id].(holder := Holder(calls[id].holder.body, true))];
          }
        case Notification =>
      }
    }

    // False for an id that is not on record, so also for the second answer to a request.
    method SendInteractionResponse(id: Id, text: string, writable: bool) returns (ok: bool)
      modifies `recorded, `sent, `dropped
      ensures ok == (id in old(recorded) && !(running && !c.textPipe))
      ensures id !in old(recorded) ==> Now() == old(Now())
      ensures id in old(recorded) ==>
                Now() == Next(c, Next(c, old(Now()), Claim(id, text)), Respond(|claims|, writable))
    {
      if id !in recorded {
        return false;
      }
      recorded := recorded - {id};
      var raised := SendResponse(Answer(id, FromUser(text)), writable);
      ok := !raised;
      assert claims == (claims + [Answer(id, FromUser(text))])[..|claims|] + [];
    }

    // A whole request. `meanwhile` is what the reader handles before the time is up. What
    // comes back is the first response to the request's own id, whatever else arrives.
    method Request(id: Id, write: WriteOutcome, meanwhile: seq<Message>, writable: bool) returns (r: Option<Body>)
      requires readerAlive && id !in calls && AllCorrelated(Now())
      requires forall i :: 0 <= i < |meanwhile| && meanwhile[i].ServerRequest? ==>
                 !Requested(received + meanwhile[..i], meanwhile[i].id)
      modifies this
      ensures old(received) <= received <= old(received) + meanwhile
      ensures readerAlive && old(running) && write.Written? ==> received == old(received) + meanwhile
      ensures old(running) && write.Written? ==> r == FirstResponse(received, |old(received)|, id)
      ensures !(old(running) && write.Written?) ==> r == None
      ensures id in calls && calls[id] == Call(Returned(r), false, calls[id].holder, |old(received)|)
      ensures AllCorrelated(Now())
    {
      hide Requested, AllCorrelated, FirstResponse, Handled, Next;
      assert received <= received;
      Begun(c, Now(), id);
      if !running {
        calls := calls[id := Call(Returned(None), false, EMPTY, |received|)];
        return None;
      }
      calls := calls[id := Call(Registered, true, EMPTY, |received|)];
      if write.WriteError? {
        CallerActs(c, Now(), id, WriteFails);
        calls := calls[id := calls[id].(stage := Failing)];
        CallerActs(c, Now(), id, Unregister);
        calls := calls[id := calls[id].(stage := Returned(None), pending := false)];
        return None;
      }
      CallerActs(c, Now(), id, Write);
      calls := calls[id := calls[id].(stage := Waiting)];
      HandleAll(id, meanwhile, writable);
      Waited(Now(), id);
      if calls[id].holder.isSet {
        r := calls[id].holder.body;
        CallerActs(c, Now(), id, Wake);
        calls := calls[id := calls[id].(stage := Returned(r))];
      } else {
        CallerActs(c, Now(), id, TimeOut);
        calls := calls[id := calls[id].(stage := TimedOut)];
        CallerActs(c, Now(), id, Unregister);
        calls := calls[id := calls[id].(stage := Returned(None), pending := false)];
        r := None;
      }
    }

    method HandleAll(id: Id, messages: seq<Message>, writable: bool)
      requires readerAlive && AllCorrelated(Now()) && id in calls
      requires forall i :: 0 <= i < |messages| && messages[i].ServerRequest? ==>
                 !Requested(received + messages[..i], messages[i].id)
      modifies this
      ensures AllCorrelated(Now()) && id in calls
      ensures calls[id].stage == old(calls[id].stage) && calls[id].since == old(calls[id].since)
      ensures old(received) <= received <= old(received) + messages
      ensures readerAlive ==> received == old(received) + messages
    {
      hide Requested, AllCorrelated, FirstResponse, Handled, Next;
      var i := 0;
      while i < |messages| && readerAlive
        invariant 0 <= i <= |messages|
        invariant received == old(received) + messages[..i]
        invariant AllCorrelated(Now()) && id in calls
        invariant calls[id].stage == old(calls[id].stage) && calls[id].since == old(calls[id].since)
        decreases |messages| - i
      {
        HandlingKeeps(c, Now(), messages[i], writable, id);
        HandleMessage(messages[i], writable);
        assert messages[..i + 1] == messages[..i] + [messages[i]];
        i := i + 1;
      }
      assert messages == messages[..i] + messages[i..];
    }
  }

  lemma Begun(c: Config, s: State, id: Id)
    requires AllCorrelated(s) && id !in s.calls
    ensures var stage := if s.running then Registered else Returned(None);
            AllCorrelated(s.(calls := s.calls[id := Call(stage, s.running, EMPTY, |s.received|)]))
  {
    hide AllCorrelated;
    StepKeepsCorrelated(c, s, Step.Request(id));
  }

  lemma CallerActs(c: Config, s: State, id: Id, act: Act)
    requires AllCorrelated(s) && id in s.calls && CanAct(s.calls[id], act)
    ensures AllCorrelated(s.(calls := s.calls[id := Acted(s.calls[id], act)]))
  {
    hide AllCorrelated;
    StepKeepsCorrelated(c, s, Caller(id, act));
  }

  lemma {:induction false} HandlingKeeps(c: Config, s: State, m: Message, writable: bool, id: Id)
    requires AllCorrelated(s) && Enabled(s, Read(m)) && id in s.calls
    ensures AllCorrelated(Handled(c, s, m, writable))
    ensures Handled(c, s, m, writable).received == s.received + [m]
    ensures var calls := Handled(c, s, m, writable).calls;
            id in calls && calls[id].stage == s.calls[id].stage && calls[id].since == s.calls[id].since
  {
    hide AllCorrelated, Requested, AsksUser, Policy;
    ReadKeepsCorrelated(c, s, m);
    var t := Next(c, s, Read(m));
    match t.reader {
      case Popped(_, _) =>
        StepKeepsCorrelated(c, t, Store);
        StepKeepsCorrelated(c, Next(c, t, Store), SetEvent);
      case Forwarding(_) => StepKeepsCorrelated(c, t, Forward);
      case Answering(_) => StepKeepsCorrelated(c, t, AnswerNow(writable));
      case _ =>
    }
  }

  lemma Waited(s: State, id: Id)
    requires AllCorrelated(s) && id in s.calls && s.calls[id].stage.Waiting? && (s.reader.Idle? || s.reader.Dead?)
    ensures var call, first := s.calls[id], FirstResponse(s.received, s.calls[id].since, id);
            if call.holder.isSet then call.holder.body == first && !call.pending else first == None
  {
  }
}
