// The turn worker of a ZCode session: forwarding one response, and polling until the turn ends.
module ZCodeTurn {
  import opened ZCodeEvents

  // ------------------------------------------------------------------- the backoff

  const FIRST_INTERVAL: real := 0.4

  // The sleep after poll k: one and a half times the one before, at most two seconds.
  function Interval(k: nat): (r: real)
    ensures 0.4 <= r <= 2.0
  {
    if k == 0 then FIRST_INTERVAL
    else
      var next := Interval(k - 1) * 1.5;
      if next < 2.0 then next else 2.0
  }

  // The time that has been slept before poll k, at the very least.
  function Slept(k: nat): (r: real)
    ensures r >= 0.0
  {
    if k == 0 then 0.0 else Slept(k - 1) + Interval(k - 1)
  }

  lemma {:induction false} SleptGrows(k: nat)
    requires k >= 4
    ensures Interval(k) == 2.0
    ensures Slept(k) == 3.25 + 2.0 * (k - 4) as real
  {
    if k == 4 {
      assert Interval(1) == 0.6 && Interval(2) == 0.9;
      assert Interval(3) == 1.35;
      assert Slept(2) == 1.0;
      assert Slept(3) == 1.9;
    } else {
      SleptGrows(k - 1);
    }
  }

  // If poll k could still start within the timeout, there are few polls up to it.
  lemma PollsAreFew(k: nat, timeout: real)
    requires Slept(k) < timeout
    ensures k + 1 <= 4 + (timeout / 2.0).Floor
  {
    if k >= 4 {
      SleptGrows(k);
    }
  }

  function MaxPolls(timeout: real): int { 4 + (timeout / 2.0).Floor }

  lemma OneOfFew(k: nat, timeout: real, start: real, now: real)
    requires start + Slept(k) <= now < start + timeout
    ensures k + 1 <= MaxPolls(timeout)
  {
    hide Slept;
    PollsAreFew(k, timeout);
  }

  // ------------------------------------------------------------------ the surroundings

  // Monotonic time. Anything may take time; a sleep takes at least as long as asked for.
  class Clock {
    var now: real

    constructor (now: real)
      ensures this.now == now
    {
      this.now := now;
    }

    method Elapse(atLeast: real)
      requires atLeast >= 0.0
      modifies this
      ensures now >= old(now) + atLeast
    {
      var extra: real := *;
      now := now + atLeast + if extra > 0.0 then extra else 0.0;
    }
  }

  datatype Response = NoAnswer | Events(events: seq<Event>)

  // The app-server's answers to successive session/events requests. NoAnswer stands for a
  // timeout, a write failure or an empty result; an error object carries no events.
  class AppServer {
    const answers: nat -> Response
    var asked: nat

    constructor (answers: nat -> Response)
      ensures this.answers == answers && asked == 0
    {
      this.answers := answers;
      asked := 0;
    }

    method RequestEvents(clock: Clock) returns (r: Response)
      modifies this`asked, clock
      ensures r == answers(old(asked)) && asked == old(asked) + 1
      ensures clock.now >= old(clock.now)
    {
      r := answers(asked);
      asked := asked + 1;
      clock.Elapse(0.0);
    }
  }

  // ------------------------------------------------------------------ the session

  class TurnWorker {
    var lastEventSeq: int
    var priorEventHashes: set<Event>
    var currentEventHashes: set<Event>
    var forwarded: seq<Event>  // the events passed on to the callbacks, in order

    function State(): Dedup
      reads this
    {
      Dedup(lastEventSeq, priorEventHashes, currentEventHashes)
    }

    constructor ()
      ensures State() == FRESH_TURN && forwarded == []
    {
      lastEventSeq, priorEventHashes, currentEventHashes, forwarded := 0, {}, {}, [];
    }

    // One response. Only what is actually forwarded can end the turn.
    method ForwardEvents(events: seq<Event>) returns (done: bool)
      modifies this
      ensures State() == NoteAll(old(State()), events)
      ensures forwarded == old(forwarded) + Forwarded(old(State()), events)
      ensures done <==> Ends(Forwarded(old(State()), events))
    {
      hide NoteAll, Forwarded, Completes, Ends;
      ghost var d := State();
      done := false;
      NothingForwarded(d);
      assert forwarded + [] == forwarded;
      for i := 0 to |events|
        invariant State() == NoteAll(d, events[..i])
        invariant forwarded == old(forwarded) + Forwarded(d, events[..i])
        invariant done <==> Ends(Forwarded(d, events[..i]))
      {
        var ev := events[i];
        assert events[..i + 1] == events[..i] + [ev];
        ForwardedSnoc(d, events[..i], ev);
        if ev.number != 0 && ev.number <= lastEventSeq {
          continue;
        }
        if ev.number != 0 {
          lastEventSeq := ev.number;
        }
        if ev in priorEventHashes {
          continue;
        }
        currentEventHashes := currentEventHashes + {ev};
        forwarded := forwarded + [ev];
        EndsSnoc(Forwarded(d, events[..i]), ev);
        var completed := CompletesTurn(ev);
        done := completed || done;
      }
      assert events[..|events|] == events;
    }

    // Polls until a forwarded event ends the turn, the time is up, the session is stopped
    // (seen or not before poll k, as `stopped` says) or the server has no answer. `polls` is
    // what was asked and answered: the worker's state and output are those of that history.
    method DrainEventsUntilIdle(timeout: real, clock: Clock, server: AppServer, stopped: nat -> bool)
      returns (polls: seq<Poll>, completed: bool)
      requires State() == FRESH_TURN && forwarded == []
      modifies this, clock, server`asked
      ensures TailIsLast(polls)
      ensures State() == StateAfter(FRESH_TURN, polls) && forwarded == AllOutput(polls)
      ensures Answered(polls, server, old(server.asked))
      ensures polls != [] ==> RegularPolls(polls) <= MaxPolls(timeout) == 4 + (timeout / 2.0).Floor
      ensures completed <==> exists i: nat :: i < RegularPolls(polls) && Ends(Output(polls, i))
      ensures forall i: nat :: i + 1 < RegularPolls(polls) ==> !Ends(Output(polls, i))
      // It stops for nothing but these reasons,
      ensures !completed ==>
                && RegularPolls(polls) == |polls| && server.asked == old(server.asked) + |polls|
                && (clock.now >= old(clock.now) + timeout || stopped(|polls|)
                    || (polls != [] && server.answers(server.asked - 1).NoAnswer?))
      // and for each of them at once.
      ensures forall i: nat :: i < RegularPolls(polls) ==> !stopped(i)
      ensures forall i: nat :: i + 1 < RegularPolls(polls) ==> AnswersAt(server, old(server.asked), i)
      // Once it is complete the tail is asked for, and forwarded if there is an answer.
      ensures completed ==>
                && server.asked == old(server.asked) + RegularPolls(polls) + 1
                && (RegularPolls(polls) < |polls| <==> server.answers(server.asked - 1).Events?)
    {
      hide NoteAll, Forwarded, Ends, Slept, Interval, StateAfter, AllOutput, Output, Underway, Answered;
      hide TailIsLast, RegularPolls, AllRegular, Complete, WentOn, AnswersAt, Rotate, EventsOf;
      polls, completed := [], false;
      ghost var start, from := clock.now, server.asked;
      var deadline := clock.now + timeout;
      var interval := FIRST_INTERVAL;
      NoPolls(server, from);
      NotYet(server, from, stopped);

      while clock.now < deadline && !stopped(|polls|)
        invariant Underway(polls, State(), forwarded)
        invariant polls != [] ==> |polls| <= MaxPolls(timeout)
        invariant server.asked == from + |polls|
        invariant Answered(polls, server, from)
        invariant interval == Interval(|polls|)
        invariant clock.now >= start + Slept(|polls|)
        invariant WentOn(server, from, stopped, |polls|)
        decreases MaxPolls(timeout) - |polls|
      {
        ghost var before, d, out := polls, State(), forwarded;
        OneOfFew(|polls|, timeout, start, clock.now);
        SleepOnce(|polls|);
        OnceMore(server, from, stopped, |polls|);
        var poll, answered, done := PollOnce(clock, server);
        AnsweredSnoc(before, server, from, poll);
        polls := polls + [poll];
        if done {
          completed := true;
          EndsWith(before, d, out, poll);
          ghost var n := |polls|;
          polls := AskTail(polls, clock, server, from);
          CompleteMeans(polls, n, State(), forwarded);
          return;
        }
        UnderwaySnoc(before, d, out, poll);
        if !answered {
          NotEnded(polls, State(), forwarded);
          return;
        }
        clock.Elapse(interval);
        interval := if interval * 1.5 < 2.0 then interval * 1.5 else 2.0;
      }
      NotEnded(polls, State(), forwarded);
      WentMeans(server, from, stopped, |polls|);
    }

    // One regular poll: the hash sets are rotated before the server is asked.
    method PollOnce(clock: Clock, server: AppServer) returns (poll: Poll, answered: bool, done: bool)
      modifies this, clock, server`asked
      ensures server.asked == old(server.asked) + 1 && clock.now >= old(clock.now)
      ensures answered == server.answers(old(server.asked)).Events?
      ensures poll == Poll(false, EventsOf(server.answers(old(server.asked)))) && (!answered ==> !done)
      ensures State() == NoteAll(Rotate(old(State())), poll.events)
      ensures forwarded == old(forwarded) + Forwarded(Rotate(old(State())), poll.events)
      ensures done <==> Ends(Forwarded(Rotate(old(State())), poll.events))
    {
      hide NoteAll, Forwarded, Ends;
      priorEventHashes, currentEventHashes := currentEventHashes, {};
      var result := server.RequestEvents(clock);
      poll, answered, done := Poll(false, EventsOf(result)), result.Events?, false;
      NothingForwarded(State());
      assert forwarded + [] == forwarded;
      if answered {
        done := ForwardEvents(result.events);
      }
    }

    // The last request of a turn that has been completed.
    method AskTail(polls: seq<Poll>, clock: Clock, server: AppServer, ghost from: nat) returns (all: seq<Poll>)
      requires AllRegular(polls) && Complete(polls, |polls|, State(), forwarded)
      requires Answered(polls, server, from) && server.asked == from + |polls|
      modifies this, clock, server`asked
      ensures |polls| <= |all| && Complete(all, |polls|, State(), forwarded)
      ensures Answered(all, server, from) && server.asked == old(server.asked) + 1
      ensures |polls| < |all| <==> server.answers(old(server.asked)).Events?
    {
      hide NoteAll, Forwarded, Ends, StateAfter, AllOutput, Output, Answered, TailIsLast, RegularPolls, AllRegular;
      hide Complete;
      all := polls;
      var tail := server.RequestEvents(clock);
      if tail.Events? {
        ghost var d, out := State(), forwarded;
        var _ := ForwardEvents(tail.events);
        var tailPoll := Poll(true, tail.events);
        all := polls + [tailPoll];
        AnsweredSnoc(polls, server, from, tailPoll);
        EndsBeforeTail(polls, d, out, tailPoll);
      }
    }
  }

  predicate AnswersAt(server: AppServer, from: nat, i: nat) { server.answers(from + i).Events? }

  // Before each of the first n polls the session had not been stopped, and each was answered.
  ghost predicate WentOn(server: AppServer, from: nat, stopped: nat -> bool, n: nat) {
    forall i: nat :: i < n ==> !stopped(i) && AnswersAt(server, from, i)
  }

  lemma NotYet(server: AppServer, from: nat, stopped: nat -> bool)
    ensures WentOn(server, from, stopped, 0)
  {
  }

  lemma OnceMore(server: AppServer, from: nat, stopped: nat -> bool, n: nat)
    requires WentOn(server, from, stopped, n) && !stopped(n)
    ensures server.answers(from + n).Events? ==> WentOn(server, from, stopped, n + 1)
    ensures forall i: nat :: i < n + 1 ==> !stopped(i)
    ensures forall i: nat :: i + 1 < n + 1 ==> AnswersAt(server, from, i)
  {
  }

  lemma WentMeans(server: AppServer, from: nat, stopped: nat -> bool, n: nat)
    requires WentOn(server, from, stopped, n)
    ensures forall i: nat :: i < n ==> !stopped(i)
    ensures forall i: nat :: i + 1 < n ==> AnswersAt(server, from, i)
  {
  }

  predicate Answered(polls: seq<Poll>, server: AppServer, from: nat) {
    forall i: nat :: i < |polls| ==> polls[i].events == EventsOf(server.answers(from + i))
  }

  lemma AnsweredSnoc(polls: seq<Poll>, server: AppServer, from: nat, p: Poll)
    requires Answered(polls, server, from) && p.events == EventsOf(server.answers(from + |polls|))
    ensures Answered(polls + [p], server, from)
  {
  }

  // The polls but for the tail poll.
  function RegularPolls(polls: seq<Poll>): nat {
    if |polls| > 0 && polls[|polls| - 1].tail then |polls| - 1 else |polls|
  }

  ghost predicate Ends(events: seq<Event>) { exists ev :: ev in events && Completes(ev) }

  // A turn.completed event, or a state update to idle.
  lemma EndsMeans(events: seq<Event>)
    ensures Ends(events) <==>
            exists ev :: ev in events && (ev.content.TurnCompleted? || ev.content == StateUpdated("idle"))
  {
    forall ev | ev in events
      ensures Completes(ev) <==> ev.content.TurnCompleted? || ev.content == StateUpdated("idle")
    {
    }
  }

  lemma EndsSnoc(events: seq<Event>, ev: Event)
    ensures Ends(events + [ev]) <==> Ends(events) || Completes(ev)
  {
    assert ev in events + [ev];
  }

  // So far the turn has made these polls and none of them has ended it.
  ghost predicate Underway(polls: seq<Poll>, d: Dedup, out: seq<Event>) {
    && AllRegular(polls)
    && d == StateAfter(FRESH_TURN, polls) && out == AllOutput(polls)
    && forall i: nat :: i < |polls| ==> !Ends(Output(polls, i))
  }

  lemma NoPolls(server: AppServer, from: nat)
    ensures Underway([], FRESH_TURN, []) && Answered([], server, from)
    ensures Interval(0) == FIRST_INTERVAL && Slept(0) == 0.0
  {
  }

  lemma SleepOnce(k: nat)
    ensures Slept(k + 1) == Slept(k) + Interval(k)
    ensures Interval(k + 1) == if Interval(k) * 1.5 < 2.0 then Interval(k) * 1.5 else 2.0
  {
  }

  // One more poll leaves the earlier ones as they were.
  lemma {:induction false} PollSnoc(polls: seq<Poll>, p: Poll)
    ensures var d, more := Before(StateAfter(FRESH_TURN, polls), p), polls + [p];
            && StateAfter(FRESH_TURN, more) == NoteAll(d, p.events)
            && AllOutput(more) == AllOutput(polls) + Forwarded(d, p.events)
            && Output(more, |polls|) == Forwarded(d, p.events)
            && (forall i: nat :: i < |polls| ==> Output(more, i) == Output(polls, i))
            && (AllRegular(polls) ==> TailIsLast(more))
  {
    hide NoteAll, Forwarded;
    var more := polls + [p];
    assert more[..|polls|] == polls;
    forall i: nat | i < |polls| ensures Output(more, i) == Output(polls, i) {
      assert more[..i] == polls[..i];
    }
    forall i | 0 <= i < |more| - 1 && AllRegular(polls) ensures !more[i].tail {
      assert more[i] == polls[i] && polls[i] in polls;
    }
  }

  lemma UnderwaySnoc(polls: seq<Poll>, d: Dedup, out: seq<Event>, p: Poll)
    requires Underway(polls, d, out) && !p.tail && !Ends(Forwarded(Rotate(d), p.events))
    ensures Underway(polls + [p], NoteAll(Rotate(d), p.events), out + Forwarded(Rotate(d), p.events))
  {
    hide NoteAll, Forwarded, Ends, Output, StateAfter, AllOutput;
    PollSnoc(polls, p);
    var more := polls + [p];
    forall i: nat | i < |more| ensures !Ends(Output(more, i)) {
      assert i < |polls| || i == |polls|;
    }
  }

  // Poll n - 1 has ended the turn, and no poll before it; a tail poll may follow.
  ghost predicate Complete(polls: seq<Poll>, n: nat, d: Dedup, out: seq<Event>) {
    && 0 < n <= |polls|
    && TailIsLast(polls) && RegularPolls(polls) == n
    && d == StateAfter(FRESH_TURN, polls) && out == AllOutput(polls)
    && Ends(Output(polls, n - 1))
    && forall i: nat :: i + 1 < n ==> !Ends(Output(polls, i))
  }

  lemma EndsWith(polls: seq<Poll>, d: Dedup, out: seq<Event>, p: Poll)
    requires Underway(polls, d, out) && !p.tail && Ends(Forwarded(Rotate(d), p.events))
    ensures var more := polls + [p];
            AllRegular(more)
            && Complete(more, |more|, NoteAll(Rotate(d), p.events), out + Forwarded(Rotate(d), p.events))
  {
    hide NoteAll, Forwarded, Ends, Output, StateAfter, AllOutput;
    PollSnoc(polls, p);
  }

  lemma {:induction false} EndsBeforeTail(polls: seq<Poll>, d: Dedup, out: seq<Event>, p: Poll)
    requires AllRegular(polls) && Complete(polls, |polls|, d, out) && p.tail
    ensures Complete(polls + [p], |polls|, NoteAll(d, p.events), out + Forwarded(d, p.events))
  {
    hide NoteAll, Forwarded, Ends, Output, StateAfter, AllOutput;
    PollSnoc(polls, p);
  }

  lemma CompleteMeans(polls: seq<Poll>, n: nat, d: Dedup, out: seq<Event>)
    requires Complete(polls, n, d, out)
    ensures TailIsLast(polls) && RegularPolls(polls) == n <= |polls|
    ensures d == StateAfter(FRESH_TURN, polls) && out == AllOutput(polls)
    ensures exists i: nat :: i < n && Ends(Output(polls, i))
    ensures forall i: nat :: i + 1 < n ==> !Ends(Output(polls, i))
  {
    hide Ends, Output;
  }

  lemma NotEnded(polls: seq<Poll>, d: Dedup, out: seq<Event>)
    requires Underway(polls, d, out)
    ensures TailIsLast(polls) && RegularPolls(polls) == |polls|
    ensures d == StateAfter(FRESH_TURN, polls) && out == AllOutput(polls)
    ensures forall i: nat :: i < |polls| ==> !Ends(Output(polls, i))
  {
    assert |polls| > 0 ==> polls[|polls| - 1] in polls;
  }

  function EventsOf(r: Response): seq<Event> {
    match r
    case NoAnswer => []
    case Events(events) => events
  }

  method CompletesTurn(ev: Event) returns (r: bool)
    ensures r == Completes(ev)
  {
    match ev.content {
      case TurnCompleted(_) => r := true;
      case StateUpdated(status) => r := status == "idle";
      case Streaming(_) => r := false;
      case Other(_, _) => r := false;
    }
  }

  lemma NothingForwarded(d: Dedup)
    ensures NoteAll(d, []) == d && Forwarded(d, []) == [] && !Ends([])
  {
  }
}
