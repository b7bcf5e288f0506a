// De-duplication of the events of one ZCode turn, and the loop that polls for them.
module ZCodeEvents {

  // `number` is the event's seq, 0 when it has none. The hash of an event is its JSON text
  // with sorted keys, so two events have the same hash exactly when they are equal.
  datatype Event = Event(number: int, content: Content)

  datatype Content =
    | Streaming(delta: string)
    | TurnCompleted(usage: string)
    | StateUpdated(status: string)
    | Other(kind: string, payload: string)

  // turn.completed, or a state update to idle.
  predicate Completes(ev: Event) {
    ev.content.TurnCompleted? || (ev.content.StateUpdated? && ev.content.status == "idle")
  }

  // The fields of the session that decide what is forwarded.
  datatype Dedup = Dedup(last: int, prior: set<Event>, current: set<Event>)

  const FRESH_TURN: Dedup := Dedup(0, {}, {})

  // ------------------------------------------------------------------ one response

  predicate Stale(d: Dedup, ev: Event) { ev.number != 0 && ev.number <= d.last }

  predicate Fresh(d: Dedup, ev: Event) { !Stale(d, ev) && ev !in d.prior }

  // A hash found in the prior set suppresses the event but its seq has been noted by then.
  function Note(d: Dedup, ev: Event): Dedup {
    if Stale(d, ev) then d
    else
      var noted := if ev.number != 0 then d.(last := ev.number) else d;
      if ev in d.prior then noted else noted.(current := noted.current + {ev})
  }

  function NoteAll(d: Dedup, events: seq<Event>): Dedup {
    if |events| == 0 then d else Note(NoteAll(d, events[..|events| - 1]), events[|events| - 1])
  }

  // The events of a response that are forwarded, in order.
  function Forwarded(d: Dedup, events: seq<Event>): (r: seq<Event>) {
    if |events| == 0 then []
    else
      var front, ev := events[..|events| - 1], events[|events| - 1];
      Forwarded(d, front) + (if Fresh(NoteAll(d, front), ev) then [ev] else [])
  }

  // ------------------------------------------------------------------ a whole turn

  // A regular poll rotates the hash sets before asking; the tail poll does not.
  datatype Poll = Poll(tail: bool, events: seq<Event>)

  function Rotate(d: Dedup): Dedup { d.(prior := d.current, current := {}) }

  function Before(d: Dedup, p: Poll): Dedup { if p.tail then d else Rotate(d) }

  function StateAfter(d: Dedup, polls: seq<Poll>): Dedup {
    if |polls| == 0 then d
    else
      var p := polls[|polls| - 1];
      NoteAll(Before(StateAfter(d, polls[..|polls| - 1]), p), p.events)
  }

  // What poll i of the turn forwards.
  function Output(polls: seq<Poll>, i: nat): seq<Event>
    requires i < |polls|
  {
    Forwarded(Before(StateAfter(FRESH_TURN, polls[..i]), polls[i]), polls[i].events)
  }

  // Everything the turn forwards, in order.
  function AllOutput(polls: seq<Poll>): seq<Event> {
    if |polls| == 0 then []
    else AllOutput(polls[..|polls| - 1]) + Output(polls, |polls| - 1)
  }

  // ------------------------------------------------------------ events that carry a seq

  function Numbered(events: seq<Event>): (r: seq<Event>)
    ensures forall ev :: ev in r ==> ev.number != 0
  {
    if |events| == 0 then []
    else Numbered(events[..|events| - 1])
         + (if events[|events| - 1].number != 0 then [events[|events| - 1]] else [])
  }

  predicate Increasing(events: seq<Event>) {
    forall i, j :: 0 <= i < j < |events| ==> events[i].number < events[j].number
  }

  // Why the hash layer never suppresses a fresh numbered event: every hash on record with
  // a seq has one that the seq layer has already passed.
  ghost predicate HashesArePast(d: Dedup) {
    forall ev :: ev in d.prior + d.current && ev.number != 0 ==> ev.number <= d.last
  }

  lemma NotePreserves(d: Dedup, ev: Event)
    requires HashesArePast(d)
    ensures HashesArePast(Note(d, ev))
    ensures Note(d, ev).last >= d.last && Note(d, ev).prior == d.prior
    ensures ev.number != 0 ==> (Fresh(d, ev) <==> ev.number > d.last)
    ensures Note(d, ev).last == if ev.number != 0 && ev.number > d.last then ev.number else d.last
  {
  }

  lemma {:induction false} NoteAllPreserves(d: Dedup, events: seq<Event>)
    requires HashesArePast(d)
    ensures HashesArePast(NoteAll(d, events))
    ensures NoteAll(d, events).last >= d.last && NoteAll(d, events).prior == d.prior
  {
    if |events| > 0 {
      NoteAllPreserves(d, events[..|events| - 1]);
      NotePreserves(NoteAll(d, events[..|events| - 1]), events[|events| - 1]);
    }
  }

  lemma NumberedSnoc(events: seq<Event>, ev: Event)
    ensures Numbered(events + [ev]) == if ev.number != 0 then Numbered(events) + [ev] else Numbered(events)
  {
    assert (events + [ev])[..|events|] == events;
  }

  lemma ForwardedSnoc(d: Dedup, events: seq<Event>, ev: Event)
    ensures NoteAll(d, events + [ev]) == Note(NoteAll(d, events), ev)
    ensures Forwarded(d, events + [ev])
            == if Fresh(NoteAll(d, events), ev) then Forwarded(d, events) + [ev] else Forwarded(d, events)
  {
    assert (events + [ev])[..|events|] == events;
  }

  lemma {:induction false} NumberedConcat(a: seq<Event>, b: seq<Event>)
    ensures Numbered(a + b) == Numbered(a) + Numbered(b)
  {
    if |b| == 0 {
      assert a + b == a;
    } else {
      assert (a + b)[..|a + b| - 1] == a + b[..|b| - 1];
      NumberedConcat(a, b[..|b| - 1]);
    }
  }

  // Within one response: the numbered events forwarded are increasing and lie between the
  // seq before and the seq after.
  lemma {:induction false} ResponseIncreases(d: Dedup, events: seq<Event>)
    requires HashesArePast(d)
    ensures var out := Numbered(Forwarded(d, events));
            && Increasing(out)
            && (forall ev :: ev in out ==> d.last < ev.number <= NoteAll(d, events).last)
  {
    if |events| > 0 {
      var front, ev := events[..|events| - 1], events[|events| - 1];
      assert events == front + [ev];
      ResponseIncreases(d, front);
      ResponseStep(d, front, ev);
    }
  }

  // One more event: what the two layers decide about it together.
  lemma ResponseStep(d: Dedup, front: seq<Event>, ev: Event)
    requires HashesArePast(d)
    ensures var last, taken := NoteAll(d, front).last, ev.number != 0 && ev.number > NoteAll(d, front).last;
            && last >= d.last
            && NoteAll(d, front + [ev]).last == (if taken then ev.number else last)
            && Numbered(Forwarded(d, front + [ev]))
               == (if taken then Numbered(Forwarded(d, front)) + [ev] else Numbered(Forwarded(d, front)))
  {
    hide NoteAll, Forwarded, Numbered, Note, Fresh, HashesArePast;
    NoteAllPreserves(d, front);
    NotePreserves(NoteAll(d, front), ev);
    ForwardedSnoc(d, front, ev);
    NumberedSnoc(Forwarded(d, front), ev);
  }

  lemma BeforePreserves(d: Dedup, p: Poll)
    requires HashesArePast(d)
    ensures HashesArePast(Before(d, p)) && Before(d, p).last == d.last
  {
  }

  lemma {:induction false} TurnInvariant(polls: seq<Poll>)
    ensures HashesArePast(StateAfter(FRESH_TURN, polls))
  {
    if |polls| > 0 {
      var front, p := polls[..|polls| - 1], polls[|polls| - 1];
      TurnInvariant(front);
      NoteAllPreserves(Before(StateAfter(FRESH_TURN, front), p), p.events);
    }
  }

  // Over a whole turn, whatever the responses, tail poll included: the seq of the events
  // forwarded strictly increases, so none is forwarded twice.
  lemma {:induction false} TurnIncreases(polls: seq<Poll>)
    ensures var out := Numbered(AllOutput(polls));
            && Increasing(out)
            && (forall ev :: ev in out ==> 0 < ev.number <= StateAfter(FRESH_TURN, polls).last)
            && StateAfter(FRESH_TURN, polls).last >= 0
  {
    if |polls| > 0 {
      var front, p := polls[..|polls| - 1], polls[|polls| - 1];
      var d := Before(StateAfter(FRESH_TURN, front), p);
      TurnIncreases(front);
      TurnInvariant(front);
      ResponseIncreases(d, p.events);
      NoteAllPreserves(d, p.events);
      NumberedConcat(AllOutput(front), Output(polls, |polls| - 1));
    }
  }

  // -------------------------------------------------- one log, read from the start each time

  predicate IsLog(log: seq<Event>) {
    Increasing(log) && forall ev :: ev in log ==> ev.number > 0
  }

  function LastOf(log: seq<Event>, m: nat): int
    requires m <= |log|
  {
    if m == 0 then 0 else log[m - 1].number
  }

  function Max(a: nat, b: nat): nat { if a < b then b else a }

  // A response that shows the log up to entry k, after entries up to m have been forwarded.
  lemma {:induction false} ResponseAdvances(d: Dedup, events: seq<Event>, log: seq<Event>, m: nat)
    requires HashesArePast(d) && IsLog(log) && m <= |log| && d.last == LastOf(log, m)
    requires Numbered(events) <= log
    ensures var k := |Numbered(events)|;
            && Numbered(Forwarded(d, events)) == log[m..Max(m, k)]
            && NoteAll(d, events).last == LastOf(log, Max(m, k))
  {
    hide NoteAll, HashesArePast;
    if |events| == 0 {
      assert NoteAll(d, events).last == d.last by { NothingNoted(d); }
    } else {
      var front, ev := events[..|events| - 1], events[|events| - 1];
      assert events == front + [ev];
      NumberedSnoc(front, ev);
      ResponseAdvances(d, front, log, m);
      ResponseStep(d, front, ev);
      LogStep(log, m, |Numbered(front)|);
    }
  }

  lemma NumberedNothing()
    ensures Numbered([]) == []
  {
  }

  lemma NothingNoted(d: Dedup)
    ensures NoteAll(d, []) == d
  {
  }

  lemma LogStep(log: seq<Event>, m: nat, k: nat)
    requires IsLog(log) && m <= |log|
    ensures k < m ==> log[k].number <= LastOf(log, m)
    ensures m <= k < |log| ==> LastOf(log, k) < log[k].number && log[m..k] + [log[k]] == log[m..k + 1]
  {
  }

  // How far into the log the responses of a turn have shown.
  function Reach(polls: seq<Poll>): nat {
    if |polls| == 0 then 0
    else Max(Reach(polls[..|polls| - 1]), |Numbered(polls[|polls| - 1].events)|)
  }

  // When every response shows the same log up to some entry, with any events without seq in
  // between, a turn forwards the entries it has been shown exactly once and in log order.
  lemma {:induction false} TurnForwardsTheLog(polls: seq<Poll>, log: seq<Event>)
    requires IsLog(log)
    requires forall p :: p in polls ==> Numbered(p.events) <= log
    ensures Reach(polls) <= |log|
    ensures Numbered(AllOutput(polls)) == log[..Reach(polls)]
    ensures StateAfter(FRESH_TURN, polls).last == LastOf(log, Reach(polls))
  {
    hide NoteAll, Forwarded, Numbered, HashesArePast;
    if |polls| == 0 {
      assert Numbered([]) == [] by { NumberedNothing(); }
    }
    if |polls| > 0 {
      var front, p := polls[..|polls| - 1], polls[|polls| - 1];
      assert p in polls && forall q :: q in front ==> q in polls;
      TurnForwardsTheLog(front, log);
      TurnInvariant(front);
      BeforePreserves(StateAfter(FRESH_TURN, front), p);
      ResponseAdvances(Before(StateAfter(FRESH_TURN, front), p), p.events, log, Reach(front));
      NumberedConcat(AllOutput(front), Output(polls, |polls| - 1));
      assert log[..Reach(front)] + log[Reach(front)..Reach(polls)] == log[..Reach(polls)];
    }
  }

  // ------------------------------------------------------------ events without a seq

  function Unnumbered(events: seq<Event>): (r: seq<Event>)
    ensures forall ev :: ev in r <==> ev in events && ev.number == 0
  {
    if |events| == 0 then []
    else
      var front, ev := events[..|events| - 1], events[|events| - 1];
      assert events == front + [ev];
      Unnumbered(front) + (if ev.number == 0 then [ev] else [])
  }

  // All occurrences of the events outside s, in order.
  function Outside(events: seq<Event>, s: set<Event>): (r: seq<Event>)
    ensures forall ev :: ev in r <==> ev in events && ev !in s
  {
    if |events| == 0 then []
    else
      var front, ev := events[..|events| - 1], events[|events| - 1];
      assert events == front + [ev];
      Outside(front, s) + (if ev !in s then [ev] else [])
  }

  function Elements(events: seq<Event>): set<Event> { set ev | ev in events }

  lemma UnnumberedSnoc(events: seq<Event>, ev: Event)
    ensures Unnumbered(events + [ev]) == if ev.number == 0 then Unnumbered(events) + [ev] else Unnumbered(events)
  {
    assert (events + [ev])[..|events|] == events;
  }

  lemma OutsideSnoc(events: seq<Event>, ev: Event, s: set<Event>)
    ensures Outside(events + [ev], s) == if ev !in s then Outside(events, s) + [ev] else Outside(events, s)
  {
    assert (events + [ev])[..|events|] == events;
  }

  // Every occurrence without a seq is forwarded unless its hash is in the prior set, so
  // equal events in one response are all forwarded; the current set grows by what was forwarded.
  lemma {:induction false} ResponseWithoutSeq(d: Dedup, events: seq<Event>)
    ensures Unnumbered(Forwarded(d, events)) == Outside(Unnumbered(events), d.prior)
    ensures NoteAll(d, events).prior == d.prior
    ensures NoteAll(d, events).current == d.current + Elements(Forwarded(d, events))
  {
    if |events| > 0 {
      var front, ev := events[..|events| - 1], events[|events| - 1];
      assert events == front + [ev];
      ResponseWithoutSeq(d, front);
      WithoutSeqStep(d, front, ev);
    }
  }

  lemma {:induction false} WithoutSeqStep(d: Dedup, front: seq<Event>, ev: Event)
    requires Unnumbered(Forwarded(d, front)) == Outside(Unnumbered(front), d.prior)
    requires NoteAll(d, front).prior == d.prior
    requires NoteAll(d, front).current == d.current + Elements(Forwarded(d, front))
    ensures Unnumbered(Forwarded(d, front + [ev])) == Outside(Unnumbered(front + [ev]), d.prior)
    ensures NoteAll(d, front + [ev]).prior == d.prior
    ensures NoteAll(d, front + [ev]).current == d.current + Elements(Forwarded(d, front + [ev]))
  {
    hide NoteAll, Forwarded, Unnumbered, Outside;
    ForwardedSnoc(d, front, ev);
    UnnumberedSnoc(front, ev);
    UnnumberedSnoc(Forwarded(d, front), ev);
    OutsideSnoc(Unnumbered(front), ev, d.prior);
  }

  // A turn as the drain loop makes it: only the last poll can be the tail poll.
  predicate TailIsLast(polls: seq<Poll>) {
    forall i :: 0 <= i < |polls| - 1 ==> !polls[i].tail
  }

  predicate AllRegular(polls: seq<Poll>) { forall p :: p in polls ==> !p.tail }

  function PriorAt(polls: seq<Poll>, i: nat): set<Event>
    requires i < |polls|
  {
    Before(StateAfter(FRESH_TURN, polls[..i]), polls[i]).prior
  }

  // What the code remembers is one poll, not the turn: a regular poll is compared with what
  // the poll before it forwarded, the tail poll with what the poll before that one forwarded.
  lemma MemoryIsOnePoll(polls: seq<Poll>, i: nat)
    requires TailIsLast(polls) && i < |polls|
    ensures !polls[i].tail ==> PriorAt(polls, i) == if i == 0 then {} else Elements(Output(polls, i - 1))
    ensures polls[i].tail ==> PriorAt(polls, i) == if i <= 1 then {} else Elements(Output(polls, i - 2))
  {
    if i > 0 {
      var d := StateAfter(FRESH_TURN, polls[..i - 1]);
      assert polls[..i][..i - 1] == polls[..i - 1];
      ResponseWithoutSeq(Before(d, polls[i - 1]), polls[i - 1].events);
      if polls[i].tail && i > 1 {
        var c := StateAfter(FRESH_TURN, polls[..i - 2]);
        assert polls[..i - 1][..i - 2] == polls[..i - 2];
        ResponseWithoutSeq(Before(c, polls[i - 2]), polls[i - 2].events);
      }
    }
  }

  // A regular poll forwards an event without seq exactly when the previous poll did not.
  lemma {:induction false} SeqlessForwarding(polls: seq<Poll>, i: nat, ev: Event)
    requires TailIsLast(polls) && i < |polls| && !polls[i].tail && ev.number == 0
    ensures Unnumbered(Output(polls, i))
            == Outside(Unnumbered(polls[i].events), if i == 0 then {} else Elements(Output(polls, i - 1)))
    ensures ev in Output(polls, i) <==> ev in polls[i].events && (i == 0 || ev !in Output(polls, i - 1))
  {
    MemoryIsOnePoll(polls, i);
    var d := Before(StateAfter(FRESH_TURN, polls[..i]), polls[i]);
    ResponseWithoutSeq(d, polls[i].events);
    assert ev in Output(polls, i) <==> ev in Unnumbered(Output(polls, i));
    assert ev in polls[i].events <==> ev in Unnumbered(polls[i].events);
  }

  predicate Forwards(polls: seq<Poll>, i: nat, ev: Event) { i < |polls| && ev in Output(polls, i) }

  // The documented promise for an event without seq: later polls, the tail poll included, do
  // not forward it again.
  ghost predicate OncePerTurn(polls: seq<Poll>, ev: Event) {
    forall i: nat, j: nat :: i < j && Forwards(polls, i, ev) ==> !Forwards(polls, j, ev)
  }

  predicate RegularShows(polls: seq<Poll>, i: nat, ev: Event) {
    i < |polls| && !polls[i].tail && ev in polls[i].events
  }

  predicate TailShows(polls: seq<Poll>, ev: Event) {
    |polls| > 0 && polls[|polls| - 1].tail && ev in polls[|polls| - 1].events
  }

  // What the responses have to look like for that. First, the event shows up in no two
  // regular polls except directly consecutive ones.
  ghost predicate OnlyNeighbours(polls: seq<Poll>, ev: Event) {
    forall i: nat, j: nat :: i < j && RegularShows(polls, i, ev) && RegularShows(polls, j, ev) ==> j == i + 1
  }

  ghost predicate FirstShown(polls: seq<Poll>, i: nat, ev: Event) {
    RegularShows(polls, i, ev) && forall k: nat :: k < i ==> !RegularShows(polls, k, ev)
  }

  // Second, if the tail poll shows it, no regular poll does, or the first that does is the
  // one before the completing poll.
  ghost predicate TailAddsNothing(polls: seq<Poll>, ev: Event) {
    TailShows(polls, ev) ==>
      || (forall k: nat :: !RegularShows(polls, k, ev))
      || (|polls| >= 3 && FirstShown(polls, |polls| - 3, ev))
  }

  lemma {:induction false} RegularForwards(polls: seq<Poll>, i: nat, ev: Event)
    requires TailIsLast(polls) && ev.number == 0 && i < |polls| && !polls[i].tail
    ensures Forwards(polls, i, ev) <==> RegularShows(polls, i, ev) && (i == 0 || !Forwards(polls, i - 1, ev))
  {
    hide Output;
    SeqlessForwarding(polls, i, ev);
  }

  lemma {:induction false} TailForwards(polls: seq<Poll>, ev: Event)
    requires TailIsLast(polls) && ev.number == 0 && |polls| > 0 && polls[|polls| - 1].tail
    ensures Forwards(polls, |polls| - 1, ev)
            <==> TailShows(polls, ev) && (|polls| <= 2 || !Forwards(polls, |polls| - 3, ev))
  {
    var n := |polls|;
    MemoryIsOnePoll(polls, n - 1);
    ResponseWithoutSeq(Before(StateAfter(FRESH_TURN, polls[..n - 1]), polls[n - 1]), polls[n - 1].events);
    assert ev in Output(polls, n - 1) <==> ev in Unnumbered(Output(polls, n - 1));
    assert ev in polls[n - 1].events <==> ev in Unnumbered(polls[n - 1].events);
  }

  // An event shown by regular poll i is forwarded by it or was forwarded by the one before.
  lemma {:induction false} ForwardedNearby(polls: seq<Poll>, i: nat, ev: Event) returns (k: nat)
    requires TailIsLast(polls) && ev.number == 0 && RegularShows(polls, i, ev)
    ensures k <= i <= k + 1 && Forwards(polls, k, ev)
  {
    hide Forwards;
    RegularForwards(polls, i, ev);
    k := if Forwards(polls, i, ev) then i else i - 1;
  }

  lemma {:induction false} OnceMeansNeighbours(polls: seq<Poll>, ev: Event)
    requires TailIsLast(polls) && ev.number == 0 && OncePerTurn(polls, ev)
    ensures OnlyNeighbours(polls, ev)
  {
    hide Forwards, RegularShows;
    forall i: nat, j: nat | i < j && RegularShows(polls, i, ev) && RegularShows(polls, j, ev)
      ensures j == i + 1
    {
      var a := ForwardedNearby(polls, i, ev);
      var b := ForwardedNearby(polls, j, ev);
    }
  }

  lemma {:induction false} OnceMeansTailAddsNothing(polls: seq<Poll>, ev: Event, k: nat)
    requires TailIsLast(polls) && ev.number == 0 && OncePerTurn(polls, ev)
    requires TailShows(polls, ev) && RegularShows(polls, k, ev)
    ensures |polls| >= 3 && FirstShown(polls, |polls| - 3, ev)
  {
    hide Forwards, OnlyNeighbours;
    var n := |polls|;
    var f := ForwardedNearby(polls, k, ev);
    TailForwards(polls, ev);
    assert Forwards(polls, n - 3, ev);
    RegularForwards(polls, n - 3, ev);
    forall i: nat | i < n - 3
      ensures !RegularShows(polls, i, ev)
    {
      if RegularShows(polls, i, ev) {
        var b := ForwardedNearby(polls, i, ev);
      }
    }
  }

  lemma {:induction false} NoSecondForward(polls: seq<Poll>, ev: Event, i: nat, j: nat)
    requires TailIsLast(polls) && ev.number == 0
    requires OnlyNeighbours(polls, ev) && TailAddsNothing(polls, ev)
    requires i < j < |polls| && Forwards(polls, i, ev)
    ensures !Forwards(polls, j, ev)
  {
    hide Forwards;
    RegularForwards(polls, i, ev);
    if polls[j].tail {
      TailForwards(polls, ev);
      if TailShows(polls, ev) {
        var first := |polls| - 3;
        assert FirstShown(polls, first, ev);
        RegularForwards(polls, first, ev);
        if first > 0 {
          RegularForwards(polls, first - 1, ev);
        }
      }
    } else {
      RegularForwards(polls, j, ev);
    }
  }

  // The promise is kept exactly then, for every turn the drain loop can make.
  lemma {:induction false} OncePerTurnCharacterised(polls: seq<Poll>, ev: Event)
    requires TailIsLast(polls) && ev.number == 0
    ensures OncePerTurn(polls, ev) <==> OnlyNeighbours(polls, ev) && TailAddsNothing(polls, ev)
  {
    hide RegularShows, TailShows, FirstShown;
    if OncePerTurn(polls, ev) {
      OnceMeansNeighbours(polls, ev);
      if TailShows(polls, ev) {
        forall k: nat | RegularShows(polls, k, ev)
          ensures |polls| >= 3 && FirstShown(polls, |polls| - 3, ev)
        {
          OnceMeansTailAddsNothing(polls, ev, k);
        }
      }
    }
    if OnlyNeighbours(polls, ev) && TailAddsNothing(polls, ev) {
      forall i: nat, j: nat | i < j && Forwards(polls, i, ev)
        ensures !Forwards(polls, j, ev)
      {
        if j < |polls| {
          NoSecondForward(polls, ev, i, j);
        }
      }
    }
  }

  // The same streaming delta shown by three polls in a row is forwarded twice.
  lemma RedeliveryCounterexample(ev: Event)
    requires ev.number == 0
    ensures var polls := [Poll(false, [ev]), Poll(false, [ev]), Poll(false, [ev])];
            ev in Output(polls, 0) && ev !in Output(polls, 1) && ev in Output(polls, 2)
  {
    var polls := [Poll(false, [ev]), Poll(false, [ev]), Poll(false, [ev])];
    SeqlessForwarding(polls, 0, ev);
    SeqlessForwarding(polls, 1, ev);
    SeqlessForwarding(polls, 2, ev);
  }

  // The tail poll forwards an event without seq exactly when the poll before the completing
  // one had not; so it repeats whatever the completing poll has just forwarded.
  lemma TailRepeats(polls: seq<Poll>, ev: Event)
    requires TailIsLast(polls) && |polls| >= 2 && polls[|polls| - 1].tail && ev.number == 0
    ensures var n := |polls|;
            && (ev in Output(polls, n - 1) <==>
                  ev in polls[n - 1].events && (n == 2 || ev !in Output(polls, n - 3)))
            && (ev in Output(polls, n - 2) ==>
                  (ev in Output(polls, n - 1) <==> ev in polls[n - 1].events))
  {
    var n := |polls|;
    TailForwards(polls, ev);
    SeqlessForwarding(polls, n - 2, ev);
  }
}
