// A terminal that outlives its clients: the bounded history of its output, and what a client
// that attaches gets to see, whatever the interleaving of its tasks.
module TerminalHistory {
  import opened Bytes
  import opened Wrappers

  const HISTORY: nat := 64 * 1024

  type Client = nat

  // ------------------------------------------------------------------------ the buffer

  function Min(a: nat, b: nat): nat { if a < b then a else b }

  function Tail(s: seq<byte>, n: nat): (r: seq<byte>)
    ensures |r| == Min(n, |s|)
  {
    if |s| <= n then s else s[|s| - n..]
  }

  predicate IsSuffix(t: seq<byte>, s: seq<byte>) { |t| <= |s| && s[|s| - |t|..] == t }

  function Buffered(buffer: seq<byte>, data: seq<byte>): seq<byte> {
    if |buffer + data| > 2 * HISTORY then Tail(buffer + data, HISTORY) else buffer + data
  }

  // A buffer fit to restore a screen after `output`.
  predicate GoodBuffer(buffer: seq<byte>, output: seq<byte>) {
    IsSuffix(buffer, output) && Min(HISTORY, |output|) <= |buffer| <= 2 * HISTORY
  }

  lemma SuffixOfSuffix(a: seq<byte>, b: seq<byte>, c: seq<byte>)
    requires IsSuffix(a, b) && IsSuffix(b, c)
    ensures IsSuffix(a, c)
  {
    assert c[|c| - |a|..] == c[|c| - |b|..][|b| - |a|..];
  }

  lemma TailIsSuffix(s: seq<byte>, n: nat)
    ensures IsSuffix(Tail(s, n), s) && IsSuffix(s, s)
  {
  }

  lemma SuffixGrows(a: seq<byte>, s: seq<byte>, data: seq<byte>)
    requires IsSuffix(a, s)
    ensures IsSuffix(a + data, s + data)
  {
    var k := |s| - |a|;
    assert (s + data)[k..] == s[k..] + data;
    assert |s + data| - |a + data| == k;
  }

  lemma BufferStaysGood(buffer: seq<byte>, output: seq<byte>, data: seq<byte>)
    requires GoodBuffer(buffer, output)
    ensures GoodBuffer(Buffered(buffer, data), output + data)
  {
    hide IsSuffix, Tail;
    SuffixGrows(buffer, output, data);
    TailIsSuffix(buffer + data, HISTORY);
    SuffixOfSuffix(Buffered(buffer, data), buffer + data, output + data);
  }

  // What is sent as history is the last of the output, as much as there is up to the limit.
  lemma HistoryIsTheTail(buffer: seq<byte>, output: seq<byte>)
    requires GoodBuffer(buffer, output)
    ensures Tail(buffer, HISTORY) == Tail(output, HISTORY)
  {
    TailIsSuffix(buffer, HISTORY);
    TailIsSuffix(output, HISTORY);
    SuffixOfSuffix(Tail(buffer, HISTORY), buffer, output);
  }

  // ------------------------------------------------------------------- the coroutines

  // A message to a client; `at` is where in the output it starts.
  datatype Piece = Piece(at: nat, data: seq<byte>)

  // Where the history of a connection stands. `total` is the output buffered at the snapshot;
  // `live` is up to where the client had received the broadcasts when its history came, and
  // `place` how many messages it had received by then.
  datatype Stage =
    | Attached
    | Sending(total: nat, history: seq<byte>)
    | Restored(total: nat, live: nat, place: nat)
    | HistoryFailed

  // `attached`: in the set that output is broadcast to. `since`: how much had been delivered
  // when the connection was added to it.
  datatype Connection = Connection(attached: bool, stage: Stage, since: nat, inbox: seq<Piece>)

  datatype State = State(
    output: seq<byte>,
    buffer: seq<byte>,
    delivered: nat,                  // all output before this has been broadcast
    delivering: bool,                // the broadcast of what comes after holds the client lock
    todo: set<Client>,
    sending: Option<Client>,         // whose history is being sent, which holds the buffer lock
    clients: map<Client, Connection>)

  datatype Step =
    | Buffer(data: seq<byte>)
    | StartDelivery
    | SendTo(c: Client, ok: bool)
    | EndDelivery
    | Add(c: Client)
    | Snapshot(c: Client)
    | HistorySent(c: Client, ok: bool)
    | GiveUp(c: Client)              // cancelled while it waits for the buffer lock
    | Remove(c: Client)

  const INITIAL: State := State([], [], 0, false, {}, None, map[])

  // One task broadcasts: it buffers a chunk, delivers it, and only then reads the next.
  predicate Enabled(s: State, step: Step) {
    match step
    case Buffer(_) => s.sending.None? && !s.delivering && s.delivered == |s.output|
    case StartDelivery => !s.delivering && s.delivered < |s.output|
    case SendTo(c, _) => s.delivering && c in s.todo && c in s.clients && s.delivered <= |s.output|
    case EndDelivery => s.delivering && s.todo == {}
    case Add(c) => !s.delivering && c !in s.clients
    case Snapshot(c) => s.sending.None? && c in s.clients && s.clients[c].stage.Attached?
    case HistorySent(c, _) => s.sending == Some(c) && c in s.clients && s.clients[c].stage.Sending?
    case GiveUp(c) => c in s.clients && s.clients[c].stage.Attached?
    case Remove(c) =>
      !s.delivering && c in s.clients && (s.clients[c].stage.Restored? || s.clients[c].stage.HistoryFailed?)
  }

  // Positions broadcast to a client: from what had been delivered when it was added, up to
  // what has been, the chunk under way included once it has been sent to this client.
  function LiveEnd(s: State, c: Client): nat {
    if s.delivering && c !in s.todo then |s.output| else s.delivered
  }

  function With(s: State, c: Client, k: Connection): State { s.(clients := s.clients[c := k]) }

  function Next(s: State, step: Step): State
    requires Enabled(s, step)
  {
    match step
    case Buffer(data) => s.(output := s.output + data, buffer := Buffered(s.buffer, data))
    case StartDelivery => s.(delivering := true, todo := set c | c in s.clients && s.clients[c].attached)
    case SendTo(c, ok) =>
      With(s.(todo := s.todo - {c}), c, AfterSend(s.clients[c], Piece(s.delivered, s.output[s.delivered..]), ok))
    case EndDelivery => s.(delivering := false, delivered := |s.output|)
    case Add(c) => With(s, c, Connection(true, Attached, s.delivered, []))
    case Snapshot(c) =>
      With(s.(sending := if |s.buffer| > 0 then Some(c) else None), c,
           AfterSnapshot(s.clients[c], s.buffer, |s.output|))
    case HistorySent(c, ok) => With(s.(sending := None), c, AfterHistory(s.clients[c], ok, LiveEnd(s, c)))
    case GiveUp(c) => With(s, c, s.clients[c].(stage := HistoryFailed))
    case Remove(c) => With(s, c, s.clients[c].(attached := false))
  }

  // A failed send drops the client.
  function AfterSend(k: Connection, p: Piece, ok: bool): Connection {
    if ok then k.(inbox := k.inbox + [p]) else k.(attached := false)
  }

  // With an empty buffer nothing is sent.
  function AfterSnapshot(k: Connection, buffer: seq<byte>, total: nat): Connection {
    if |buffer| > 0 then k.(stage := Sending(total, Tail(buffer, HISTORY)))
    else k.(stage := Restored(total, k.since, 0))
  }

  // A failed history is only logged: the client stays attached without it.
  function AfterHistory(k: Connection, ok: bool, live: nat): Connection
    requires k.stage.Sending?
  {
    var total, history := k.stage.total, k.stage.history;
    if !ok || |history| > total then k.(stage := HistoryFailed)
    else k.(stage := Restored(total, live, |k.inbox|), inbox := k.inbox + [Piece(total - |history|, history)])
  }

  predicate Possible(steps: seq<Step>)
    decreases |steps|, 1
  {
    |steps| == 0
    || (Possible(steps[..|steps| - 1]) && Enabled(After(steps[..|steps| - 1]), steps[|steps| - 1]))
  }

  function After(steps: seq<Step>): State
    requires Possible(steps)
    decreases |steps|, 2
  {
    if |steps| == 0 then INITIAL else Next(After(steps[..|steps| - 1]), steps[|steps| - 1])
  }

  // ------------------------------------------------------------------ what a client has seen

  function One(b: bool): nat { if b then 1 else 0 }

  predicate Holds(p: Piece, i: nat) { p.at <= i < p.at + |p.data| }

  // How often the byte at position i of the output has been received.
  function Times(inbox: seq<Piece>, i: nat): nat {
    if |inbox| == 0 then 0 else Times(inbox[..|inbox| - 1], i) + One(Holds(inbox[|inbox| - 1], i))
  }

  lemma TimesSnoc(inbox: seq<Piece>, p: Piece, i: nat)
    ensures Times(inbox + [p], i) == Times(inbox, i) + One(Holds(p, i))
  {
    assert (inbox + [p])[..|inbox|] == inbox;
  }

  predicate IsOutput(output: seq<byte>, p: Piece) {
    p.at + |p.data| <= |output| && output[p.at..p.at + |p.data|] == p.data
  }

  // Positions that the history covers.
  predicate InHistory(total: nat, i: nat) { i < total <= i + HISTORY }

  predicate ConnectionOk(s: State, c: Client)
    requires c in s.clients
  {
    var k := s.clients[c];
    && k.since <= s.delivered
    && (forall p :: p in k.inbox ==> IsOutput(s.output, p))
    && (k.stage.Sending? ==>
          && k.since <= k.stage.total && |k.stage.history| == Min(HISTORY, k.stage.total)
          && IsOutput(s.output, Piece(k.stage.total - |k.stage.history|, k.stage.history)))
    && (k.stage.Restored? ==> k.since <= k.stage.total <= |s.output|)
  }

  // Every position has been received once if it was broadcast since the client was added, and
  // once more if it is in the history.
  ghost predicate CountsRight(s: State, c: Client)
    requires c in s.clients
  {
    var k := s.clients[c];
    forall i: nat :: Times(k.inbox, i)
      == One(k.since <= i < LiveEnd(s, c)) + One(k.stage.Restored? && InHistory(k.stage.total, i))
  }

  ghost predicate Inv(s: State) {
    && GoodBuffer(s.buffer, s.output)
    && s.delivered <= |s.output|
    && (s.delivering ==> forall c :: c in s.todo ==> c in s.clients && s.clients[c].attached)
    && (forall c :: c in s.clients ==> ConnectionOk(s, c))
    && (forall c :: c in s.clients && s.clients[c].attached ==> CountsRight(s, c))
  }

  lemma {:induction false} BufferKeepsInv(s: State, data: seq<byte>)
    requires Inv(s) && Enabled(s, Buffer(data))
    ensures Inv(Next(s, Buffer(data)))
  {
    hide GoodBuffer, Buffered, Times;
    BufferStaysGood(s.buffer, s.output, data);
    var t := Next(s, Buffer(data));
    forall c | c in t.clients ensures ConnectionOk(t, c) {
      assert ConnectionOk(s, c);
      forall p | IsOutput(s.output, p) ensures IsOutput(t.output, p) {
        assert t.output[p.at..p.at + |p.data|] == s.output[p.at..p.at + |p.data|];
      }
    }
    forall c | c in t.clients && t.clients[c].attached ensures CountsRight(t, c) {
      assert CountsRight(s, c);
    }
  }

  // A step that changes no more than whether a delivery is under way, and one client.
  lemma {:induction false} OthersKeepInv(s: State, t: State, c: Client)
    requires Inv(s) && t.output == s.output && t.buffer == s.buffer
    requires t.clients.Keys == s.clients.Keys + {c}
    requires forall d :: d in s.clients && d != c ==> t.clients[d] == s.clients[d]
    requires s.delivered == t.delivered && s.delivering == t.delivering && (t.todo == s.todo || t.todo == s.todo - {c})
    requires ConnectionOk(t, c)
    requires t.clients[c].attached ==> CountsRight(t, c)
    requires t.delivering && c in t.todo ==> t.clients[c].attached
    ensures Inv(t)
  {
    hide GoodBuffer, Times, Holds, IsOutput, InHistory;
    forall d | d in t.clients ensures ConnectionOk(t, d) {
      assert d in s.clients ==> ConnectionOk(s, d);
    }
    forall d | d in t.clients && t.clients[d].attached ensures CountsRight(t, d) {
      if d != c {
        assert CountsRight(s, d);
      }
    }
  }

  lemma AddKeepsInv(s: State, c: Client)
    requires Inv(s) && Enabled(s, Add(c))
    ensures Inv(Next(s, Add(c)))
  {
    hide GoodBuffer, InHistory, Holds;
    OthersKeepInv(s, Next(s, Add(c)), c);
  }

  lemma {:induction false} SendKeepsInv(s: State, c: Client, ok: bool)
    requires Inv(s) && Enabled(s, SendTo(c, ok))
    ensures Inv(Next(s, SendTo(c, ok)))
  {
    hide GoodBuffer, InHistory, Times;
    var t, p := Next(s, SendTo(c, ok)), Piece(s.delivered, s.output[s.delivered..]);
    assert ConnectionOk(s, c) && CountsRight(s, c);
    forall i: nat ensures Times(s.clients[c].inbox + [p], i) == Times(s.clients[c].inbox, i) + One(Holds(p, i)) {
      TimesSnoc(s.clients[c].inbox, p, i);
    }
    assert IsOutput(t.output, p);
    OthersKeepInv(s, t, c);
  }

  lemma SuffixIsOutput(t: seq<byte>, output: seq<byte>)
    requires IsSuffix(t, output)
    ensures IsOutput(output, Piece(|output| - |t|, t))
  {
    var at := |output| - |t|;
    assert at + |t| == |output|;
    assert output[at..at + |t|] == output[at..];
  }

  lemma SnapshotIsOutput(buffer: seq<byte>, output: seq<byte>)
    requires GoodBuffer(buffer, output)
    ensures var history := Tail(buffer, HISTORY);
            && |history| == Min(HISTORY, |output|) && IsOutput(output, Piece(|output| - |history|, history))
    ensures |buffer| == 0 <==> |output| == 0
  {
    hide IsOutput, Tail;
    HistoryIsTheTail(buffer, output);
    TailIsSuffix(output, HISTORY);
    SuffixIsOutput(Tail(output, HISTORY), output);
  }

  lemma {:induction false} SnapshotOne(s: State, c: Client)
    requires Inv(s) && Enabled(s, Snapshot(c))
    ensures ConnectionOk(Next(s, Snapshot(c)), c)
  {
    hide Times, Holds, GoodBuffer, Tail, IsOutput, CountsRight, IsSuffix, Buffered;
    assert ConnectionOk(s, c);
    SnapshotIsOutput(s.buffer, s.output);
  }

  lemma SameCounts(s: State, t: State, c: Client)
    requires c in s.clients && c in t.clients && CountsRight(s, c) && !s.clients[c].stage.Restored?
    requires t.clients[c].inbox == s.clients[c].inbox && t.clients[c].since == s.clients[c].since
    requires LiveEnd(t, c) == LiveEnd(s, c)
    requires t.clients[c].stage.Restored? ==> t.clients[c].stage.total == 0
    ensures CountsRight(t, c)
  {
  }

  lemma SnapshotCounts(s: State, c: Client)
    requires GoodBuffer(s.buffer, s.output) && Enabled(s, Snapshot(c)) && CountsRight(s, c)
    ensures CountsRight(Next(s, Snapshot(c)), c)
  {
    hide GoodBuffer, Tail, IsOutput, CountsRight, Min, IsSuffix, Times, Holds, InHistory, Buffered;
    SnapshotIsOutput(s.buffer, s.output);
    SameCounts(s, Next(s, Snapshot(c)), c);
  }

  lemma {:induction false} SnapshotKeepsInv(s: State, c: Client)
    requires Inv(s) && Enabled(s, Snapshot(c))
    ensures Inv(Next(s, Snapshot(c)))
  {
    hide Times, Holds, GoodBuffer, Tail, IsOutput, ConnectionOk, CountsRight;
    SnapshotOne(s, c);
    if s.clients[c].attached {
      SnapshotCounts(s, c);
    }
    OthersKeepInv(s, Next(s, Snapshot(c)), c);
  }

  lemma {:induction false} HistorySentOne(s: State, c: Client, ok: bool)
    requires Inv(s) && Enabled(s, HistorySent(c, ok))
    ensures ConnectionOk(Next(s, HistorySent(c, ok)), c)
    ensures |s.clients[c].stage.history| == Min(HISTORY, s.clients[c].stage.total)
  {
    hide Times, Holds, GoodBuffer, CountsRight;
    assert ConnectionOk(s, c);
  }

  lemma {:induction false} HistorySentCounts(s: State, c: Client, ok: bool)
    requires Enabled(s, HistorySent(c, ok)) && CountsRight(s, c)
    requires |s.clients[c].stage.history| == Min(HISTORY, s.clients[c].stage.total)
    ensures CountsRight(Next(s, HistorySent(c, ok)), c)
  {
    hide Times;
    var k, t := s.clients[c], Next(s, HistorySent(c, ok));
    var p := Piece(k.stage.total - |k.stage.history|, k.stage.history);
    assert LiveEnd(t, c) == LiveEnd(s, c);
    forall i: nat
      ensures Times(t.clients[c].inbox, i)
           == One(k.since <= i < LiveEnd(t, c)) + One(t.clients[c].stage.Restored? && InHistory(k.stage.total, i))
    {
      assert Times(k.inbox, i) == One(k.since <= i < LiveEnd(s, c));
      TimesSnoc(k.inbox, p, i);
    }
  }

  lemma {:induction false} HistorySentKeepsInv(s: State, c: Client, ok: bool)
    requires Inv(s) && Enabled(s, HistorySent(c, ok))
    ensures Inv(Next(s, HistorySent(c, ok)))
  {
    hide Times, Holds, GoodBuffer, IsOutput, ConnectionOk, CountsRight;
    HistorySentOne(s, c, ok);
    if s.clients[c].attached {
      HistorySentCounts(s, c, ok);
    }
    OthersKeepInv(s, Next(s, HistorySent(c, ok)), c);
  }

  lemma {:induction false} GiveUpKeepsInv(s: State, c: Client)
    requires Inv(s) && Enabled(s, GiveUp(c))
    ensures Inv(Next(s, GiveUp(c)))
  {
    hide GoodBuffer, Times, IsOutput, InHistory, Min;
    assert ConnectionOk(s, c);
    if s.clients[c].attached {
      assert CountsRight(s, c);
      SameCounts(s, Next(s, GiveUp(c)), c);
    }
    OthersKeepInv(s, Next(s, GiveUp(c)), c);
  }

  lemma RemoveKeepsInv(s: State, c: Client)
    requires Inv(s) && Enabled(s, Remove(c))
    ensures Inv(Next(s, Remove(c)))
  {
    hide GoodBuffer, Times, Holds, InHistory;
    assert ConnectionOk(s, c);
    var t := Next(s, Remove(c));
    forall d | d in t.clients ensures ConnectionOk(t, d) {
      assert ConnectionOk(s, d);
    }
    forall d | d in t.clients && t.clients[d].attached ensures CountsRight(t, d) {
      assert CountsRight(s, d);
    }
  }

  // Starting a delivery: nobody has the chunk yet. Ending it: everybody attached has.
  lemma {:induction false} DeliveryKeepsInv(s: State, step: Step)
    requires Inv(s) && Enabled(s, step) && (step.StartDelivery? || step.EndDelivery?)
    ensures Inv(Next(s, step))
  {
    hide GoodBuffer, Times, Holds, InHistory;
    var t := Next(s, step);
    forall d | d in t.clients ensures ConnectionOk(t, d) {
      assert ConnectionOk(s, d);
    }
    forall d | d in t.clients && t.clients[d].attached ensures CountsRight(t, d) {
      assert CountsRight(s, d);
    }
  }

  lemma {:induction false} ReachableInv(steps: seq<Step>)
    requires Possible(steps)
    ensures Inv(After(steps))
  {
    hide Inv, Enabled, Next;
    if |steps| == 0 {
      InitialInv();
    } else {
      var s, step := After(steps[..|steps| - 1]), steps[|steps| - 1];
      ReachableInv(steps[..|steps| - 1]);
      match step {
        case Buffer(data) => BufferKeepsInv(s, data);
        case StartDelivery => DeliveryKeepsInv(s, step);
        case SendTo(c, ok) => SendKeepsInv(s, c, ok);
        case EndDelivery => DeliveryKeepsInv(s, step);
        case Add(c) => AddKeepsInv(s, c);
        case Snapshot(c) => SnapshotKeepsInv(s, c);
        case HistorySent(c, ok) => HistorySentKeepsInv(s, c, ok);
        case GiveUp(c) => GiveUpKeepsInv(s, c);
        case Remove(c) => RemoveKeepsInv(s, c);
      }
    }
  }

  lemma InitialInv()
    ensures Inv(INITIAL)
  {
  }

  // ---------------------------------------------------------------------- the guarantees

  // The buffer is always the end of all output, long enough and not too long.
  lemma {:induction false} BufferIsAlwaysGood(steps: seq<Step>)
    requires Possible(steps)
    ensures var buffer, output := After(steps).buffer, After(steps).output;
            && |buffer| <= |output| && output[|output| - |buffer|..] == buffer
            && |buffer| <= 131072 && (|buffer| >= 65536 || buffer == output)
  {
    hide After;
    ReachableInv(steps);
  }

  // Nothing is dropped until there is more than 128 KiB.
  lemma {:induction false} NothingDroppedBefore(steps: seq<Step>)
    requires Possible(steps) && |After(steps).output| <= 131072
    ensures After(steps).buffer == After(steps).output
  {
    hide Tail;
    if |steps| > 0 {
      var s, step := After(steps[..|steps| - 1]), steps[|steps| - 1];
      OutputGrows(s, step);
      NothingDroppedBefore(steps[..|steps| - 1]);
    }
  }

  lemma OutputGrows(s: State, step: Step)
    requires Enabled(s, step)
    ensures |Next(s, step).output| >= |s.output|
    ensures !step.Buffer? ==> Next(s, step).output == s.output && Next(s, step).buffer == s.buffer
  {
    hide Tail;
  }

  // Whoever holds the buffer lock is sending a history and can end it, so output goes on.
  lemma {:induction false} OutputGoesOn(steps: seq<Step>, data: seq<byte>, ok: bool)
    requires Possible(steps)
    ensures var s := After(steps);
            if s.sending.Some? then Enabled(s, HistorySent(s.sending.value, ok))
            else !s.delivering && s.delivered == |s.output| ==> Enabled(s, Buffer(data))
  {
    if |steps| > 0 {
      var s, step := After(steps[..|steps| - 1]), steps[|steps| - 1];
      OutputGoesOn(steps[..|steps| - 1], data, ok);
      HolderSends(s, step);
    }
  }

  lemma HolderSends(s: State, step: Step)
    requires Enabled(s, step)
    requires s.sending.Some? ==> s.sending.value in s.clients && s.clients[s.sending.value].stage.Sending?
    ensures var t := Next(s, step);
            t.sending.Some? ==> t.sending.value in t.clients && t.clients[t.sending.value].stage.Sending?
  {
    hide Tail, Buffered, LiveEnd;
  }

  // A client can leave once its history step is over, however that went.
  lemma ClientsCanLeave(s: State, c: Client, ok: bool)
    requires !s.delivering
    ensures Enabled(s, HistorySent(c, ok)) ==> Enabled(Next(s, HistorySent(c, ok)), Remove(c))
    ensures Enabled(s, GiveUp(c)) ==> Enabled(Next(s, GiveUp(c)), Remove(c))
    ensures Enabled(s, Snapshot(c)) && s.buffer == [] ==> Enabled(Next(s, Snapshot(c)), Remove(c))
  {
    hide Tail;
  }

  // A client that is still attached and has its history has received every byte from the
  // last 64 KiB before its history step up to the last one delivered, and nothing else, each
  // byte as the process wrote it.
  lemma {:induction false} GapFree(steps: seq<Step>, c: Client, i: nat)
    requires Possible(steps) && c in After(steps).clients
    requires After(steps).clients[c].attached && After(steps).clients[c].stage.Restored?
    ensures var s := After(steps);
            var k := s.clients[c];
            && (Times(k.inbox, i) > 0 <==> (i < k.stage.total <= i + 65536) || k.since <= i < LiveEnd(s, c))
            && (k.stage.total - 65536 <= i && (i < k.stage.total || i < s.delivered) ==> Times(k.inbox, i) > 0)
            && (forall p :: p in k.inbox ==> IsOutput(s.output, p))
  {
    hide After, Times, GoodBuffer, IsOutput;
    ReachableInv(steps);
    assert ConnectionOk(After(steps), c) && CountsRight(After(steps), c);
  }

  // But not once each: a byte comes twice exactly when it was broadcast to the client and
  // had already been buffered when its history was taken.
  lemma {:induction false} SeenTwice(steps: seq<Step>, c: Client, i: nat)
    requires Possible(steps) && c in After(steps).clients
    requires After(steps).clients[c].attached && After(steps).clients[c].stage.Restored?
    ensures var s := After(steps);
            var k := s.clients[c];
            && Times(k.inbox, i) <= 2
            && (Times(k.inbox, i) == 2 <==>
                  k.since <= i < LiveEnd(s, c) && i < k.stage.total <= i + HISTORY)
  {
    hide After, Times, GoodBuffer, IsOutput;
    ReachableInv(steps);
    assert ConnectionOk(After(steps), c) && CountsRight(After(steps), c);
  }

  // Without a history, because sending it failed, only what came after attaching is there.
  lemma {:induction false} WithoutHistory(steps: seq<Step>, c: Client, i: nat)
    requires Possible(steps) && c in After(steps).clients
    requires After(steps).clients[c].attached && !After(steps).clients[c].stage.Restored?
    ensures var s := After(steps);
            Times(s.clients[c].inbox, i) == One(s.clients[c].since <= i < LiveEnd(s, c))
  {
    hide After, Times, GoodBuffer, IsOutput;
    ReachableInv(steps);
    assert CountsRight(After(steps), c);
  }

  // --------------------------------------------------------------------- in which order

  function End(p: Piece): nat { p.at + |p.data| }

  // The output comes in order: every message begins where the earlier ones end, or later.
  predicate InOrder(inbox: seq<Piece>) {
    |inbox| > 0 ==>
      var front, last := inbox[..|inbox| - 1], inbox[|inbox| - 1];
      InOrder(front) && forall p :: p in front ==> End(p) <= last.at
  }

  // Messages with something in them that follow upon each other.
  predicate Chain(ps: seq<Piece>, from: nat, to: nat) {
    if |ps| == 0 then from == to
    else
      var last := ps[|ps| - 1];
      |last.data| > 0 && End(last) == to && Chain(ps[..|ps| - 1], from, last.at)
  }

  lemma ChainSnoc(ps: seq<Piece>, from: nat, to: nat, p: Piece)
    requires Chain(ps, from, to) && p.at == to && |p.data| > 0
    ensures Chain(ps + [p], from, to + |p.data|)
  {
    assert (ps + [p])[..|ps|] == ps;
  }

  lemma {:induction false} ChainIsOrdered(ps: seq<Piece>, from: nat, to: nat)
    requires Chain(ps, from, to)
    ensures InOrder(ps) && from <= to && (|ps| > 0 <==> from < to)
    ensures forall p :: p in ps ==> from <= p.at && End(p) <= to
    ensures |ps| > 0 ==> ps[0].at == from && End(ps[|ps| - 1]) == to
  {
    if |ps| > 0 {
      var front, last := ps[..|ps| - 1], ps[|ps| - 1];
      ChainIsOrdered(front, from, last.at);
      assert forall p :: p in ps ==> p in front || p == last;
    }
  }

  predicate AllBefore(a: seq<Piece>, b: seq<Piece>) { forall p, q :: p in a && q in b ==> End(p) <= q.at }

  lemma {:induction false} OrderConcat(a: seq<Piece>, b: seq<Piece>)
    ensures InOrder(a + b) <==> InOrder(a) && InOrder(b) && AllBefore(a, b)
    decreases |b|
  {
    hide End;
    if |b| == 0 {
      assert a + b == a;
    } else {
      var front, last := b[..|b| - 1], b[|b| - 1];
      assert (a + b)[..|a + b| - 1] == a + front;
      OrderConcat(a, front);
      assert forall p :: p in b <==> p in front || p == last;
      assert forall p :: p in a + front <==> p in a || p in front;
    }
  }

  lemma {:induction false} BeforeHistory(a: seq<Piece>, h: Piece, since: nat, live: nat)
    requires Chain(a, since, live)
    ensures InOrder(a + [h]) <==> since == live || live <= h.at
  {
    hide Chain;
    ChainIsOrdered(a, since, live);
    assert (a + [h])[..|a|] == a;
    if |a| > 0 {
      assert a[|a| - 1] in a;
    }
  }

  // A history between two stretches of broadcasts.
  lemma {:induction false} HistoryBetween(a: seq<Piece>, h: Piece, b: seq<Piece>, since: nat, live: nat, end: nat)
    requires Chain(a, since, live) && Chain(b, live, end)
    ensures InOrder(a + [h] + b) <==> (since == live || live <= h.at) && (live == end || End(h) <= live)
  {
    hide Chain, InOrder, End;
    ChainIsOrdered(a, since, live);
    ChainIsOrdered(b, live, end);
    BeforeHistory(a, h, since, live);
    OrderConcat(a + [h], b);
    assert h in a + [h] && forall p :: p in a + [h] <==> p in a || p == h;
    if |b| > 0 {
      assert b[0] in b;
    }
  }

  // How the inbox of a connection came about.
  predicate InboxOk(k: Connection, end: nat) {
    if k.stage.Restored? && k.stage.total > 0 then
      && k.stage.place < |k.inbox|
      && Chain(k.inbox[..k.stage.place], k.since, k.stage.live)
      && Chain(k.inbox[k.stage.place + 1..], k.stage.live, end)
      && |k.inbox[k.stage.place].data| == Min(HISTORY, k.stage.total)
      && End(k.inbox[k.stage.place]) == k.stage.total
      && k.stage.live <= k.stage.total
    else Chain(k.inbox, k.since, end)
  }

  // While a history is being sent nothing is buffered.
  predicate SendingOk(s: State, c: Client)
    requires c in s.clients
  {
    var stage := s.clients[c].stage;
    stage.Sending? ==> s.sending == Some(c) && 0 < stage.total == |s.output|
  }

  ghost predicate InboxesOk(s: State) {
    && (s.delivering ==> s.delivered < |s.output|)
    && (forall c :: c in s.clients ==> SendingOk(s, c))
    && (forall c :: c in s.clients && s.clients[c].attached ==> InboxOk(s.clients[c], LiveEnd(s, c)))
  }

  lemma {:induction false} InboxGrows(k: Connection, end: nat, p: Piece)
    requires InboxOk(k, end) && p.at == end && |p.data| > 0
    ensures InboxOk(k.(inbox := k.inbox + [p]), end + |p.data|)
  {
    hide Chain, Min;
    if k.stage.Restored? && k.stage.total > 0 {
      var n := k.stage.place;
      ChainSnoc(k.inbox[n + 1..], k.stage.live, end, p);
      assert (k.inbox + [p])[..n] == k.inbox[..n];
      assert (k.inbox + [p])[n + 1..] == k.inbox[n + 1..] + [p];
    } else {
      ChainSnoc(k.inbox, k.since, end, p);
    }
  }

  lemma HistoryArrives(k: Connection, end: nat, ok: bool)
    requires k.stage.Sending? && InboxOk(k, end) && end <= k.stage.total && 0 < k.stage.total
    requires |k.stage.history| == Min(HISTORY, k.stage.total)
    ensures InboxOk(AfterHistory(k, ok, end), end)
  {
    hide Chain;
    NoChain(end);
    var p := Piece(k.stage.total - |k.stage.history|, k.stage.history);
    assert (k.inbox + [p])[..|k.inbox|] == k.inbox && (k.inbox + [p])[|k.inbox| + 1..] == [];
  }

  lemma NoChain(end: nat)
    ensures Chain([], end, end)
  {
  }

  lemma {:induction false} StepKeepsSending(s: State, step: Step)
    requires Inv(s) && InboxesOk(s) && Enabled(s, step)
    ensures var t := Next(s, step);
            && (t.delivering ==> t.delivered < |t.output|)
            && (forall c :: c in t.clients ==> SendingOk(t, c))
  {
    hide Chain, InboxOk, GoodBuffer, Times, Buffered, CountsRight, IsOutput, Min, Tail;
    var t := Next(s, step);
    if step.Snapshot? {
      SnapshotIsOutput(s.buffer, s.output);
    }
    forall d | d in t.clients
      ensures SendingOk(t, d)
    {
      assert d in s.clients ==> SendingOk(s, d);
    }
  }

  // A client that the step is not about.
  lemma {:induction false} OtherStep(s: State, step: Step, d: Client)
    requires Enabled(s, step) && d in s.clients && About(step) != Some(d)
    ensures d in Next(s, step).clients && Next(s, step).clients[d] == s.clients[d]
    ensures s.clients[d].attached ==> LiveEnd(Next(s, step), d) == LiveEnd(s, d)
  {
    hide Buffered, Tail;
  }

  function About(step: Step): Option<Client> {
    match step
    case SendTo(c, _) => Some(c)
    case Add(c) => Some(c)
    case Snapshot(c) => Some(c)
    case HistorySent(c, _) => Some(c)
    case GiveUp(c) => Some(c)
    case Remove(c) => Some(c)
    case _ => None
  }

  lemma {:induction false} StepKeepsInboxes(s: State, step: Step)
    requires Inv(s) && InboxesOk(s) && Enabled(s, step)
    ensures InboxesOk(Next(s, step))
  {
    hide Inv, InboxOk, Next, Enabled, LiveEnd;
    var t := Next(s, step);
    StepKeepsSending(s, step);
    forall d | d in t.clients && t.clients[d].attached
      ensures InboxOk(t.clients[d], LiveEnd(t, d))
    {
      if d !in s.clients {
        NewInbox(s, step, d);
      } else if About(step) != Some(d) {
        OtherStep(s, step, d);
      } else {
        StaysAttached(s, step, d);
        ClientStep(s, step, d);
      }
    }
  }

  lemma StaysAttached(s: State, step: Step, c: Client)
    requires Enabled(s, step) && c in s.clients
    ensures c in Next(s, step).clients && (Next(s, step).clients[c].attached ==> s.clients[c].attached)
  {
  }

  lemma NewInbox(s: State, step: Step, c: Client)
    requires Enabled(s, step) && c !in s.clients && c in Next(s, step).clients
    ensures InboxOk(Next(s, step).clients[c], LiveEnd(Next(s, step), c))
  {
  }

  // The client that a step is about.
  lemma {:induction false} ClientStep(s: State, step: Step, c: Client)
    requires Inv(s) && InboxesOk(s) && Enabled(s, step) && c in s.clients && s.clients[c].attached
    ensures c in Next(s, step).clients
    ensures Next(s, step).clients[c].attached ==> InboxOk(Next(s, step).clients[c], LiveEnd(Next(s, step), c))
  {
    hide Chain, GoodBuffer, Times, Buffered, CountsRight, IsOutput, Min, Tail, IsSuffix;
    assert ConnectionOk(s, c) && SendingOk(s, c) && InboxOk(s.clients[c], LiveEnd(s, c));
    match step {
      case SendTo(d, ok) =>
        if d == c {
          InboxGrows(s.clients[c], s.delivered, Piece(s.delivered, s.output[s.delivered..]));
        }
      case HistorySent(d, ok) =>
        if d == c {
          HistoryArrives(s.clients[c], LiveEnd(s, c), ok);
        }
      case Snapshot(d) =>
        SnapshotIsOutput(s.buffer, s.output);
      case _ =>
    }
  }

  lemma InitialInboxes()
    ensures InboxesOk(INITIAL)
  {
  }

  lemma {:induction false} ReachableInboxes(steps: seq<Step>)
    requires Possible(steps)
    ensures InboxesOk(After(steps))
  {
    hide Inv, InboxesOk, Enabled, Next;
    if |steps| == 0 {
      InitialInboxes();
    } else {
      ReachableInv(steps[..|steps| - 1]);
      ReachableInboxes(steps[..|steps| - 1]);
      StepKeepsInboxes(After(steps[..|steps| - 1]), steps[|steps| - 1]);
    }
  }

  // When an attached client gets the output in order: there was no history, or all it had
  // received by the time its history came is no part of the history, and nothing has been
  // broadcast to it since unless everything buffered had been broadcast by then.
  lemma {:induction false} InOrderExactly(steps: seq<Step>, c: Client)
    requires Possible(steps) && c in After(steps).clients && After(steps).clients[c].attached
    ensures var s := After(steps);
            var k := s.clients[c];
            && (k.stage.Restored? && k.stage.total > 0 ==>
                  && k.stage.live <= k.stage.total
                  && (InOrder(k.inbox) <==>
                        && (k.since == k.stage.live || k.stage.live + Min(HISTORY, k.stage.total) <= k.stage.total)
                        && (LiveEnd(s, c) == k.stage.live || k.stage.live == k.stage.total)))
            && (!k.stage.Restored? || k.stage.total == 0 ==> InOrder(k.inbox))
  {
    hide After, Chain, InOrder;
    ReachableInboxes(steps);
    var s := After(steps);
    var k := s.clients[c];
    assert InboxOk(k, LiveEnd(s, c));
    if k.stage.Restored? && k.stage.total > 0 {
      var n := k.stage.place;
      assert k.inbox == k.inbox[..n] + [k.inbox[n]] + k.inbox[n + 1..];
      HistoryBetween(k.inbox[..n], k.inbox[n], k.inbox[n + 1..], k.since, k.stage.live, LiveEnd(s, c));
    } else {
      ChainIsOrdered(k.inbox, k.since, LiveEnd(s, c));
    }
  }

  lemma NoSteps()
    ensures Possible([]) && After([]) == INITIAL
  {
  }

  lemma OneMore(steps: seq<Step>, step: Step)
    requires Possible(steps) && Enabled(After(steps), step)
    ensures Possible(steps + [step]) && After(steps + [step]) == Next(After(steps), step)
  {
    hide Enabled, Next;
    assert (steps + [step])[..|steps|] == steps;
  }

  // Both happen: a client that is attached when a byte is broadcast, and has its history taken
  // after that, gets the byte twice, the second time in what should have come before it.
  lemma {:induction false} TwiceAndOutOfOrder(b: byte) returns (steps: seq<Step>)
    ensures Possible(steps) && 0 in After(steps).clients && After(steps).clients[0].attached
    ensures Times(After(steps).clients[0].inbox, 0) == 2 && !InOrder(After(steps).clients[0].inbox)
  {
    hide Possible, After, Times, InOrder;
    steps := [];
    NoSteps();
    OneMore(steps, Add(0));
    steps := steps + [Add(0)];
    OneMore(steps, Buffer([b]));
    steps := steps + [Buffer([b])];
    OneMore(steps, StartDelivery);
    steps := steps + [StartDelivery];
    OneMore(steps, SendTo(0, true));
    steps := steps + [SendTo(0, true)];
    OneMore(steps, EndDelivery);
    steps := steps + [EndDelivery];
    OneMore(steps, Snapshot(0));
    steps := steps + [Snapshot(0)];
    OneMore(steps, HistorySent(0, true));
    steps := steps + [HistorySent(0, true)];
    SeenTwice(steps, 0, 0);
    InOrderExactly(steps, 0);
  }

  // ------------------------------------------------------------------------ the server

  // A client's socket. `accepts` is how many sends still succeed.
  class WebSocket {
    var inbox: seq<seq<byte>>
    var accepts: nat

    constructor (accepts: nat)
      ensures inbox == [] && this.accepts == accepts
    {
      inbox, this.accepts := [], accepts;
    }

    method Send(data: seq<byte>) returns (ok: bool)
      modifies this
      ensures ok == (old(accepts) > 0)
      ensures inbox == Received(old(inbox), old(accepts), data)
      ensures accepts == if ok then old(accepts) - 1 else 0
    {
      ok := accepts > 0;
      if ok {
        inbox := inbox + [data];
        accepts := accepts - 1;
      }
    }
  }

  function Received(inbox: seq<seq<byte>>, accepts: nat, data: seq<byte>): seq<seq<byte>> {
    if accepts > 0 then inbox + [data] else inbox
  }

  class TerminalServer {
    var outputBuffer: seq<byte>
    var activeWebsockets: set<WebSocket>

    constructor ()
      ensures outputBuffer == [] && activeWebsockets == {} && GoodBuffer(outputBuffer, [])
    {
      outputBuffer, activeWebsockets := [], {};
    }

    method AddWebSocket(ws: WebSocket)
      modifies `activeWebsockets
      ensures activeWebsockets == old(activeWebsockets) + {ws}
    {
      activeWebsockets := activeWebsockets + {ws};
    }

    method RemoveWebSocket(ws: WebSocket)
      modifies `activeWebsockets
      ensures activeWebsockets == old(activeWebsockets) - {ws}
    {
      activeWebsockets := activeWebsockets - {ws};
    }

    // `output` is all that has been buffered so far.
    method SendHistoryToWebSocket(ws: WebSocket, ghost output: seq<byte>)
      requires GoodBuffer(outputBuffer, output)
      modifies ws
      ensures ws.inbox == if |output| == 0 then old(ws.inbox)
                          else Received(old(ws.inbox), old(ws.accepts), Tail(output, HISTORY))
    {
      hide Tail, IsOutput;
      HistoryIsTheTail(outputBuffer, output);
      SnapshotIsOutput(outputBuffer, output);
      if |outputBuffer| > 0 {
        var from := if |outputBuffer| <= HISTORY then 0 else |outputBuffer| - HISTORY;
        TailFrom(outputBuffer, from);
        var _ := ws.Send(outputBuffer[from..]);
      }
    }

    method BroadcastOutput(data: seq<byte>, ghost output: seq<byte>)
      requires GoodBuffer(outputBuffer, output)
      modifies this, activeWebsockets
      ensures GoodBuffer(outputBuffer, output + data)
      ensures outputBuffer == Buffered(old(outputBuffer), data)
      ensures activeWebsockets <= old(activeWebsockets)
      ensures forall ws :: ws in old(activeWebsockets) ==> (ws in activeWebsockets <==> old(ws.accepts) > 0)
      ensures forall ws :: ws in old(activeWebsockets) ==>
                ws.inbox == Received(old(ws.inbox), old(ws.accepts), data)
    {
      hide GoodBuffer, Buffered, Tail, Received;
      BufferStaysGood(outputBuffer, output, data);
      Extend(data);
      Deliver(data);
    }

    method Deliver(data: seq<byte>)
      modifies `activeWebsockets, activeWebsockets
      ensures activeWebsockets <= old(activeWebsockets)
      ensures forall ws :: ws in old(activeWebsockets) ==> (ws in activeWebsockets <==> old(ws.accepts) > 0)
      ensures forall ws :: ws in old(activeWebsockets) ==>
                ws.inbox == Received(old(ws.inbox), old(ws.accepts), data)
    {
      hide Received;
      var todo, dead: set<WebSocket> := activeWebsockets, {};
      while todo != {}
        invariant todo <= activeWebsockets == old(activeWebsockets)
        invariant forall ws :: ws in activeWebsockets ==> (ws in dead <==> ws !in todo && old(ws.accepts) == 0)
        invariant forall ws :: ws in todo ==> ws.inbox == old(ws.inbox) && ws.accepts == old(ws.accepts)
        invariant forall ws :: ws in activeWebsockets && ws !in todo ==>
                    ws.inbox == Received(old(ws.inbox), old(ws.accepts), data)
        decreases |todo|
      {
        var ws :| ws in todo;
        var ok := ws.Send(data);
        if !ok {
          dead := dead + {ws};
        }
        todo := todo - {ws};
      }
      activeWebsockets := activeWebsockets - dead;
    }

    method Extend(data: seq<byte>)
      modifies `outputBuffer
      ensures outputBuffer == Buffered(old(outputBuffer), data)
    {
      outputBuffer := outputBuffer + data;
      if |outputBuffer| > HISTORY * 2 {
        outputBuffer := outputBuffer[|outputBuffer| - HISTORY..];
      }
    }
  }

  lemma TailFrom(s: seq<byte>, from: nat)
    requires from == if |s| <= HISTORY then 0 else |s| - HISTORY
    ensures s[from..] == Tail(s, HISTORY)
  {
  }
}
