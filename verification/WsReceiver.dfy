// What receiving one WebSocket message means: the frame decoder of RFC 6455 section 5.2
// followed by the message automaton of sections 5.4 and 5.5, as the bridge implements them.
module WsReceiver {
  import opened Bytes
  import opened Rfc6455
  import opened Wrappers

  const MAX_CONTROL_PAYLOAD: nat := 125

  datatype Violation =
    | OversizedControl
    | UnmaskedFrame
    | ShortClose
    | FragmentedControl
    | InterruptedMessage
    | ReservedOpcode

  // NoMessage is the None that callers get alike for a close frame, for a closed
  // connection and for a continuation frame outside a message.
  datatype Outcome =
    | Message(text: bool, data: seq<byte>)
    | NoMessage
    | ProtocolError(violation: Violation)
    | TooLarge
    | SendFailed

  // ------------------------------------------------------- frames the server writes

  function ReasonText(v: Violation): (r: string) {
    match v
    case OversizedControl => "Control frame payload exceeds 125 bytes"
    case UnmaskedFrame => "Client frame must be masked"
    case ShortClose => "Close frame payload must be empty or at least 2 bytes"
    case FragmentedControl => "Control frame must not be fragmented"
    case InterruptedMessage => "Message interrupted by new data frame"
    case ReservedOpcode => "Reserved opcode not allowed"
  }

  // The UTF-8 form of an ASCII text; other characters do not occur in close reasons.
  function Utf8OfAscii(s: string): (r: seq<byte>)
    ensures |r| == |s|
  {
    seq(|s|, i requires 0 <= i < |s| => if s[i] < 128 as char then s[i] as int else 63)
  }

  function ServerFrame(opcode: nat, payload: seq<byte>): Frame {
    Frame(true, 0, opcode, None, payload)
  }

  function CloseFrame(code: nat, reason: string): Frame {
    ServerFrame(OP_CLOSE, ToBigEndian(code, 2) + Utf8OfAscii(reason))
  }

  type ControlPayload = s: seq<byte> | |s| <= MAX_CONTROL_PAYLOAD

  // What a receiver may write to its peer, and the frame it writes for that.
  datatype Reply = Pong(payload: ControlPayload) | ViolationClose(violation: Violation) | SizeClose

  function ReplyFrame(reply: Reply): Frame {
    match reply
    case Pong(payload) => ServerFrame(OP_PONG, payload)
    case ViolationClose(v) => CloseFrame(1002, ReasonText(v))
    case SizeClose => CloseFrame(1009, "Message too large")
  }

  // The shortest of the three length forms, which section 5.2 demands of a sender.
  function ShortestForm(length: nat): LengthForm {
    if length < 126 then Short else if length < 65536 then Medium else Long
  }

  function ServerBytes(f: Frame): seq<byte>
    requires WellFormed(f) && |f.payload| < Pow(256, 8)
  {
    PowersOf256();
    Encode(f, ShortestForm(|f.payload|))
  }

  // -------------------------------------------------------------- one client frame

  datatype Intake =
    | Truncated
    | Refused(outcome: Outcome, close: Reply, rest: seq<byte>)
    | Got(frame: Frame, rest: seq<byte>)

  predicate SmallControl(f: Frame) { IsControl(f.opcode) ==> |f.payload| <= MAX_CONTROL_PAYLOAD }

  // The next frame of the stream s. Size limits come before the masking rule, and all
  // three are judged on the head alone: key and payload of a refused frame stay unread.
  function NextFrame(s: seq<byte>, cap: nat): (r: Intake)
    ensures r.Got? ==> |r.rest| < |s| && SmallControl(r.frame)
    ensures r.Refused? ==> !r.close.Pong? && (r.outcome.ProtocolError? || r.outcome.TooLarge?)
  {
    match DecodeHead(s)
    case None => Truncated
    case Some(h) =>
      if IsControl(h.opcode) && h.length > MAX_CONTROL_PAYLOAD then
        Refused(ProtocolError(OversizedControl), ViolationClose(OversizedControl), s[h.size..])
      else if h.length > cap then
        Refused(TooLarge, SizeClose, s[h.size..])
      else if !h.masked then
        Refused(ProtocolError(UnmaskedFrame), ViolationClose(UnmaskedFrame), s[h.size..])
      else
        match Decode(s)
        case None => Truncated
        case Some((f, rest)) => Got(f, rest)
  }

  // --------------------------------------------------------- the message automaton

  datatype Assembly = Idle | Collecting(text: bool, data: seq<byte>)

  datatype Reaction =
    | Continue(next: Assembly)
    | Answer(pong: Reply)
    | Finish(outcome: Outcome)
    | Fail(failure: Outcome, close: Reply)

  function Violates(v: Violation): Reaction { Fail(ProtocolError(v), ViolationClose(v)) }

  function ReactToControl(a: Assembly, f: Frame): Reaction
    requires IsControl(f.opcode) && SmallControl(f)
  {
    if f.opcode == OP_CLOSE && |f.payload| == 1 then Violates(ShortClose)
    else if !f.fin then Violates(FragmentedControl)
    else if f.opcode == OP_CLOSE then Finish(NoMessage)
    else if f.opcode == OP_PING then Answer(Pong(f.payload))
    else Continue(a)
  }

  function Deliver(fin: bool, text: bool, data: seq<byte>): Reaction {
    if fin then Finish(Message(text, data)) else Continue(Collecting(text, data))
  }

  function React(a: Assembly, f: Frame, cap: nat): Reaction
    requires SmallControl(f)
  {
    if IsControl(f.opcode) then ReactToControl(a, f)
    else if f.opcode == OP_TEXT || f.opcode == OP_BINARY then
      if a.Collecting? then Violates(InterruptedMessage)
      else Deliver(f.fin, f.opcode == OP_TEXT, f.payload)
    else if f.opcode == OP_CONT then
      if a.Idle? then Finish(NoMessage)
      else if |a.data| + |f.payload| > cap then Fail(TooLarge, SizeClose)
      else Deliver(f.fin, a.text, a.data + f.payload)
    else Violates(ReservedOpcode)
  }

  // ------------------------------------------------------------ one whole message

  // `rest` is the unread part of the stream and `sent` what was written to the peer.
  datatype Received = Received(outcome: Outcome, rest: seq<byte>, sent: seq<Reply>)

  // One pass of the receiving loop: what was written, whether the call ends with an
  // outcome, and where the message and the stream stand now.
  datatype Turn = Turn(told: seq<Reply>, stop: Option<Outcome>, next: Assembly, rest: seq<byte>)

  // A close frame is sent if the socket still takes it; the outcome does not depend on that.
  function IfAccepted(reply: Reply, accepts: nat): seq<Reply> { if accepts > 0 then [reply] else [] }

  function TurnOf(r: Reaction, a: Assembly, rest: seq<byte>, accepts: nat): (t: Turn)
    ensures |t.told| <= accepts && t.rest == rest
  {
    match r
    case Continue(next) => Turn([], None, next, rest)
    case Answer(pong) => Turn(IfAccepted(pong, accepts), if accepts == 0 then Some(SendFailed) else None, a, rest)
    case Finish(o) => Turn([], Some(o), a, rest)
    case Fail(o, close) => Turn(IfAccepted(close, accepts), Some(o), a, rest)
  }

  function TakeTurn(s: seq<byte>, cap: nat, a: Assembly, accepts: nat): (t: Turn)
    ensures |t.told| <= accepts
    ensures t.stop.None? ==> |t.rest| < |s|
  {
    match NextFrame(s, cap)
    case Truncated => Turn([], Some(NoMessage), a, [])
    case Refused(o, close, rest) => Turn(IfAccepted(close, accepts), Some(o), a, rest)
    case Got(f, rest) => TurnOf(React(a, f, cap), a, rest, accepts)
  }

  function After(told: seq<Reply>, r: Received): Received { r.(sent := told + r.sent) }

  // Receiving from the stream s; the socket takes `accepts` more frames before writing fails.
  function Receive(s: seq<byte>, cap: nat, a: Assembly, accepts: nat): (r: Received)
    decreases |s|
  {
    var t := TakeTurn(s, cap, a, accepts);
    match t.stop
    case Some(o) => Received(o, t.rest, t.told)
    case None => After(t.told, Receive(t.rest, cap, t.next, accepts - |t.told|))
  }

  lemma AfterAfter(first: seq<Reply>, second: seq<Reply>, r: Received)
    ensures After(first, After(second, r)) == After(first + second, r)
  {
  }

  // The defining equation of Receive, for a pass that ends the call and one that goes on.
  lemma ReceiveStops(s: seq<byte>, cap: nat, a: Assembly, accepts: nat)
    requires TakeTurn(s, cap, a, accepts).stop.Some?
    ensures var t := TakeTurn(s, cap, a, accepts);
            Receive(s, cap, a, accepts) == Received(t.stop.value, t.rest, t.told)
  {
    hide TakeTurn;
  }

  lemma ReceiveGoesOn(s: seq<byte>, cap: nat, a: Assembly, accepts: nat)
    requires TakeTurn(s, cap, a, accepts).stop.None?
    ensures var t := TakeTurn(s, cap, a, accepts);
            Receive(s, cap, a, accepts) == After(t.told, Receive(t.rest, cap, t.next, accepts - |t.told|))
  {
    hide TakeTurn, After;
  }

  // -------------------------------------------------------------- general properties

  // s is some bytes followed by rest: nothing skipped, reread or reordered.
  predicate IsSuffix(rest: seq<byte>, s: seq<byte>) {
    |rest| <= |s| && rest == s[|s| - |rest|..]
  }

  lemma SuffixTransitive(a: seq<byte>, b: seq<byte>, c: seq<byte>)
    requires IsSuffix(a, b) && IsSuffix(b, c)
    ensures IsSuffix(a, c) && |a| <= |b| <= |c|
  {
  }

  // Each pass that goes on has consumed a head and a masking key, six bytes at least; a
  // frame that is refused has cost its head only.
  lemma NextFrameProgress(s: seq<byte>, cap: nat)
    ensures var r := NextFrame(s, cap);
            && (r.Got? ==> |s| >= |r.rest| + 6 && |r.frame.payload| <= cap && r.frame.mask.Some?)
            && (r.Refused? ==> 2 <= |s| - |r.rest| <= 10)
            && (!r.Truncated? ==> IsSuffix(r.rest, s))
  {
    var h := DecodeHead(s);
    if h.Some? && DecodeBody(h.value, s[h.value.size..]).Some? {
      var keySize := if h.value.masked then 4 else 0;
      assert s[h.value.size..][keySize + h.value.length..] == s[h.value.size + keySize + h.value.length..];
    }
  }

  predicate WithinCap(a: Assembly, cap: nat) { a.Collecting? ==> |a.data| <= cap }

  lemma {:induction false} TurnProgress(s: seq<byte>, cap: nat, a: Assembly, accepts: nat)
    requires WithinCap(a, cap)
    ensures var t := TakeTurn(s, cap, a, accepts);
            && IsSuffix(t.rest, s)
            && (t.stop.None? ==> |s| >= |t.rest| + 6 && WithinCap(t.next, cap))
            && (t.stop.Some? && t.stop.value.Message? ==> |t.stop.value.data| <= cap)
  {
    hide NextFrame;
    NextFrameProgress(s, cap);
  }

  // For every stream: what is left over is a suffix, and no message exceeds the cap.
  lemma {:induction false} ReceiveIsSound(s: seq<byte>, cap: nat, a: Assembly, accepts: nat)
    requires WithinCap(a, cap)
    ensures var r := Receive(s, cap, a, accepts);
            IsSuffix(r.rest, s) && (r.outcome.Message? ==> |r.outcome.data| <= cap)
    decreases |s|
  {
    hide TakeTurn, IsSuffix;
    TurnProgress(s, cap, a, accepts);
    var t := TakeTurn(s, cap, a, accepts);
    if t.stop.None? {
      ReceiveIsSound(t.rest, cap, t.next, accepts - |t.told|);
      SuffixTransitive(Receive(s, cap, a, accepts).rest, t.rest, s);
    }
  }

  // The number of frames a call reads to the end and goes on after.
  function Passes(s: seq<byte>, cap: nat, a: Assembly, accepts: nat): nat
    decreases |s|
  {
    var t := TakeTurn(s, cap, a, accepts);
    if t.stop.Some? then 0 else 1 + Passes(t.rest, cap, t.next, accepts - |t.told|)
  }

  // Each pass that goes on costs six bytes.
  lemma {:induction false} PassesAreBounded(s: seq<byte>, cap: nat, a: Assembly, accepts: nat)
    requires WithinCap(a, cap)
    ensures 6 * Passes(s, cap, a, accepts) <= |s|
    decreases |s|
  {
    hide TakeTurn, IsSuffix;
    TurnProgress(s, cap, a, accepts);
    var t := TakeTurn(s, cap, a, accepts);
    if t.stop.None? {
      PassesAreBounded(t.rest, cap, t.next, accepts - |t.told|);
    }
  }

  // --------------------------------------------------------------- what is written

  // Section 5.5: a control frame is final and carries at most 125 bytes.
  predicate LegalServerControl(f: Frame) {
    f.fin && f.rsv == 0 && f.mask.None? && IsControl(f.opcode) && |f.payload| <= MAX_CONTROL_PAYLOAD
  }

  lemma ReplyIsLegal(reply: Reply)
    ensures LegalServerControl(ReplyFrame(reply))
  {
    if reply.ViolationClose? {
      assert |ReasonText(reply.violation)| <= 60;
    }
  }

  // Pongs only, except that a call which ends in an error may have a close frame last.
  predicate Orderly(sent: seq<Reply>, outcome: Outcome)
    decreases |sent|
  {
    if |sent| == 0 then true
    else if sent[0].Pong? then Orderly(sent[1..], outcome)
    else |sent| == 1 && (outcome.ProtocolError? || outcome.TooLarge?)
  }

  lemma {:induction false} OrderlyMeans(sent: seq<Reply>, outcome: Outcome)
    ensures Orderly(sent, outcome) <==>
            forall i :: 0 <= i < |sent| ==>
              sent[i].Pong? || (i == |sent| - 1 && (outcome.ProtocolError? || outcome.TooLarge?))
    decreases |sent|
  {
    if |sent| > 0 {
      OrderlyMeans(sent[1..], outcome);
      assert forall i :: 1 <= i < |sent| ==> sent[i] == sent[1..][i - 1];
      assert forall i :: 0 <= i < |sent| - 1 ==> sent[1..][i] == sent[i + 1];
    }
  }

  lemma TurnIsOrderly(s: seq<byte>, cap: nat, a: Assembly, accepts: nat)
    ensures var t := TakeTurn(s, cap, a, accepts);
            && (t.stop.Some? ==> Orderly(t.told, t.stop.value))
            && (t.stop.None? ==> t.told == [] || (|t.told| == 1 && t.told[0].Pong?))
            && (t.stop == Some(SendFailed) ==> accepts == 0 && t.told == [])
  {
    hide DecodeHead, Decode;
  }

  // The number of frames written fits what the socket takes, and their order is right;
  // by ReplyIsLegal each of them is a legal control frame.
  lemma {:induction false} RepliesAreOrderly(s: seq<byte>, cap: nat, a: Assembly, accepts: nat)
    ensures var r := Receive(s, cap, a, accepts);
            && |r.sent| <= accepts
            && Orderly(r.sent, r.outcome)
            && (r.outcome.SendFailed? ==> |r.sent| == accepts)
    decreases |s|
  {
    hide TakeTurn;
    TurnIsOrderly(s, cap, a, accepts);
    var t := TakeTurn(s, cap, a, accepts);
    if t.stop.None? {
      RepliesAreOrderly(t.rest, cap, t.next, accepts - |t.told|);
      var sent := Receive(t.rest, cap, t.next, accepts - |t.told|).sent;
      assert t.told + sent == if t.told == [] then sent else [t.told[0]] + sent;
    }
  }

  lemma TurnIgnoresWritability(s: seq<byte>, cap: nat, a: Assembly, few: nat, many: nat)
    requires few <= many
    ensures var t, u := TakeTurn(s, cap, a, few), TakeTurn(s, cap, a, many);
            && (t.stop == u.stop || t.stop == Some(SendFailed))
            && t.next == u.next && t.rest == u.rest
            && (t.stop == u.stop ==> few - |t.told| <= many - |u.told|)
  {
    hide NextFrame, React;
  }

  // A peer that takes fewer frames changes neither verdict nor position, unless a ping
  // could not be answered.
  lemma {:induction false} OutcomeIgnoresWritability(s: seq<byte>, cap: nat, a: Assembly, few: nat, many: nat)
    requires few <= many
    requires !Receive(s, cap, a, few).outcome.SendFailed?
    ensures Receive(s, cap, a, few).outcome == Receive(s, cap, a, many).outcome
    ensures Receive(s, cap, a, few).rest == Receive(s, cap, a, many).rest
    decreases |s|
  {
    hide TakeTurn;
    TurnIgnoresWritability(s, cap, a, few, many);
    var t, u := TakeTurn(s, cap, a, few), TakeTurn(s, cap, a, many);
    if t.stop.None? {
      OutcomeIgnoresWritability(t.rest, cap, t.next, few - |t.told|, many - |u.told|);
    }
  }
}
