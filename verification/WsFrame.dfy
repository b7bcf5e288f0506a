// The frame bridge itself: reading a message from a socket byte by byte, and writing frames.
module WsFrame {
  import opened Bytes
  import opened Rfc6455
  import opened WsReceiver
  import opened Wrappers

  const DEFAULT_MAX_MESSAGE_SIZE: nat := 8 * 1024 * 1024

  // A connected socket: the bytes still to arrive before the peer closes, the bytes
  // written so far, and how many more sendall calls succeed before writing fails.
  class Socket {
    var input: seq<byte>
    var output: seq<byte>
    var accepts: nat

    constructor (input: seq<byte>, accepts: nat)
      ensures this.input == input && output == [] && this.accepts == accepts
    {
      this.input := input;
      output := [];
      this.accepts := accepts;
    }

    // Returns some of the pending bytes, at least one unless the stream has ended.
    method Recv(n: nat) returns (chunk: seq<byte>)
      requires n > 0
      modifies this`input
      ensures chunk + input == old(input)
      ensures |chunk| <= n
      ensures chunk == [] <==> old(input) == []
    {
      if input == [] {
        return [];
      }
      var k: nat :| 1 <= k <= n && k <= |input|;
      chunk := input[..k];
      input := input[k..];
    }

    method SendAll(data: seq<byte>) returns (ok: bool)
      modifies this`output, this`accepts
      ensures ok == (old(accepts) > 0)
      ensures output == old(output) + (if ok then data else [])
      ensures accepts == old(accepts) - (if ok then 1 else 0)
    {
      ok := accepts > 0;
      if ok {
        output := output + data;
        accepts := accepts - 1;
      }
    }
  }

  // ------------------------------------------------------------ the message size cap

  // int() on the stripped environment value: a number, or None for a ValueError.
  type IntParser = string -> Option<int>

  function ParseMaxMessageSize(raw: string, parseInt: IntParser): (cap: nat)
    ensures cap > 0
  {
    if raw == "" then DEFAULT_MAX_MESSAGE_SIZE
    else
      match parseInt(raw)
      case None => DEFAULT_MAX_MESSAGE_SIZE
      case Some(value) => if value > 0 then value else DEFAULT_MAX_MESSAGE_SIZE
  }

  class MaxMessageSize {
    const parseInt: IntParser
    var cache: Option<(string, nat)>

    // The cache can only hold what a fresh parse of its key gives.
    ghost predicate Valid()
      reads this
    {
      cache.Some? ==> cache.value.1 == ParseMaxMessageSize(cache.value.0, parseInt)
    }

    constructor (parseInt: IntParser)
      ensures Valid() && this.parseInt == parseInt && cache == None
    {
      this.parseInt := parseInt;
      cache := None;
    }

    // The environment may have changed in any way since the last call: the answer is
    // that of parsing the current value, never a stale one.
    method Get(raw: string) returns (cap: nat)
      requires Valid()
      modifies this`cache
      ensures Valid()
      ensures cap == ParseMaxMessageSize(raw, parseInt)
      ensures cap ==
              if raw != "" && parseInt(raw).Some? && parseInt(raw).value > 0 then parseInt(raw).value else 8388608
      ensures cache == Some((raw, cap))
      ensures old(cache).Some? && old(cache).value.0 == raw ==> cache == old(cache)
    {
      if cache.Some? && cache.value.0 == raw {
        return cache.value.1;
      }
      cap := ParseMaxMessageSize(raw, parseInt);
      cache := Some((raw, cap));
    }
  }

  // ------------------------------------------------------------------------- reading

  function Take(s: seq<byte>, n: nat): seq<byte> { if n <= |s| then s[..n] else s }

  function Drop(s: seq<byte>, n: nat): seq<byte> { if n <= |s| then s[n..] else [] }

  // However the socket cuts the stream, exactly n bytes are taken, or all there is.
  method RecvExactly(sock: Socket, n: nat) returns (data: seq<byte>)
    modifies sock`input
    ensures data == Take(old(sock.input), n)
    ensures sock.input == Drop(old(sock.input), n)
  {
    data := [];
    if n == 0 {
      return;
    }
    while |data| < n
      invariant |data| <= n
      invariant data + sock.input == old(sock.input)
    {
      var chunk := sock.Recv(n - |data|);
      if chunk == [] {
        return;
      }
      data := data + chunk;
    }
  }

  // Unmasks the payload where it lies.
  method Unmask(payload: array<byte>, key: seq<byte>)
    requires |key| == 4
    modifies payload
    ensures payload[..] == Masked(old(payload[..]), key)
  {
    for i := 0 to payload.Length
      invariant forall j :: 0 <= j < i ==> payload[j] == Xor(old(payload[j]), key[j % 4])
      invariant forall j :: i <= j < payload.Length ==> payload[j] == old(payload[j])
    {
      payload[i] := Xor(payload[i], key[i % 4]);
    }
  }

  // ------------------------------------------------------------------------- writing

  function ReplyBytes(reply: Reply): seq<byte> {
    ReplyIsLegal(reply);
    PowersOf256();
    ServerBytes(ReplyFrame(reply))
  }

  // The bytes of the replies, one frame after the other.
  function Wire(replies: seq<Reply>): seq<byte> {
    if |replies| == 0 then [] else Wire(replies[..|replies| - 1]) + ReplyBytes(replies[|replies| - 1])
  }

  // Writes one unmasked frame; struct.pack cannot express a length of 2^64 or more.
  method SendFrame(sock: Socket, payload: seq<byte>, opcode: nat, fin: bool) returns (ok: bool)
    requires opcode < 16
    requires |payload| < Pow(256, 8)
    modifies sock`output, sock`accepts
    ensures ok == (old(sock.accepts) > 0)
    ensures sock.accepts == old(sock.accepts) - (if ok then 1 else 0)
    ensures sock.output == old(sock.output) +
              (if ok then ServerBytes(Frame(fin, 0, opcode, None, payload)) else [])
  {
    PowersOf256();
    var first := (if fin then 128 else 0) + opcode;
    var length := |payload|;
    var header;
    if length < 126 {
      header := [first, length];
    } else if length < 65536 {
      header := [first, 126] + ToBigEndian(length, 2);
    } else {
      header := [first, 127] + ToBigEndian(length, 8);
    }
    ok := sock.SendAll(header + payload);
  }

  lemma ReplyBytesOf(reply: Reply, f: Frame)
    requires f == ReplyFrame(reply)
    ensures f.opcode < 16 && |f.payload| < Pow(256, 8)
    ensures f == Frame(f.fin, 0, f.opcode, None, f.payload)
    ensures ReplyBytes(reply) == ServerBytes(f)
  {
    hide ServerBytes, ReplyFrame;
    ReplyIsLegal(reply);
    PowersOf256();
  }

  lemma WireGrows(output: seq<byte>, earlier: seq<Reply>, reply: Reply)
    ensures output + Wire(earlier) + ReplyBytes(reply) == output + Wire(earlier + [reply])
  {
    hide ReplyBytes;
    assert (earlier + [reply])[..|earlier|] == earlier;
    assert Wire(earlier + [reply]) == Wire(earlier) + ReplyBytes(reply);
  }

  // Since the socket had written `output` and would take `accepts` frames, exactly the
  // replies `sent` have gone out.
  ghost predicate Wrote(sock: Socket, output: seq<byte>, accepts: nat, sent: seq<Reply>)
    reads sock
  {
    sock.accepts == accepts - |sent| && sock.output == output + Wire(sent)
  }

  // Sends a pong or a close frame after the `earlier` ones of the same call.
  method SendReply(sock: Socket, reply: Reply, ghost output: seq<byte>, ghost accepts: nat, ghost earlier: seq<Reply>)
    returns (ok: bool)
    requires Wrote(sock, output, accepts, earlier)
    modifies sock`output, sock`accepts
    ensures ok == (old(sock.accepts) > 0)
    ensures Wrote(sock, output, accepts, earlier + IfAccepted(reply, old(sock.accepts)))
  {
    hide Wire, ReplyFrame, ReplyBytes, ServerBytes;
    var f := ReplyFrame(reply);
    ReplyBytesOf(reply, f);
    ok := SendFrame(sock, f.payload, f.opcode, f.fin);
    if ok {
      WireGrows(output, earlier, reply);
    } else {
      assert earlier + [] == earlier;
    }
  }

  // Whether the peer could still be told is of no interest: the error to come is the same.
  method SafeSendClose(sock: Socket, close: Reply, ghost output: seq<byte>, ghost accepts: nat,
                       ghost earlier: seq<Reply>)
    requires !close.Pong? && Wrote(sock, output, accepts, earlier)
    modifies sock`output, sock`accepts
    ensures Wrote(sock, output, accepts, earlier + IfAccepted(close, old(sock.accepts)))
  {
    var _ := SendReply(sock, close, output, accepts, earlier);
  }

  // --------------------------------------------------------------- receiving a message

  // The two fixed bytes and the extended length.
  method ReadHead(sock: Socket) returns (h: Option<Head>)
    modifies sock`input
    ensures h == DecodeHead(old(sock.input))
    ensures sock.input == if h.Some? then old(sock.input)[h.value.size..] else []
  {
    hide FromBigEndian;
    ghost var s := sock.input;
    var header := RecvExactly(sock, 2);
    if |header| < 2 {
      return None;
    }
    var first, second := header[0], header[1];
    var length := second % 128;
    var size := 2;
    if length == 126 {
      var ext := RecvExactly(sock, 2);
      if |ext| < 2 {
        return None;
      }
      assert ext == s[2..4];
      length, size := FromBigEndian(ext), 4;
    } else if length == 127 {
      var ext := RecvExactly(sock, 8);
      if |ext| < 8 {
        return None;
      }
      assert ext == s[2..10];
      length, size := FromBigEndian(ext), 10;
    }
    h := Some(Head(first >= 128, first / 16 % 8, first % 16, second >= 128, length, size));
  }

  // Masking key and payload of an accepted head, unmasked.
  method ReadBody(sock: Socket, h: Head) returns (payload: Option<seq<byte>>)
    requires h.masked
    modifies sock`input
    ensures var d := DecodeBody(h, old(sock.input));
            && payload.Some? == d.Some?
            && (d.Some? ==> payload.value == d.value.0.payload && sock.input == d.value.1)
            && (d.None? ==> sock.input == [])
            && (d.Some? ==> |payload.value| == h.length)
  {
    ghost var s := sock.input;
    var maskKey := RecvExactly(sock, 4);
    if |maskKey| < 4 {
      return None;
    }
    var data := RecvExactly(sock, h.length);
    if |data| < h.length {
      return None;
    }
    assert maskKey == s[..4] && data == s[4..4 + h.length];
    var buffer := new byte[|data|];
    forall i | 0 <= i < |data| {
      buffer[i] := data[i];
    }
    assert buffer[..] == data;
    Unmask(buffer, maskKey);
    payload := Some(buffer[..]);
  }

  // The first half of a pass: one frame is read, or refused on the strength of its head.
  datatype FrameRead = EndOfStream | Rejected(outcome: Outcome) | Complete(fin: bool, opcode: nat, payload: seq<byte>)

  method ReadFrame(sock: Socket, maxMessageSize: nat, ghost output: seq<byte>, ghost accepts: nat,
                   ghost earlier: seq<Reply>)
    returns (r: FrameRead)
    requires Wrote(sock, output, accepts, earlier)
    modifies sock`input, sock`output, sock`accepts
    ensures var n := NextFrame(old(sock.input), maxMessageSize);
            && (n.Truncated? ==> r == EndOfStream && sock.input == [])
            && (n.Refused? ==> r == Rejected(n.outcome) && sock.input == n.rest)
            && (n.Got? ==> r == Complete(n.frame.fin, n.frame.opcode, n.frame.payload) && sock.input == n.rest)
            && (n.Got? ==> |n.frame.payload| <= maxMessageSize)
            && Wrote(sock, output, accepts,
                     earlier + if n.Refused? then IfAccepted(n.close, old(sock.accepts)) else [])
  {
    hide DecodeHead, Wire;
    assert earlier + [] == earlier;
    var head := ReadHead(sock);
    if head.None? {
      return EndOfStream;
    }
    var h := head.value;
    if IsControl(h.opcode) {
      if h.length > MAX_CONTROL_PAYLOAD {
        SafeSendClose(sock, ViolationClose(OversizedControl), output, accepts, earlier);
        return Rejected(ProtocolError(OversizedControl));
      }
    }
    if h.length > maxMessageSize {
      SafeSendClose(sock, SizeClose, output, accepts, earlier);
      return Rejected(TooLarge);
    }
    if !h.masked {
      SafeSendClose(sock, ViolationClose(UnmaskedFrame), output, accepts, earlier);
      return Rejected(ProtocolError(UnmaskedFrame));
    }
    var payload := ReadBody(sock, h);
    if payload.None? {
      return EndOfStream;
    }
    r := Complete(h.fin, h.opcode, payload.value);
  }

  // Answers or judges a control frame; None when receiving goes on.
  method HandleControl(sock: Socket, fin: bool, opcode: nat, payload: seq<byte>,
                       ghost f: Frame, ghost a: Assembly, ghost maxMessageSize: nat,
                       ghost output: seq<byte>, ghost accepts: nat, ghost earlier: seq<Reply>)
    returns (stop: Option<Outcome>)
    requires Wrote(sock, output, accepts, earlier)
    requires f.fin == fin && f.opcode == opcode && f.payload == payload
    requires IsControl(opcode) && |payload| <= MAX_CONTROL_PAYLOAD
    modifies sock`output, sock`accepts
    ensures var t := TurnOf(React(a, f, maxMessageSize), a, sock.input, old(sock.accepts));
            stop == t.stop && t.next == a && Wrote(sock, output, accepts, earlier + t.told)
  {
    hide Wire, ReplyBytes;
    assert earlier + [] == earlier;
    if opcode == OP_CLOSE && 0 < |payload| < 2 {
      SafeSendClose(sock, ViolationClose(ShortClose), output, accepts, earlier);
      return Some(ProtocolError(ShortClose));
    }
    if !fin {
      SafeSendClose(sock, ViolationClose(FragmentedControl), output, accepts, earlier);
      return Some(ProtocolError(FragmentedControl));
    }
    if opcode == OP_CLOSE {
      return Some(NoMessage);
    }
    if opcode == OP_PING {
      var ok := SendReply(sock, Pong(payload), output, accepts, earlier);
      return if ok then None else Some(SendFailed);
    }
    stop := None;
  }

  // b"".join(fragments)
  function Join(fragments: seq<seq<byte>>): seq<byte> {
    if |fragments| == 0 then [] else Join(fragments[..|fragments| - 1]) + fragments[|fragments| - 1]
  }

  lemma JoinOne(fragments: seq<seq<byte>>, last: seq<byte>)
    ensures Join(fragments + [last]) == Join(fragments) + last
  {
    assert (fragments + [last])[..|fragments|] == fragments;
  }

  lemma JoinSingle(fragment: seq<byte>)
    ensures Join([fragment]) == fragment
  {
    assert [fragment][..0] == [];
  }

  // What the local variables message_opcode and fragments stand for.
  function AssemblyOf(messageOpcode: Option<nat>, fragments: seq<seq<byte>>): Assembly {
    match messageOpcode
    case None => Idle
    case Some(opcode) => Collecting(opcode == OP_TEXT, Join(fragments))
  }

  // total_length is the length of what has been collected, and that never exceeds the cap.
  predicate Counted(messageOpcode: Option<nat>, fragments: seq<seq<byte>>, totalLength: nat, maxMessageSize: nat) {
    messageOpcode.Some? ==> totalLength == |Join(fragments)| <= maxMessageSize
  }

  // A text, binary, continuation or reserved frame: the automaton of section 5.4 on the
  // local variables of the receiving loop.
  method HandleData(sock: Socket, maxMessageSize: nat, fin: bool, opcode: nat, payload: seq<byte>,
                    messageOpcode: Option<nat>, fragments: seq<seq<byte>>, totalLength: nat,
                    ghost f: Frame, ghost output: seq<byte>, ghost accepts: nat, ghost earlier: seq<Reply>)
    returns (stop: Option<Outcome>, newOpcode: Option<nat>, newFragments: seq<seq<byte>>, newLength: nat)
    requires f.fin == fin && f.opcode == opcode && f.payload == payload
    requires !IsControl(opcode) && |payload| <= maxMessageSize
    requires Counted(messageOpcode, fragments, totalLength, maxMessageSize)
    requires Wrote(sock, output, accepts, earlier)
    modifies sock`output, sock`accepts
    ensures var a := AssemblyOf(messageOpcode, fragments);
            var t := TurnOf(React(a, f, maxMessageSize), a, sock.input, old(sock.accepts));
            && stop == t.stop
            && (stop.None? ==> t.next == AssemblyOf(newOpcode, newFragments))
            && Wrote(sock, output, accepts, earlier + t.told)
    ensures Counted(newOpcode, newFragments, newLength, maxMessageSize)
  {
    hide Wire, Join;
    newOpcode, newFragments, newLength := messageOpcode, fragments, totalLength;
    assert earlier + [] == earlier;
    if opcode == OP_TEXT || opcode == OP_BINARY {
      if messageOpcode.Some? {
        SafeSendClose(sock, ViolationClose(InterruptedMessage), output, accepts, earlier);
        stop := Some(ProtocolError(InterruptedMessage));
        return;
      }
      newOpcode := Some(opcode);
      newFragments := [payload];
      newLength := |payload|;
      JoinSingle(payload);
    } else if opcode == OP_CONT {
      if messageOpcode.None? {
        stop := Some(NoMessage);
        return;
      }
      // Checked before the fragment is stored.
      var expectedTotal := totalLength + |payload|;
      if expectedTotal > maxMessageSize {
        SafeSendClose(sock, SizeClose, output, accepts, earlier);
        stop := Some(TooLarge);
        return;
      }
      JoinOne(fragments, payload);
      newFragments := fragments + [payload];
      newLength := expectedTotal;
    } else {
      SafeSendClose(sock, ViolationClose(ReservedOpcode), output, accepts, earlier);
      stop := Some(ProtocolError(ReservedOpcode));
      return;
    }
    stop := if fin then Some(Message(newOpcode == Some(OP_TEXT), Join(newFragments))) else None;
  }

  // One pass of the loop: read a frame, then react to it.
  method Pass(sock: Socket, maxMessageSize: nat,
              messageOpcode: Option<nat>, fragments: seq<seq<byte>>, totalLength: nat,
              ghost output: seq<byte>, ghost accepts: nat, ghost earlier: seq<Reply>)
    returns (stop: Option<Outcome>, newOpcode: Option<nat>, newFragments: seq<seq<byte>>, newLength: nat)
    requires Counted(messageOpcode, fragments, totalLength, maxMessageSize)
    requires Wrote(sock, output, accepts, earlier)
    modifies sock`input, sock`output, sock`accepts
    ensures var t := TakeTurn(old(sock.input), maxMessageSize, AssemblyOf(messageOpcode, fragments), old(sock.accepts));
            && stop == t.stop
            && sock.input == t.rest
            && (stop.None? ==> t.next == AssemblyOf(newOpcode, newFragments))
            && Wrote(sock, output, accepts, earlier + t.told)
            && sock.accepts == old(sock.accepts) - |t.told|
    ensures Counted(newOpcode, newFragments, newLength, maxMessageSize)
  {
    hide NextFrame, React, TurnOf, Wire, Join;
    ghost var a := AssemblyOf(messageOpcode, fragments);
    ghost var n := NextFrame(sock.input, maxMessageSize);
    newOpcode, newFragments, newLength := messageOpcode, fragments, totalLength;
    var frame := ReadFrame(sock, maxMessageSize, output, accepts, earlier);
    assert earlier + [] == earlier;
    match frame {
      case EndOfStream => stop := Some(NoMessage);
      case Rejected(o) => stop := Some(o);
      case Complete(fin, opcode, payload) =>
        if IsControl(opcode) {
          stop := HandleControl(sock, fin, opcode, payload, n.frame, a, maxMessageSize, output, accepts, earlier);
        } else {
          stop, newOpcode, newFragments, newLength :=
            HandleData(sock, maxMessageSize, fin, opcode, payload,
                       messageOpcode, fragments, totalLength, n.frame, output, accepts, earlier);
        }
    }
  }

  // A call whose result is `all` has sent `sent` and will do what Receive does from here.
  ghost predicate Underway(all: Received, sent: seq<Reply>, s: seq<byte>, cap: nat, a: Assembly, accepts: nat) {
    all == After(sent, Receive(s, cap, a, accepts))
  }

  ghost predicate Over(all: Received, outcome: Outcome, rest: seq<byte>, sent: seq<Reply>) {
    all == Received(outcome, rest, sent)
  }

  lemma Begin(sock: Socket, cap: nat)
    ensures Underway(Receive(sock.input, cap, Idle, sock.accepts), [], sock.input, cap,
                     AssemblyOf(None, []), sock.accepts)
    ensures Wrote(sock, sock.output, sock.accepts, [])
    ensures Counted(None, [], 0, cap)
  {
    hide Receive;
  }

  lemma Conclude(all: Received, outcome: Outcome, sent: seq<Reply>, sock: Socket, output: seq<byte>, accepts: nat)
    requires Over(all, outcome, sock.input, sent)
    requires Wrote(sock, output, accepts, sent)
    ensures all.outcome == outcome && all.rest == sock.input
    ensures sock.output == output + Wire(all.sent) && sock.accepts == accepts - |all.sent|
  {
  }

  // One pass further along.
  lemma Advance(all: Received, sent: seq<Reply>, s: seq<byte>, cap: nat, a: Assembly, accepts: nat)
    requires Underway(all, sent, s, cap, a, accepts)
    ensures var t := TakeTurn(s, cap, a, accepts);
            && (t.stop.Some? ==> Over(all, t.stop.value, t.rest, sent + t.told))
            && (t.stop.None? ==> Underway(all, sent + t.told, t.rest, cap, t.next, accepts - |t.told|))
  {
    hide TakeTurn;
    var t := TakeTurn(s, cap, a, accepts);
    if t.stop.None? {
      ReceiveGoesOn(s, cap, a, accepts);
      AfterAfter(sent, t.told, Receive(t.rest, cap, t.next, accepts - |t.told|));
    }
  }

  // The loop of recv_message, under the cap read at its start.
  method ReceiveUnderCap(sock: Socket, maxMessageSize: nat) returns (outcome: Outcome)
    modifies sock`input, sock`output, sock`accepts
    ensures var r := Receive(old(sock.input), maxMessageSize, Idle, old(sock.accepts));
            && outcome == r.outcome
            && sock.input == r.rest
            && sock.output == old(sock.output) + Wire(r.sent)
            && sock.accepts == old(sock.accepts) - |r.sent|
  {
    hide *;
    ghost var output, accepts := sock.output, sock.accepts;
    ghost var all := Receive(sock.input, maxMessageSize, Idle, sock.accepts);
    ghost var sent: seq<Reply> := [];
    Begin(sock, maxMessageSize);
    var fragments: seq<seq<byte>> := [];
    var messageOpcode: Option<nat> := None;
    var totalLength: nat := 0;
    var stop: Option<Outcome> := None;

    while stop.None?
      invariant Counted(messageOpcode, fragments, totalLength, maxMessageSize)
      invariant Wrote(sock, output, accepts, sent)
      invariant stop.None? ==>
        Underway(all, sent, sock.input, maxMessageSize, AssemblyOf(messageOpcode, fragments), sock.accepts)
      invariant stop.Some? ==> Over(all, stop.value, sock.input, sent)
      decreases stop.None?, |sock.input|
    {
      ghost var a := AssemblyOf(messageOpcode, fragments);
      ghost var t := TakeTurn(sock.input, maxMessageSize, a, sock.accepts);
      Advance(all, sent, sock.input, maxMessageSize, a, sock.accepts);
      stop, messageOpcode, fragments, totalLength :=
        Pass(sock, maxMessageSize, messageOpcode, fragments, totalLength, output, accepts, sent);
      sent := sent + t.told;
    }
    outcome := stop.value;
    Conclude(all, outcome, sent, sock, output, accepts);
  }

  // One call: for every stream, cut up in whatever way, and every point at which writing
  // may start to fail, the result, the unread rest and the bytes written are those of Receive.
  method RecvMessage(sock: Socket, limit: MaxMessageSize, rawLimit: string) returns (outcome: Outcome)
    requires limit.Valid()
    modifies sock`input, sock`output, sock`accepts, limit`cache
    ensures limit.Valid()
    ensures var r := Receive(old(sock.input), ParseMaxMessageSize(rawLimit, limit.parseInt), Idle, old(sock.accepts));
            && outcome == r.outcome
            && sock.input == r.rest
            && sock.output == old(sock.output) + Wire(r.sent)
            && sock.accepts == old(sock.accepts) - |r.sent|
  {
    hide Receive, Wire;
    var maxMessageSize := limit.Get(rawLimit);
    outcome := ReceiveUnderCap(sock, maxMessageSize);
  }
}
