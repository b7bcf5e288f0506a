// The same in the numbers of RFC 6455: the examples of section 5.7, the bytes of the frames
// that the bridge writes, and the frames that end a call.
module WsWire {
  import opened Bytes
  import opened Rfc6455
  import opened WsReceiver
  import opened WsSessions
  import opened WsFrame

  const HELLO: seq<byte> := [0x48, 0x65, 0x6c, 0x6c, 0x6f]

  // ------------------------------------------------------------ what clients send

  lemma MaskedBytes()
    ensures Xor(0x48, 0x37) == 0x7f && Xor(0x65, 0xfa) == 0x9f && Xor(0x6c, 0x21) == 0x4d
    ensures Xor(0x6c, 0x3d) == 0x51 && Xor(0x6f, 0x37) == 0x58
  {
  }

  lemma MaskedPieces()
    ensures Masked([0x48, 0x65, 0x6c], [0, 0, 0, 0]) == [0x48, 0x65, 0x6c]
    ensures Masked([0x6c, 0x6f], [0, 0, 0, 0]) == [0x6c, 0x6f]
    ensures Masked(HELLO, [0x37, 0xfa, 0x21, 0x3d]) == [0x7f, 0x9f, 0x4d, 0x51, 0x58]
  {
    hide Xor;
    MaskedBytes();
    forall b: byte ensures Xor(b, 0) == b {
      XorZero(b);
    }
  }

  // A short client frame, byte by byte.
  lemma ShortFrame(f: Frame)
    requires WellFormed(f) && f.mask.Some? && |f.payload| < 126
    ensures Encode(f, Short) == [(if f.fin then 128 else 0) + 16 * f.rsv + f.opcode, 128 + |f.payload|]
                                + (f.mask.value + Masked(f.payload, f.mask.value))
  {
    hide Masked;
  }

  // A single-frame masked text message.
  lemma MaskedHello(rest: seq<byte>, cap: nat, accepts: nat)
    requires cap >= 5
    ensures Receive([0x81, 0x85] + ([0x37, 0xfa, 0x21, 0x3d] + [0x7f, 0x9f, 0x4d, 0x51, 0x58]) + rest,
                    cap, Idle, accepts)
            == Received(Message(true, HELLO), rest, [])
  {
    hide Receive, Masked, Encode;
    MaskedPieces();
    var p := Packet(Piece(HELLO), 0, [0x37, 0xfa, 0x21, 0x3d], Short);
    var s := [0x81, 0x85] + ([0x37, 0xfa, 0x21, 0x3d] + [0x7f, 0x9f, 0x4d, 0x51, 0x58]);
    ShortFrame(FrameFor(p, true, false, true));
    EmptyScript(true, false, HELLO, FinalBytes(p, true, false), cap);
    TransmissionRoundTrip(s + rest, [], p, true, rest, cap, accepts);
  }

  // The same message in two fragments, binary this time, with a ping in between.
  lemma FragmentedHello(rest: seq<byte>, cap: nat, accepts: nat)
    requires cap >= 5 && accepts > 0
    ensures Receive([0x02, 0x83] + ([0, 0, 0, 0] + [0x48, 0x65, 0x6c])
                    + ([0x89, 0x80] + ([0, 0, 0, 0] + [])
                       + ([0x80, 0x82] + ([0, 0, 0, 0] + [0x6c, 0x6f])))
                    + rest, cap, Idle, accepts)
            == Received(Message(false, HELLO), rest, [Pong([])])
  {
    hide Receive, Masked, Encode, Sent, MessageOf, PongsDue, Started, LegalPackets;
    var key := [0, 0, 0, 0];
    var first := Packet(Piece([0x48, 0x65, 0x6c]), 0, key, Short);
    var ping := Packet(PingOf([]), 0, key, Short);
    var last := Packet(Piece([0x6c, 0x6f]), 0, key, Short);
    FragmentBytes(first, ping, last);
    TwoPackets(first, ping, false, FinalBytes(last, false, true), cap);
    assert [0x48, 0x65, 0x6c] + [] + [0x6c, 0x6f] == HELLO;
    var s := Transmission([first, ping], last, false);
    TransmissionRoundTrip(s + rest, [first, ping], last, false, rest, cap, accepts);
  }

  lemma FragmentBytes(first: Packet, ping: Packet, last: Packet)
    requires first == Packet(Piece([0x48, 0x65, 0x6c]), 0, [0, 0, 0, 0], Short)
    requires ping == Packet(PingOf([]), 0, [0, 0, 0, 0], Short)
    requires last == Packet(Piece([0x6c, 0x6f]), 0, [0, 0, 0, 0], Short)
    ensures Encode(FrameFor(first, false, false, false), Short) == [0x02, 0x83] + ([0, 0, 0, 0] + [0x48, 0x65, 0x6c])
    ensures Encode(FrameFor(ping, false, true, false), Short) == [0x89, 0x80] + ([0, 0, 0, 0] + [])
    ensures Encode(FrameFor(last, false, true, true), Short) == [0x80, 0x82] + ([0, 0, 0, 0] + [0x6c, 0x6f])
  {
    hide Masked, Encode;
    MaskedPieces();
    ShortFrame(FrameFor(first, false, false, false));
    ShortFrame(FrameFor(ping, false, true, false));
    ShortFrame(FrameFor(last, false, true, true));
    assert Masked([], [0, 0, 0, 0]) == [];
  }

  // A script of a piece and a ping.
  lemma TwoPackets(p: Packet, q: Packet, text: bool, more: seq<byte>, cap: nat)
    requires LegalPacket(p) && LegalPacket(q) && p.content.Piece? && q.content.PingOf? && |q.content.data| <= cap
    ensures LegalPackets([p, q]) && ControlsFit([p, q], cap) && Started([p, q], false)
    ensures Sent([p, q], text, false) + more
            == Encode(FrameFor(p, text, false, false), p.form) + (Encode(FrameFor(q, text, true, false), q.form) + more)
    ensures MessageOf([p, q]) == p.content.data + [] && PongsDue([p, q]) == [Pong(q.content.data)]
  {
    hide Encode, FormFits, Sent, MessageOf, PongsDue, Started, LegalPackets;
    EmptyScript(text, true, [], more, cap);
    assert [q] + [] == [q] && [p] + [q] == [p, q];
    Prepend(q, [], text, true, cap, more);
    Prepend(p, [q], text, false, cap, more);
    assert [] + MessageOf([]) == MessageOf([]) + [];
    var pong := [Pong(q.content.data)];
    assert [] + pong == pong && pong + [] == pong;
  }

  // ------------------------------------------------------------ what the bridge sends

  // An unmasked text message, and the two extended length forms.
  lemma ServerExamples()
    ensures ServerBytes(ServerFrame(OP_TEXT, HELLO)) == [0x81, 0x05] + HELLO
    ensures Utf8OfAscii(['H', 'e', 'l', 'l', 'o']) == HELLO
    ensures EncodeHead(true, 0, OP_BINARY, false, Medium, 256) == [0x82, 0x7e, 0x01, 0x00]
    ensures EncodeHead(true, 0, OP_BINARY, false, Long, 65536) == [0x82, 0x7f, 0, 0, 0, 0, 0, 1, 0, 0]
    ensures EncodeHead(false, 5, OP_PING, true, Short, 3) == [0x59, 0x83]
  {
    PowersOf256();
  }

  // A pong echoes the payload; a close frame carries the status code of section 7.4.1, 1002
  // for a protocol error and 1009 for a message too big, and the reason.
  lemma RepliesOnTheWire(payload: ControlPayload, v: Violation)
    ensures ReplyBytes(Pong(payload)) == [0x8a, |payload|] + payload
    ensures |ReasonText(v)| <= 123
    ensures ReplyBytes(ViolationClose(v)) == [0x88, 2 + |ReasonText(v)|, 0x03, 0xea] + Utf8OfAscii(ReasonText(v))
    ensures ReplyBytes(SizeClose) == [0x88, 19, 0x03, 0xf1] + Utf8OfAscii("Message too large")
  {
    hide ReasonText, Utf8OfAscii;
    PowersOf256();
    ReplyIsLegal(ViolationClose(v));
    ReplyIsLegal(SizeClose);
    assert |"Message too large"| == 17;
  }

  // With their reasons, character by character as a client reads them.
  lemma ReasonsOnTheWire()
    ensures ReplyBytes(ViolationClose(OversizedControl))
            == [0x88, 41, 0x03, 0xea] + Utf8OfAscii("Control frame payload exceeds 125 bytes")
    ensures ReplyBytes(ViolationClose(UnmaskedFrame))
            == [0x88, 29, 0x03, 0xea] + Utf8OfAscii("Client frame must be masked")
    ensures ReplyBytes(ViolationClose(ShortClose))
            == [0x88, 55, 0x03, 0xea] + Utf8OfAscii("Close frame payload must be empty or at least 2 bytes")
    ensures ReplyBytes(ViolationClose(FragmentedControl))
            == [0x88, 38, 0x03, 0xea] + Utf8OfAscii("Control frame must not be fragmented")
    ensures ReplyBytes(ViolationClose(InterruptedMessage))
            == [0x88, 39, 0x03, 0xea] + Utf8OfAscii("Message interrupted by new data frame")
    ensures ReplyBytes(ViolationClose(ReservedOpcode))
            == [0x88, 29, 0x03, 0xea] + Utf8OfAscii("Reserved opcode not allowed")
  {
    hide Utf8OfAscii, ReplyBytes;
    forall v: Violation
      ensures ReplyBytes(ViolationClose(v)) == [0x88, 2 + |ReasonText(v)|, 0x03, 0xea] + Utf8OfAscii(ReasonText(v))
    {
      RepliesOnTheWire([], v);
    }
  }

  // ------------------------------------------------------------ frames that end a call

  lemma OneFrame(f: Frame, form: LengthForm, rest: seq<byte>, cap: nat, a: Assembly, accepts: nat)
    requires WellFormed(f) && FormFits(form, |f.payload|) && f.mask.Some? && |f.payload| <= cap && SmallControl(f)
    ensures TakeTurn(Encode(f, form) + rest, cap, a, accepts) == TurnOf(React(a, f, cap), a, rest, accepts)
  {
    hide NextFrame, Encode, FormFits, React, TurnOf;
    VerdictOnFrame(f, form, rest, cap);
  }

  // Frames refused on their head alone, whatever has been gathered: control frames of more than
  // 125 bytes first, then frames over the cap, then frames without a mask.
  lemma {:induction false} RefusedFrames(f: Frame, form: LengthForm, rest: seq<byte>, cap: nat, a: Assembly,
                                         accepts: nat)
    requires WellFormed(f) && FormFits(form, |f.payload|)
    ensures var r, unread := Receive(Encode(f, form) + rest, cap, a, accepts), EncodeBody(f) + rest;
            if f.opcode in {8, 9, 10} && |f.payload| >= 126 then
              r == Received(ProtocolError(OversizedControl), unread,
                            IfAccepted(ViolationClose(OversizedControl), accepts))
            else if |f.payload| > cap then r == Received(TooLarge, unread, IfAccepted(SizeClose, accepts))
            else if f.mask.None? then
              r == Received(ProtocolError(UnmaskedFrame), unread, IfAccepted(ViolationClose(UnmaskedFrame), accepts))
            else true
  {
    hide NextFrame, Encode, EncodeBody, FormFits, Receive, React;
    VerdictOnFrame(f, form, rest, cap);
    if TakeTurn(Encode(f, form) + rest, cap, a, accepts).stop.Some? {
      ReceiveStops(Encode(f, form) + rest, cap, a, accepts);
    }
  }

  // Whatever has been gathered: a close frame ends the call without a word, unless it holds
  // half a status code; control frames must not be fragmented; other opcodes are errors; and a
  // continuation outside a message ends the call without a word.
  lemma {:induction false} EndingFrames(f: Frame, form: LengthForm, rest: seq<byte>, cap: nat, a: Assembly,
                                        accepts: nat)
    requires WellFormed(f) && FormFits(form, |f.payload|) && f.mask.Some? && |f.payload| <= cap
    requires f.opcode in {8, 9, 10} ==> |f.payload| <= 125
    ensures var r := Receive(Encode(f, form) + rest, cap, a, accepts);
            && (f.opcode == 8 && |f.payload| == 1 ==>
                  r == Received(ProtocolError(ShortClose), rest, IfAccepted(ViolationClose(ShortClose), accepts)))
            && (f.opcode in {8, 9, 10} && !f.fin && !(f.opcode == 8 && |f.payload| == 1) ==>
                  r == Received(ProtocolError(FragmentedControl), rest,
                                IfAccepted(ViolationClose(FragmentedControl), accepts)))
            && (f.opcode == 8 && f.fin && |f.payload| != 1 ==> r == Received(NoMessage, rest, []))
            && (f.opcode !in {0, 1, 2, 8, 9, 10} ==>
                  r == Received(ProtocolError(ReservedOpcode), rest,
                                IfAccepted(ViolationClose(ReservedOpcode), accepts)))
            && (f.opcode == 0 && a.Idle? ==> r == Received(NoMessage, rest, []))
  {
    hide TakeTurn, Encode, FormFits, Receive;
    OneFrame(f, form, rest, cap, a, accepts);
    if TakeTurn(Encode(f, form) + rest, cap, a, accepts).stop.Some? {
      ReceiveStops(Encode(f, form) + rest, cap, a, accepts);
    }
  }
}
