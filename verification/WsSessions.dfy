// What a peer that follows RFC 6455 gets: fragmented messages are put together again,
// pings answered, and consecutive messages kept apart; and what the bridge writes is
// read back by any decoder of section 5.2.
module WsSessions {
  import opened Bytes
  import opened Rfc6455
  import opened WsReceiver
  import opened Wrappers

  // One client frame of a message under way: a piece of the message, or a control frame
  // sent between two pieces. Reserved bits, masking key and length form are the client's choice.
  datatype Content = Piece(data: seq<byte>) | PingOf(data: seq<byte>) | PongOf(data: seq<byte>)

  datatype Packet = Packet(content: Content, rsv: nat, key: seq<byte>, form: LengthForm)

  predicate LegalPacket(p: Packet) {
    && p.rsv < 8
    && |p.key| == 4
    && FormFits(p.form, |p.content.data|)
    && (!p.content.Piece? ==> |p.content.data| <= MAX_CONTROL_PAYLOAD)
  }

  predicate LegalPackets(script: seq<Packet>) {
    forall p :: p in script ==> LegalPacket(p)
  }

  // The message: its pieces, empty ones included, one after the other.
  function MessageOf(script: seq<Packet>): seq<byte> {
    if |script| == 0 then []
    else (if script[0].content.Piece? then script[0].content.data else []) + MessageOf(script[1..])
  }

  // The pongs that are due: one per ping, with the same payload, in order.
  function PongsDue(script: seq<Packet>): seq<Reply>
    requires LegalPackets(script)
  {
    if |script| == 0 then []
    else
      assert script[0] in script;
      (if script[0].content.PingOf? then [Pong(script[0].content.data)] else []) + PongsDue(script[1..])
  }

  // Section 5.4: the first piece carries the kind, the others are continuation frames, and
  // the last piece, which ends the script, has FIN set; section 5.5: control frames have FIN set.
  function FrameFor(p: Packet, text: bool, started: bool, last: bool): Frame {
    match p.content
    case Piece(data) =>
      Frame(last, p.rsv, if started then OP_CONT else if text then OP_TEXT else OP_BINARY, Some(p.key), data)
    case PingOf(data) => Frame(true, p.rsv, OP_PING, Some(p.key), data)
    case PongOf(data) => Frame(true, p.rsv, OP_PONG, Some(p.key), data)
  }

  // The bytes of packets that leave the message open.
  function Sent(script: seq<Packet>, text: bool, started: bool): seq<byte>
    requires LegalPackets(script)
  {
    if |script| == 0 then []
    else
      assert script[0] in script;
      Encode(FrameFor(script[0], text, started, false), script[0].form)
      + Sent(script[1..], text, started || script[0].content.Piece?)
  }

  predicate Started(script: seq<Packet>, started: bool) {
    started || exists p :: p in script && p.content.Piece?
  }

  // Every control frame must fit the cap too, which it does as soon as the cap is 125.
  predicate ControlsFit(script: seq<Packet>, cap: nat) {
    forall p :: p in script && !p.content.Piece? ==> |p.content.data| <= cap
  }

  // The order in which a frame is judged: oversized control frame, cap, mask. A frame that
  // fails one of these has lost its head only; its key and payload are still unread.
  lemma {:induction false} VerdictOnFrame(f: Frame, form: LengthForm, rest: seq<byte>, cap: nat)
    requires WellFormed(f) && FormFits(form, |f.payload|)
    ensures NextFrame(Encode(f, form) + rest, cap) ==
            if IsControl(f.opcode) && |f.payload| > MAX_CONTROL_PAYLOAD then
              Refused(ProtocolError(OversizedControl), ViolationClose(OversizedControl), EncodeBody(f) + rest)
            else if |f.payload| > cap then
              Refused(TooLarge, SizeClose, EncodeBody(f) + rest)
            else if f.mask.None? then
              Refused(ProtocolError(UnmaskedFrame), ViolationClose(UnmaskedFrame), EncodeBody(f) + rest)
            else
              Got(f, rest)
  {
    hide DecodeHead, Decode, EncodeBody, EncodeHead, FormFits;
    DecodeInvertsEncode(f, form, rest);
    HeadOfFrame(f, form, rest);
  }

  lemma {:induction false} HeadOfFrame(f: Frame, form: LengthForm, rest: seq<byte>)
    requires WellFormed(f) && FormFits(form, |f.payload|)
    ensures DecodeHead(Encode(f, form) + rest).Some?
    ensures var h := DecodeHead(Encode(f, form) + rest).value;
            && h.opcode == f.opcode && h.masked == f.mask.Some? && h.length == |f.payload|
            && (Encode(f, form) + rest)[h.size..] == EncodeBody(f) + rest
  {
    hide DecodeHead, EncodeBody, EncodeHead;
    var head := EncodeHead(f.fin, f.rsv, f.opcode, f.mask.Some?, form, |f.payload|);
    assert Encode(f, form) + rest == head + (EncodeBody(f) + rest);
    HeadRoundTrip(f.fin, f.rsv, f.opcode, f.mask.Some?, form, |f.payload|, EncodeBody(f) + rest);
  }

  function Gathering(text: bool, started: bool, data: seq<byte>): Assembly {
    if started then Collecting(text, data) else Idle
  }

  function Here(p: Packet): seq<byte> { if p.content.Piece? then p.content.data else [] }

  function Due(p: Packet): seq<Reply>
    requires LegalPacket(p)
  {
    if p.content.PingOf? then [Pong(p.content.data)] else []
  }

  // The reaction to one packet of a script, with `data` gathered so far.
  lemma PacketTurn(p: Packet, text: bool, started: bool, last: bool, data: seq<byte>, rest: seq<byte>, cap: nat,
                   accepts: nat)
    requires LegalPacket(p)
    requires last ==> p.content.Piece?
    requires !started ==> data == []
    requires |data| + |p.content.data| <= cap || (!p.content.Piece? && |p.content.data| <= cap)
    requires p.content.PingOf? ==> accepts > 0
    ensures var s := Encode(FrameFor(p, text, started, last), p.form) + rest;
            var t := TakeTurn(s, cap, Gathering(text, started, data), accepts);
            && t.rest == rest
            && t.told == Due(p)
            && t.stop == (if last then Some(Message(text, data + p.content.data)) else None)
            && (!last && p.content.Piece? ==> t.next == Gathering(text, true, data + p.content.data))
            && (!p.content.Piece? ==> t.next == Gathering(text, started, data))
  {
    hide NextFrame, Encode, FormFits;
    var f := FrameFor(p, text, started, last);
    VerdictOnFrame(f, p.form, rest, cap);
    assert [] + p.content.data == p.content.data;
  }

  // A script is its first packet and a shorter script.
  lemma Unfold(script: seq<Packet>, text: bool, started: bool, cap: nat, more: seq<byte>)
    requires |script| > 0 && LegalPackets(script) && ControlsFit(script, cap)
    ensures var p, tail := script[0], script[1..];
            && LegalPacket(p) && LegalPackets(tail) && ControlsFit(tail, cap)
            && (!p.content.Piece? ==> |p.content.data| <= cap)
            && Sent(script, text, started) + more
               == Encode(FrameFor(p, text, started, false), p.form)
                  + (Sent(tail, text, started || p.content.Piece?) + more)
            && MessageOf(script) == Here(p) + MessageOf(tail)
            && PongsDue(script) == Due(p) + PongsDue(tail)
            && Started(script, started) == Started(tail, started || p.content.Piece?)
  {
    hide Encode, FormFits;
    assert script[0] in script;
    assert forall q :: q in script <==> q == script[0] || q in script[1..];
  }

  // After any legal packets that leave the message open, receiving goes on exactly as the
  // automaton does with the bytes gathered so far; the pings have been answered in order.
  lemma {:induction false} OpenPrefix(script: seq<Packet>, text: bool, started: bool, data: seq<byte>,
                                      more: seq<byte>, cap: nat, accepts: nat)
    requires LegalPackets(script) && ControlsFit(script, cap)
    requires !started ==> data == []
    requires |data| + |MessageOf(script)| <= cap
    requires |PongsDue(script)| <= accepts
    ensures Receive(Sent(script, text, started) + more, cap, Gathering(text, started, data), accepts)
            == After(PongsDue(script),
                     Receive(more, cap, Gathering(text, Started(script, started), data + MessageOf(script)),
                             accepts - |PongsDue(script)|))
    decreases |script|
  {
    hide TakeTurn, Receive, After, Encode, FormFits, Sent, MessageOf, PongsDue, ControlsFit, LegalPacket;
    hide LegalPackets, Started;
    if |script| == 0 {
      Nothing(text, started, data, more);
    } else {
      Unfold(script, text, started, cap, more);
      var p, tail := script[0], script[1..];
      var rest := Sent(tail, text, started || p.content.Piece?) + more;
      PacketTurn(p, text, started, false, data, rest, cap, accepts);
      assert data + Here(p) + MessageOf(tail) == data + (Here(p) + MessageOf(tail));
      assert data + [] == data;
      OpenPrefix(tail, text, started || p.content.Piece?, data + Here(p), more, cap, accepts - |Due(p)|);
      var a := Gathering(text, started, data);
      var s := Sent(script, text, started) + more;
      ReceiveGoesOn(s, cap, a, accepts);
      AfterAfter(Due(p), PongsDue(tail),
                 Receive(more, cap, Gathering(text, Started(script, started), data + MessageOf(script)),
                         accepts - |PongsDue(script)|));
    }
  }

  lemma Nothing(text: bool, started: bool, data: seq<byte>, more: seq<byte>)
    ensures Sent([], text, started) + more == more
    ensures data + MessageOf([]) == data && PongsDue([]) == []
    ensures Started([], started) == started
    ensures forall r: Received {:trigger After([], r)} :: After([], r) == r
  {
  }

  // A stream that begins with one whole message, sent within the limits.
  ghost predicate Transmits(s: seq<byte>, script: seq<Packet>, final: Packet, text: bool, rest: seq<byte>,
                            cap: nat, accepts: nat)
  {
    && LegalPackets(script) && LegalPacket(final) && final.content.Piece?
    && ControlsFit(script, cap)
    && |MessageOf(script) + final.content.data| <= cap
    && |PongsDue(script)| <= accepts
    && s == Transmission(script, final, text) + rest
  }

  lemma {:induction false} TransmissionRoundTrip(s: seq<byte>, script: seq<Packet>, final: Packet, text: bool,
                                                 rest: seq<byte>, cap: nat, accepts: nat)
    requires Transmits(s, script, final, text, rest, cap, accepts)
    ensures Receive(s, cap, Idle, accepts)
            == Received(Message(text, MessageOf(script) + final.content.data), rest, PongsDue(script))
  {
    hide Sent, Encode, FormFits, TakeTurn, MessageOf, PongsDue, Started, LegalPacket;
    var started := Started(script, false);
    var more := FinalBytes(final, text, started) + rest;
    assert s == Sent(script, text, false) + more;
    OpenPrefix(script, text, false, [], more, cap, accepts);
    assert [] + MessageOf(script) == MessageOf(script);
    if !started { NoPieces(script); }
    PacketTurn(final, text, started, true, MessageOf(script), rest, cap, accepts - |PongsDue(script)|);
    assert PongsDue(script) + [] == PongsDue(script);
  }

  // Section 5.4 in full. Whatever the split into pieces, the keys, the length forms, the
  // reserved bits, and the pings and pongs in between: the message comes out whole, exactly
  // its bytes are consumed, and every ping is answered in order.
  lemma FragmentedRoundTrip(script: seq<Packet>, final: Packet, text: bool, rest: seq<byte>, cap: nat, accepts: nat)
    requires LegalPackets(script) && LegalPacket(final) && final.content.Piece?
    requires cap >= MAX_CONTROL_PAYLOAD
    requires |MessageOf(script) + final.content.data| <= cap
    requires |PongsDue(script)| <= accepts
    ensures Receive(Transmission(script, final, text) + rest, cap, Idle, accepts)
            == Received(Message(text, MessageOf(script) + final.content.data), rest, PongsDue(script))
  {
    hide Receive, Transmission, MessageOf, PongsDue, LegalPacket;
    FitFromLegal(script, cap);
    TransmissionRoundTrip(Transmission(script, final, text) + rest, script, final, text, rest, cap, accepts);
  }

  lemma FitFromLegal(script: seq<Packet>, cap: nat)
    requires LegalPackets(script) && cap >= MAX_CONTROL_PAYLOAD
    ensures ControlsFit(script, cap)
  {
    forall p | p in script && !p.content.Piece? ensures |p.content.data| <= cap {
      assert LegalPacket(p);
    }
  }

  lemma {:induction false} NoPieces(script: seq<Packet>)
    requires !Started(script, false)
    ensures MessageOf(script) == []
  {
    if |script| > 0 {
      assert script[0] in script;
      NoPieces(script[1..]);
    }
  }

  function FinalBytes(final: Packet, text: bool, started: bool): seq<byte>
    requires LegalPacket(final)
  {
    Encode(FrameFor(final, text, started, true), final.form)
  }

  // All the bytes of one message: the open packets, then the final piece.
  function Transmission(script: seq<Packet>, final: Packet, text: bool): seq<byte>
    requires LegalPackets(script) && LegalPacket(final)
  {
    Sent(script, text, false) + FinalBytes(final, text, Started(script, false))
  }

  // ------------------------------------------- only such streams yield a message

  // The packet that a client must have sent for the frame f to be taken in.
  function PacketOf(f: Frame, form: LengthForm): Packet
    requires f.mask.Some?
  {
    var content :=
      if f.opcode == OP_PING then PingOf(f.payload)
      else if f.opcode == OP_PONG then PongOf(f.payload)
      else Piece(f.payload);
    Packet(content, f.rsv, f.mask.value, form)
  }

  // A pass that goes on, or ends with a message, has read one legal packet.
  lemma {:induction false} TurnReadsPacket(s: seq<byte>, cap: nat, a: Assembly, accepts: nat) returns (p: Packet)
    requires var t := TakeTurn(s, cap, a, accepts); t.stop.None? || t.stop.value.Message?
    ensures LegalPacket(p) && |p.content.data| <= cap
    ensures var t := TakeTurn(s, cap, a, accepts);
            var last := t.stop.Some?;
            var text := if t.stop.Some? then t.stop.value.text else t.next.Collecting? && t.next.text;
            var data := if a.Collecting? then a.data else [];
            && (p.content.PingOf? ==> accepts > 0)
            && s == Encode(FrameFor(p, text, a.Collecting?, last), p.form) + t.rest
            && t.told == Due(p)
            && (last ==> p.content.Piece? && t.stop.value.data == data + p.content.data)
            && (!last && p.content.Piece? ==> t.next == Collecting(text, data + p.content.data))
            && (!last && !p.content.Piece? ==> t.next == a)
            && (p.content.Piece? ==> |data| + |p.content.data| <= cap)
            && (a.Collecting? ==> a.text == text)
  {
    hide DecodeHead, Decode, Encode, FormFits, FormOf;
    NextFrameProgress(s, cap);
    DecodeIsSound(s);
    var f := NextFrame(s, cap).frame;
    p := PacketOf(f, FormOf(s));
    assert [] + p.content.data == p.content.data;
  }

  lemma Prepend(p: Packet, tail: seq<Packet>, text: bool, started: bool, cap: nat, more: seq<byte>)
    requires LegalPacket(p) && LegalPackets(tail) && ControlsFit(tail, cap)
    requires !p.content.Piece? ==> |p.content.data| <= cap
    ensures var script := [p] + tail;
            && LegalPackets(script) && ControlsFit(script, cap)
            && Sent(script, text, started) + more
               == Encode(FrameFor(p, text, started, false), p.form)
                  + (Sent(tail, text, started || p.content.Piece?) + more)
            && MessageOf(script) == Here(p) + MessageOf(tail)
            && PongsDue(script) == Due(p) + PongsDue(tail)
            && Started(script, started) == Started(tail, started || p.content.Piece?)
  {
    hide Encode, FormFits;
    var script := [p] + tail;
    assert script[0] == p && script[1..] == tail;
    assert LegalPackets(script) && ControlsFit(script, cap);
    Unfold(script, text, started, cap, more);
  }

  lemma EmptyScript(text: bool, started: bool, data: seq<byte>, more: seq<byte>, cap: nat)
    ensures LegalPackets([]) && ControlsFit([], cap)
    ensures Sent([], text, started) + more == more
    ensures MessageOf([]) + data == data && PongsDue([]) == []
    ensures Started([], started) == started
  {
  }

  function Gathered(a: Assembly): seq<byte> { if a.Collecting? then a.data else [] }

  // What is left to receive, starting with the message as gathered in a, is this transmission.
  ghost predicate Explains(s: seq<byte>, a: Assembly, r: Received, script: seq<Packet>, final: Packet, cap: nat) {
    && r.outcome.Message?
    && LegalPackets(script) && ControlsFit(script, cap) && LegalPacket(final) && final.content.Piece?
    && var started, text := a.Collecting?, r.outcome.text;
    && s == Sent(script, text, started) + (FinalBytes(final, text, Started(script, started)) + r.rest)
    && r.outcome.data == Gathered(a) + (MessageOf(script) + final.content.data)
    && r.sent == PongsDue(script)
    && (started ==> a.text == text)
  }

  lemma {:induction false} ExplainsLast(s: seq<byte>, a: Assembly, cap: nat, accepts: nat) returns (final: Packet)
    requires var t := TakeTurn(s, cap, a, accepts); t.stop.Some? && t.stop.value.Message?
    ensures var t := TakeTurn(s, cap, a, accepts);
            Explains(s, a, Received(t.stop.value, t.rest, t.told), [], final, cap)
  {
    hide TakeTurn, Encode, FormFits, Sent, MessageOf, PongsDue, ControlsFit, LegalPacket, LegalPackets, Started;
    var t := TakeTurn(s, cap, a, accepts);
    final := TurnReadsPacket(s, cap, a, accepts);
    var text := t.stop.value.text;
    EmptyScript(text, a.Collecting?, final.content.data, FinalBytes(final, text, a.Collecting?) + t.rest, cap);
  }

  lemma MoreBytes(s: seq<byte>, a: Assembly, next: Assembly, rest: seq<byte>, r: Received,
                  p: Packet, tail: seq<Packet>, final: Packet, cap: nat)
    requires Explains(rest, next, r, tail, final, cap)
    requires LegalPacket(p) && |p.content.data| <= cap
    requires s == Encode(FrameFor(p, next.Collecting? && next.text, a.Collecting?, false), p.form) + rest
    requires if p.content.Piece? then next.Collecting? else next == a
    ensures LegalPackets([p] + tail) && ControlsFit([p] + tail, cap)
    ensures PongsDue([p] + tail) == Due(p) + PongsDue(tail)
    ensures s == Sent([p] + tail, r.outcome.text, a.Collecting?)
                 + (FinalBytes(final, r.outcome.text, Started([p] + tail, a.Collecting?)) + r.rest)
  {
    hide Encode, FormFits, Sent, MessageOf, PongsDue, ControlsFit, LegalPackets, Started, FinalBytes;
    var text := r.outcome.text;
    Prepend(p, tail, text, a.Collecting?, cap,
            FinalBytes(final, text, Started(tail, a.Collecting? || p.content.Piece?)) + r.rest);
    assert next.Collecting? == (a.Collecting? || p.content.Piece?);
    assert FrameFor(p, next.Collecting? && next.text, a.Collecting?, false) == FrameFor(p, text, a.Collecting?, false);
  }

  lemma MoreData(a: Assembly, next: Assembly, data: seq<byte>, p: Packet, tail: seq<Packet>, final: Packet)
    requires data == Gathered(next) + (MessageOf(tail) + final.content.data)
    requires if p.content.Piece? then Gathered(next) == Gathered(a) + p.content.data else next == a
    ensures data == Gathered(a) + (MessageOf([p] + tail) + final.content.data)
  {
    hide MessageOf, Gathered;
    FirstPiece(p, tail);
    assert Gathered(a) + Here(p) + (MessageOf(tail) + final.content.data)
        == Gathered(a) + (Here(p) + MessageOf(tail) + final.content.data);
    assert Gathered(a) + [] == Gathered(a);
  }

  lemma FirstPiece(p: Packet, tail: seq<Packet>)
    ensures MessageOf([p] + tail) == Here(p) + MessageOf(tail)
  {
    var script := [p] + tail;
    assert script[0] == p && script[1..] == tail;
  }

  lemma ExplainsMore(s: seq<byte>, a: Assembly, cap: nat, accepts: nat, r: Received, tail: seq<Packet>, final: Packet)
    returns (p: Packet)
    requires TakeTurn(s, cap, a, accepts).stop.None?
    requires Explains(TakeTurn(s, cap, a, accepts).rest, TakeTurn(s, cap, a, accepts).next, r, tail, final, cap)
    ensures Explains(s, a, After(TakeTurn(s, cap, a, accepts).told, r), [p] + tail, final, cap)
  {
    hide TakeTurn, Encode, FormFits, Sent, MessageOf, PongsDue, ControlsFit, LegalPacket, LegalPackets, Started;
    hide FinalBytes;
    var t := TakeTurn(s, cap, a, accepts);
    p := TurnReadsPacket(s, cap, a, accepts);
    MoreBytes(s, a, t.next, t.rest, r, p, tail, final, cap);
    MoreData(a, t.next, r.outcome.data, p, tail, final);
  }

  lemma {:induction false} Recover(s: seq<byte>, cap: nat, a: Assembly, accepts: nat)
    returns (script: seq<Packet>, final: Packet)
    requires Receive(s, cap, a, accepts).outcome.Message?
    ensures Explains(s, a, Receive(s, cap, a, accepts), script, final, cap)
    decreases |s|
  {
    hide TakeTurn, Explains;
    var t := TakeTurn(s, cap, a, accepts);
    if t.stop.Some? {
      final := ExplainsLast(s, a, cap, accepts);
      script := [];
    } else {
      ReceiveGoesOn(s, cap, a, accepts);
      var tail;
      tail, final := Recover(t.rest, cap, t.next, accepts - |t.told|);
      var p := ExplainsMore(s, a, cap, accepts, Receive(t.rest, cap, t.next, accepts - |t.told|), tail, final);
      script := [p] + tail;
    }
  }

  // The converse of the round trip: a message is returned exactly when the stream begins
  // with a legal transmission of it, and rest and replies are then those of that transmission.
  lemma MessagesCharacterised(s: seq<byte>, cap: nat, accepts: nat, text: bool, data: seq<byte>,
                              rest: seq<byte>, sent: seq<Reply>)
    ensures Receive(s, cap, Idle, accepts) == Received(Message(text, data), rest, sent)
       <==> exists script: seq<Packet>, final: Packet ::
              && Transmits(s, script, final, text, rest, cap, accepts)
              && data == MessageOf(script) + final.content.data
              && sent == PongsDue(script)
  {
    hide Receive, Sent, MessageOf, PongsDue, LegalPacket, FinalBytes;
    if Receive(s, cap, Idle, accepts) == Received(Message(text, data), rest, sent) {
      var script, final := Recover(s, cap, Idle, accepts);
      assert [] + (MessageOf(script) + final.content.data) == MessageOf(script) + final.content.data;
      ReceiveIsSound(s, cap, Idle, accepts);
      RepliesAreOrderly(s, cap, Idle, accepts);
      assert s == Transmission(script, final, text) + rest;
      assert Transmits(s, script, final, text, rest, cap, accepts);
    }
    forall script: seq<Packet>, final: Packet |
      && Transmits(s, script, final, text, rest, cap, accepts)
      && data == MessageOf(script) + final.content.data
      && sent == PongsDue(script)
      ensures Receive(s, cap, Idle, accepts) == Received(Message(text, data), rest, sent)
    {
      TransmissionRoundTrip(s, script, final, text, rest, cap, accepts);
    }
  }

  // ---------------------------------------------------------- what ends a message badly

  // Section 5.4: a new text or binary frame inside a message under way.
  lemma InterruptionIsRefused(script: seq<Packet>, text: bool, p: Packet, newText: bool, fin: bool,
                              rest: seq<byte>, cap: nat, accepts: nat)
    requires LegalPackets(script) && ControlsFit(script, cap) && Started(script, false)
    requires LegalPacket(p) && p.content.Piece? && |p.content.data| <= cap
    requires |MessageOf(script)| <= cap && |PongsDue(script)| <= accepts
    ensures var s := Sent(script, text, false) + (Encode(FrameFor(p, newText, false, fin), p.form) + rest);
            var told := IfAccepted(ViolationClose(InterruptedMessage), accepts - |PongsDue(script)|);
            Receive(s, cap, Idle, accepts)
            == Received(ProtocolError(InterruptedMessage), rest, PongsDue(script) + told)
  {
    hide Sent, Encode, FormFits, NextFrame, MessageOf, PongsDue, Started, LegalPackets;
    var f := FrameFor(p, newText, false, fin);
    var more := Encode(f, p.form) + rest;
    OpenPrefix(script, text, false, [], more, cap, accepts);
    VerdictOnFrame(f, p.form, rest, cap);
    assert [] + MessageOf(script) == MessageOf(script);
  }

  // A continuation that would take the message past the cap: nothing of it is delivered.
  lemma ExcessIsRefused(script: seq<Packet>, text: bool, p: Packet, fin: bool, rest: seq<byte>, cap: nat, accepts: nat)
    requires LegalPackets(script) && ControlsFit(script, cap) && Started(script, false)
    requires LegalPacket(p) && p.content.Piece? && |p.content.data| <= cap
    requires |MessageOf(script)| <= cap < |MessageOf(script)| + |p.content.data|
    requires |PongsDue(script)| <= accepts
    ensures var s := Sent(script, text, false) + (Encode(FrameFor(p, text, true, fin), p.form) + rest);
            var told := IfAccepted(SizeClose, accepts - |PongsDue(script)|);
            Receive(s, cap, Idle, accepts) == Received(TooLarge, rest, PongsDue(script) + told)
  {
    hide Sent, Encode, FormFits, NextFrame, MessageOf, PongsDue, Started, LegalPackets;
    var f := FrameFor(p, text, true, fin);
    var more := Encode(f, p.form) + rest;
    OpenPrefix(script, text, false, [], more, cap, accepts);
    VerdictOnFrame(f, p.form, rest, cap);
    assert [] + MessageOf(script) == MessageOf(script);
  }

  // -------------------------------------------------------------------- whole sessions

  datatype Sending = Sending(script: seq<Packet>, final: Packet, text: bool)

  // Consecutive calls on one connection.
  datatype Session = Session(outcomes: seq<Outcome>, rest: seq<byte>, sent: seq<Reply>)

  function Calls(n: nat, s: seq<byte>, cap: nat, accepts: nat): (r: Session)
    ensures |r.outcomes| == n && |r.sent| <= accepts
  {
    if n == 0 then Session([], s, [])
    else
      var first := Receive(s, cap, Idle, accepts);
      RepliesAreOrderly(s, cap, Idle, accepts);
      var others := Calls(n - 1, first.rest, cap, accepts - |first.sent|);
      Session([first.outcome] + others.outcomes, others.rest, first.sent + others.sent)
  }

  ghost predicate Sendable(m: Sending, cap: nat) {
    && m.final.content.Piece?
    && ControlsFit(m.script, cap)
    && |MessageOf(m.script) + m.final.content.data| <= cap
  }

  predicate AllLegal(messages: seq<Sending>) {
    forall m :: m in messages ==> LegalPackets(m.script) && LegalPacket(m.final)
  }

  function SessionBytes(messages: seq<Sending>): seq<byte>
    requires AllLegal(messages)
  {
    if |messages| == 0 then []
    else
      assert messages[0] in messages;
      Transmission(messages[0].script, messages[0].final, messages[0].text) + SessionBytes(messages[1..])
  }

  function SessionPongs(messages: seq<Sending>): seq<Reply>
    requires AllLegal(messages)
  {
    if |messages| == 0 then []
    else
      assert messages[0] in messages;
      PongsDue(messages[0].script) + SessionPongs(messages[1..])
  }

  function Delivered(messages: seq<Sending>): seq<Outcome> {
    if |messages| == 0 then []
    else [Message(messages[0].text, MessageOf(messages[0].script) + messages[0].final.content.data)]
         + Delivered(messages[1..])
  }

  // Repeated calls return the messages in order, with no byte skipped or read twice.
  lemma {:induction false} SessionRoundTrip(messages: seq<Sending>, rest: seq<byte>, cap: nat, accepts: nat)
    requires AllLegal(messages)
    requires forall m :: m in messages ==> Sendable(m, cap)
    requires |SessionPongs(messages)| <= accepts
    ensures Calls(|messages|, SessionBytes(messages) + rest, cap, accepts)
            == Session(Delivered(messages), rest, SessionPongs(messages))
    decreases |messages|
  {
    hide Receive, Transmission, MessageOf, PongsDue, LegalPacket, LegalPackets, ControlsFit;
    if |messages| == 0 {
      assert [] + rest == rest;
    } else {
      var m, tail := messages[0], messages[1..];
      assert m in messages && forall x :: x in tail ==> x in messages;
      var s, more := SessionBytes(messages) + rest, SessionBytes(tail) + rest;
      assert s == Transmission(m.script, m.final, m.text) + more;
      TransmissionRoundTrip(s, m.script, m.final, m.text, more, cap, accepts);
      SessionRoundTrip(tail, rest, cap, accepts - |PongsDue(m.script)|);
    }
  }

  // ------------------------------------------------------------------------- the printer

  // No legal length form gives fewer bytes.
  predicate IsShortest(bytes: seq<byte>, f: Frame)
    requires WellFormed(f)
  {
    forall form: LengthForm :: FormFits(form, |f.payload|) ==> |bytes| <= |Encode(f, form)|
  }

  // What the bridge writes is read back by the decoder of section 5.2, whatever follows,
  // and no legal length form would have been shorter.
  lemma PrinterRoundTrip(fin: bool, opcode: nat, payload: seq<byte>, rest: seq<byte>)
    requires opcode < 16 && |payload| < Pow(256, 8)
    ensures var f := Frame(fin, 0, opcode, None, payload);
            && Decode(ServerBytes(f) + rest) == Some((f, rest))
            && IsShortest(ServerBytes(f), f)
  {
    hide Decode, EncodeBody, ToBigEndian, Pow;
    PowersOf256();
    var f := Frame(fin, 0, opcode, None, payload);
    DecodeInvertsEncode(f, ShortestForm(|payload|), rest);
  }
}
