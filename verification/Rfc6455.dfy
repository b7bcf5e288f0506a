// The wire format of RFC 6455 section 5.2, as a printer and an independent decoder.
module Rfc6455 {
  import opened Bytes
  import opened Wrappers

  const OP_CONT: nat := 0
  const OP_TEXT: nat := 1
  const OP_BINARY: nat := 2
  const OP_CLOSE: nat := 8
  const OP_PING: nat := 9
  const OP_PONG: nat := 10

  predicate IsControl(opcode: nat) {
    opcode == OP_CLOSE || opcode == OP_PING || opcode == OP_PONG
  }

  // The payload of a Frame is the application data, after unmasking.
  datatype Frame = Frame(fin: bool, rsv: nat, opcode: nat, mask: Option<seq<byte>>, payload: seq<byte>)

  // The three ways to write the payload length: 7, 7+16 and 7+64 bits.
  datatype LengthForm = Short | Medium | Long

  predicate FormFits(form: LengthForm, length: nat) {
    match form
    case Short => length < 126
    case Medium => length < Pow(256, 2)
    case Long => length < Pow(256, 8)
  }

  predicate WellFormed(f: Frame) {
    && f.rsv < 8
    && f.opcode < 16
    && (f.mask.Some? ==> |f.mask.value| == 4)
  }

  // Section 5.3: octet i of the data is combined with octet i modulo 4 of the key.
  function Masked(data: seq<byte>, key: seq<byte>): (r: seq<byte>)
    requires |key| == 4
    ensures |r| == |data|
    ensures forall i :: 0 <= i < |data| ==> r[i] == Xor(data[i], key[i % 4])
  {
    seq(|data|, i requires 0 <= i < |data| => Xor(data[i], key[i % 4]))
  }

  lemma MaskedTwice(data: seq<byte>, key: seq<byte>)
    requires |key| == 4
    ensures Masked(Masked(data, key), key) == data
  {
    forall i | 0 <= i < |data| ensures Xor(Xor(data[i], key[i % 4]), key[i % 4]) == data[i] {
      XorTwice(data[i], key[i % 4]);
    }
  }

  // ---------------------------------------------------------------- printer

  function EncodeHead(fin: bool, rsv: nat, opcode: nat, masked: bool, form: LengthForm, length: nat): (s: seq<byte>)
    requires rsv < 8 && opcode < 16 && FormFits(form, length)
  {
    var first := (if fin then 128 else 0) + 16 * rsv + opcode;
    var flag := if masked then 128 else 0;
    match form
    case Short => [first, flag + length]
    case Medium => [first, flag + 126] + ToBigEndian(length, 2)
    case Long => [first, flag + 127] + ToBigEndian(length, 8)
  }

  function EncodeBody(f: Frame): (s: seq<byte>)
    requires WellFormed(f)
  {
    if f.mask.Some? then f.mask.value + Masked(f.payload, f.mask.value) else f.payload
  }

  function Encode(f: Frame, form: LengthForm): (s: seq<byte>)
    requires WellFormed(f) && FormFits(form, |f.payload|)
  {
    EncodeHead(f.fin, f.rsv, f.opcode, f.mask.Some?, form, |f.payload|) + EncodeBody(f)
  }

  // ---------------------------------------------------------------- decoder

  // Everything that precedes the masking key; `size` is the number of bytes it occupies.
  datatype Head = Head(fin: bool, rsv: nat, opcode: nat, masked: bool, length: nat, size: nat)

  function DecodeHead(s: seq<byte>): (h: Option<Head>)
    ensures h.Some? ==> 2 <= h.value.size <= |s|
    ensures h.Some? ==> h.value.opcode < 16 && h.value.rsv < 8
  {
    if |s| < 2 then None
    else
      var fin, rsv, opcode := s[0] >= 128, s[0] / 16 % 8, s[0] % 16;
      var masked, code := s[1] >= 128, s[1] % 128;
      if code == 126 then
        if |s| < 4 then None else Some(Head(fin, rsv, opcode, masked, FromBigEndian(s[2..4]), 4))
      else if code == 127 then
        if |s| < 10 then None else Some(Head(fin, rsv, opcode, masked, FromBigEndian(s[2..10]), 10))
      else Some(Head(fin, rsv, opcode, masked, code, 2))
  }

  // The masking key, if any, and the payload announced by h, and what follows them.
  function DecodeBody(h: Head, body: seq<byte>): (r: Option<(Frame, seq<byte>)>) {
    var keySize := if h.masked then 4 else 0;
    if |body| < keySize + h.length then None
    else
      var data := body[keySize..keySize + h.length];
      var rest := body[keySize + h.length..];
      if h.masked then
        Some((Frame(h.fin, h.rsv, h.opcode, Some(body[..4]), Masked(data, body[..4])), rest))
      else
        Some((Frame(h.fin, h.rsv, h.opcode, None, data), rest))
  }

  // The first complete frame of a byte string and what follows it.
  function Decode(s: seq<byte>): (r: Option<(Frame, seq<byte>)>)
    ensures r.Some? ==> |r.value.1| < |s|
  {
    match DecodeHead(s)
    case None => None
    case Some(h) => DecodeBody(h, s[h.size..])
  }

  // ------------------------------------------- the decoder inverts the printer

  function FormOf(s: seq<byte>): LengthForm
    requires |s| >= 2
  {
    var code := s[1] % 128;
    if code == 126 then Medium else if code == 127 then Long else Short
  }

  lemma FlagsRoundTrip(fin: bool, rsv: nat, opcode: nat)
    requires rsv < 8 && opcode < 16
    ensures var first := (if fin then 128 else 0) + 16 * rsv + opcode;
            (first >= 128 <==> fin) && first / 16 % 8 == rsv && first % 16 == opcode
  {
  }

  lemma HeadRoundTrip(fin: bool, rsv: nat, opcode: nat, masked: bool, form: LengthForm, length: nat, rest: seq<byte>)
    requires rsv < 8 && opcode < 16 && FormFits(form, length)
    ensures var s := EncodeHead(fin, rsv, opcode, masked, form, length);
            DecodeHead(s + rest) == Some(Head(fin, rsv, opcode, masked, length, |s|))
  {
    hide FromBigEndian, ToBigEndian, Pow;
    var s := EncodeHead(fin, rsv, opcode, masked, form, length);
    FlagsRoundTrip(fin, rsv, opcode);
    if form != Short {
      var width := if form == Medium then 2 else 8;
      BigEndianRoundTrip(length, width);
      assert (s + rest)[2..2 + width] == ToBigEndian(length, width);
    }
  }

  lemma FlagsOnto(b: byte)
    ensures (if b >= 128 then 128 else 0) + 16 * (b / 16 % 8) + b % 16 == b
    ensures (if b >= 128 then 128 else 0) + b % 128 == b
  {
  }

  lemma HeadOnto(s: seq<byte>)
    requires DecodeHead(s).Some?
    ensures var h, form := DecodeHead(s).value, FormOf(s);
            && FormFits(form, h.length)
            && s[..h.size] == EncodeHead(h.fin, h.rsv, h.opcode, h.masked, form, h.length)
  {
    hide FromBigEndian, ToBigEndian, Pow;
    FlagsOnto(s[0]);
    FlagsOnto(s[1]);
    var h := DecodeHead(s).value;
    var ext := s[2..h.size];
    assert s[..h.size] == [s[0], s[1]] + ext;
    if FormOf(s) != Short {
      BigEndianIsOnto(ext);
    }
  }

  lemma BodyRoundTrip(f: Frame, size: nat, rest: seq<byte>)
    requires WellFormed(f)
    ensures DecodeBody(Head(f.fin, f.rsv, f.opcode, f.mask.Some?, |f.payload|, size), EncodeBody(f) + rest)
            == Some((f, rest))
  {
    var body := EncodeBody(f) + rest;
    if f.mask.Some? {
      var key, data := f.mask.value, Masked(f.payload, f.mask.value);
      MaskedTwice(f.payload, key);
      assert body[..4] == key && body[4..4 + |data|] == data && body[4 + |data|..] == rest;
    } else {
      assert body[..|f.payload|] == f.payload && body[|f.payload|..] == rest;
    }
  }

  lemma BodyOnto(h: Head, body: seq<byte>)
    requires h.rsv < 8 && h.opcode < 16
    requires DecodeBody(h, body).Some?
    ensures var (f, rest) := DecodeBody(h, body).value;
            && WellFormed(f)
            && h == Head(f.fin, f.rsv, f.opcode, f.mask.Some?, |f.payload|, h.size)
            && body == EncodeBody(f) + rest
  {
    var (f, rest) := DecodeBody(h, body).value;
    if h.masked {
      var key, data := body[..4], body[4..4 + h.length];
      MaskedTwice(data, key);
      assert body == key + data + rest;
    } else {
      assert body == f.payload + rest;
    }
  }

  // What the printer writes, in any length form that fits, is read back, whatever follows.
  lemma DecodeInvertsEncode(f: Frame, form: LengthForm, rest: seq<byte>)
    requires WellFormed(f) && FormFits(form, |f.payload|)
    ensures Decode(Encode(f, form) + rest) == Some((f, rest))
  {
    hide DecodeHead, DecodeBody, EncodeHead, EncodeBody;
    var head := EncodeHead(f.fin, f.rsv, f.opcode, f.mask.Some?, form, |f.payload|);
    assert Encode(f, form) + rest == head + (EncodeBody(f) + rest);
    HeadRoundTrip(f.fin, f.rsv, f.opcode, f.mask.Some?, form, |f.payload|, EncodeBody(f) + rest);
    assert (head + (EncodeBody(f) + rest))[|head|..] == EncodeBody(f) + rest;
    BodyRoundTrip(f, |head|, rest);
  }

  // Conversely, whatever is decoded was a printed frame.
  lemma {:induction false} DecodeIsSound(s: seq<byte>)
    requires Decode(s).Some?
    ensures var (f, rest) := Decode(s).value;
            WellFormed(f) && FormFits(FormOf(s), |f.payload|) && s == Encode(f, FormOf(s)) + rest
  {
    hide DecodeHead, DecodeBody, EncodeHead, EncodeBody;
    var h := DecodeHead(s).value;
    HeadOnto(s);
    BodyOnto(h, s[h.size..]);
    assert s == s[..h.size] + s[h.size..];
  }

  // A byte string starts with the frame f exactly when the decoder says so.
  lemma DecodeCharacterised(s: seq<byte>, f: Frame, rest: seq<byte>)
    ensures Decode(s) == Some((f, rest))
       <==> exists form: LengthForm ::
              WellFormed(f) && FormFits(form, |f.payload|) && s == Encode(f, form) + rest
  {
    if Decode(s) == Some((f, rest)) {
      DecodeIsSound(s);
    }
    forall form: LengthForm | WellFormed(f) && FormFits(form, |f.payload|) && s == Encode(f, form) + rest
      ensures Decode(s) == Some((f, rest))
    {
      DecodeInvertsEncode(f, form, rest);
    }
  }
}
