// Bytes, bitwise exclusive or and network byte order.
module Bytes {

  type byte = b: int | 0 <= b < 256

  function Pow(base: nat, e: nat): (r: nat)
    ensures base > 0 ==> r > 0
  {
    if e == 0 then 1 else base * Pow(base, e - 1)
  }

  // Exclusive or, bit by bit, of two numbers of at most `bits` bits.
  function XorBits(a: nat, b: nat, bits: nat): (r: nat)
    ensures r < Pow(2, bits)
  {
    if bits == 0 then 0
    else 2 * XorBits(a / 2, b / 2, bits - 1) + (if a % 2 != b % 2 then 1 else 0)
  }

  function Xor(a: byte, b: byte): (r: byte) {
    XorBelow256(a, b);
    XorBits(a, b, 8)
  }

  lemma XorBelow256(a: nat, b: nat)
    ensures XorBits(a, b, 8) < 256
  {
    assert Pow(2, 4) == 16;
    assert Pow(2, 8) == 256;
  }

  lemma {:induction false} XorBitsTwice(a: nat, b: nat, bits: nat)
    requires a < Pow(2, bits)
    ensures XorBits(XorBits(a, b, bits), b, bits) == a
  {
    if bits > 0 {
      var x := XorBits(a, b, bits);
      assert x / 2 == XorBits(a / 2, b / 2, bits - 1);
      XorBitsTwice(a / 2, b / 2, bits - 1);
    }
  }

  // Masking a byte twice with the same key byte gives it back.
  lemma XorTwice(a: byte, b: byte)
    ensures Xor(Xor(a, b), b) == a
  {
    assert Pow(2, 4) == 16;
    assert Pow(2, 8) == 256;
    XorBitsTwice(a, b, 8);
  }

  lemma {:induction false} MulAtLeast(p: nat, e: nat)
    requires e > 0
    ensures p * e >= p
  {
    if e > 1 {
      MulAtLeast(p, e - 1);
      assert p * e == p * (e - 1) + p;
    }
  }

  lemma QuotientIs(n: nat, p: nat, q: nat, r: nat)
    requires n == p * q + r && r < p
    ensures n / p == q
  {
    var d, m := n / p, n % p;
    assert n == p * d + m && m < p;
    assert p * (q - d) == p * q - p * d && p * (d - q) == p * d - p * q;
    if d < q {
      MulAtLeast(p, q - d);
    } else if q < d {
      MulAtLeast(p, d - q);
    }
  }

  lemma HalfFirst(x: nat, p: nat)
    requires p > 0
    ensures x / (2 * p) == x / 2 / p
  {
    var h := x / 2;
    var q, r := h / p, h % p;
    assert h == p * q + r;
    QuotientIs(x, 2 * p, q, 2 * r + x % 2);
  }

  lemma BitOfHalf(x: nat, i: nat)
    requires i > 0
    ensures x / Pow(2, i) == x / 2 / Pow(2, i - 1)
  {
    assert Pow(2, i) == 2 * Pow(2, i - 1);
    HalfFirst(x, Pow(2, i - 1));
  }

  lemma XorBitsEnd(a: nat, b: nat, bits: nat)
    requires bits > 0
    ensures XorBits(a, b, bits) / 2 == XorBits(a / 2, b / 2, bits - 1)
    ensures XorBits(a, b, bits) % 2 == (a + b) % 2
  {
  }

  // Bit i of the result is the sum of the two bits without its carry.
  lemma {:induction false} XorBitsAt(a: nat, b: nat, bits: nat, i: nat)
    requires i < bits
    ensures XorBits(a, b, bits) / Pow(2, i) % 2 == (a / Pow(2, i) + b / Pow(2, i)) % 2
  {
    hide XorBits, Pow;
    XorBitsEnd(a, b, bits);
    if i > 0 {
      XorBitsAt(a / 2, b / 2, bits - 1, i - 1);
      BitOfHalf(XorBits(a, b, bits), i);
      BitOfHalf(a, i);
      BitOfHalf(b, i);
    } else {
      PowZero();
    }
  }

  lemma PowZero()
    ensures Pow(2, 0) == 1
  {
  }

  lemma XorAt(a: byte, b: byte, i: nat)
    requires i < 8
    ensures Xor(a, b) / Pow(2, i) % 2 == (a / Pow(2, i) + b / Pow(2, i)) % 2
  {
    XorBitsAt(a, b, 8, i);
  }

  lemma {:induction false} XorBitsZero(a: nat, bits: nat)
    requires a < Pow(2, bits)
    ensures XorBits(a, 0, bits) == a
  {
    if bits > 0 {
      XorBitsZero(a / 2, bits - 1);
    }
  }

  // A zero key byte leaves a byte alone.
  lemma XorZero(a: byte)
    ensures Xor(a, 0) == a
  {
    assert Pow(2, 4) == 16;
    assert Pow(2, 8) == 256;
    XorBitsZero(a, 8);
  }

  // The number written most significant byte first (struct format "!").
  function FromBigEndian(s: seq<byte>): (n: nat) {
    if |s| == 0 then 0 else FromBigEndian(s[..|s| - 1]) * 256 + s[|s| - 1]
  }

  function ToBigEndian(n: nat, width: nat): (s: seq<byte>)
    ensures |s| == width
  {
    if width == 0 then [] else ToBigEndian(n / 256, width - 1) + [n % 256]
  }

  lemma {:induction false} BigEndianRoundTrip(n: nat, width: nat)
    requires n < Pow(256, width)
    ensures FromBigEndian(ToBigEndian(n, width)) == n
  {
    if width > 0 {
      var s := ToBigEndian(n, width);
      assert s[..|s| - 1] == ToBigEndian(n / 256, width - 1);
      BigEndianRoundTrip(n / 256, width - 1);
    }
  }

  lemma {:induction false} BigEndianIsOnto(s: seq<byte>)
    ensures FromBigEndian(s) < Pow(256, |s|)
    ensures ToBigEndian(FromBigEndian(s), |s|) == s
  {
    if |s| > 0 {
      BigEndianIsOnto(s[..|s| - 1]);
      assert s == s[..|s| - 1] + [s[|s| - 1]];
    }
  }

  // The first byte is the most significant one.
  lemma {:induction false} BigEndianIsPositional(a: byte, s: seq<byte>)
    ensures FromBigEndian([a] + s) == a * Pow(256, |s|) + FromBigEndian(s)
  {
    if |s| == 0 {
      assert ([a] + s)[..0] == [];
    } else {
      var front, last := s[..|s| - 1], s[|s| - 1];
      assert ([a] + s)[..|s|] == [a] + front;
      BigEndianIsPositional(a, front);
      assert 256 * (a * Pow(256, |front|)) == a * Pow(256, |s|) by {
        assert Pow(256, |s|) == 256 * Pow(256, |front|);
      }
    }
  }

  lemma TwoBytes(a: byte, b: byte)
    ensures FromBigEndian([a, b]) == 256 * a + b
  {
    assert [a] + [b] == [a, b] && [b][..0] == [];
    BigEndianIsPositional(a, [b]);
  }

  lemma PowersOf256()
    ensures Pow(256, 2) == 65536
    ensures Pow(256, 8) == 0x1_0000_0000_0000_0000
  {
    assert Pow(256, 4) == 256 * Pow(256, 3);
    assert Pow(256, 3) == 256 * Pow(256, 2);
    assert Pow(256, 6) == 256 * Pow(256, 5);
    assert Pow(256, 8) == 256 * Pow(256, 7);
  }
}
