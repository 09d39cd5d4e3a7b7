/** Bytes and the big-endian integers built from them. */
module Bytes {

  type Byte = b: int | 0 <= b < 256

  /** value >> (8 * n) with the sign kept, as Python and the C++ client shift. */
  function ShiftRight(value: int, n: nat): int
    decreases n
  {
    if n == 0 then value else ShiftRight(value / 256, n - 1)
  }

  function Pow256(n: nat): (r: nat)
    ensures r > 0
  {
    if n == 0 then 1 else 256 * Pow256(n - 1)
  }

  /** The low 8 * size bits of `value`, most significant byte first. */
  function BigEndian(value: int, size: nat): (r: seq<Byte>)
    ensures |r| == size
    decreases size
  {
    if size == 0 then [] else BigEndian(value / 256, size - 1) + [value % 256]
  }

  function FromBigEndian(bytes: seq<Byte>): nat {
    if bytes == [] then 0
    else FromBigEndian(bytes[..|bytes| - 1]) * 256 + bytes[|bytes| - 1]
  }

  lemma {:induction false} ShiftOnceMore(value: int, n: nat)
    ensures ShiftRight(value, n) / 256 == ShiftRight(value, n + 1)
    decreases n
  {
    if n > 0 {
      ShiftOnceMore(value / 256, n - 1);
    }
  }

  /** A wide integer is its high part followed by its low part. */
  lemma {:induction false} HighAndLow(value: int, high: nat, low: nat)
    ensures BigEndian(value, high + low) == BigEndian(ShiftRight(value, low), high) + BigEndian(value, low)
    decreases low
  {
    if low > 0 {
      OneByteMore(value, high + low);
      OneByteMore(value, low);
      assert ShiftRight(value, low) == ShiftRight(value / 256, low - 1);
      hide BigEndian, ShiftRight;
      HighAndLow(value / 256, high, low - 1);
    } else {
      assert BigEndian(value, 0) == [];
    }
  }

  lemma OneByteMore(value: int, size: nat)
    requires size > 0
    ensures BigEndian(value, size) == BigEndian(value / 256, size - 1) + [value % 256]
  {
  }

  lemma {:induction false} UnsignedRoundTrip(value: int, size: nat)
    requires ShiftRight(value, size) == 0
    ensures FromBigEndian(BigEndian(value, size)) == value
    decreases size
  {
    if size > 0 {
      UnsignedRoundTrip(value / 256, size - 1);
    }
  }

  lemma {:induction false} NegativeRoundTrip(value: int, size: nat)
    requires ShiftRight(value, size) == -1
    ensures FromBigEndian(BigEndian(value, size)) == value + Pow256(size)
    decreases size
  {
    if size > 0 {
      NegativeRoundTrip(value / 256, size - 1);
    }
  }

  /** Subtracting 2^(8 * size), as a two's complement reading of the bits does, changes no byte. */
  lemma {:induction false} SameBits(value: int, size: nat)
    ensures BigEndian(value - Pow256(size), size) == BigEndian(value, size)
    decreases size
  {
    if size > 0 {
      assert (value - Pow256(size)) / 256 == value / 256 - Pow256(size - 1);
      SameBits(value / 256, size - 1);
    }
  }

  lemma Powers()
    ensures Pow256(1) == 0x100 && Pow256(2) == 0x1_0000 && Pow256(4) == 0x1_0000_0000
    ensures Pow256(8) == 0x1_0000_0000_0000_0000
  {
    assert Pow256(3) == 0x100_0000 && Pow256(5) == 0x100_0000_0000;
    assert Pow256(7) == 0x100_0000_0000_0000;
  }

  lemma {:induction false} ShiftOfUnsigned(value: int, size: nat)
    requires 0 <= value < Pow256(size)
    ensures ShiftRight(value, size) == 0
    decreases size
  {
    if size > 0 {
      ShiftOfUnsigned(value / 256, size - 1);
    }
  }

  lemma {:induction false} ShiftOfNegative(value: int, size: nat)
    requires 0 <= value + Pow256(size) && value < 0
    ensures ShiftRight(value, size) == -1
    decreases size
  {
    if size > 0 {
      ShiftOfNegative(value / 256, size - 1);
    }
  }

  function Pow2(n: nat): (r: nat)
    ensures r > 0
  {
    if n == 0 then 1 else 2 * Pow2(n - 1)
  }

  /** Bitwise exclusive or of two numbers of `bits` bits. */
  function XorBits(a: nat, b: nat, bits: nat): (r: nat)
    ensures r < Pow2(bits)
  {
    if bits == 0 then 0 else (a + b) % 2 + 2 * XorBits(a / 2, b / 2, bits - 1)
  }

  lemma {:induction false} XorBitsTwice(a: nat, b: nat, bits: nat)
    requires a < Pow2(bits)
    ensures XorBits(XorBits(a, b, bits), b, bits) == a
    decreases bits
  {
    if bits > 0 {
      var x := XorBits(a / 2, b / 2, bits - 1);
      LowBit(a, b, x);
      XorBitsTwice(a / 2, b / 2, bits - 1);
      assert XorBits(a, b, bits) == (a + b) % 2 + 2 * x;
    }
  }

  lemma LowBit(a: nat, b: nat, x: nat)
    ensures var y := (a + b) % 2 + 2 * x; y / 2 == x && (y + b) % 2 + 2 * (a / 2) == a
  {
    var p, q := a % 2, b % 2;
    assert a == 2 * (a / 2) + p && b == 2 * (b / 2) + q;
    assert (a + b) % 2 == (p + q) % 2;
    assert ((p + q) % 2 + 2 * x + b) % 2 == ((p + q) % 2 + q) % 2;
  }

  lemma Pow8()
    ensures Pow2(8) == 256
  {
    assert Pow2(4) == 16;
  }

  function Xor(a: Byte, b: Byte): Byte {
    Pow8();
    XorBits(a, b, 8)
  }

  /** Bit k of a number, counted from the least significant one. */
  predicate Bit(x: nat, k: nat) {
    if k == 0 then x % 2 == 1 else Bit(x / 2, k - 1)
  }

  lemma {:induction false} XorBitAt(a: nat, b: nat, bits: nat, k: nat)
    requires k < bits
    ensures Bit(XorBits(a, b, bits), k) <==> Bit(a, k) != Bit(b, k)
    decreases bits
  {
    var x := XorBits(a / 2, b / 2, bits - 1);
    LowBit(a, b, x);
    assert XorBits(a, b, bits) == (a + b) % 2 + 2 * x;
    if k == 0 {
      SumParity(a, b, x);
    } else {
      XorBitAt(a / 2, b / 2, bits - 1, k - 1);
    }
  }

  lemma SumParity(a: nat, b: nat, x: nat)
    ensures ((a + b) % 2 + 2 * x) % 2 == 1 <==> (a % 2 == 1) != (b % 2 == 1)
  {
    assert a == 2 * (a / 2) + a % 2 && b == 2 * (b / 2) + b % 2;
  }

  /** Bit by bit, Xor is exclusive or. */
  lemma XorIsBitwise(a: Byte, b: Byte, k: nat)
    requires k < 8
    ensures Bit(Xor(a, b), k) <==> Bit(a, k) != Bit(b, k)
  {
    XorBitAt(a, b, 8, k);
  }

  /** Eight bits make a byte. */
  lemma {:induction false} SameBitsSameNumber(x: nat, y: nat, bits: nat)
    requires x < Pow2(bits) && y < Pow2(bits) && forall k :: 0 <= k < bits ==> Bit(x, k) == Bit(y, k)
    ensures x == y
    decreases bits
  {
    if bits > 0 {
      assert Bit(x, 0) == Bit(y, 0);
      forall k | 0 <= k < bits - 1 ensures Bit(x / 2, k) == Bit(y / 2, k) {
        assert Bit(x, k + 1) == Bit(y, k + 1);
      }
      SameBitsSameNumber(x / 2, y / 2, bits - 1);
    }
  }

  /** Big-endian bytes, one by one: byte k from the right is value >> (8 * k), cut to 8 bits. */
  lemma {:induction false} BigEndianAt(value: int, size: nat, k: nat)
    requires k < size
    ensures BigEndian(value, size)[size - 1 - k] == value / Pow256(k) % 256
    decreases size
  {
    if k == 0 {
      assert value / 1 == value;
    } else {
      BigEndianAt(value / 256, size - 1, k - 1);
      DivideTwice(value, Pow256(k - 1));
    }
  }

  lemma DivideTwice(value: int, p: int)
    requires p > 0
    ensures value / 256 / p == value / (256 * p)
  {
    var q := value / 256 / p;
    var r := (value / 256) % p;
    assert value == 256 * (value / 256) + value % 256;
    assert value / 256 == p * q + r;
    assert value == (256 * p) * q + (256 * r + value % 256);
    QuotientIs(value, 256 * p, q, 256 * r + value % 256);
  }

  lemma QuotientIs(n: int, d: int, q: int, r: int)
    requires d > 0 && n == d * q + r && 0 <= r < d
    ensures n / d == q
  {
    var x := n / d - q;
    assert d * (n / d) + n % d == n;
    assert d * x == r - n % d;
    MultipleIsFar(d, x);
  }

  lemma MultipleIsFar(d: int, x: int)
    requires d > 0
    ensures x >= 1 ==> d * x >= d
    ensures x <= -1 ==> d * x <= -d
  {
  }

  lemma XorTwice(a: Byte, b: Byte)
    ensures Xor(Xor(a, b), b) == a
  {
    Pow8();
    XorBitsTwice(a, b, 8);
  }
}
