/** koheron-server/core/sha1.cpp against the definition of SHA-1 in FIPS 180-4: a streaming
    context with a 16-word circular message schedule computes the digest that the standard
    defines with padding, 80 schedule words and 80 rounds per block. */
module Sha1 {
  import opened Bytes

  type Word = bv32

  // ---------------------------------------------------------------------------------
  // FIPS 180-4
  // ---------------------------------------------------------------------------------

  datatype Hash = Hash(a: Word, b: Word, c: Word, d: Word, e: Word)

  // Section 5.3.1
  function InitialHash(): Hash { Hash(0x67452301, 0xefcdab89, 0x98badcfe, 0x10325476, 0xc3d2e1f0) }

  // Section 3.2
  function Rotl1(x: Word): Word { (x << 1) | (x >> 31) }
  function Rotl5(x: Word): Word { (x << 5) | (x >> 27) }
  function Rotl30(x: Word): Word { (x << 30) | (x >> 2) }

  // Section 4.1.1
  function Ch(x: Word, y: Word, z: Word): Word { (x & y) ^ (!x & z) }
  function Parity(x: Word, y: Word, z: Word): Word { x ^ y ^ z }
  function Maj(x: Word, y: Word, z: Word): Word { (x & y) ^ (x & z) ^ (y & z) }

  function F(t: nat, x: Word, y: Word, z: Word): Word {
    if t < 20 then Ch(x, y, z) else if t < 40 then Parity(x, y, z)
    else if t < 60 then Maj(x, y, z) else Parity(x, y, z)
  }

  // Section 4.2.1
  function K(t: nat): Word {
    if t < 20 then 0x5a827999 else if t < 40 then 0x6ed9eba1
    else if t < 60 then 0x8f1bbcdc else 0xca62c1d6
  }

  function WordValue(b0: Byte, b1: Byte, b2: Byte, b3: Byte): (n: nat)
    ensures n < 0x1_0000_0000
  {
    b0 * 0x100_0000 + b1 * 0x1_0000 + b2 * 0x100 + b3
  }

  function WordOf(b0: Byte, b1: Byte, b2: Byte, b3: Byte): Word {
    WordValue(b0, b1, b2, b3) as Word
  }

  function Mix(w3: Word, w8: Word, w14: Word, w16: Word): Word {
    Rotl1(w3 ^ w8 ^ w14 ^ w16)
  }

  /** The message schedule of section 6.1.2, step 1. */
  function Schedule(block: seq<Byte>, t: nat): Word
    requires |block| == 64
  {
    if t < 16 then WordOf(block[4 * t], block[4 * t + 1], block[4 * t + 2], block[4 * t + 3])
    else Mix(Schedule(block, t - 3), Schedule(block, t - 8), Schedule(block, t - 14), Schedule(block, t - 16))
  }

  function Sum(v: Word, w: Word, x: Word, y: Word, z: Word): Word { v + w + x + y + z }

  /** The temporary word T of step 3. */
  function Temporary(h: Hash, t: nat, w: Word): Word {
    Sum(Rotl5(h.a), F(t, h.b, h.c, h.d), h.e, K(t), w)
  }

  /** One round of step 3. */
  function Round(h: Hash, t: nat, w: Word): Hash {
    Hash(Temporary(h, t, w), h.a, Rotl30(h.b), h.c, h.d)
  }

  function Rounds(h: Hash, block: seq<Byte>, t: nat): Hash
    requires |block| == 64
  {
    if t == 0 then h else Round(Rounds(h, block, t - 1), t - 1, Schedule(block, t - 1))
  }

  function Add(x: Word, y: Word): Word { x + y }

  function Plus(h: Hash, g: Hash): Hash {
    Hash(Add(h.a, g.a), Add(h.b, g.b), Add(h.c, g.c), Add(h.d, g.d), Add(h.e, g.e))
  }

  /** H(i) from H(i-1) and the i-th block. */
  function Compress(h: Hash, block: seq<Byte>): Hash
    requires |block| == 64
  {
    Plus(h, Rounds(h, block, 80))
  }

  /** The hash value after the whole blocks of `data`. */
  function Absorb(data: seq<Byte>): Hash {
    if |data| < 64 then InitialHash()
    else
      var n := |data| - |data| % 64;
      Compress(Absorb(data[..n - 64]), data[n - 64..n])
  }

  function Zeros(n: nat): (r: seq<Byte>)
    ensures |r| == n
  {
    seq(n, _ => 0)
  }

  const WORD64 := 0x1_0000_0000_0000_0000

  /** Byte i, counted from the least significant one, of a 64-bit integer. */
  function Octet(c: int, i: nat): Byte
    requires 0 <= c && i < 8
  {
    var shifted :=
      if i == 0 then c else if i == 1 then c / 0x100 else if i == 2 then c / 0x1_0000
      else if i == 3 then c / 0x100_0000 else if i == 4 then c / 0x1_0000_0000
      else if i == 5 then c / 0x100_0000_0000 else if i == 6 then c / 0x1_0000_0000_0000
      else c / 0x100_0000_0000_0000;
    shifted % 256
  }

  function Length64(bits: int): (r: seq<Byte>)
    requires 0 <= bits
    ensures |r| == 8
  {
    [Octet(bits, 7), Octet(bits, 6), Octet(bits, 5), Octet(bits, 4),
     Octet(bits, 3), Octet(bits, 2), Octet(bits, 1), Octet(bits, 0)]
  }

  /** Section 5.1.1: a one bit, the fewest zero bits that leave room for the 64-bit length. */
  function Padded(msg: seq<Byte>): seq<Byte> {
    msg + [0x80] + Zeros((55 - |msg|) % 64) + Length64(8 * |msg|)
  }

  function Low8(w: Word): Byte {
    ((w & 0xff) as bv8) as int
  }

  function WordBytes(w: Word): (r: seq<Byte>)
    ensures |r| == 4
  {
    [Low8(w >> 24), Low8(w >> 16), Low8(w >> 8), Low8(w)]
  }

  function HashBytes(h: Hash): (r: seq<Byte>)
    ensures |r| == 20
  {
    WordBytes(h.a) + WordBytes(h.b) + WordBytes(h.c) + WordBytes(h.d) + WordBytes(h.e)
  }

  /** The message digest of section 6.1.2. */
  function Digest(msg: seq<Byte>): seq<Byte> {
    HashBytes(Absorb(Padded(msg)))
  }

  // ---------------------------------------------------------------------------------
  // The constants of the standard
  // ---------------------------------------------------------------------------------

  /** K holds the first 32 bits behind the square roots of 2, 3, 5 and 10, scaled by 2^30. */
  lemma RootsOfK(t: nat)
    requires t < 80
    ensures var n := if t < 20 then 2 else if t < 40 then 3 else if t < 60 then 5 else 10;
            var k := K(t) as int;
            k * k <= n * 0x1000_0000_0000_0000 < (k + 1) * (k + 1)
  {
  }

  /** The initial hash counts up and down in hexadecimal digits, each word lowest byte first. */
  lemma InitialDigits(j: nat)
    requires j < 20
    ensures var bytes := HashBytes(InitialHash());
            bytes[4 * (j / 4) + 3 - j % 4]
            == if j < 8 then 0x01 + 0x22 * j else if j < 16 then 0xfe - 0x22 * (j - 8) else 0xf0 - 0x0f * (j - 16)
  {
  }

  /** Which function belongs to which round. */
  lemma RoundFunctions(t: nat, x: Word, y: Word, z: Word)
    requires t < 80
    ensures F(t, x, y, z) == if t / 20 == 0 then Ch(x, y, z) else if t / 20 == 2 then Maj(x, y, z)
                             else Parity(x, y, z)
  {
    hide Ch, Maj, Parity;
  }

  /** Ch takes the bits of y where x is set and those of z elsewhere. */
  lemma ChooseSelects(x: Word, y: Word, z: Word)
    ensures (Ch(x, y, z) ^ y) & x == 0 && (Ch(x, y, z) ^ z) & !x == 0
  {
  }

  /** Maj agrees with x and y where these agree, and with z elsewhere. */
  lemma MajorityDecides(x: Word, y: Word, z: Word)
    ensures (Maj(x, y, z) ^ x) & !(x ^ y) == 0 && (Maj(x, y, z) ^ z) & (x ^ y) == 0
  {
  }

  /** Words are added modulo 2^32: in a round ... */
  lemma SumIs(v: Word, w: Word, x: Word, y: Word, z: Word)
    ensures Sum(v, w, x, y, z) == v + w + x + y + z
  {
  }

  lemma AddIs(x: Word, y: Word)
    ensures Add(x, y) == x + y
  {
  }

  /** ... and behind the last one. */
  lemma PlusIs(h: Hash, g: Hash)
    ensures Plus(h, g) == Hash(Add(h.a, g.a), Add(h.b, g.b), Add(h.c, g.c), Add(h.d, g.d), Add(h.e, g.e))
  {
    hide Add;
  }

  /** Four bytes make a word, the first one highest. */
  lemma WordIs(b0: Byte, b1: Byte, b2: Byte, b3: Byte)
    ensures FromBigEndian([b0, b1, b2, b3]) == WordValue(b0, b1, b2, b3)
  {
    assert [b0, b1, b2, b3][..3] == [b0, b1, b2] && [b0, b1, b2][..2] == [b0, b1] && [b0, b1][..1] == [b0];
    assert FromBigEndian([b0]) == b0;
    assert FromBigEndian([b0, b1]) == FromBigEndian([b0]) * 256 + b1;
    assert FromBigEndian([b0, b1, b2]) == FromBigEndian([b0, b1]) * 256 + b2;
  }

  /** The length of the message stands at its end as a 64-bit number. */
  lemma LengthIs(bits: nat)
    ensures Length64(bits) == BigEndian(bits, 8)
  {
    PowersOf256();
    BigEndianAt(bits, 8, 0);
    BigEndianAt(bits, 8, 1);
    BigEndianAt(bits, 8, 2);
    BigEndianAt(bits, 8, 3);
    BigEndianAt(bits, 8, 4);
    BigEndianAt(bits, 8, 5);
    BigEndianAt(bits, 8, 6);
    BigEndianAt(bits, 8, 7);
    hide BigEndian, Pow256;
  }

  lemma PowersOf256()
    ensures Pow256(0) == 1 && Pow256(1) == 0x100 && Pow256(2) == 0x1_0000 && Pow256(3) == 0x100_0000
    ensures Pow256(4) == 0x1_0000_0000 && Pow256(5) == 0x100_0000_0000 && Pow256(6) == 0x1_0000_0000_0000
    ensures Pow256(7) == 0x100_0000_0000_0000
  {
    assert Pow256(2) == 0x1_0000 && Pow256(4) == 0x1_0000_0000 && Pow256(6) == 0x1_0000_0000_0000;
  }

  /** The rotations of step 3 ... */
  lemma RoundRotates(h: Hash, t: nat, w: Word)
    ensures Round(h, t, w) == Hash(Sum(h.a.RotateLeft(5), F(t, h.b, h.c, h.d), h.e, K(t), w), h.a,
                                   h.b.RotateLeft(30), h.c, h.d)
  {
    RotateBy5(h.a);
    RotateBy30(h.b);
    hide Rotl5, Rotl30, F, K, Sum;
  }

  /** ... and of the message schedule. */
  lemma MixRotates(w3: Word, w8: Word, w14: Word, w16: Word)
    ensures Mix(w3, w8, w14, w16) == (w3 ^ w8 ^ w14 ^ w16).RotateLeft(1)
  {
    RotateBy1(w3 ^ w8 ^ w14 ^ w16);
    hide Rotl1;
  }

  lemma RotateBy1(x: Word)
    ensures Rotl1(x) == x.RotateLeft(1)
  {
  }

  lemma RotateBy5(x: Word)
    ensures Rotl5(x) == x.RotateLeft(5)
  {
  }

  lemma RotateBy30(x: Word)
    ensures Rotl30(x) == x.RotateLeft(30)
  {
  }

  // ---------------------------------------------------------------------------------
  // The boolean functions and the sum as the code writes them
  // ---------------------------------------------------------------------------------

  function F0(b: Word, c: Word, d: Word): Word { (b & c) | (!b & d) }
  function F1(b: Word, c: Word, d: Word): Word { (b ^ c) ^ d }
  function F2(b: Word, c: Word, d: Word): Word { (b & c) | (b & d) | (c & d) }

  /** The new value of `a` in round t, each of the four loops having its own function. */
  function CodedTemporary(a: Word, b: Word, c: Word, d: Word, e: Word, t: nat, w: Word): Word {
    var f := if t < 20 then F0(b, c, d) else if t < 40 then F1(b, c, d)
             else if t < 60 then F2(b, c, d) else F1(b, c, d);
    Sum(Rotl5(a), f, e, w, K(t))
  }

  lemma ChooseBits(b: Word, c: Word, d: Word)
    ensures (b & c) | (!b & d) == (b & c) ^ (!b & d)
  {
  }

  lemma MajorityBits(b: Word, c: Word, d: Word)
    ensures (b & c) | (b & d) | (c & d) == (b & c) ^ (b & d) ^ (c & d)
  {
  }

  lemma SumBits(v: Word, w: Word, x: Word, y: Word, z: Word)
    ensures v + w + x + y + z == v + w + x + z + y
  {
  }

  lemma ChooseIsCoded(b: Word, c: Word, d: Word)
    ensures F0(b, c, d) == Ch(b, c, d)
  {
    ChooseBits(b, c, d);
  }

  lemma ParityIsCoded(b: Word, c: Word, d: Word)
    ensures F1(b, c, d) == Parity(b, c, d)
  {
  }

  lemma MajorityIsCoded(b: Word, c: Word, d: Word)
    ensures F2(b, c, d) == Maj(b, c, d)
  {
    MajorityBits(b, c, d);
  }

  lemma BooleanFunctions(b: Word, c: Word, d: Word)
    ensures F0(b, c, d) == Ch(b, c, d) && F1(b, c, d) == Parity(b, c, d) && F2(b, c, d) == Maj(b, c, d)
  {
    hide *;
    ChooseIsCoded(b, c, d);
    ParityIsCoded(b, c, d);
    MajorityIsCoded(b, c, d);
  }

  lemma SumOrder(v: Word, w: Word, x: Word, y: Word, z: Word)
    ensures Sum(v, w, x, y, z) == Sum(v, w, x, z, y)
  {
    SumBits(v, w, x, y, z);
  }

  lemma TemporaryAsCoded(h: Hash, t: nat, w: Word)
    ensures CodedTemporary(h.a, h.b, h.c, h.d, h.e, t, w) == Temporary(h, t, w)
  {
    hide F0, F1, F2, Ch, Maj, Parity, Rotl5, K, Sum;
    BooleanFunctions(h.b, h.c, h.d);
    SumOrder(Rotl5(h.a), F(t, h.b, h.c, h.d), h.e, w, K(t));
  }

  // ---------------------------------------------------------------------------------
  // The circular schedule
  // ---------------------------------------------------------------------------------

  /** The index of the schedule word that slot i of the 16-word buffer holds before round t. */
  function Held(t: nat, i: nat): nat
    requires i < 16
  {
    if t < 16 then i else if i < t % 16 then t - t % 16 + i else t - t % 16 - 16 + i
  }

  lemma CircularSchedule(t: nat)
    requires t >= 16
    ensures var s := t % 16;
            && Held(t, s) == t - 16
            && Held(t, (s + 13) % 16) == t - 3
            && Held(t, (s + 8) % 16) == t - 8
            && Held(t, (s + 2) % 16) == t - 14
            && Held(t + 1, s) == t
            && forall i :: 0 <= i < 16 && i != s ==> Held(t + 1, i) == Held(t, i)
  {
    var s := t % 16;
    assert t == 16 * (t / 16) + s;
    if s < 15 {
      assert t + 1 == 16 * (t / 16) + (s + 1);
      assert (t + 1) % 16 == s + 1;
    } else {
      assert t + 1 == 16 * (t / 16 + 1);
      assert (t + 1) % 16 == 0;
    }
  }

  /** The buffer holds the schedule words before round t. */
  ghost predicate Circular(w: seq<Word>, block: seq<Byte>, t: nat)
    requires |block| == 64
  {
    |w| == 16 && forall i :: 0 <= i < 16 ==> w[i] == Schedule(block, Held(t, i))
  }

  /** What is left in slot t % 16 for round t, and what the buffer holds for the next one. */
  function Advanced(w: seq<Word>, t: nat): seq<Word>
    requires |w| == 16
  {
    var s := t % 16;
    if t < 16 then w
    else w[s := Mix(w[(s + 13) % 16], w[(s + 8) % 16], w[(s + 2) % 16], w[s])]
  }

  lemma ReadSlots(w: seq<Word>, block: seq<Byte>, t: nat)
    requires |block| == 64 && Circular(w, block, t) && t >= 16
    ensures var s := t % 16;
            && w[(s + 13) % 16] == Schedule(block, t - 3)
            && w[(s + 8) % 16] == Schedule(block, t - 8)
            && w[(s + 2) % 16] == Schedule(block, t - 14)
            && w[s] == Schedule(block, t - 16)
  {
    hide Schedule, Held;
    CircularSchedule(t);
  }

  lemma WriteSlot(w: seq<Word>, block: seq<Byte>, t: nat)
    requires |block| == 64 && Circular(w, block, t) && t >= 16
    ensures Circular(w[t % 16 := Schedule(block, t)], block, t + 1)
  {
    hide Schedule, Held;
    CircularSchedule(t);
  }

  lemma NewWord(w: seq<Word>, block: seq<Byte>, t: nat) returns (word: Word)
    requires |block| == 64 && Circular(w, block, t) && t >= 16
    ensures var s := t % 16;
            word == Mix(w[(s + 13) % 16], w[(s + 8) % 16], w[(s + 2) % 16], w[s])
    ensures word == Schedule(block, t)
  {
    ReadSlots(w, block, t);
    hide Schedule, Held, Mix, Circular;
    ScheduleRecursion(block, t);
    word := Schedule(block, t);
  }

  lemma LateStep(w: seq<Word>, block: seq<Byte>, t: nat)
    requires |block| == 64 && Circular(w, block, t) && t >= 16
    ensures Advanced(w, t) == w[t % 16 := Schedule(block, t)]
  {
    var word := NewWord(w, block, t);
    hide Schedule, Held, Mix, Circular;
  }

  lemma CircularStep(w: seq<Word>, block: seq<Byte>, t: nat)
    requires |block| == 64 && |w| == 16 && Circular(w, block, t)
    ensures Circular(Advanced(w, t), block, t + 1)
    ensures Advanced(w, t)[t % 16] == Schedule(block, t)
  {
    hide Schedule, Held, Mix, Circular, Advanced;
    if t >= 16 {
      LateStep(w, block, t);
      WriteSlot(w, block, t);
    } else {
      EarlySlots(w, block, t);
    }
  }

  lemma EarlySlots(w: seq<Word>, block: seq<Byte>, t: nat)
    requires |block| == 64 && Circular(w, block, t) && t < 16
    ensures Circular(w, block, t + 1) && w[t] == Schedule(block, t) && Advanced(w, t) == w
  {
    hide Schedule, Mix;
    FirstSixteen(t);
  }

  lemma FirstSixteen(t: nat)
    requires t < 16
    ensures Held(t, t) == t && forall i :: 0 <= i < 16 ==> Held(t + 1, i) == Held(t, i)
  {
  }

  lemma ScheduleRecursion(block: seq<Byte>, t: nat)
    requires |block| == 64 && t >= 16
    ensures Schedule(block, t) == Mix(Schedule(block, t - 3), Schedule(block, t - 8),
                                      Schedule(block, t - 14), Schedule(block, t - 16))
  {
    hide Mix, WordOf;
  }

  lemma AdvancedIs(w: seq<Word>, t: nat)
    requires |w| == 16
    ensures var s := t % 16;
            Advanced(w, t) ==
              if t < 16 then w else w[s := Mix(w[(s + 13) % 16], w[(s + 8) % 16], w[(s + 2) % 16], w[s])]
  {
  }

  lemma CompressIs(h: Hash, block: seq<Byte>)
    requires |block| == 64
    ensures Compress(h, block) == Plus(h, Rounds(h, block, 80))
  {
  }

  lemma FirstRound(h: Hash, block: seq<Byte>)
    requires |block| == 64
    ensures Rounds(h, block, 0) == h
  {
  }

  lemma RoundsStep(h: Hash, block: seq<Byte>, t: nat)
    requires |block| == 64
    ensures Rounds(h, block, t + 1) == Round(Rounds(h, block, t), t, Schedule(block, t))
  {
    hide Round, Schedule;
  }

  lemma RoundIs(g: Hash, t: nat, w: Word)
    ensures Round(g, t, w) == Hash(Temporary(g, t, w), g.a, Rotl30(g.b), g.c, g.d)
  {
    hide Temporary, Rotl30;
  }

  /** One turn of the loops: the buffer moves on, and the five words are those of the next round. */
  lemma NextRound(h: Hash, block: seq<Byte>, w: seq<Word>, t: nat, g: Hash, word: Word)
    requires |block| == 64 && |w| == 16 && Circular(w, block, t) && g == Rounds(h, block, t)
    requires word == Advanced(w, t)[t % 16]
    ensures Circular(Advanced(w, t), block, t + 1)
    ensures Hash(CodedTemporary(g.a, g.b, g.c, g.d, g.e, t, word), g.a, Rotl30(g.b), g.c, g.d)
            == Rounds(h, block, t + 1)
  {
    hide *;
    CircularStep(w, block, t);
    TemporaryAsCoded(g, t, word);
    RoundsStep(h, block, t);
    RoundIs(g, t, word);
  }

  lemma FirstWords(w: seq<Word>, block: seq<Byte>)
    requires |block| == 64 && |w| == 16
    requires forall i :: 0 <= i < 16 ==>
               w[i] == WordOf(block[4 * i], block[4 * i + 1], block[4 * i + 2], block[4 * i + 3])
    ensures Circular(w, block, 0)
  {
    hide WordOf;
  }

  // ---------------------------------------------------------------------------------
  // The streaming context
  // ---------------------------------------------------------------------------------

  /** The value of a context: hash words, bit counter, buffer and byte count. */
  datatype Value = Value(h: Hash, c: int, m: seq<Byte>, count: nat)

  /** The bytes behind the last whole block. */
  function Tail(data: seq<Byte>): (r: seq<Byte>)
    ensures |r| == |data| % 64
  {
    data[|data| - |data| % 64..]
  }

  /** The block buffer after feeding `data`: whole blocks hashed, the rest in front, then zeros. */
  function Fed(data: seq<Byte>): (Hash, seq<Byte>, nat) {
    (Absorb(data), Tail(data) + Zeros(64 - |Tail(data)|), |Tail(data)|)
  }

  /** The context after feeding `msg`, in however many pieces. */
  function Context(msg: seq<Byte>): Value {
    var (h, m, count) := Fed(msg);
    Value(h, 8 * |msg| % WORD64, m, count)
  }

  lemma FedPart(data: seq<Byte>, more: seq<Byte>)
    requires |Tail(data)| + |more| < 64
    ensures Absorb(data + more) == Absorb(data)
    ensures Tail(data + more) == Tail(data) + more
  {
    hide Absorb;
    SameQuotient(|data|, |more|);
    AbsorbPrefix(data, data + more);
    TailGrows(data, more);
  }

  lemma TailGrows(data: seq<Byte>, more: seq<Byte>)
    requires |Tail(data)| + |more| < 64 && |data + more| % 64 == |data| % 64 + |more|
    ensures Tail(data + more) == Tail(data) + more
  {
    var n := |data| - |data| % 64;
    assert (data + more)[n..] == data[n..] + more;
  }

  /** Only the whole blocks matter. */
  lemma AbsorbPrefix(data: seq<Byte>, all: seq<Byte>)
    requires data <= all && |data| - |data| % 64 == |all| - |all| % 64
    ensures Absorb(all) == Absorb(data)
  {
    hide Compress;
    var n := |data| - |data| % 64;
    if |data| >= 64 {
      assert all[..n - 64] == data[..n - 64] && all[n - 64..n] == data[n - 64..n];
    }
  }

  lemma SameQuotient(n: nat, k: nat)
    requires n % 64 + k < 64
    ensures (n + k) % 64 == n % 64 + k
  {
  }

  lemma AbsorbWhole(data: seq<Byte>)
    requires |data| >= 64 && |data| % 64 == 0
    ensures Absorb(data) == Compress(Absorb(data[..|data| - 64]), data[|data| - 64..])
  {
    hide Compress;
    assert data[|data| - 64..|data|] == data[|data| - 64..];
  }

  lemma AbsorbIgnoresTail(data: seq<Byte>)
    ensures Absorb(data[..|data| - |data| % 64]) == Absorb(data)
  {
    hide Compress, Absorb;
    var n := |data| - |data| % 64;
    NextMultiple(|data|, 64 - |data| % 64);
    FedPart(data[..n], data[n..]);
    assert data[..n] + data[n..] == data;
  }

  lemma NextMultiple(n: nat, k: nat)
    requires n % 64 + k == 64
    ensures (n + k) % 64 == 0 && (n - n % 64) % 64 == 0
  {
    assert n + k == 64 * (n / 64 + 1);
    assert n - n % 64 == 64 * (n / 64);
  }

  lemma FedBlock(data: seq<Byte>, more: seq<Byte>)
    requires |Tail(data)| + |more| == 64
    ensures Absorb(data + more) == Compress(Absorb(data), Tail(data) + more)
    ensures Tail(data + more) == []
  {
    hide Compress, Absorb;
    var all := data + more;
    var n := |data| - |data| % 64;
    NextMultiple(|data|, |more|);
    assert |all| == n + 64;
    AbsorbWhole(all);
    AbsorbIgnoresTail(data);
    assert all[..n] == data[..n];
    assert all[n..] == data[n..] + more;
  }

  /** What writing `more` behind the buffered bytes leaves to do: nothing, or one step. */
  lemma PutBytes(data: seq<Byte>, more: seq<Byte>, m: seq<Byte>)
    requires 0 < |more| && |Tail(data)| + |more| <= 64
    requires m == Tail(data) + more + Zeros(64 - |Tail(data)| - |more|)
    ensures var count := (|Tail(data)| + |more|) % 64;
            Fed(data + more) == if count == 0 then (Compress(Absorb(data), m), Zeros(64), 0)
                                else (Absorb(data), m, count)
  {
    hide Compress, Absorb;
    if |Tail(data)| + |more| < 64 {
      hide Tail;
      FedPart(data, more);
    } else {
      hide Tail;
      FedBlock(data, more);
      assert m == Tail(data) + more;
      assert [] + Zeros(64) == Zeros(64);
    }
  }

  lemma ContextParts(msg: seq<Byte>)
    ensures (Context(msg).h, Context(msg).m, Context(msg).count) == Fed(msg)
    ensures Context(msg).c == 8 * |msg| % WORD64
  {
  }

  lemma FedIs(data: seq<Byte>)
    ensures Fed(data) == (Absorb(data), Tail(data) + Zeros(64 - |Tail(data)|), |Tail(data)|)
  {
  }

  lemma FedCount(data: seq<Byte>)
    ensures Fed(data).2 == |data| % 64
  {
  }

  lemma BufferIsPartial(data: seq<Byte>)
    ensures Context(data).count == |data| % 64
  {
  }

  lemma EmptyHash()
    ensures Context([]).h == InitialHash() && Context([]).count == 0
  {
    NothingAbsorbed();
    hide Absorb, InitialHash;
  }

  lemma EmptyBuffer()
    ensures Context([]).m == Zeros(64)
  {
    hide Absorb, InitialHash;
    assert [] + Zeros(64) == Zeros(64);
  }

  lemma EmptyCounter()
    ensures Context([]).c == 0
  {
    hide Fed;
  }

  lemma EmptyContext()
    ensures Context([]) == Value(InitialHash(), 0, Zeros(64), 0)
  {
    EmptyHash();
    EmptyBuffer();
    EmptyCounter();
    hide *;
  }

  lemma AllZero(m: seq<Byte>)
    requires forall i :: 0 <= i < |m| ==> m[i] == 0
    ensures m == Zeros(|m|)
  {
  }

  lemma NothingAbsorbed()
    ensures Absorb([]) == InitialHash()
  {
    hide Compress, InitialHash;
  }

  class Sha1Context {
    var h: Hash
    var c: int
    var m: array<Byte>
    var count: nat

    ghost function Current(): Value
      reads this, m
    {
      Value(h, c, m[..], count)
    }

    ghost function Buffered(): (Hash, seq<Byte>, nat)
      reads this, m
    {
      (h, m[..], count)
    }

    /** sha1_init */
    constructor ()
      ensures m.Length == 64 && Current() == Context([]) && fresh(m)
    {
      hide InitialHash, Context, Zeros;
      h, c, count := InitialHash(), 0, 0;
      m := new Byte[64](_ => 0);
      new;
      EmptyContext();
      AllZero(m[..]);
    }

    /** sha1_step: hash the full buffer and clear it.  The buffer is read as big-endian words,
        which is what the byte swap of the little-endian build arranges. */
    method Step()
      requires m.Length == 64
      modifies this`h, m
      ensures h == Compress(old(h), old(m[..])) && m[..] == Zeros(64)
    {
      hide *;
      ghost var block := m[..];
      var w := ReadWords();
      FirstWords(w[..], block);
      FirstRound(h, block);
      var a, b, cc, d, e := h.a, h.b, h.c, h.d, h.e;
      for t := 0 to 80
        modifies w
        invariant Circular(w[..], block, t)
        invariant Hash(a, b, cc, d, e) == Rounds(h, block, t)
      {
        var s := t % 16;
        ghost var before := w[..];
        AdvancedIs(before, t);
        if t >= 16 {
          w[s] := Mix(w[(s + 13) % 16], w[(s + 8) % 16], w[(s + 2) % 16], w[s]);
        }
        assert w[..] == Advanced(before, t);
        NextRound(h, block, before, t, Hash(a, b, cc, d, e), w[s]);
        var tmp := CodedTemporary(a, b, cc, d, e, t, w[s]);
        e, d, cc, b, a := d, cc, Rotl30(b), a, tmp;
      }
      CompressIs(h, block);
      h := Plus(h, Hash(a, b, cc, d, e));
      forall i | 0 <= i < 64 {
        m[i] := 0;
      }
      AllZero(m[..]);
    }

    /** The buffer as big-endian words. */
    method ReadWords() returns (w: array<Word>)
      requires m.Length == 64
      ensures fresh(w) && w.Length == 16
      ensures forall i :: 0 <= i < 16 ==>
                w[i] == WordOf(m[..][4 * i], m[..][4 * i + 1], m[..][4 * i + 2], m[..][4 * i + 3])
    {
      hide WordOf;
      var b8 := m;
      w := new Word[16](i requires 0 <= i < 16 && b8.Length == 64 reads b8 =>
        WordOf(b8[4 * i], b8[4 * i + 1], b8[4 * i + 2], b8[4 * i + 3]));
    }

    /** PUTPAD */
    method PutPad(x: Byte, ghost data: seq<Byte>)
      requires m.Length == 64 && Buffered() == Fed(data)
      modifies this`h, this`count, m
      ensures Buffered() == Fed(data + [x])
    {
      hide Compress, Absorb, Tail;
      m[count % 64] := x;
      assert m[..] == Tail(data) + [x] + Zeros(64 - |Tail(data)| - 1);
      PutBytes(data, [x], m[..]);
      count := (count + 1) % 64;
      if count % 64 == 0 {
        Step();
      }
    }

    /** The bzero and the addition to COUNT with which sha1_pad skips `n` zero bytes. */
    method SkipZeros(n: nat, ghost data: seq<Byte>)
      requires m.Length == 64 && Buffered() == Fed(data) && count + n < 64
      modifies this`count, m
      ensures Buffered() == Fed(data + Zeros(n))
    {
      hide Compress, Absorb, Tail;
      forall i | count <= i < count + n {
        m[i] := 0;
      }
      FedPart(data, Zeros(n));
      assert m[..] == Tail(data) + Zeros(n) + Zeros(64 - |Tail(data)| - n);
      count := (count + n) % 64;
    }

    /** The zero fill of a block without room for the length, and its step. */
    method SkipToEnd(n: nat, ghost data: seq<Byte>)
      requires m.Length == 64 && Buffered() == Fed(data) && 0 < n && count + n == 64
      modifies this`h, this`count, m
      ensures Buffered() == Fed(data + Zeros(n)) && count == 0
    {
      hide Compress, Absorb, Tail;
      forall i | count <= i < 64 {
        m[i] := 0;
      }
      assert m[..] == Tail(data) + Zeros(n) + Zeros(0);
      PutBytes(data, Zeros(n), m[..]);
      count := (count + n) % 64;
      Step();
    }

    /** sha1_pad */
    method Pad(ghost msg: seq<Byte>)
      requires m.Length == 64 && Current() == Context(msg) && 8 * |msg| < WORD64
      modifies this`h, this`count, m
      ensures Buffered() == Fed(Padded(msg))
    {
      ContextParts(msg);
      hide Compress, Absorb, Tail, Padded, Length64, Fed, Context;
      PutPad(0x80, msg);
      ghost var data := msg + [0x80];
      FedCount(data);
      ghost var zeros := 0;
      var padstart := count % 64;
      var padlen := 64 - padstart;
      if padlen < 8 {
        zeros := padlen;
        SkipToEnd(padlen, data);
        FedCount(data + Zeros(padlen));
        padstart := count % 64;
        padlen := 64 - padstart;
      }
      assert data + Zeros(0) == data;
      SkipZeros(padlen - 8, data + Zeros(zeros));
      PaddingIs(msg, zeros, padlen - 8);
      PutLength(data + Zeros(zeros) + Zeros(padlen - 8));
    }

    method PutLength(ghost data: seq<Byte>)
      requires m.Length == 64 && Buffered() == Fed(data) && c >= 0
      modifies this`h, this`count, m
      ensures Buffered() == Fed(data + Length64(c))
    {
      hide Compress, Absorb, Tail, Fed;
      ghost var all := Length64(c);
      assert data + all[..0] == data;
      for i := 0 to 8
        modifies this`h, this`count, m
        invariant Buffered() == Fed(data + all[..i])
      {
        assert all[i] == Octet(c, 7 - i);
        PutPad(Octet(c, 7 - i), data + all[..i]);
        assert data + all[..i] + [all[i]] == data + all[..i + 1];
      }
      assert all[..8] == all;
    }

    /** The body of sha1_loop: one memcpy into the gap, and a step if that fills the block. */
    method FillGap(piece: seq<Byte>, ghost data: seq<Byte>)
      requires m.Length == 64 && Current() == Context(data)
      requires 0 < |piece| <= 64 - count
      modifies this`h, this`c, this`count, m
      ensures Current() == Context(data + piece)
    {
      ContextParts(data);
      FedIs(data);
      ContextParts(data + piece);
      hide Compress, Absorb, Tail, Fed, Context;
      var gapstart := count % 64;
      forall i | 0 <= i < |piece| {
        m[gapstart + i] := piece[i];
      }
      assert m[..] == Tail(data) + piece + Zeros(64 - |Tail(data)| - |piece|);
      PutBytes(data, piece, m[..]);
      BitCount(|data|, |piece|);
      count := (count + |piece|) % 64;
      c := (c + |piece| * 8) % WORD64;
      if count % 64 == 0 {
        Step();
      }
    }

    /** sha1_loop */
    method Loop(input: seq<Byte>, ghost msg: seq<Byte>)
      requires m.Length == 64 && Current() == Context(msg)
      modifies this`h, this`c, this`count, m
      ensures Current() == Context(msg + input)
    {
      hide Fed;
      var off := 0;
      assert msg + input[..0] == msg;
      while off < |input|
        modifies this`h, this`c, this`count, m
        invariant off <= |input|
        invariant Current() == Context(msg + input[..off])
      {
        BufferIsPartial(msg + input[..off]);
        var gaplen := 64 - count % 64;
        var copysiz := if gaplen < |input| - off then gaplen else |input| - off;
        FillGap(input[off..off + copysiz], msg + input[..off]);
        assert msg + input[..off] + input[off..off + copysiz] == msg + input[..off + copysiz];
        off := off + copysiz;
      }
      assert input[..off] == input;
    }

    /** sha1_result */
    method Result(ghost msg: seq<Byte>) returns (digest: seq<Byte>)
      requires m.Length == 64 && Current() == Context(msg) && 8 * |msg| < WORD64
      modifies this`h, this`count, m
      ensures digest == Digest(msg)
    {
      Pad(msg);
      digest := HashBytes(h);
    }
  }

  lemma BitCount(n: nat, k: nat)
    ensures (8 * n % WORD64 + k * 8) % WORD64 == 8 * (n + k) % WORD64
  {
  }

  /** Both branches of sha1_pad arrive at the padding of the standard. */
  lemma PaddingIs(msg: seq<Byte>, zeros: nat, rest: nat)
    requires var n := (|msg| + 1) % 64;
             if n > 56 then zeros == 64 - n && rest == 56 else zeros == 0 && rest == 56 - n
    ensures msg + [0x80] + Zeros(zeros) + Zeros(rest) + Length64(8 * |msg|) == Padded(msg)
  {
    PadSplit(|msg|, zeros, rest);
    assert Zeros(zeros) + Zeros(rest) == Zeros(zeros + rest);
    assert msg + [0x80] + Zeros(zeros) + Zeros(rest) == msg + [0x80] + (Zeros(zeros) + Zeros(rest));
  }

  lemma PadSplit(l: nat, zeros: nat, rest: nat)
    requires var n := (l + 1) % 64;
             if n > 56 then zeros == 64 - n && rest == 56 else zeros == 0 && rest == 56 - n
    ensures zeros + rest == (55 - l) % 64
  {
    var q := (l + 1) / 64;
    assert l + 1 == 64 * q + (l + 1) % 64;
    assert 55 - l == 56 - (l + 1) % 64 - 64 * q;
  }

  /** SHA1, for every message whose length in bits fits the 64-bit counter. */
  method SHA1(d: seq<Byte>) returns (md: seq<Byte>)
    requires 8 * |d| < WORD64
    ensures md == Digest(d)
  {
    hide *;
    var ctx := new Sha1Context();
    ctx.Loop(d, []);
    assert [] + d == d;
    md := ctx.Result(d);
  }
}
