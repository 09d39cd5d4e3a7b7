/** The base64 codec of the WebSocket handshake (base64.cpp) against section 4 of RFC 4648. */
module Base64 {
  import opened Bytes

  type Sextet = k: int | 0 <= k < 64

  /** '=' */
  const PAD: Byte := 61

  /** base64_chars[k] as a character code: A to Z, a to z, 0 to 9, + and /. */
  function Digit(k: Sextet): Byte {
    if k < 26 then 65 + k else if k < 52 then 71 + k else if k < 62 then k - 4 else if k == 62 then 43 else 47
  }

  predicate IsBase64(c: Byte) {
    65 <= c <= 90 || 97 <= c <= 122 || 48 <= c <= 57 || c == 43 || c == 47
  }

  /** find in the alphabet; npos, cut to a byte, for any other character. */
  function Find(c: Byte): (k: Byte)
    ensures IsBase64(c) <==> k < 64
    ensures IsBase64(c) ==> Digit(k) == c
    ensures !IsBase64(c) ==> k == 255
  {
    if 65 <= c <= 90 then c - 65 else if 97 <= c <= 122 then c - 71 else if 48 <= c <= 57 then c + 4
    else if c == 43 then 62 else if c == 47 then 63 else 255
  }

  /** Table 1 of RFC 4648. */
  lemma DigitsAreTheAlphabet(k: Sextet)
    ensures Digit(k) as char == if k < 26 then 'A' + k as char else if k < 52 then 'a' + (k - 26) as char
                                else if k < 62 then '0' + (k - 52) as char else "+/"[k - 62]
  {
  }

  lemma FindDigit(k: Sextet)
    ensures IsBase64(Digit(k)) && Find(Digit(k)) == k && Digit(k) != PAD
  {
  }

  // ---------------------------------------------------------------------------------
  // Section 4 of RFC 4648
  // ---------------------------------------------------------------------------------

  /** A 24-bit group as four 6-bit groups. */
  function Quad(n: nat): (r: seq<Byte>)
    requires n < 0x100_0000
    ensures |r| == 4
  {
    [Digit(n / 0x4_0000), Digit(n / 0x1000 % 64), Digit(n / 64 % 64), Digit(n % 64)]
  }

  function Number(g: seq<Byte>): (n: nat)
    requires |g| == 3
    ensures n < 0x100_0000
  {
    0x1_0000 * (g[0] as int) + 0x100 * (g[1] as int) + g[2]
  }

  /** The first g groups of three bytes. */
  function Groups(b: seq<Byte>, g: nat): (r: seq<Byte>)
    requires 3 * g <= |b|
    ensures |r| == 4 * g
  {
    if g == 0 then [] else Groups(b, g - 1) + Quad(Number(b[3 * g - 3..3 * g]))
  }

  /** The final group: bits are padded with zeros, characters with '='. */
  function Tail(t: seq<Byte>): seq<Byte>
    requires |t| < 3
  {
    if t == [] then []
    else if |t| == 1 then Quad(Number(t + [0, 0]))[..2] + [PAD, PAD]
    else Quad(Number(t + [0]))[..3] + [PAD]
  }

  function Rfc4648(b: seq<Byte>): (r: seq<Byte>)
    ensures |r| == (|b| + 2) / 3 * 4
  {
    var g := |b| / 3;
    Groups(b, g) + Tail(b[3 * g..])
  }

  // ---------------------------------------------------------------------------------
  // base64_encode
  // ---------------------------------------------------------------------------------

  /** The four sextets that the code's masks and shifts make of three bytes. */
  function Split(g: seq<Byte>): (r: seq<Sextet>)
    requires |g| == 3
    ensures |r| == 4
  {
    [g[0] / 4, g[0] % 4 * 16 + g[1] / 16, g[1] % 16 * 4 + g[2] / 64, g[2] % 64]
  }

  lemma Sextets(p: Sextet, q: Sextet, r: Sextet, s: Sextet)
    ensures var n := 0x4_0000 * (p as int) + 0x1000 * (q as int) + 64 * (r as int) + s;
            n / 0x4_0000 == p && n / 0x1000 % 64 == q && n / 64 % 64 == r && n % 64 == s
  {
    var n := 0x4_0000 * (p as int) + 0x1000 * (q as int) + 64 * (r as int) + s;
    assert n / 64 == 0x1000 * (p as int) + 64 * (q as int) + r;
    assert n / 0x1000 == 64 * (p as int) + q;
  }

  lemma SplitIsQuad(g: seq<Byte>)
    requires |g| == 3
    ensures Quad(Number(g)) == [Digit(Split(g)[0]), Digit(Split(g)[1]), Digit(Split(g)[2]), Digit(Split(g)[3])]
  {
    hide Digit;
    var d := Split(g);
    assert Number(g) == 0x4_0000 * (d[0] as int) + 0x1000 * (d[1] as int) + 64 * (d[2] as int) + d[3];
    Sextets(d[0], d[1], d[2], d[3]);
  }

  /** The first n characters of a group. */
  function Digits(d: seq<Sextet>, n: nat): (r: seq<Byte>)
    requires n <= |d|
    ensures |r| == n
  {
    seq(n, k requires 0 <= k < n => Digit(d[k]))
  }

  /** The loops over char_array_4. */
  method PutDigits(before: seq<Byte>, d: seq<Sextet>, n: nat) returns (ret: seq<Byte>)
    requires n <= |d|
    ensures ret == before + Digits(d, n)
  {
    hide Digit;
    ret := before;
    for j := 0 to n
      invariant ret == before + Digits(d, j)
    {
      ret := ret + [Digit(d[j])];
    }
  }

  /** One turn of the encoder's loop: a byte goes into char_array_3, and a full group out. */
  method PutByte(charArray3: array<Byte>, i: nat, b: Byte, ret: seq<Byte>) returns (i': nat, ret': seq<Byte>)
    requires charArray3.Length == 3 && i < 3
    modifies charArray3
    ensures i < 2 ==> i' == i + 1 && ret' == ret && charArray3[..i'] == old(charArray3[..i]) + [b]
    ensures i == 2 ==> i' == 0 && ret' == ret + Digits(Split(old(charArray3[..2]) + [b]), 4)
  {
    hide Split, Digits;
    charArray3[i] := b;
    i', ret' := i + 1, ret;
    if i' == 3 {
      assert charArray3[..] == old(charArray3[..2]) + [b];
      ret' := PutDigits(ret, Split(charArray3[..]), 4);
      i' := 0;
    }
  }

  method Encode(bytes: seq<Byte>) returns (ret: seq<Byte>)
    ensures ret == Rfc4648(bytes)
  {
    ret := [];
    var charArray3 := new Byte[3];
    var i := 0;
    ghost var g := 0;
    hide *;
    assert Groups(bytes, 0) == [] by {
      NoGroups(bytes);
    }
    for n := 0 to |bytes|
      invariant 0 <= i < 3 && n == 3 * g + i
      invariant charArray3[..i] == bytes[3 * g..n]
      invariant ret == Groups(bytes, g)
    {
      assert bytes[3 * g..n + 1] == bytes[3 * g..n] + [bytes[n]];
      if i == 2 {
        OneGroup(bytes, g);
        g := g + 1;
      }
      i, ret := PutByte(charArray3, i, bytes[n], ret);
    }
    AllGroups(bytes, g, i);
    if i > 0 {
      ret := EncodeTail(ret, charArray3, i, bytes[3 * g..]);
    }
  }

  lemma NoGroups(bytes: seq<Byte>)
    ensures Groups(bytes, 0) == []
  {
  }

  lemma AllGroups(bytes: seq<Byte>, g: nat, i: nat)
    requires i < 3 && |bytes| == 3 * g + i
    ensures Rfc4648(bytes) == Groups(bytes, g) + Tail(bytes[3 * g..])
    ensures i == 0 ==> Rfc4648(bytes) == Groups(bytes, g)
  {
    hide Groups;
    assert |bytes| / 3 == g;
  }

  /** The end of base64_encode. */
  method EncodeTail(before: seq<Byte>, charArray3: array<Byte>, i: nat, ghost t: seq<Byte>) returns (ret: seq<Byte>)
    requires charArray3.Length == 3 && 0 < i < 3 && charArray3[..i] == t
    modifies charArray3
    ensures ret == before + Tail(t)
  {
    for j := i to 3
      invariant charArray3[..i] == t
      invariant forall k :: i <= k < j ==> charArray3[k] == 0
    {
      charArray3[j] := 0;
    }
    TailGroup(t, charArray3[..]);
    hide Split, Digits, Tail;
    ret := PutDigits(before, Split(charArray3[..]), i + 1);
    ghost var digits := ret;
    var padded := i;
    while padded < 3
      invariant i <= padded <= 3
      invariant ret == digits + seq(padded - i, k => PAD)
    {
      padded := padded + 1;
      ret := ret + [PAD];
    }
  }

  lemma OneGroup(bytes: seq<Byte>, g: nat)
    requires 3 * g + 3 <= |bytes|
    ensures Groups(bytes, g + 1) == Groups(bytes, g) + Digits(Split(bytes[3 * g..3 * g + 3]), 4)
  {
    hide Number, Split, Quad, Digit;
    SplitIsQuad(bytes[3 * g..3 * g + 3]);
  }

  lemma TailGroup(t: seq<Byte>, padded: seq<Byte>)
    requires 0 < |t| < 3 && |padded| == 3 && padded[..|t|] == t && forall k :: |t| <= k < 3 ==> padded[k] == 0
    ensures var d := Split(padded);
            Tail(t) == Digits(d, |t| + 1) + seq(3 - |t|, k => PAD)
  {
    SplitIsQuad(padded);
    assert padded == if |t| == 1 then t + [0, 0] else t + [0];
  }

  // ---------------------------------------------------------------------------------
  // base64_decode
  // ---------------------------------------------------------------------------------

  /** Decoding stops at '=' and at any other character outside the alphabet. */
  function PrefixLength(s: seq<Byte>): (n: nat)
    ensures n <= |s|
  {
    if s == [] || !IsBase64(s[0]) then 0 else 1 + PrefixLength(s[1..])
  }

  /** The three bytes that the code's shifts make of four values, cut to a byte each. */
  function Join(q: seq<Byte>): (r: seq<Byte>)
    requires |q| == 4
    ensures |r| == 3
  {
    [(q[0] as int * 4 + q[1] / 16 % 4) % 256,
     (q[1] as int % 16 * 16 + q[2] / 4 % 16) % 256,
     (q[2] as int % 4 * 64 + q[3]) % 256]
  }

  function Found(t: seq<Byte>): (r: seq<Byte>)
    ensures |r| == |t|
  {
    seq(|t|, k requires 0 <= k < |t| => Find(t[k]))
  }

  function DecodedGroups(t: seq<Byte>, g: nat): (r: seq<Byte>)
    requires 4 * g <= |t|
    ensures |r| == 3 * g
  {
    if g == 0 then [] else DecodedGroups(t, g - 1) + Join(Found(t[4 * g - 4..4 * g]))
  }

  /** A partial group is filled up with NULs, which are not in the alphabet. */
  function DecodedTail(t: seq<Byte>): seq<Byte>
    requires |t| < 4
  {
    if t == [] then [] else Join(Found(t + seq(4 - |t|, k => 0)))[..|t| - 1]
  }

  function Decoded(t: seq<Byte>): seq<Byte> {
    var g := |t| / 4;
    DecodedGroups(t, g) + DecodedTail(t[4 * g..])
  }

  /** One turn of the decoder's loop. */
  method PutChar(charArray4: array<Byte>, i: nat, c: Byte, ret: seq<Byte>) returns (i': nat, ret': seq<Byte>)
    requires charArray4.Length == 4 && i < 4
    modifies charArray4
    ensures i < 3 ==> i' == i + 1 && ret' == ret && charArray4[..i'] == old(charArray4[..i]) + [c]
    ensures i == 3 ==> i' == 0 && ret' == ret + Join(Found(old(charArray4[..3]) + [c]))
  {
    hide Join, Found;
    charArray4[i] := c;
    i', ret' := i + 1, ret;
    if i' == 4 {
      assert charArray4[..] == old(charArray4[..3]) + [c];
      ret' := ret + Join(Found(charArray4[..]));
      i' := 0;
    }
  }

  method Decode(encoded: seq<Byte>) returns (ret: seq<Byte>)
    ensures ret == Decoded(encoded[..PrefixLength(encoded)])
  {
    hide *;
    ret := [];
    var charArray4 := new Byte[4];
    var i, n := 0, 0;
    ghost var g, group := 0, [];
    DecodingStarts(encoded);
    while n < |encoded| && encoded[n] != PAD && IsBase64(encoded[n])
      invariant 0 <= i < 4 && 0 <= n <= |encoded| && charArray4[..i] == group
      invariant Decoding(encoded, n, g, i, group, ret)
    {
      DecodingTurn(encoded, n, g, i, group, ret);
      group := if i == 3 then [] else group + [encoded[n]];
      g := if i == 3 then g + 1 else g;
      i, ret := PutChar(charArray4, i, encoded[n], ret);
      n := n + 1;
    }
    DecodingEnds(encoded, n, g, i, group, ret);
    if i > 0 {
      ret := DecodeTail(ret, charArray4, i, group);
    }
  }

  /** After n characters: g groups are decoded and i characters of the next one are waiting. */
  ghost predicate Decoding(s: seq<Byte>, n: nat, g: nat, i: nat, group: seq<Byte>, ret: seq<Byte>) {
    && i < 4 && n == 4 * g + i <= |s|
    && group == s[4 * g..n] && ret == DecodedGroups(s, g) && AllBase64(s, n)
  }

  lemma DecodingStarts(s: seq<Byte>)
    ensures Decoding(s, 0, 0, 0, [], [])
  {
    hide IsBase64;
  }

  lemma DecodingTurn(s: seq<Byte>, n: nat, g: nat, i: nat, group: seq<Byte>, ret: seq<Byte>)
    requires Decoding(s, n, g, i, group, ret) && n < |s| && IsBase64(s[n])
    ensures i < 3 ==> Decoding(s, n + 1, g, i + 1, group + [s[n]], ret)
    ensures i == 3 ==> |group| == 3 && Decoding(s, n + 1, g + 1, 0, [], ret + Join(Found(group + [s[n]])))
  {
    hide DecodedGroups, Join, Found, IsBase64, AllBase64;
    DecodeTurn(s, g, i, n);
  }

  lemma DecodingEnds(s: seq<Byte>, n: nat, g: nat, i: nat, group: seq<Byte>, ret: seq<Byte>)
    requires Decoding(s, n, g, i, group, ret) && (n < |s| ==> s[n] == PAD || !IsBase64(s[n]))
    ensures |group| == i < 4
    ensures Decoded(s[..PrefixLength(s)]) == if i == 0 then ret else ret + DecodedTail(group)
  {
    hide DecodedGroups, DecodedTail, Decoded, IsBase64, AllBase64;
    PrefixEnd(s, n);
    AllDecodedGroups(s, n, g, i);
  }

  /** The end of base64_decode. */
  method DecodeTail(before: seq<Byte>, charArray4: array<Byte>, i: nat, ghost t: seq<Byte>) returns (ret: seq<Byte>)
    requires charArray4.Length == 4 && 0 < i < 4 && charArray4[..i] == t
    modifies charArray4
    ensures ret == before + DecodedTail(t)
  {
    hide Find, Join;
    for j := i to 4
      invariant charArray4[..i] == t
      invariant forall k :: i <= k < j ==> charArray4[k] == 0
    {
      charArray4[j] := 0;
    }
    assert charArray4[..] == t + seq(4 - |t|, k => 0);
    ret := before + Join(Found(charArray4[..]))[..i - 1];
  }

  ghost predicate AllBase64(s: seq<Byte>, n: nat) {
    n <= |s| && forall k :: 0 <= k < n ==> IsBase64(s[k])
  }

  lemma DecodeTurn(s: seq<Byte>, g: nat, i: nat, n: nat)
    requires n < |s| && i < 4 && n == 4 * g + i && AllBase64(s, n) && IsBase64(s[n])
    ensures AllBase64(s, n + 1)
    ensures s[4 * g..n + 1] == s[4 * g..n] + [s[n]]
    ensures i == 3 ==> s[4 * (g + 1)..n + 1] == []
                       && DecodedGroups(s, g + 1) == DecodedGroups(s, g) + Join(Found(s[4 * g..n] + [s[n]]))
  {
    hide Join, Found, IsBase64;
    OneMoreBase64(s, n);
    if i == 3 {
      OneDecodedGroup(s, g);
      assert s[4 * g..4 * g + 4] == s[4 * g..n] + [s[n]];
    }
  }

  lemma OneMoreBase64(s: seq<Byte>, n: nat)
    requires AllBase64(s, n) && n < |s| && IsBase64(s[n])
    ensures AllBase64(s, n + 1)
  {
  }

  /** The prefix ends where the alphabet is first left. */
  lemma {:induction false} PrefixEnd(s: seq<Byte>, n: nat)
    requires AllBase64(s, n) && (n < |s| ==> s[n] == PAD || !IsBase64(s[n]))
    ensures PrefixLength(s) == n
    decreases n
  {
    if n > 0 {
      PrefixEnd(s[1..], n - 1);
    }
  }

  lemma OneDecodedGroup(s: seq<Byte>, g: nat)
    requires 4 * g + 4 <= |s|
    ensures DecodedGroups(s, g + 1) == DecodedGroups(s, g) + Join(Found(s[4 * g..4 * g + 4]))
  {
  }

  lemma {:induction false} GroupsOfPrefix(s: seq<Byte>, n: nat, g: nat)
    requires 4 * g <= n <= |s|
    ensures DecodedGroups(s[..n], g) == DecodedGroups(s, g)
  {
    hide Join, Found;
    if g > 0 {
      GroupsOfPrefix(s, n, g - 1);
      assert s[..n][4 * g - 4..4 * g] == s[4 * g - 4..4 * g];
    }
  }

  lemma AllDecodedGroups(s: seq<Byte>, n: nat, g: nat, i: nat)
    requires i < 4 && n == 4 * g + i <= |s|
    ensures Decoded(s[..n]) == DecodedGroups(s, g) + DecodedTail(s[4 * g..n])
    ensures i == 0 ==> Decoded(s[..n]) == DecodedGroups(s, g)
  {
    GroupsOfPrefix(s, n, g);
    hide DecodedGroups;
    assert |s[..n]| / 4 == g;
    assert s[..n][4 * g..] == s[4 * g..n];
  }

  // ---------------------------------------------------------------------------------
  // Round trip
  // ---------------------------------------------------------------------------------

  lemma JoinSplit(g: seq<Byte>)
    requires |g| == 3
    ensures Join(Split(g)) == g
  {
    JoinBytes(g[0], g[1], g[2]);
  }

  lemma JoinBytes(a: Byte, b: Byte, c: Byte)
    ensures (a / 4 * 4 + (a % 4 * 16 + b / 16) / 16 % 4) % 256 == a
    ensures ((a % 4 * 16 + b / 16) % 16 * 16 + (b % 16 * 4 + c / 64) / 4 % 16) % 256 == b
    ensures ((b % 16 * 4 + c / 64) % 4 * 64 + c % 64) % 256 == c
  {
    JoinFirst(a, b);
    JoinSecond(a, b, c);
    JoinThird(b, c);
  }

  lemma JoinFirst(a: Byte, b: Byte)
    ensures (a / 4 * 4 + (a % 4 * 16 + b / 16) / 16 % 4) % 256 == a
  {
    assert (a % 4 * 16 + b / 16) / 16 == a % 4;
  }

  lemma JoinSecond(a: Byte, b: Byte, c: Byte)
    ensures ((a % 4 * 16 + b / 16) % 16 * 16 + (b % 16 * 4 + c / 64) / 4 % 16) % 256 == b
  {
    assert (a % 4 * 16 + b / 16) % 16 == b / 16;
    assert (b % 16 * 4 + c / 64) / 4 == b % 16;
  }

  lemma JoinThird(b: Byte, c: Byte)
    ensures ((b % 16 * 4 + c / 64) % 4 * 64 + c % 64) % 256 == c
  {
    assert (b % 16 * 4 + c / 64) % 4 == c / 64;
  }

  /** The first bytes of a group need only the sextets that hold them. */
  lemma JoinPartial(g: seq<Byte>, q: seq<Byte>, n: nat)
    requires |g| == 3 && |q| == 4 && 0 < n < 3
    requires q[..n + 1] == Split(g)[..n + 1] && forall k :: n <= k < 3 ==> g[k] == 0
    ensures Join(q)[..n] == g[..n]
  {
    JoinSplit(g);
    var d := Split(g);
    assert q[0] == q[..n + 1][0] == d[0] && q[1] == q[..n + 1][1] == d[1];
    if n == 2 {
      assert q[2] == q[..n + 1][2] == d[2];
    }
  }

  lemma FoundDigits(d: seq<Sextet>, n: nat)
    requires n <= |d|
    ensures Found(Digits(d, n)) == d[..n]
  {
    hide Find, Digit;
    forall k | 0 <= k < n ensures Find(Digit(d[k])) == d[k] {
      FindDigit(d[k]);
    }
  }

  lemma {:induction false} GroupsRoundTrip(b: seq<Byte>, g: nat, rest: seq<Byte>)
    requires 3 * g <= |b|
    ensures DecodedGroups(Groups(b, g) + rest, g) == b[..3 * g]
    decreases g
  {
    if g > 0 {
      var h := g - 1;
      var group := b[3 * h..3 * h + 3];
      var quad := Digits(Split(group), 4);
      hide *;
      OneGroup(b, h);
      Regroup(Groups(b, h), quad, rest);
      GroupsRoundTrip(b, h, quad + rest);
      QuadRoundTrip(group);
      OneDecodedGroup(Groups(b, g) + rest, h);
      assert b[..3 * g] == b[..3 * h] + group;
    }
  }

  lemma Regroup(a: seq<Byte>, quad: seq<Byte>, rest: seq<Byte>)
    requires |quad| == 4
    ensures (a + quad) + rest == a + (quad + rest) && ((a + quad) + rest)[|a|..|a| + 4] == quad
  {
  }

  lemma QuadRoundTrip(group: seq<Byte>)
    requires |group| == 3
    ensures Join(Found(Digits(Split(group), 4))) == group
  {
    hide Split, Digits, Join, Found;
    FoundDigits(Split(group), 4);
    assert Split(group)[..4] == Split(group);
    JoinSplit(group);
  }

  lemma {:induction false} GroupsAreBase64(b: seq<Byte>, g: nat)
    requires 3 * g <= |b|
    ensures AllBase64(Groups(b, g), 4 * g)
  {
    hide IsBase64;
    if g > 0 {
      GroupsAreBase64(b, g - 1);
      OneGroup(b, g - 1);
      DigitsAreBase64(Split(b[3 * g - 3..3 * g]), 4);
    }
  }

  lemma DigitsAreBase64(d: seq<Sextet>, n: nat)
    requires n <= |d|
    ensures forall k :: 0 <= k < n ==> IsBase64(Digits(d, n)[k])
  {
    forall k | 0 <= k < n ensures IsBase64(Digits(d, n)[k]) {
      FindDigit(d[k]);
    }
  }

  /** The tail without its padding. */
  function Unpadded(t: seq<Byte>): (r: seq<Byte>)
    requires |t| < 3
    ensures |r| == if t == [] then 0 else |t| + 1
  {
    if t == [] then [] else Digits(Split(t + seq(3 - |t|, k => 0)), |t| + 1)
  }

  lemma TailIsUnpadded(t: seq<Byte>)
    requires |t| < 3
    ensures Tail(t) == Unpadded(t) + Padding(t)
    ensures AllBase64(Unpadded(t), |Unpadded(t)|)
  {
    if t != [] {
      var padded := t + seq(3 - |t|, k => 0);
      assert padded[..|t|] == t;
      TailGroup(t, padded);
      DigitsAreBase64(Split(padded), |t| + 1);
    }
  }

  lemma TailRoundTrip(t: seq<Byte>)
    requires |t| < 3
    ensures DecodedTail(Unpadded(t)) == t
  {
    if t != [] {
      var n := |t|;
      var padded := t + seq(3 - n, k => 0);
      var digits := Digits(Split(padded), n + 1);
      var q := Found(digits + seq(4 - (n + 1), k => 0));
      FoundDigits(Split(padded), n + 1);
      hide Split, Digits, Join, Find;
      assert q[..n + 1] == Found(digits);
      JoinPartial(padded, q, n);
      assert padded[..n] == t;
    }
  }

  /** base64_decode(base64_encode(x)) == x */
  lemma RoundTrip(x: seq<Byte>)
    ensures var text := Rfc4648(x); Decoded(text[..PrefixLength(text)]) == x
  {
    hide *;
    var g := |x| / 3;
    var t := x[3 * g..];
    var whole, tail, rest := Groups(x, g), Unpadded(t), Padding(t);
    Parts(x);
    TailIsUnpadded(t);
    GroupsAreBase64(x, g);
    TailRoundTrip(t);
    TextPrefix(whole, tail, rest);
    GroupsRoundTrip(x, g, tail);
    DecodedParts(whole, tail, rest, g);
    assert x == x[..3 * g] + t;
  }

  function Padding(t: seq<Byte>): seq<Byte>
    requires |t| < 3
  {
    if t == [] then [] else seq(3 - |t|, k => PAD)
  }

  lemma Parts(x: seq<Byte>)
    ensures var g := |x| / 3;
            var t := x[3 * g..];
            && Rfc4648(x) == Groups(x, g) + Unpadded(t) + Padding(t)
            && |Unpadded(t)| < 4 && (Padding(t) == [] || Padding(t)[0] == PAD)
  {
    var g := |x| / 3;
    var t := x[3 * g..];
    TailIsUnpadded(t);
    hide Groups, Tail, Unpadded, AllBase64;
    assert Groups(x, g) + Unpadded(t) + Padding(t) == Groups(x, g) + (Unpadded(t) + Padding(t));
  }

  lemma DecodedParts(whole: seq<Byte>, tail: seq<Byte>, rest: seq<Byte>, g: nat)
    requires |whole| == 4 * g && |tail| < 4
    ensures (whole + tail + rest)[..|whole + tail|] == whole + tail
    ensures Decoded(whole + tail) == DecodedGroups(whole + tail, g) + DecodedTail(tail)
  {
    hide DecodedGroups, DecodedTail, Decoded;
    AllDecodedGroups(whole + tail, |whole + tail|, g, |tail|);
    assert (whole + tail)[..|whole + tail|] == whole + tail;
    assert (whole + tail)[4 * g..|whole + tail|] == tail;
    if tail == [] {
      EmptyTail();
    }
  }

  lemma EmptyTail()
    ensures DecodedTail([]) == []
  {
  }

  lemma TextPrefix(a: seq<Byte>, b: seq<Byte>, rest: seq<Byte>)
    requires AllBase64(a, |a|) && AllBase64(b, |b|) && (rest == [] || rest[0] == PAD)
    ensures PrefixLength(a + b + rest) == |a + b|
  {
    hide IsBase64;
    PrefixEnd(a + b + rest, |a + b|);
  }
}
