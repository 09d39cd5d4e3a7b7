/** The Python client's command encoder (koheron.py), and what of it the server reads back. */
module KoheronClient {
  import opened Bytes
  import opened WireFormat

  // ---------------------------------------------------------------------------------
  // Python values
  // ---------------------------------------------------------------------------------

  type CodePoint = c: int | 0 <= c < 0x11_0000

  /** An argument of a client call: an int of any size (bool included), the bit pattern a float
      packs to, a one-dimensional numpy array with its memory image, or a str. */
  datatype PyArg =
    | Int(v: int)
    | Float(bits: nat)
    | Array(dtype: ScalarType, image: seq<Byte>)
    | Str(chars: seq<CodePoint>)

  /** A declared argument type; the server may list types the client does not know. */
  datatype Declared = Known(t: ArgType) | Unsupported

  datatype Error = WrongCount | WrongLength | WrongType | BadUnicode | UnsupportedType

  datatype Result<+T> = Ok(value: T) | Err(error: Error)

  /** The dynamic types that the branches of build_payload assume. */
  predicate Kinded(d: Declared, a: PyArg) {
    d.Known? ==>
      match d.t
      case ScalarArg(F32) => a.Float? && a.bits < Pow256(4)
      case ScalarArg(F64) => a.Float? && a.bits < Pow256(8)
      case ScalarArg(_) => a.Int?
      case ArrayArg(_, _) => a.Array? && |a.image| % SizeOf(a.dtype) == 0
      case VectorArg(_) => a.Array? && |a.image| % SizeOf(a.dtype) == 0
      case StringArg => a.Str?
  }

  predicate Surrogate(c: CodePoint) {
    0xD800 <= c < 0xE000
  }

  /** str.encode() of one code point. */
  function Utf8Char(c: CodePoint): (r: seq<Byte>)
    ensures 1 <= |r| <= 4
    ensures |r| == 1 <==> c < 0x80
  {
    if c < 0x80 then [c]
    else if c < 0x800 then [0xC0 + c / 0x40, 0x80 + c % 0x40]
    else if c < 0x1_0000 then [0xE0 + c / 0x1000, 0x80 + c / 0x40 % 0x40, 0x80 + c % 0x40]
    else [0xF0 + c / 0x4_0000, 0x80 + c / 0x1000 % 0x40, 0x80 + c / 0x40 % 0x40, 0x80 + c % 0x40]
  }

  /** What a sequence of bytes stands for, by the table of section 3 of RFC 3629. */
  function Utf8Value(r: seq<Byte>): int
    requires 1 <= |r| <= 4
  {
    if |r| == 1 then r[0]
    else if |r| == 2 then (r[0] as int - 0xC0) * 0x40 + (r[1] as int - 0x80)
    else if |r| == 3 then (r[0] as int - 0xE0) * 0x1000 + (r[1] as int - 0x80) * 0x40 + (r[2] as int - 0x80)
    else (r[0] as int - 0xF0) * 0x4_0000 + (r[1] as int - 0x80) * 0x1000 + (r[2] as int - 0x80) * 0x40
         + (r[3] as int - 0x80)
  }

  /** The bytes of a character: the shortest form, its marks, and the character back from them. */
  lemma Utf8CharIs(c: CodePoint)
    ensures var r := Utf8Char(c);
            && Utf8Value(r) == c
            && |r| == (if c < 0x80 then 1 else if c < 0x800 then 2 else if c < 0x1_0000 then 3 else 4)
            && (|r| == 2 ==> r[0] / 0x20 == 0x6)
            && (|r| == 3 ==> r[0] / 0x10 == 0xE)
            && (|r| == 4 ==> r[0] / 0x8 == 0x1E)
            && forall k :: 1 <= k < |r| ==> r[k] / 0x40 == 0x2
  {
    assert c / 0x1000 == c / 0x40 / 0x40 && c / 0x4_0000 == c / 0x1000 / 0x40;
  }

  /** The code points that cannot be encoded: those whose five highest of 16 bits are 11011. */
  lemma SurrogatesAre(c: CodePoint)
    ensures Surrogate(c) <==> c / 0x800 == 0x1B
  {
  }

  function Utf8(s: seq<CodePoint>): (r: seq<Byte>)
    ensures |r| >= |s|
  {
    if s == [] then [] else Utf8Char(s[0]) + Utf8(s[1..])
  }

  ghost predicate Ascii(s: seq<CodePoint>) {
    forall i :: 0 <= i < |s| ==> s[i] < 0x80
  }

  /** A string takes as many bytes as it has characters exactly when it is ASCII. */
  lemma {:induction false} AsciiLength(s: seq<CodePoint>)
    ensures |Utf8(s)| == |s| <==> Ascii(s)
    ensures Ascii(s) ==> Utf8(s) == s
  {
    if s != [] {
      AsciiLength(s[1..]);
      assert s == [s[0]] + s[1..];
      assert Ascii(s) <==> s[0] < 0x80 && Ascii(s[1..]);
    }
  }

  // ---------------------------------------------------------------------------------
  // What a call means, and what it puts on the wire
  // ---------------------------------------------------------------------------------

  /** The value of type t that has the low bits of v: a C cast. */
  function Cast(t: ScalarType, v: int): (r: int)
  {
    var size := Pow256(SizeOf(t));
    var u := Mod(v, size);
    if t == Bool then (if v != 0 then 1 else 0)
    else if Signed(t) && 2 * u >= size then u - size else u
  }

  function Mod(v: int, n: nat): (r: nat) {
    if n == 0 then 0 else v % n
  }

  /** The argument that the driver is meant to receive. */
  function Meaning(t: ArgType, a: PyArg): Value
    requires Kinded(Known(t), a)
  {
    match t
    case ScalarArg(s) => Num(if a.Float? then a.bits else Cast(s, a.v))
    case ArrayArg(_, _) => Raw(a.image)
    case VectorArg(_) => Raw(a.image)
    case StringArg => Raw(Utf8(a.chars))
  }

  /** The exception that the branch for this argument raises, if any. */
  function Rejection(d: Declared, a: PyArg): Option<Error>
    requires Kinded(d, a)
  {
    match d
    case Unsupported => Some(UnsupportedType)
    case Known(t) =>
      match t
      case ScalarArg(_) => None
      case ArrayArg(e, count) =>
        if count != |a.image| / SizeOf(a.dtype) then Some(WrongLength)
        else if e != a.dtype then Some(WrongType)
        else None
      case VectorArg(e) => if e != a.dtype then Some(WrongType) else None
      case StringArg => if exists i :: 0 <= i < |a.chars| && Surrogate(a.chars[i]) then Some(BadUnicode) else None
  }

  /** A string is rejected exactly when a surrogate stands anywhere in it. */
  lemma SurrogateAnywhere(a: PyArg)
    requires Kinded(Known(StringArg), a)
    ensures Rejection(Known(StringArg), a) != None <==> exists i :: i in a.chars && Surrogate(i)
  {
    if Rejection(Known(StringArg), a) != None {
      var k :| 0 <= k < |a.chars| && Surrogate(a.chars[k]);
      assert a.chars[k] in a.chars;
    }
  }

  /** The bytes of an accepted argument.  A string is announced by its number of characters. */
  function Sent(t: ArgType, a: PyArg): seq<Byte>
    requires Kinded(Known(t), a)
  {
    match t
    case ScalarArg(s) => BigEndian(if a.Float? then a.bits else Cast(s, a.v), SizeOf(s))
    case ArrayArg(_, _) => a.image
    case VectorArg(_) => BigEndian(|a.image|, 4) + a.image
    case StringArg => BigEndian(|a.chars|, 4) + Utf8(a.chars)
  }

  ghost predicate AllKinded(types: seq<Declared>, args: seq<PyArg>) {
    |types| == |args| && forall i :: 0 <= i < |types| ==> Kinded(types[i], args[i])
  }

  /** The payload, or the first exception from the left. */
  function Payload(types: seq<Declared>, args: seq<PyArg>): Result<seq<Byte>>
    requires AllKinded(types, args)
  {
    if types == [] then Ok([])
    else
      var n := |types| - 1;
      match Payload(types[..n], args[..n])
      case Err(e) => Err(e)
      case Ok(bytes) =>
        match Rejection(types[n], args[n])
        case Some(e) => Err(e)
        case None => Ok(bytes + Sent(types[n].t, args[n]))
  }

  // ---------------------------------------------------------------------------------
  // koheron.py
  // ---------------------------------------------------------------------------------

  class ByteArray {
    var data: seq<Byte>

    constructor ()
      ensures data == []
    {
      data := [];
    }

    /** append(buff, value, size) */
    method Append(value: int, size: nat)
      modifies this
      ensures size <= 4 || size == 8 ==> data == old(data) + BigEndian(value, size)
      ensures 4 < size && size != 8 ==> data == old(data)
      decreases size
    {
      if size <= 4 {
        for i := size downto 0
          invariant data == old(data) + BigEndian(ShiftRight(value, i), size - i)
        {
          ShiftOnceMore(value, i);
          data := data + [ShiftRight(value, i) % 256];
        }
      } else if size == 8 {
        HighAndLow(value, 4, 4);
        Append(ShiftRight(value, 4), 4);
        Append(value, 4);
      }
    }

    /** buff += bytes */
    method Extend(bytes: seq<Byte>)
      modifies this
      ensures data == old(data) + bytes
    {
      data := data + bytes;
    }

    /** append_vector(buff, array, array_params) */
    method AppendVector(elem: ScalarType, arr: PyArg) returns (error: Option<Error>)
      requires Kinded(Known(VectorArg(elem)), arr)
      modifies this
      ensures error == Rejection(Known(VectorArg(elem)), arr)
      ensures data == old(data) + if error.None? then Sent(VectorArg(elem), arr) else []
    {
      hide BigEndian, Pow256;
      if elem != arr.dtype {
        return Some(WrongType);
      }
      Append(|arr.image|, 4);
      Extend(arr.image);
      return None;
    }

    /** append_array(buff, array, array_params) */
    method AppendArray(elem: ScalarType, count: nat, arr: PyArg) returns (error: Option<Error>)
      requires Kinded(Known(ArrayArg(elem, count)), arr)
      modifies this
      ensures error == Rejection(Known(ArrayArg(elem, count)), arr)
      ensures data == old(data) + if error.None? then Sent(ArrayArg(elem, count), arr) else []
    {
      if count != |arr.image| / SizeOf(arr.dtype) {
        return Some(WrongLength);
      }
      if elem != arr.dtype {
        return Some(WrongType);
      }
      Extend(arr.image);
      return None;
    }

    /** The branches of build_payload for the scalar types. */
    method AppendScalar(t: ScalarType, a: PyArg)
      requires Kinded(Known(ScalarArg(t)), a)
      modifies this
      ensures data == old(data) + Sent(ScalarArg(t), a)
    {
      if t == Bool {
        if a.v != 0 {
          Append(1, 1);
        } else {
          Append(0, 1);
        }
      } else if t == F32 || t == F64 {
        SignedPattern(a.bits, SizeOf(t));
        Append(SignedBits(a.bits, SizeOf(t)), SizeOf(t));
      } else {
        CastKeepsBytes(t, a.v);
        Append(a.v, SizeOf(t));
      }
    }

    method AppendString(a: PyArg) returns (error: Option<Error>)
      requires a.Str?
      modifies this
      ensures error == Rejection(Known(StringArg), a)
      ensures data == old(data) + if error.None? then Sent(StringArg, a)
                                  else BigEndian(|a.chars|, 4)
    {
      hide BigEndian, Utf8;
      Append(|a.chars|, 4);
      if exists i :: 0 <= i < |a.chars| && Surrogate(a.chars[i]) {
        return Some(BadUnicode);
      }
      Extend(Utf8(a.chars));
      return None;
    }
  }

  /** float_to_bits, double_to_bits: the pattern unpacked as a signed integer. */
  function SignedBits(bits: nat, size: nat): int {
    if 2 * bits >= Pow256(size) then bits - Pow256(size) else bits
  }

  /** The pattern as a two's complement number: in range, and the same modulo its size. */
  lemma SignedBitsAre(bits: nat, size: nat)
    requires size > 0 && bits < Pow256(size)
    ensures 0 <= 2 * SignedBits(bits, size) + Pow256(size) && 2 * SignedBits(bits, size) < Pow256(size)
    ensures SignedBits(bits, size) == bits || SignedBits(bits, size) == bits - Pow256(size)
  {
  }

  lemma SignedPattern(bits: nat, size: nat)
    ensures BigEndian(SignedBits(bits, size), size) == BigEndian(bits, size)
  {
    SameBits(bits, size);
  }

  /** Whole multiples of 2^(8 * size) change no byte. */
  lemma {:induction false} ManyTurns(value: int, k: nat, size: nat)
    ensures BigEndian(value - k * Pow256(size), size) == BigEndian(value, size)
    decreases k
  {
    if k > 0 {
      SameBits(value, size);
      ManyTurns(value - Pow256(size), k - 1, size);
      assert value - k * Pow256(size) == value - Pow256(size) - (k - 1) * Pow256(size);
    }
  }

  lemma Turns(v: int, n: nat) returns (q: int)
    requires n > 0
    ensures q >= 0 ==> Mod(v, n) == v - q * n
    ensures q < 0 ==> v == Mod(v, n) - (-q) * n
  {
    q := v / n;
    assert (-q) * n == -(q * n);
  }

  lemma ModKeepsBytes(v: int, size: nat)
    requires Pow256(size) > 0
    ensures BigEndian(Mod(v, Pow256(size)), size) == BigEndian(v, size)
  {
    hide Mod, BigEndian, Pow256;
    var q := Turns(v, Pow256(size));
    if q >= 0 {
      ManyTurns(v, q, size);
    } else {
      ManyTurns(Mod(v, Pow256(size)), -q, size);
    }
  }

  lemma CastKeepsBytes(t: ScalarType, v: int)
    requires t != Bool
    ensures BigEndian(Cast(t, v), SizeOf(t)) == BigEndian(v, SizeOf(t))
  {
    Powers();
    hide Mod, Pow256, BigEndian;
    ModInRange(v, Pow256(SizeOf(t)));
    ModKeepsBytes(v, SizeOf(t));
    SameBits(Mod(v, Pow256(SizeOf(t))), SizeOf(t));
  }

  /** build_payload(cmd_args, args) */
  method BuildPayload(types: seq<Declared>, args: seq<PyArg>) returns (r: Result<seq<Byte>>)
    requires |types| == |args| ==> AllKinded(types, args)
    ensures |types| != |args| ==> r == Err(WrongCount)
    ensures |types| == |args| ==> r == Payload(types, args)
  {
    var payload := new ByteArray();
    if |types| != |args| {
      return Err(WrongCount);
    }
    if |types| == 0 {
      return Ok(payload.data);
    }
    hide Rejection, Sent;
    for i := 0 to |types|
      invariant Payload(types[..i], args[..i]) == Ok(payload.data)
    {
      PayloadStep(types, args, i);
      var error := Some(UnsupportedType);
      if types[i].Known? {
        match types[i].t {
          case ScalarArg(s) =>
            error := None;
            AcceptsScalar(s, args[i]);
            payload.AppendScalar(s, args[i]);
          case ArrayArg(e, count) => error := payload.AppendArray(e, count, args[i]);
          case VectorArg(e) => error := payload.AppendVector(e, args[i]);
          case StringArg => error := payload.AppendString(args[i]);
        }
      } else {
        RejectsUnsupported(types[i], args[i]);
      }
      if error.Some? {
        FirstErrorWins(types, args, i);
        return Err(error.value);
      }
    }
    assert types[..|types|] == types && args[..|args|] == args;
    return Ok(payload.data);
  }

  lemma AcceptsScalar(s: ScalarType, a: PyArg)
    requires Kinded(Known(ScalarArg(s)), a)
    ensures Rejection(Known(ScalarArg(s)), a) == None
  {
  }

  lemma RejectsUnsupported(d: Declared, a: PyArg)
    requires d == Unsupported
    ensures Rejection(d, a) == Some(UnsupportedType)
  {
  }

  lemma PayloadStep(types: seq<Declared>, args: seq<PyArg>, i: nat)
    requires AllKinded(types, args) && i < |types| && Payload(types[..i], args[..i]).Ok?
    ensures var error := Rejection(types[i], args[i]);
            Payload(types[..i + 1], args[..i + 1]) ==
            if error.Some? then Err(error.value)
            else Ok(Payload(types[..i], args[..i]).value + Sent(types[i].t, args[i]))
  {
    assert types[..i + 1][..i] == types[..i] && args[..i + 1][..i] == args[..i];
  }

  /** Nothing after a rejected argument is looked at. */
  lemma {:induction false} FirstErrorWins(types: seq<Declared>, args: seq<PyArg>, i: nat)
    requires AllKinded(types, args) && i < |types| && Payload(types[..i + 1], args[..i + 1]).Err?
    ensures Payload(types, args) == Payload(types[..i + 1], args[..i + 1])
    decreases |types|
  {
    var n := |types| - 1;
    if i == n {
      assert types[..i + 1] == types && args[..i + 1] == args;
    } else {
      assert types[..n][..i + 1] == types[..i + 1] && args[..n][..i + 1] == args[..i + 1];
      FirstErrorWins(types[..n], args[..n], i);
    }
  }

  /** make_command: without a signature the payload is eight zero bytes. */
  method MakeCommand(driver: int, operation: int, call: Option<(seq<Declared>, seq<PyArg>)>)
    returns (r: Result<seq<Byte>>)
    requires call.Some? && |call.value.0| == |call.value.1| ==> AllKinded(call.value.0, call.value.1)
    ensures call.None? ==> r == Ok(Header(driver, operation) + BigEndian(0, 8))
    ensures call.Some? && |call.value.0| != |call.value.1| ==> r == Err(WrongCount)
    ensures call.Some? && |call.value.0| == |call.value.1| ==>
              match Payload(call.value.0, call.value.1)
              case Ok(payload) => r == Ok(Header(driver, operation) + payload)
              case Err(e) => r == Err(e)
  {
    var buff := new ByteArray();
    buff.Append(0, 4);
    buff.Append(driver, 2);
    buff.Append(operation, 2);
    assert buff.data == Header(driver, operation);
    hide Header, BigEndian, Payload;
    if call.Some? {
      var payload := BuildPayload(call.value.0, call.value.1);
      match payload {
        case Err(e) => return Err(e);
        case Ok(bytes) => buff.Extend(bytes);
      }
    } else {
      buff.Append(0, 8);
    }
    return Ok(buff.data);
  }

  // ---------------------------------------------------------------------------------
  // What the server is told
  // ---------------------------------------------------------------------------------

  /** Accepted, and with a length that its four-byte prefix can hold. */
  predicate Sendable(t: ArgType, a: PyArg) {
    && Kinded(Known(t), a)
    && Rejection(Known(t), a).None?
    && (t.VectorArg? ==> |a.image| < 0x1_0000_0000)
    && (t.StringArg? ==> |Utf8(a.chars)| < 0x1_0000_0000)
  }

  ghost predicate Plain(t: ArgType, a: PyArg)
    requires Kinded(Known(t), a)
  {
    t.StringArg? ==> Ascii(a.chars)
  }

  lemma ModInRange(v: int, n: nat)
    requires n > 0
    ensures 0 <= Mod(v, n) < n
    ensures 0 <= v < n ==> Mod(v, n) == v
    ensures 0 <= v + n < n ==> Mod(v, n) == v + n
  {
    if 0 <= v + n < n {
      assert v == -1 * n + (v + n);
    }
  }

  lemma CastInRange(t: ScalarType, v: int)
    ensures ScalarInRange(t, Cast(t, v))
    ensures ScalarInRange(t, v) ==> Cast(t, v) == v
  {
    Powers();
    hide Mod, Pow256;
    ModInRange(v, Pow256(SizeOf(t)));
  }

  lemma MeaningFits(t: ArgType, a: PyArg)
    requires Sendable(t, a)
    ensures Fits(t, Meaning(t, a))
  {
    Powers();
    if t.ScalarArg? && a.Int? {
      CastInRange(t.scalar, a.v);
    }
  }

  lemma PrefixTellsLength(m: nat, n: nat, a: seq<Byte>)
    requires m < 0x1_0000_0000 && n < 0x1_0000_0000
    ensures BigEndian(m, 4) + a == BigEndian(n, 4) + a <==> m == n
  {
    LengthPrefix(m);
    LengthPrefix(n);
    if BigEndian(m, 4) + a == BigEndian(n, 4) + a {
      assert (BigEndian(m, 4) + a)[..4] == BigEndian(m, 4);
      assert (BigEndian(n, 4) + a)[..4] == BigEndian(n, 4);
    }
  }

  /** An argument is encoded as the server expects it, except for a string that is not ASCII. */
  lemma Exact(t: ArgType, a: PyArg)
    requires Sendable(t, a)
    ensures Fits(t, Meaning(t, a))
    ensures |Sent(t, a)| == |Encode(t, Meaning(t, a))|
    ensures Sent(t, a) == Encode(t, Meaning(t, a)) <==> Plain(t, a)
  {
    MeaningFits(t, a);
    hide BigEndian, Fits;
    if t.StringArg? {
      AsciiLength(a.chars);
      PrefixTellsLength(|a.chars|, |Utf8(a.chars)|, Utf8(a.chars));
    }
  }

  ghost predicate AllSendable(types: seq<ArgType>, args: seq<PyArg>) {
    |types| == |args| && forall i :: 0 <= i < |types| ==> Sendable(types[i], args[i])
  }

  function Declare(types: seq<ArgType>): (r: seq<Declared>)
    ensures |r| == |types|
  {
    seq(|types|, i requires 0 <= i < |types| => Known(types[i]))
  }

  ghost function Meanings(types: seq<ArgType>, args: seq<PyArg>): (r: seq<Value>)
    requires AllSendable(types, args)
    ensures |r| == |args|
  {
    seq(|types|, i requires 0 <= i < |types| => Meaning(types[i], args[i]))
  }

  /** The payload is the encoding of the arguments exactly when every string is ASCII. */
  lemma {:induction false} PayloadEncodes(types: seq<ArgType>, args: seq<PyArg>)
    requires AllSendable(types, args)
    ensures AllKinded(Declare(types), args) && AllFit(types, Meanings(types, args))
    ensures Payload(Declare(types), args).Ok?
    ensures |Payload(Declare(types), args).value| == |EncodeAll(types, Meanings(types, args))|
    ensures Payload(Declare(types), args).value == EncodeAll(types, Meanings(types, args))
            <==> forall i :: 0 <= i < |types| ==> Plain(types[i], args[i])
    decreases |types|
  {
    hide Sendable, Meaning, Rejection, Sent, Encode, Fits, Plain;
    forall i | 0 <= i < |types| ensures Kinded(Known(types[i]), args[i]) && Fits(types[i], Meaning(types[i], args[i])) {
      SendableParts(types[i], args[i]);
    }
    if types == [] {
    } else {
      var n := |types| - 1;
      PayloadEncodes(types[..n], args[..n]);
      SendableParts(types[n], args[n]);
      assert Declare(types)[..n] == Declare(types[..n]);
      LastEncoded(types, args);
      SameHalves(Payload(Declare(types[..n]), args[..n]).value, EncodeAll(types[..n], Meanings(types[..n], args[..n])),
                 Sent(types[n], args[n]), Encode(types[n], Meaning(types[n], args[n])));
    }
  }

  lemma SendableParts(t: ArgType, a: PyArg)
    requires Sendable(t, a)
    ensures Kinded(Known(t), a) && Rejection(Known(t), a) == None
    ensures Fits(t, Meaning(t, a))
    ensures |Sent(t, a)| == |Encode(t, Meaning(t, a))|
    ensures Sent(t, a) == Encode(t, Meaning(t, a)) <==> Plain(t, a)
  {
    Exact(t, a);
  }

  lemma SameHalves<T>(a: seq<T>, b: seq<T>, c: seq<T>, d: seq<T>)
    requires |a| == |b|
    ensures a + c == b + d <==> a == b && c == d
  {
    if a + c == b + d {
      assert a == (a + c)[..|a|] == b && c == (a + c)[|a|..] == d;
    }
  }

  lemma LastEncoded(types: seq<ArgType>, args: seq<PyArg>)
    requires AllSendable(types, args) && types != []
    requires AllFit(types, Meanings(types, args))
    ensures var n := |types| - 1;
            && AllFit(types[..n], Meanings(types[..n], args[..n]))
            && Fits(types[n], Meaning(types[n], args[n]))
            && EncodeAll(types, Meanings(types, args))
               == EncodeAll(types[..n], Meanings(types[..n], args[..n])) + Encode(types[n], Meaning(types[n], args[n]))
  {
    hide Sendable, Meaning, Fits, Encode;
    var n := |types| - 1;
    var values := Meanings(types, args);
    assert Meanings(types[..n], args[..n]) == values[..n];
    assert types[..n] + [types[n]] == types && values[..n] + [values[n]] == values;
    EncodeConcat(types[..n], values[..n], [types[n]], [values[n]]);
    SingleArgument(types[n], [values[n]]);
  }

  /** What becomes of any other string: it is cut to as many bytes as it has characters, and the
      bytes that are left over stay in front of whatever the server reads next. */
  lemma NonAsciiString(a: PyArg, rest: seq<Byte>)
    requires Sendable(StringArg, a)
    ensures ParsePack(Container(StringArg), Sent(StringArg, a) + rest)
            == Some(([Raw(Utf8(a.chars)[..|a.chars|])], Utf8(a.chars)[|a.chars|..] + rest))
  {
    hide BigEndian, Utf8;
    var n, bytes := |a.chars|, Utf8(a.chars);
    LengthPrefix(n);
    var stream := BigEndian(n, 4) + bytes + rest;
    assert stream[..4] == BigEndian(n, 4);
    assert stream[4..4 + n] == bytes[..n];
    assert stream[4 + n..] == bytes[n..] + rest;
    assert Sent(StringArg, a) + rest == stream;
  }
}
