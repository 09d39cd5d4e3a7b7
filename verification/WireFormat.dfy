/** The argument encoding that koheron-server and its clients share: what the client puts on
    the wire for a signature, how the generated parser groups the arguments into packs, and
    what the packs read back. */
module WireFormat {
  import opened Bytes

  datatype Option<+T> = None | Some(value: T)

  datatype ScalarType = U8 | I8 | U16 | I16 | U32 | I32 | U64 | I64 | F32 | F64 | Bool

  datatype ArgType =
    | ScalarArg(scalar: ScalarType)
    | ArrayArg(elem: ScalarType, count: nat)
    | VectorArg(elem: ScalarType)
    | StringArg

  /** An argument value.  A float is its bit pattern, a boolean 0 or 1; the elements of arrays
      and vectors travel as the bytes of their memory image, a string as its encoded bytes. */
  datatype Value = Num(v: int) | Raw(bytes: seq<Byte>)

  function SizeOf(t: ScalarType): nat {
    match t
    case U8 => 1 case I8 => 1 case U16 => 2 case I16 => 2 case U32 => 4 case I32 => 4
    case U64 => 8 case I64 => 8 case F32 => 4 case F64 => 8 case Bool => 1
  }

  predicate Signed(t: ScalarType) {
    t == I8 || t == I16 || t == I32 || t == I64
  }

  predicate ScalarInRange(t: ScalarType, v: int) {
    var size: int := Pow256(SizeOf(t));
    if t == Bool then v == 0 || v == 1
    else if Signed(t) then -size <= 2 * v < size
    else 0 <= v < size
  }

  /** The sizes, and the ranges that fill them. */
  lemma RangesAre(t: ScalarType, v: int)
    ensures SizeOf(t) == match t
                         case U8 => 1 case I8 => 1 case Bool => 1 case U16 => 2 case I16 => 2
                         case U32 => 4 case I32 => 4 case F32 => 4 case U64 => 8 case I64 => 8 case F64 => 8
    ensures ScalarInRange(t, v) <==>
              match t
              case U8 => 0 <= v < 256
              case I8 => -128 <= v < 128
              case U16 => 0 <= v < 65536
              case I16 => -32768 <= v < 32768
              case U32 => 0 <= v < 4294967296
              case I32 => -2147483648 <= v < 2147483648
              case U64 => 0 <= v < 18446744073709551616
              case I64 => -9223372036854775808 <= v < 9223372036854775808
              case F32 => 0 <= v < 4294967296
              case F64 => 0 <= v < 18446744073709551616
              case Bool => 0 <= v <= 1
  {
    Powers();
  }

  predicate Fits(t: ArgType, a: Value) {
    match t
    case ScalarArg(s) => a.Num? && ScalarInRange(s, a.v)
    case ArrayArg(e, n) => a.Raw? && |a.bytes| == n * SizeOf(e)
    case VectorArg(e) => a.Raw? && |a.bytes| % SizeOf(e) == 0 && |a.bytes| < 0x1_0000_0000
    case StringArg => a.Raw? && |a.bytes| < 0x1_0000_0000
  }

  ghost predicate AllFit(types: seq<ArgType>, args: seq<Value>) {
    |types| == |args| && forall i :: 0 <= i < |types| ==> Fits(types[i], args[i])
  }

  function Encode(t: ArgType, a: Value): seq<Byte>
    requires Fits(t, a)
  {
    match t
    case ScalarArg(s) => BigEndian(a.v, SizeOf(s))
    case ArrayArg(_, _) => a.bytes
    case VectorArg(_) => BigEndian(|a.bytes|, 4) + a.bytes
    case StringArg => BigEndian(|a.bytes|, 4) + a.bytes
  }

  function EncodeAll(types: seq<ArgType>, args: seq<Value>): seq<Byte>
    requires AllFit(types, args)
  {
    if types == [] then [] else Encode(types[0], args[0]) + EncodeAll(types[1..], args[1..])
  }

  /** The eight bytes of a header: four reserved ones, then driver and operation, high byte first. */
  lemma HeaderBytes(driver: nat, operation: nat)
    requires driver < 0x1_0000 && operation < 0x1_0000
    ensures Header(driver, operation)
            == [0, 0, 0, 0, driver / 256, driver % 256, operation / 256, operation % 256]
  {
    ZeroBytes();
    TwoBytes(driver);
    TwoBytes(operation);
    hide BigEndian;
  }

  lemma ZeroBytes()
    ensures BigEndian(0, 4) == [0, 0, 0, 0]
  {
    assert BigEndian(0, 1) == [0] && BigEndian(0, 2) == [0, 0] && BigEndian(0, 3) == [0, 0, 0];
  }

  lemma TwoBytes(n: nat)
    requires n < 0x1_0000
    ensures BigEndian(n, 2) == [n / 256, n % 256]
  {
    assert BigEndian(n / 256, 1) == [n / 256];
  }

  lemma {:induction false} EncodeConcat(t1: seq<ArgType>, a1: seq<Value>, t2: seq<ArgType>, a2: seq<Value>)
    requires AllFit(t1, a1) && AllFit(t2, a2)
    ensures AllFit(t1 + t2, a1 + a2)
    ensures EncodeAll(t1 + t2, a1 + a2) == EncodeAll(t1, a1) + EncodeAll(t2, a2)
  {
    hide Encode, Fits;
    if t1 == [] {
      assert t1 + t2 == t2 && a1 + a2 == a2;
    } else {
      assert (t1 + t2)[1..] == t1[1..] + t2 && (a1 + a2)[1..] == a1[1..] + a2;
      EncodeConcat(t1[1..], a1[1..], t2, a2);
    }
  }

  /** A command starts with four reserved bytes, the driver and the operation. */
  function Header(driver: int, operation: int): seq<Byte> {
    BigEndian(0, 4) + BigEndian(driver, 2) + BigEndian(operation, 2)
  }

  lemma HeaderRoundTrip(driver: nat, operation: nat, rest: seq<Byte>)
    requires driver < 0x1_0000 && operation < 0x1_0000
    ensures var stream := Header(driver, operation) + rest;
            && |Header(driver, operation)| == 8
            && FromBigEndian(stream[4..6]) == driver
            && FromBigEndian(stream[6..8]) == operation
            && stream[8..] == rest
  {
    Powers();
    ShiftOfUnsigned(driver, 2);
    ShiftOfUnsigned(operation, 2);
    UnsignedRoundTrip(driver, 2);
    UnsignedRoundTrip(operation, 2);
    hide BigEndian, FromBigEndian;
    var stream := Header(driver, operation) + rest;
    assert stream[4..6] == BigEndian(driver, 2) && stream[6..8] == BigEndian(operation, 2);
  }

  // ---------------------------------------------------------------------------------
  // Reading one value
  // ---------------------------------------------------------------------------------

  /** extract<T>: an unsigned big-endian read, reinterpreted for the signed types. */
  function Extract(t: ScalarType, bytes: seq<Byte>): int
    requires |bytes| == SizeOf(t)
  {
    var u := FromBigEndian(bytes);
    if t == Bool then (if u == 1 then 1 else 0)
    else if Signed(t) && 2 * u >= Pow256(SizeOf(t)) then u - Pow256(SizeOf(t))
    else u
  }

  lemma ScalarRoundTrip(t: ScalarType, v: int)
    requires ScalarInRange(t, v)
    ensures Extract(t, BigEndian(v, SizeOf(t))) == v
  {
    Powers();
    if v < 0 {
      ShiftOfNegative(v, SizeOf(t));
      NegativeRoundTrip(v, SizeOf(t));
    } else {
      ShiftOfUnsigned(v, SizeOf(t));
      UnsignedRoundTrip(v, SizeOf(t));
    }
  }

  // ---------------------------------------------------------------------------------
  // Packs
  // ---------------------------------------------------------------------------------

  /** What build_args_packs makes of a signature: runs of adjacent scalars, and single
      containers between them. */
  datatype Pack = Scalars(types: seq<ScalarType>) | Container(arg: ArgType)

  predicate IsContainer(t: ArgType) {
    !t.ScalarArg?
  }

  function ScalarArgs(ts: seq<ScalarType>): (r: seq<ArgType>)
    ensures |r| == |ts|
  {
    seq(|ts|, i requires 0 <= i < |ts| => ScalarArg(ts[i]))
  }

  function Unpack(p: Pack): seq<ArgType> {
    match p
    case Scalars(ts) => ScalarArgs(ts)
    case Container(t) => [t]
  }

  function UnpackAll(packs: seq<Pack>): seq<ArgType> {
    if packs == [] then [] else UnpackAll(packs[..|packs| - 1]) + Unpack(packs[|packs| - 1])
  }

  /** Runs are not empty and not adjacent, and containers are containers; together with
      UnpackAll this leaves one list of packs for every signature. */
  predicate Maximal(packs: seq<Pack>) {
    && (forall i :: 0 <= i < |packs| ==>
          if packs[i].Scalars? then packs[i].types != [] else IsContainer(packs[i].arg))
    && (forall i :: 0 < i < |packs| ==> packs[i - 1].Container? || packs[i].Container?)
  }

  predicate ClosesRun(packs: seq<Pack>) {
    packs != [] ==> packs[|packs| - 1].Container?
  }

  lemma AppendPack(packs: seq<Pack>, p: Pack)
    requires Maximal(packs)
    requires if p.Scalars? then p.types != [] && ClosesRun(packs) else IsContainer(p.arg)
    ensures UnpackAll(packs + [p]) == UnpackAll(packs) + if p.Scalars? then ScalarArgs(p.types) else [p.arg]
    ensures Maximal(packs + [p]) && (p.Container? ==> ClosesRun(packs + [p]))
  {
    assert (packs + [p])[..|packs|] == packs;
  }

  lemma AppendScalar(ts: seq<ScalarType>, t: ScalarType)
    ensures ScalarArgs(ts + [t]) == ScalarArgs(ts) + [ScalarArg(t)]
  {
  }

  /** A container closes the run of scalars before it, if there is one. */
  lemma CloseRun(packs: seq<Pack>, run: seq<ScalarType>, arg: ArgType, done: seq<ArgType>)
    requires UnpackAll(packs) + ScalarArgs(run) == done
    requires Maximal(packs) && ClosesRun(packs) && !arg.ScalarArg?
    ensures var closed := (if run == [] then packs else packs + [Scalars(run)]) + [Container(arg)];
            UnpackAll(closed) == done + [arg] && Maximal(closed) && ClosesRun(closed)
    ensures ScalarArgs([]) == []
  {
    if run != [] {
      AppendPack(packs, Scalars(run));
      AppendPack(packs + [Scalars(run)], Container(arg));
    } else {
      AppendPack(packs, Container(arg));
    }
  }

  /** build_args_packs of the server generator. */
  method BuildArgsPacks(arguments: seq<ArgType>) returns (packs: seq<Pack>)
    ensures UnpackAll(packs) == arguments
    ensures Maximal(packs)
  {
    packs := [];
    var argsList: seq<ScalarType> := [];
    hide *;
    NoPacks();
    for i := 0 to |arguments|
      invariant UnpackAll(packs) + ScalarArgs(argsList) == arguments[..i]
      invariant Maximal(packs) && ClosesRun(packs)
    {
      var arg := arguments[i];
      assert arguments[..i + 1] == arguments[..i] + [arg];
      if !arg.ScalarArg? {
        CloseRun(packs, argsList, arg, arguments[..i]);
        if |argsList| > 0 {
          packs := packs + [Scalars(argsList)];
          argsList := [];
        }
        packs := packs + [Container(arg)];
      } else {
        AppendScalar(argsList, arg.scalar);
        argsList := argsList + [arg.scalar];
      }
    }
    assert arguments[..|arguments|] == arguments;
    if |argsList| > 0 {
      AppendPack(packs, Scalars(argsList));
      packs := packs + [Scalars(argsList)];
    }
  }

  lemma NoPacks()
    ensures Maximal([]) && UnpackAll([]) == [] && ClosesRun([]) && ScalarArgs([]) == []
  {
  }

  // ---------------------------------------------------------------------------------
  // Reading packs
  // ---------------------------------------------------------------------------------

  /** required_buffer_size<Tp...> */
  function RequiredSize(ts: seq<ScalarType>): nat {
    if ts == [] then 0 else SizeOf(ts[0]) + RequiredSize(ts[1..])
  }

  /** deserialize<position, Tp...>: consecutive extracts at growing positions. */
  function Deserialize(ts: seq<ScalarType>, buff: seq<Byte>, position: nat): (r: seq<Value>)
    requires position + RequiredSize(ts) <= |buff|
    ensures |r| == |ts|
  {
    if ts == [] then []
    else [Num(Extract(ts[0], buff[position..position + SizeOf(ts[0])]))]
         + Deserialize(ts[1..], buff, position + SizeOf(ts[0]))
  }

  /** The values one pack takes off the front of the stream, and what is left. */
  function ParsePack(p: Pack, stream: seq<Byte>): (r: Option<(seq<Value>, seq<Byte>)>)
    ensures r.Some? ==> |r.value.1| <= |stream|
  {
    match p
    case Scalars(ts) =>
      var n := RequiredSize(ts);
      if |stream| < n then None else Some((Deserialize(ts, stream[..n], 0), stream[n..]))
    case Container(t) =>
      match t
      case ScalarArg(_) => None
      case ArrayArg(e, count) => Take(stream, 0, count * SizeOf(e))
      case VectorArg(e) =>
        if |stream| < 4 then None
        else Take(stream, 4, FromBigEndian(stream[..4]) / SizeOf(e) * SizeOf(e))
      case StringArg =>
        if |stream| < 4 then None else Take(stream, 4, FromBigEndian(stream[..4]))
  }

  /** `length` bytes behind a prefix, as one value. */
  function Take(stream: seq<Byte>, prefix: nat, length: nat): (r: Option<(seq<Value>, seq<Byte>)>)
    ensures r.Some? ==> |r.value.1| <= |stream|
  {
    var n := prefix + length;
    if |stream| < n then None else Some(([Raw(stream[prefix..n])], stream[n..]))
  }

  function ParsePacks(packs: seq<Pack>, stream: seq<Byte>): (r: Option<(seq<Value>, seq<Byte>)>)
    ensures r.Some? ==> |r.value.1| <= |stream|
  {
    if packs == [] then Some(([], stream))
    else
      match ParsePack(packs[0], stream)
      case None => None
      case Some((values, rest)) =>
        match ParsePacks(packs[1..], rest)
        case None => None
        case Some((more, left)) => Some((values + more, left))
  }

  /** Bytes behind what a pack needs do not matter. */
  lemma PackWithMore(p: Pack, stream: seq<Byte>, more: seq<Byte>)
    requires ParsePack(p, stream).Some?
    ensures ParsePack(p, stream + more)
            == Some((ParsePack(p, stream).value.0, ParsePack(p, stream).value.1 + more))
  {
    hide Deserialize, FromBigEndian;
    if p.Scalars? {
      var n := RequiredSize(p.types);
      assert (stream + more)[..n] == stream[..n] && (stream + more)[n..] == stream[n..] + more;
    } else if p.arg.ArrayArg? {
      TakeWithMore(stream, more, 0, p.arg.count * SizeOf(p.arg.elem));
    } else {
      assert (stream + more)[..4] == stream[..4];
      var n := FromBigEndian(stream[..4]);
      TakeWithMore(stream, more, 4, if p.arg.VectorArg? then n / SizeOf(p.arg.elem) * SizeOf(p.arg.elem) else n);
    }
  }

  lemma TakeWithMore(stream: seq<Byte>, more: seq<Byte>, prefix: nat, length: nat)
    ensures Take(stream, prefix, length).Some? ==>
              Take(stream + more, prefix, length)
              == Some((Take(stream, prefix, length).value.0, Take(stream, prefix, length).value.1 + more))
  {
    var n := prefix + length;
    if n <= |stream| {
      assert (stream + more)[prefix..n] == stream[prefix..n] && (stream + more)[n..] == stream[n..] + more;
    }
  }

  lemma {:induction false} PacksWithMore(packs: seq<Pack>, stream: seq<Byte>, more: seq<Byte>)
    requires ParsePacks(packs, stream).Some?
    ensures ParsePacks(packs, stream + more)
            == Some((ParsePacks(packs, stream).value.0, ParsePacks(packs, stream).value.1 + more))
    decreases |packs|
  {
    hide ParsePack;
    if packs != [] {
      PackWithMore(packs[0], stream, more);
      PacksWithMore(packs[1..], ParsePack(packs[0], stream).value.1, more);
    }
  }

  lemma {:induction false} DeserializeScalars(ts: seq<ScalarType>, args: seq<Value>, buff: seq<Byte>, position: nat)
    requires AllFit(ScalarArgs(ts), args)
    requires position <= |buff| && buff[position..] == EncodeAll(ScalarArgs(ts), args)
    ensures position + RequiredSize(ts) == |buff|
    ensures Deserialize(ts, buff, position) == args
    decreases |ts|
  {
    if ts == [] {
    } else {
      var types := ScalarArgs(ts);
      var n := SizeOf(ts[0]);
      assert Fits(types[0], args[0]);
      assert types[1..] == ScalarArgs(ts[1..]);
      var first, rest := Encode(types[0], args[0]), EncodeAll(types[1..], args[1..]);
      assert buff[position..] == first + rest;
      assert buff[position..position + n] == first by {
        assert buff[position..][..n] == first;
      }
      assert buff[position + n..] == rest by {
        assert buff[position..][n..] == rest;
      }
      ScalarRoundTrip(ts[0], args[0].v);
      DeserializeScalars(ts[1..], args[1..], buff, position + n);
    }
  }

  lemma PackRoundTrip(p: Pack, args: seq<Value>, rest: seq<Byte>)
    requires AllFit(Unpack(p), args)
    requires p.Container? ==> IsContainer(p.arg)
    ensures ParsePack(p, EncodeAll(Unpack(p), args) + rest) == Some((args, rest))
  {
    var bytes := EncodeAll(Unpack(p), args);
    var stream := bytes + rest;
    assert stream[..|bytes|] == bytes && stream[|bytes|..] == rest;
    match p {
      case Scalars(ts) =>
        DeserializeScalars(ts, args, bytes, 0);
      case Container(t) =>
        SingleArgument(t, args);
        var raw := args[0].bytes;
        assert args == [Raw(raw)];
        if !t.ArrayArg? {
          LengthPrefix(|raw|);
          var prefix := BigEndian(|raw|, 4);
          assert bytes == prefix + raw;
          assert stream[..4] == prefix && stream[4..4 + |raw|] == raw;
          if t.VectorArg? {
            WholeElements(|raw|, SizeOf(t.elem));
          }
        }
    }
  }

  lemma SingleArgument(t: ArgType, args: seq<Value>)
    requires AllFit([t], args)
    ensures |args| == 1 && Fits(t, args[0]) && EncodeAll([t], args) == Encode(t, args[0])
  {
    assert [t][0] == t && [t][1..] == [] && args[1..] == [];
  }

  lemma LengthPrefix(n: nat)
    requires n < 0x1_0000_0000
    ensures FromBigEndian(BigEndian(n, 4)) == n
  {
    Powers();
    ShiftOfUnsigned(n, 4);
    UnsignedRoundTrip(n, 4);
  }

  lemma WholeElements(n: nat, size: nat)
    requires size > 0 && n % size == 0
    ensures n / size * size == n
  {
  }

  /** The parser's packs recover the arguments and consume exactly their bytes. */
  lemma {:induction false} PacksRoundTrip(packs: seq<Pack>, args: seq<Value>, rest: seq<Byte>)
    requires Maximal(packs) && AllFit(UnpackAll(packs), args)
    ensures ParsePacks(packs, EncodeAll(UnpackAll(packs), args) + rest) == Some((args, rest))
    decreases |packs|
  {
    if packs == [] {
      assert EncodeAll(UnpackAll(packs), args) + rest == rest;
    } else {
      UnpackFirst(packs);
      assert Maximal(packs[1..]) && (packs[0].Container? ==> IsContainer(packs[0].arg));
      hide Maximal, UnpackAll, EncodeAll, ParsePack, ParsePacks, Unpack;
      var a1, a2 := SplitArguments(Unpack(packs[0]), UnpackAll(packs[1..]), args);
      PacksRoundTrip(packs[1..], a2, rest);
      FirstPackRoundTrip(packs, Unpack(packs[0]), a1, UnpackAll(packs[1..]), a2, rest);
    }
  }

  lemma FirstPackRoundTrip(packs: seq<Pack>, t1: seq<ArgType>, a1: seq<Value>, t2: seq<ArgType>, a2: seq<Value>,
                           rest: seq<Byte>)
    requires packs != [] && (packs[0].Container? ==> IsContainer(packs[0].arg)) && t1 == Unpack(packs[0])
    requires AllFit(t1, a1) && AllFit(t2, a2)
    requires ParsePacks(packs[1..], EncodeAll(t2, a2) + rest) == Some((a2, rest))
    ensures AllFit(t1 + t2, a1 + a2)
    ensures ParsePacks(packs, EncodeAll(t1 + t2, a1 + a2) + rest) == Some((a1 + a2, rest))
  {
    hide EncodeAll, ParsePack, ParsePacks, Unpack, Fits;
    EncodeConcat(t1, a1, t2, a2);
    var tail := EncodeAll(t2, a2) + rest;
    PackRoundTrip(packs[0], a1, tail);
    assert EncodeAll(t1 + t2, a1 + a2) + rest == EncodeAll(t1, a1) + tail;
    OnePackMore(packs, EncodeAll(t1, a1) + tail, a1, tail, a2, rest);
  }

  lemma OnePackMore(packs: seq<Pack>, stream: seq<Byte>, values: seq<Value>, rest: seq<Byte>,
                    more: seq<Value>, left: seq<Byte>)
    requires packs != [] && ParsePack(packs[0], stream) == Some((values, rest))
    requires ParsePacks(packs[1..], rest) == Some((more, left))
    ensures ParsePacks(packs, stream) == Some((values + more, left))
  {
    hide ParsePack;
  }

  lemma SplitArguments(t1: seq<ArgType>, t2: seq<ArgType>, args: seq<Value>)
    returns (a1: seq<Value>, a2: seq<Value>)
    requires AllFit(t1 + t2, args)
    ensures AllFit(t1, a1) && AllFit(t2, a2) && a1 + a2 == args
  {
    hide Fits;
    a1, a2 := args[..|t1|], args[|t1|..];
    forall i | 0 <= i < |t1| ensures Fits(t1[i], a1[i]) {
      assert (t1 + t2)[i] == t1[i];
    }
    forall i | 0 <= i < |t2| ensures Fits(t2[i], a2[i]) {
      assert (t1 + t2)[|t1| + i] == t2[i];
    }
  }

  lemma {:induction false} UnpackFirst(packs: seq<Pack>)
    requires packs != []
    ensures UnpackAll(packs) == Unpack(packs[0]) + UnpackAll(packs[1..])
  {
    hide Unpack;
    var n := |packs| - 1;
    if n > 0 {
      UnpackFirst(packs[..n]);
      assert packs[..n][1..] == packs[1..][..n - 1];
    } else {
      assert packs[..n] == [] && packs[1..] == [];
    }
  }

  /** The packs are a function of the signature. */
  lemma {:induction false} PacksAreUnique(p: seq<Pack>, q: seq<Pack>)
    requires Maximal(p) && Maximal(q) && UnpackAll(p) == UnpackAll(q)
    ensures p == q
    decreases |p|
  {
    hide *;
    NotEmptied(p);
    NotEmptied(q);
    if p != [] && q != [] {
      UnpackFirst(p);
      UnpackFirst(q);
      SameFirstPack(p, q);
      MaximalTail(p);
      MaximalTail(q);
      PacksAreUnique(p[1..], q[1..]);
    }
  }

  lemma NotEmptied(p: seq<Pack>)
    requires Maximal(p)
    ensures UnpackAll(p) == [] <==> p == []
  {
    if p != [] {
      UnpackFirst(p);
    }
  }

  lemma MaximalTail(p: seq<Pack>)
    requires p != [] && Maximal(p)
    ensures Maximal(p[1..])
  {
  }

  function ScalarPrefix(types: seq<ArgType>): nat {
    if types == [] || IsContainer(types[0]) then 0 else 1 + ScalarPrefix(types[1..])
  }

  lemma {:induction false} RunLength(ts: seq<ScalarType>, rest: seq<ArgType>)
    requires rest == [] || IsContainer(rest[0])
    ensures ScalarPrefix(ScalarArgs(ts) + rest) == |ts|
  {
    if ts == [] {
      assert ScalarArgs(ts) + rest == rest;
    } else {
      assert (ScalarArgs(ts) + rest)[1..] == ScalarArgs(ts[1..]) + rest;
      RunLength(ts[1..], rest);
    }
  }

  /** The first pack is as long as the scalars in front reach. */
  lemma FirstPackLength(p: seq<Pack>)
    requires p != [] && Maximal(p)
    ensures var n := ScalarPrefix(Unpack(p[0]) + UnpackAll(p[1..]));
            (p[0].Scalars? <==> n > 0) && |Unpack(p[0])| == if n > 0 then n else 1
  {
    match p[0] {
      case Scalars(ts) =>
        if |p| > 1 {
          UnpackFirst(p[1..]);
          assert p[1].Container?;
        }
        RunLength(ts, UnpackAll(p[1..]));
      case Container(t) =>
    }
  }

  lemma SameFirstPack(p: seq<Pack>, q: seq<Pack>)
    requires p != [] && q != [] && Maximal(p) && Maximal(q)
    requires Unpack(p[0]) + UnpackAll(p[1..]) == Unpack(q[0]) + UnpackAll(q[1..])
    ensures p[0] == q[0] && UnpackAll(p[1..]) == UnpackAll(q[1..])
  {
    FirstPackLength(p);
    FirstPackLength(q);
    hide UnpackAll, Maximal;
    var a, b := Unpack(p[0]), Unpack(q[0]);
    var all := a + UnpackAll(p[1..]);
    assert a == all[..|a|] == b;
    assert UnpackAll(p[1..]) == all[|a|..] == UnpackAll(q[1..]);
    if p[0].Scalars? {
      assert forall i :: 0 <= i < |a| ==> p[0].types[i] == a[i].scalar && q[0].types[i] == b[i].scalar;
      assert p[0].types == q[0].types;
    } else {
      assert a[0] == b[0];
    }
  }
}
