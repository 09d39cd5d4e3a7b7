/** The server's reply builder: DynamicSerializer keeps scalars back in a fixed array and dumps
    them in front of the next container, so that a reply is written in few insertions. */
module Serializer {
  import opened Bytes
  import opened WireFormat

  const SCALAR_PACK_LEN := 1024

  /** An argument of Session::send: a value of a wire type, or a C string in memory. */
  datatype Reply = Typed(t: ArgType, a: Value) | CString(memory: seq<Byte>)

  function UpToNul(memory: seq<Byte>): (r: seq<Byte>)
    ensures |r| <= |memory|
  {
    if memory == [] || memory[0] == 0 then [] else [memory[0]] + UpToNul(memory[1..])
  }

  /** A C string is what stands in front of the first NUL. */
  lemma {:induction false} EndsAtNul(memory: seq<Byte>)
    ensures var r := UpToNul(memory);
            && r <= memory && 0 !in r && (|r| < |memory| ==> memory[|r|] == 0)
  {
    if memory != [] && memory[0] != 0 {
      EndsAtNul(memory[1..]);
      assert memory == [memory[0]] + memory[1..];
    }
  }

  function TypeOf(r: Reply): ArgType {
    if r.CString? then StringArg else r.t
  }

  function ValueOf(r: Reply): Value {
    if r.CString? then Raw(UpToNul(r.memory)) else r.a
  }

  predicate Serializable(r: Reply) {
    Fits(TypeOf(r), ValueOf(r))
  }

  ghost predicate AllSerializable(args: seq<Reply>) {
    forall i :: 0 <= i < |args| ==> Serializable(args[i])
  }

  /** The concatenation that a reader of the reply expects. */
  ghost function Plainly(args: seq<Reply>): seq<Byte>
    requires AllSerializable(args)
  {
    if args == [] then [] else
      assert Serializable(args[0]);
      Encode(TypeOf(args[0]), ValueOf(args[0])) + Plainly(args[1..])
  }

  /** No run of adjacent scalars outgrows the array; `used` bytes of it are taken. */
  predicate RunsFit(args: seq<Reply>, used: nat) {
    args == [] ||
    match TypeOf(args[0])
    case ScalarArg(s) => used + SizeOf(s) <= SCALAR_PACK_LEN && RunsFit(args[1..], used + SizeOf(s))
    case _ => RunsFit(args[1..], 0)
  }

  lemma FourBytes(value: int)
    ensures BigEndian(value, 1) == [value % 256]
    ensures BigEndian(value, 2) == [ShiftRight(value, 1) % 256, value % 256]
    ensures BigEndian(value, 4)
            == [ShiftRight(value, 3) % 256, ShiftRight(value, 2) % 256, ShiftRight(value, 1) % 256, value % 256]
  {
    ShiftOnceMore(value, 1);
    ShiftOnceMore(value, 2);
    var b, c, d := value / 256, ShiftRight(value, 2), ShiftRight(value, 3);
    assert BigEndian(d, 1) == [d % 256];
    assert BigEndian(c, 2) == BigEndian(d, 1) + [c % 256];
    assert BigEndian(b, 3) == BigEndian(c, 2) + [b % 256];
  }

  /** koheron::append<T>(buff + at, value) for the sizes of the scalar types. */
  method Append(buff: array<Byte>, at: nat, value: int, size: nat)
    requires size == 1 || size == 2 || size == 4 || size == 8
    requires at + size <= buff.Length
    modifies buff
    ensures buff[..] == old(buff[..at]) + BigEndian(value, size) + old(buff[at + size..])
    decreases size
  {
    ghost var before := buff[..];
    FourBytes(value);
    hide BigEndian, ShiftRight;
    if size == 1 {
      buff[at] := value % 256;
    } else if size == 2 {
      buff[at] := ShiftRight(value, 1) % 256;
      buff[at + 1] := value % 256;
    } else if size == 4 {
      buff[at] := ShiftRight(value, 3) % 256;
      buff[at + 1] := ShiftRight(value, 2) % 256;
      buff[at + 2] := ShiftRight(value, 1) % 256;
      buff[at + 3] := value % 256;
    } else {
      HighAndLow(value, 4, 4);
      Append(buff, at, ShiftRight(value, 4), 4);
      assert buff[..at + 4] == before[..at] + BigEndian(ShiftRight(value, 4), 4);
      assert buff[at + 8..] == before[at + 8..];
      Append(buff, at + 4, value, 4);
    }
  }

  /** serialize(0U, class_id, func_id) */
  method SerializeHeader(classId: nat, funcId: nat) returns (header: seq<Byte>)
    ensures header == Header(classId, funcId)
  {
    var arr := new Byte[8];
    Append(arr, 0, 0, 4);
    assert arr[..4] == BigEndian(0, 4);
    Append(arr, 4, classId, 2);
    assert arr[..4] == BigEndian(0, 4) && arr[4..6] == BigEndian(classId, 2);
    assert arr[..6] == arr[..4] + arr[4..6];
    Append(arr, 6, funcId, 2);
    header := arr[..];
  }

  lemma FirstArgument(args: seq<Reply>, used: nat)
    requires AllSerializable(args) && RunsFit(args, used)
    ensures args == [] ==> Plainly(args) == []
    ensures args != [] ==>
              && Serializable(args[0]) && Fits(TypeOf(args[0]), ValueOf(args[0])) && RunsFit([args[0]], used)
              && RunsFit(args[1..], if TypeOf(args[0]).ScalarArg? then used + SizeOf(TypeOf(args[0]).scalar) else 0)
              && AllSerializable(args[1..])
              && Plainly(args) == Encode(TypeOf(args[0]), ValueOf(args[0])) + Plainly(args[1..])
  {
    if args != [] {
      assert [args[0]][1..] == [];
    }
  }

  class ByteVector {
    var data: seq<Byte>

    constructor ()
      ensures data == []
    {
      data := [];
    }

    method Resize(n: nat)
      modifies this
      ensures |data| == n
      ensures forall i :: 0 <= i < n && i < |old(data)| ==> data[i] == old(data)[i]
    {
      data := if n <= |data| then data[..n] else data + seq(n - |data|, i => 0);
    }

    /** insert(end(), bytes) */
    method Insert(bytes: seq<Byte>)
      modifies this
      ensures data == old(data) + bytes
    {
      data := data + bytes;
    }
  }

  class DynamicSerializer {
    const scalData: array<Byte>
    var scalSize: nat

    constructor ()
      ensures Valid() && scalSize == 0 && fresh(scalData)
    {
      scalData := new Byte[SCALAR_PACK_LEN];
      scalSize := 0;
    }

    ghost predicate Valid()
      reads this
    {
      scalData.Length == SCALAR_PACK_LEN && scalSize <= SCALAR_PACK_LEN
    }

    /** What has been serialized so far, dumped or not. */
    ghost function Written(buffer: ByteVector): seq<Byte>
      requires Valid()
      reads this, scalData, buffer
    {
      buffer.data + scalData[..scalSize]
    }

    method AppendScalar(buffer: ByteVector, t: ScalarType, v: int)
      requires Valid() && scalSize + SizeOf(t) <= SCALAR_PACK_LEN && ScalarInRange(t, v)
      modifies this, scalData
      ensures Valid() && scalSize == old(scalSize) + SizeOf(t)
      ensures Written(buffer) == old(Written(buffer)) + BigEndian(v, SizeOf(t))
    {
      Append(scalData, scalSize, if t == Bool then (if v != 0 then 1 else 0) else v, SizeOf(t));
      scalSize := scalSize + SizeOf(t);
    }

    method DumpScalarPack(buffer: ByteVector)
      requires Valid()
      modifies this, buffer
      ensures Valid() && scalSize == 0
      ensures buffer.data == old(Written(buffer))
    {
      if scalSize > 0 {
        buffer.Insert(scalData[..scalSize]);
        scalSize := 0;
      }
    }

    /** dump_container_to_buffer for vectors and strings: the length is cut to 32 bits, and so is
        what follows it. */
    method DumpContainer(buffer: ByteVector, bytes: seq<Byte>)
      modifies buffer
      ensures var n := |bytes| % 0x1_0000_0000;
              buffer.data == old(buffer.data) + (BigEndian(n, 4) + bytes[..n])
      ensures |bytes| < 0x1_0000_0000 ==>
                buffer.data == old(buffer.data) + (BigEndian(|bytes|, 4) + bytes)
    {
      hide BigEndian;
      var nBytes := |bytes| % 0x1_0000_0000;
      var length := new Byte[4];
      Append(length, 0, nBytes, 4);
      buffer.Insert(length[..]);
      if nBytes > 0 {
        buffer.Insert(bytes[..nBytes]);
      }
    }

    method DumpArray(buffer: ByteVector, bytes: seq<Byte>)
      modifies buffer
      ensures buffer.data == old(buffer.data) + bytes
    {
      if |bytes| > 0 {
        buffer.Insert(bytes);
      }
    }

    /** command_serializer: scalars are put aside, anything else first dumps them. */
    method CommandSerializer(buffer: ByteVector, args: seq<Reply>)
      requires Valid() && RunsFit(args, scalSize) && AllSerializable(args)
      modifies this, scalData, buffer
      ensures Valid()
      ensures Written(buffer) == old(Written(buffer)) + Plainly(args)
      decreases |args|
    {
      FirstArgument(args, scalSize);
      hide RunsFit, Serializable, Encode, Fits, Plainly, TypeOf, ValueOf;
      if |args| > 0 {
        ghost var before, first := Written(buffer), Encode(TypeOf(args[0]), ValueOf(args[0]));
        SerializeOne(buffer, args[0]);
        CommandSerializer(buffer, args[1..]);
        assert Written(buffer) == before + first + Plainly(args[1..]);
      } else {
        assert Written(buffer) == Written(buffer) + [];
      }
    }

    method SerializeOne(buffer: ByteVector, arg: Reply)
      requires Valid() && RunsFit([arg], scalSize) && Serializable(arg)
      modifies this, scalData, buffer
      ensures Valid() && scalSize == if TypeOf(arg).ScalarArg? then old(scalSize) + SizeOf(TypeOf(arg).scalar) else 0
      ensures Written(buffer) == old(Written(buffer)) + Encode(TypeOf(arg), ValueOf(arg))
    {
      match arg {
        case CString(memory) =>
          DumpScalarPack(buffer);
          DumpContainer(buffer, UpToNul(memory));
        case Typed(t, a) =>
          match t {
            case ScalarArg(s) => AppendScalar(buffer, s, a.v);
            case ArrayArg(_, _) =>
              DumpScalarPack(buffer);
              DumpArray(buffer, a.bytes);
            case VectorArg(_) =>
              DumpScalarPack(buffer);
              DumpContainer(buffer, a.bytes);
            case StringArg =>
              DumpScalarPack(buffer);
              DumpContainer(buffer, a.bytes);
          }
      }
    }

    /** build_command<class_id, func_id>(buffer, args...), whatever earlier calls left behind. */
    method BuildCommand(classId: nat, funcId: nat, buffer: ByteVector, args: seq<Reply>)
      requires Valid() && RunsFit(args, 0) && AllSerializable(args)
      modifies this, scalData, buffer
      ensures Valid()
      ensures buffer.data == Header(classId, funcId) + Plainly(args)
    {
      var header := SerializeHeader(classId, funcId);
      buffer.Resize(8);
      buffer.data := header + buffer.data[|header|..];
      if |args| > 0 {
        scalSize := 0;
        CommandSerializer(buffer, args);
        DumpScalarPack(buffer);
      }
    }
  }

  function Types(args: seq<Reply>): (r: seq<ArgType>)
    ensures |r| == |args|
  {
    seq(|args|, i requires 0 <= i < |args| => TypeOf(args[i]))
  }

  function Values(args: seq<Reply>): (r: seq<Value>)
    ensures |r| == |args|
  {
    seq(|args|, i requires 0 <= i < |args| => ValueOf(args[i]))
  }

  /** A reply reads back, pack by pack, as the arguments it was built from. */
  lemma {:induction false} ReplyEncodes(args: seq<Reply>)
    requires AllSerializable(args)
    ensures AllFit(Types(args), Values(args))
    ensures Plainly(args) == EncodeAll(Types(args), Values(args))
    decreases |args|
  {
    hide Encode, Fits;
    if args != [] {
      ReplyEncodes(args[1..]);
      assert Types(args)[1..] == Types(args[1..]) && Values(args)[1..] == Values(args[1..]);
    }
  }

  lemma ReplyRoundTrip(args: seq<Reply>, packs: seq<Pack>, rest: seq<Byte>)
    requires AllSerializable(args)
    requires Maximal(packs) && UnpackAll(packs) == Types(args)
    ensures ParsePacks(packs, Plainly(args) + rest) == Some((Values(args), rest))
  {
    ReplyEncodes(args);
    hide *;
    PacksRoundTrip(packs, Values(args), rest);
  }
}
