/** The payload buffer of a command (commands.hpp) and the WebSocket session's readers over it. */
module CommandBuffer {
  import opened Bytes
  import opened WireFormat
  import Session

  const CMD_PAYLOAD_BUFFER_LEN := 16384 * 16

  /** A fixed buffer with a cursor; every read starts at the cursor and moves it. */
  class Buffer {
    const data: array<Byte>
    var position: nat

    constructor (len: nat, position: nat)
      ensures this.position == position && data.Length == len && fresh(data)
    {
      this.position := position;
      data := new Byte[len];
    }

    ghost predicate Valid()
      reads this
    {
      position <= data.Length
    }

    /** What is still to be read. */
    ghost function Rest(): seq<Byte>
      requires Valid()
      reads this, data
    {
      data[position..]
    }

    method Deserialize(types: seq<ScalarType>) returns (values: seq<Value>)
      requires Valid() && RequiredSize(types) <= |Rest()|
      modifies `position
      ensures Valid() && |values| == |types|
      ensures ParsePack(Scalars(types), old(Rest())) == Some((values, Rest()))
    {
      ghost var before := Rest();
      var n := RequiredSize(types);
      values := WireFormat.Deserialize(types, data[position..position + n], 0);
      position := position + n;
      assert before[..n] == data[position - n..position] && before[n..] == Rest();
    }

    /** extract_array<T, N> */
    method ExtractArray(elem: ScalarType, count: nat) returns (bytes: seq<Byte>)
      requires Valid() && count * SizeOf(elem) <= |Rest()|
      modifies `position
      ensures Valid() && bytes + Rest() == old(Rest()) && |bytes| == count * SizeOf(elem)
    {
      bytes := data[position..position + count * SizeOf(elem)];
      position := position + count * SizeOf(elem);
    }

    /** to_vector<T>: `length` counts elements. */
    method ToVector(elem: ScalarType, length: nat) returns (bytes: seq<Byte>)
      requires Valid() && length * SizeOf(elem) <= |Rest()|
      modifies `position
      ensures Valid() && bytes + Rest() == old(Rest()) && |bytes| == length * SizeOf(elem)
    {
      bytes := data[position..position + length * SizeOf(elem)];
      position := position + length * SizeOf(elem);
    }

    method ToString(length: nat) returns (bytes: seq<Byte>)
      requires Valid() && length <= |Rest()|
      modifies `position
      ensures Valid() && bytes + Rest() == old(Rest()) && |bytes| == length
    {
      bytes := data[position..position + length];
      position := position + length;
    }

    // Session<WEBSOCK> ---------------------------------------------------------------

    /** recv for std::array, std::vector and std::string; None is the return value -1. */
    method Recv(t: ArgType) returns (r: Option<Value>)
      requires Valid() && IsContainer(t) && ParsePack(Container(t), Rest()).Some?
      requires data.Length <= CMD_PAYLOAD_BUFFER_LEN
      modifies `position
      ensures Valid() && r.Some?
      ensures ParsePack(Container(t), old(Rest())) == Some(([r.value], Rest()))
    {
      ghost var before := Rest();
      var bytes: seq<Byte>;
      ghost var prefix := 0;
      if t.ArrayArg? {
        bytes := ExtractArray(t.elem, t.count);
      } else {
        var length := ReadLength();
        prefix := 4;
        LengthFits(t, before);
        if length > CMD_PAYLOAD_BUFFER_LEN {
          return None;
        }
        if t.VectorArg? {
          bytes := ToVector(t.elem, length / SizeOf(t.elem));
        } else {
          bytes := ToString(length);
        }
      }
      assert before == before[..prefix] + (bytes + Rest());
      assert before[prefix..prefix + |bytes|] == bytes && before[prefix + |bytes|..] == Rest();
      return Some(Raw(bytes));
    }

    method ReadLength() returns (length: nat)
      requires Valid() && |Rest()| >= 4
      modifies `position
      ensures Valid() && length == FromBigEndian(old(Rest())[..4]) && Rest() == old(Rest())[4..]
    {
      ghost var before := Rest();
      var values := Deserialize([U32]);
      OneU32(before);
      length := values[0].v;
    }

    /** The generated parser of an operation, over this buffer instead of the TCP stream. */
    method ParseArguments(packs: seq<Pack>) returns (r: Option<seq<Value>>)
      requires Valid() && Maximal(packs) && ParsePacks(packs, Rest()).Some?
      requires data.Length <= CMD_PAYLOAD_BUFFER_LEN
      modifies `position
      ensures Valid() && r.Some?
      ensures ParsePacks(packs, old(Rest())) == Some((r.value, Rest()))
    {
      var args := [];
      ghost var before := Rest();
      hide ParsePack, ParsePacks, Maximal, Session.Prefixed, RequiredSize;
      Session.AllPacks(packs, before);
      for i := 0 to |packs|
        invariant Valid()
        invariant ParsePacks(packs, before) == Session.Prefixed(args, ParsePacks(packs[i..], Rest()))
      {
        Session.NextPack(packs, i, args, Rest());
        if packs[i].Scalars? {
          ScalarsInside(packs[i].types, Rest());
          var values := Deserialize(packs[i].types);
          args := args + values;
        } else {
          var v := Recv(packs[i].arg);
          if v == None {
            return None;
          }
          args := args + [v.value];
        }
      }
      Session.NoPack(packs, args, Rest());
      return Some(args);
    }
  }

  lemma OneU32(stream: seq<Byte>)
    requires |stream| >= 4
    ensures RequiredSize([U32]) == 4
    ensures ParsePack(Scalars([U32]), stream) == Some(([Num(FromBigEndian(stream[..4]))], stream[4..]))
  {
    assert [U32][1..] == [];
    assert RequiredSize([U32]) == 4;
    assert stream[..4][0..4] == stream[..4];
    assert Deserialize([U32], stream[..4], 0) == [Num(Extract(U32, stream[..4]))];
  }

  lemma ScalarsInside(types: seq<ScalarType>, stream: seq<Byte>)
    requires ParsePack(Scalars(types), stream).Some?
    ensures RequiredSize(types) <= |stream|
  {
  }

  /** Arguments that end inside the buffer never meet the guard on the announced length. */
  lemma LengthFits(t: ArgType, stream: seq<Byte>)
    requires t.VectorArg? || t.StringArg?
    requires ParsePack(Container(t), stream).Some? && |stream| <= CMD_PAYLOAD_BUFFER_LEN
    ensures |stream| >= 4
    ensures var length := FromBigEndian(stream[..4]);
            && length <= CMD_PAYLOAD_BUFFER_LEN
            && 4 + (if t.VectorArg? then length / SizeOf(t.elem) * SizeOf(t.elem) else length) <= |stream|
  {
    var length := FromBigEndian(stream[..4]);
    if t.VectorArg? {
      WholePart(length, SizeOf(t.elem));
    }
  }

  lemma WholePart(n: nat, size: nat)
    requires 0 < size <= 8
    ensures n - 8 < n / size * size <= n
  {
  }
}
