/** The TCP session of koheron-server: commands read off a stream that the network may cut
    anywhere, their arguments parsed pack by pack, and the run loop over them. */
module Session {
  import opened Bytes
  import opened WireFormat

  /** The receiving end of a connection: `pending` is everything the peer still sends. */
  class Socket {
    var pending: seq<Byte>

    constructor (bytes: seq<Byte>)
      ensures pending == bytes
    {
      pending := bytes;
    }

    /** read(2): any positive number of bytes up to n, or none once the peer has closed. */
    method Read(n: nat) returns (chunk: seq<Byte>)
      requires n > 0
      modifies this
      ensures chunk + pending == old(pending) && |chunk| <= n
      ensures chunk == [] <==> old(pending) == []
    {
      chunk := [];
      if pending != [] {
        var k: nat :| 1 <= k <= n && k <= |pending|;
        chunk, pending := pending[..k], pending[k..];
      }
    }
  }

  const HEADER_SIZE := 8

  /** A driver operation, called with the arguments that its parser produced. */
  datatype Call = Call(driver: nat, operation: nat, args: seq<Value>)

  /** The generated parsers: the packs of every operation of every driver. */
  type Parsers = map<(nat, nat), seq<Pack>>

  /** What a stream makes the server do.  `truncated` when it ends inside the arguments of a
      command, `aborted` when a command names a driver that does not exist. */
  datatype Service = Service(calls: seq<Call>, truncated: bool, aborted: bool)

  /** What the front of a stream asks for. */
  datatype Next =
    | Close
    | NoSuchDriver
    | Ignored(rest: seq<Byte>)
    | Incomplete
    | Execute(call: Call, rest: seq<Byte>)

  function NextCommand(devices: nat, parsers: Parsers, stream: seq<Byte>): (r: Next)
    ensures r.Ignored? || r.Execute? ==> |r.rest| < |stream|
  {
    if |stream| < HEADER_SIZE then Close
    else
      var driver, operation := FromBigEndian(stream[4..6]), FromBigEndian(stream[6..8]);
      var rest := stream[HEADER_SIZE..];
      if driver >= devices then NoSuchDriver
      else if driver == 0 || (driver, operation) !in parsers then Ignored(rest)
      else
        var parsed := ParsePacks(parsers[(driver, operation)], rest);
        if parsed.None? then Incomplete
        else Execute(Call(driver, operation, parsed.value.0), parsed.value.1)
  }

  function Served(devices: nat, parsers: Parsers, stream: seq<Byte>): Service
    decreases |stream|
  {
    match NextCommand(devices, parsers, stream)
    case Close => Service([], false, false)
    case NoSuchDriver => Service([], false, true)
    case Incomplete => Service([], true, false)
    case Ignored(rest) => Served(devices, parsers, rest)
    case Execute(call, rest) => Preceded([call], Served(devices, parsers, rest))
  }

  class TcpSession {
    const socket: Socket
    const devices: nat
    const parsers: Parsers
    var executed: seq<Call>

    constructor (socket: Socket, devices: nat, parsers: Parsers)
      ensures this.socket == socket && this.devices == devices && this.parsers == parsers && executed == []
    {
      this.socket, this.devices, this.parsers, executed := socket, devices, parsers, [];
    }

    /** rcv_n_bytes: exactly n bytes however they arrive, or 0 when the peer closes first. */
    method RcvNBytes(buffer: array<Byte>, n: nat) returns (r: nat)
      requires n <= buffer.Length
      modifies socket, buffer
      ensures |old(socket.pending)| >= n ==>
                r == n && buffer[..n] == old(socket.pending)[..n] && socket.pending == old(socket.pending)[n..]
      ensures |old(socket.pending)| < n ==> r == 0 && socket.pending == []
      ensures buffer[n..] == old(buffer[n..])
    {
      var bytesRead := 0;
      ghost var before := socket.pending;
      while bytesRead < n
        invariant 0 <= bytesRead <= n
        invariant buffer[..bytesRead] + socket.pending == before
        invariant buffer[n..] == old(buffer[n..])
      {
        var chunk := socket.Read(n - bytesRead);
        if chunk == [] {
          assert before == buffer[..bytesRead];
          return 0;
        }
        Store(buffer, bytesRead, chunk, n);
        bytesRead := bytesRead + |chunk|;
      }
      assert before[..n] == buffer[..n] && before[n..] == socket.pending;
      return bytesRead;
    }

    /** The bytes that read(2) writes through its pointer. */
    static method Store(buffer: array<Byte>, at: nat, chunk: seq<Byte>, ghost end: nat)
      requires at + |chunk| <= end <= buffer.Length
      modifies buffer
      ensures buffer[..at + |chunk|] == old(buffer[..at]) + chunk
      ensures buffer[end..] == old(buffer[end..])
    {
      for i := 0 to |chunk|
        invariant buffer[..at + i] == old(buffer[..at]) + chunk[..i]
        invariant buffer[end..] == old(buffer[end..])
      {
        buffer[at + i] := chunk[i];
      }
    }

    /** get_pack_length.  When the peer has closed, the length comes from whatever the buffer held. */
    method GetPackLength() returns (length: nat)
      modifies socket
      ensures |old(socket.pending)| >= 4 ==>
                length == FromBigEndian(old(socket.pending)[..4]) && socket.pending == old(socket.pending)[4..]
      ensures |old(socket.pending)| < 4 ==> socket.pending == []
    {
      var buff := new Byte[8];
      var _ := RcvNBytes(buff, 4);
      length := FromBigEndian(buff[..4]);
    }

    /** recv for std::array, std::vector and std::string */
    method Recv(t: ArgType) returns (v: Value)
      requires IsContainer(t)
      modifies socket
      ensures match ParsePack(Container(t), old(socket.pending))
              case Some((values, rest)) => values == [v] && socket.pending == rest
              case None => socket.pending == []
    {
      ghost var before := socket.pending;
      var length := 0;
      match t {
        case ArrayArg(e, count) => length := count * SizeOf(e);
        case VectorArg(e) =>
          var n := GetPackLength();
          length := n / SizeOf(e) * SizeOf(e);
        case StringArg => length := GetPackLength();
      }
      var container := new Byte[length];
      ghost var start := socket.pending;
      var _ := RcvNBytes(container, length);
      assert container[..length] == container[..];
      v := Raw(container[..]);
      assert !t.ArrayArg? && |before| >= 4 ==> start == before[4..] && |before| == 4 + |start|;
      assert !t.ArrayArg? && |before| >= 4 + length ==>
               before[4..4 + length] == start[..length] && before[4 + length..] == start[length..];
    }

    /** deserialize<Tp...> */
    method DeserializePack(types: seq<ScalarType>) returns (values: seq<Value>)
      modifies socket
      ensures |values| == |types|
      ensures match ParsePack(Scalars(types), old(socket.pending))
              case Some((read, rest)) => values == read && socket.pending == rest
              case None => socket.pending == []
    {
      var packLen := RequiredSize(types);
      var buff := new Byte[packLen];
      var _ := RcvNBytes(buff, packLen);
      assert buff[..packLen] == buff[..];
      values := Deserialize(types, buff[..], 0);
    }

    /** The parser that the server generator writes for an operation. */
    method ParseArguments(packs: seq<Pack>) returns (args: seq<Value>)
      requires Maximal(packs)
      modifies socket
      ensures match ParsePacks(packs, old(socket.pending))
              case Some((values, rest)) => args == values && socket.pending == rest
              case None => socket.pending == []
    {
      args := [];
      ghost var before := socket.pending;
      ghost var short := false;
      hide ParsePack, ParsePacks, Maximal, Prefixed;
      AllPacks(packs, before);
      for i := 0 to |packs|
        invariant short ==> socket.pending == [] && ParsePacks(packs, before) == None
        invariant !short ==> ParsePacks(packs, before) == Prefixed(args, ParsePacks(packs[i..], socket.pending))
      {
        NextPack(packs, i, args, socket.pending);
        ghost var step := ParsePack(packs[i], socket.pending);
        if packs[i].Scalars? {
          var values := DeserializePack(packs[i].types);
          args := args + values;
        } else {
          var v := Recv(packs[i].arg);
          args := args + [v];
        }
        short := short || step == None;
      }
      NoPack(packs, args, socket.pending);
    }

    /** read_command: the driver and operation of the next command, or None once the peer has closed. */
    method ReadCommand() returns (command: Option<(nat, nat)>)
      modifies socket
      ensures |old(socket.pending)| < HEADER_SIZE ==> command == None && socket.pending == []
      ensures |old(socket.pending)| >= HEADER_SIZE ==>
                && command == Some((FromBigEndian(old(socket.pending)[4..6]), FromBigEndian(old(socket.pending)[6..8])))
                && socket.pending == old(socket.pending)[HEADER_SIZE..]
    {
      ghost var before := socket.pending;
      var header := new Byte[HEADER_SIZE];
      var headerBytes := RcvNBytes(header, HEADER_SIZE);
      if headerBytes == 0 {
        return None;
      }
      assert header[4..6] == before[4..6] && header[6..8] == before[6..8];
      return Some((FromBigEndian(header[4..6]), FromBigEndian(header[6..8])));
    }

    /** Session::run with DriverManager::execute and the generated switch over operations; false
        when the server aborts on a driver that does not exist. */
    method Run() returns (closed: bool)
      requires forall op :: op in parsers ==> Maximal(parsers[op])
      modifies socket, this
      ensures var service := Served(devices, parsers, old(socket.pending));
              && closed == !service.aborted
              && (closed ==> socket.pending == [])
              && old(executed) + service.calls <= executed
              && |executed| == |old(executed)| + |service.calls| + if service.truncated then 1 else 0
    {
      ghost var before, done, cut := socket.pending, [], false;
      hide Served, ParsePacks, Maximal, CutShort;
      assert Served(devices, parsers, before) == Preceded([], Served(devices, parsers, before));
      while true
        invariant !cut ==> executed == old(executed) + done
        invariant !cut ==> Served(devices, parsers, before) == Preceded(done, Served(devices, parsers, socket.pending))
        invariant cut ==> socket.pending == [] && CutShort(old(executed), executed, Served(devices, parsers, before))
        decreases |socket.pending|
      {
        ghost var start := socket.pending;
        if !cut {
          ServedStep(devices, parsers, before, done, start, old(executed));
        } else {
          CutShortMeans(old(executed), executed, Served(devices, parsers, before));
        }
        var command := ReadCommand();
        if command == None {
          return true;
        }
        var (driver, operation) := command.value;
        if driver >= devices {
          return false;
        }
        if driver != 0 && (driver, operation) in parsers {
          var args := ParseArguments(parsers[(driver, operation)]);
          executed := executed + [Call(driver, operation, args)];
          cut := ParsePacks(parsers[(driver, operation)], start[HEADER_SIZE..]) == None;
          done := done + [Call(driver, operation, args)];
        }
      }
    }
  }

  function Preceded(done: seq<Call>, s: Service): Service {
    s.(calls := done + s.calls)
  }

  ghost predicate CutShort(before: seq<Call>, executed: seq<Call>, s: Service) {
    s.truncated && !s.aborted && |executed| == |before| + |s.calls| + 1 && before + s.calls <= executed
  }

  function Prefixed(done: seq<Value>, more: Option<(seq<Value>, seq<Byte>)>): Option<(seq<Value>, seq<Byte>)> {
    match more
    case None => None
    case Some((values, rest)) => Some((done + values, rest))
  }

  lemma NextPack(packs: seq<Pack>, i: nat, done: seq<Value>, stream: seq<Byte>)
    requires i < |packs| && Maximal(packs)
    ensures packs[i].Container? ==> IsContainer(packs[i].arg)
    ensures Prefixed(done, ParsePacks(packs[i..], stream)) ==
            match ParsePack(packs[i], stream)
            case None => None
            case Some((values, rest)) => Prefixed(done + values, ParsePacks(packs[i + 1..], rest))
  {
    assert packs[i..][1..] == packs[i + 1..];
    hide ParsePack;
    if ParsePack(packs[i], stream).Some? {
      var (values, rest) := ParsePack(packs[i], stream).value;
      if ParsePacks(packs[i + 1..], rest).Some? {
        assert done + (values + ParsePacks(packs[i + 1..], rest).value.0)
               == done + values + ParsePacks(packs[i + 1..], rest).value.0;
      }
    }
  }

  lemma AllPacks(packs: seq<Pack>, stream: seq<Byte>)
    ensures Prefixed([], ParsePacks(packs[0..], stream)) == ParsePacks(packs, stream)
  {
    hide ParsePacks;
    assert packs[0..] == packs;
    if ParsePacks(packs, stream).Some? {
      assert [] + ParsePacks(packs, stream).value.0 == ParsePacks(packs, stream).value.0;
    }
  }

  lemma NoPack(packs: seq<Pack>, done: seq<Value>, stream: seq<Byte>)
    ensures Prefixed(done, ParsePacks(packs[|packs|..], stream)) == Some((done, stream))
  {
    assert done + [] == done;
  }

  lemma ServedStep(devices: nat, parsers: Parsers, before: seq<Byte>, done: seq<Call>, stream: seq<Byte>,
                   log: seq<Call>)
    requires Served(devices, parsers, before) == Preceded(done, Served(devices, parsers, stream))
    ensures var s, next := Served(devices, parsers, before), NextCommand(devices, parsers, stream);
            && (next.Close? ==> s == Service(done, false, false))
            && (next.NoSuchDriver? ==> s == Service(done, false, true))
            && (next.Incomplete? ==> forall last :: CutShort(log, log + done + [last], s))
            && (next.Ignored? ==> s == Preceded(done, Served(devices, parsers, next.rest)))
            && (next.Execute? ==> s == Preceded(done + [next.call], Served(devices, parsers, next.rest)))
  {
    hide NextCommand;
    var next := NextCommand(devices, parsers, stream);
    if next.Execute? {
      var after := Served(devices, parsers, next.rest);
      assert done + ([next.call] + after.calls) == done + [next.call] + after.calls;
    } else if next.Incomplete? {
      assert done + [] == done;
    }
  }

  lemma CutShortMeans(before: seq<Call>, executed: seq<Call>, s: Service)
    requires CutShort(before, executed, s)
    ensures s.truncated && !s.aborted && |executed| == |before| + |s.calls| + 1 && before + s.calls <= executed
  {
  }

  // ---------------------------------------------------------------------------------
  // What a well-formed stream is served as
  // ---------------------------------------------------------------------------------

  /** A call of an operation that exists, with arguments of its signature. */
  ghost predicate Proper(devices: nat, parsers: Parsers, call: Call) {
    && 1 <= call.driver < devices && call.driver < 0x1_0000 && call.operation < 0x1_0000
    && (call.driver, call.operation) in parsers
    && Maximal(parsers[(call.driver, call.operation)])
    && AllFit(UnpackAll(parsers[(call.driver, call.operation)]), call.args)
  }

  ghost predicate AllProper(devices: nat, parsers: Parsers, calls: seq<Call>) {
    forall i :: 0 <= i < |calls| ==> Proper(devices, parsers, calls[i])
  }

  ghost function CallBytes(devices: nat, parsers: Parsers, call: Call): seq<Byte>
    requires Proper(devices, parsers, call)
  {
    Header(call.driver, call.operation) + EncodeAll(UnpackAll(parsers[(call.driver, call.operation)]), call.args)
  }

  ghost function Stream(devices: nat, parsers: Parsers, calls: seq<Call>): seq<Byte>
    requires AllProper(devices, parsers, calls)
  {
    if calls == [] then [] else CallBytes(devices, parsers, calls[0]) + Stream(devices, parsers, calls[1..])
  }

  lemma OneCall(devices: nat, parsers: Parsers, call: Call, rest: seq<Byte>)
    requires Proper(devices, parsers, call)
    ensures NextCommand(devices, parsers, CallBytes(devices, parsers, call) + rest) == Execute(call, rest)
  {
    var packs := parsers[(call.driver, call.operation)];
    hide Header, FromBigEndian, EncodeAll, UnpackAll, ParsePacks, Maximal, AllFit;
    var payload := EncodeAll(UnpackAll(packs), call.args);
    HeaderRoundTrip(call.driver, call.operation, payload + rest);
    PacksRoundTrip(packs, call.args, rest);
    assert CallBytes(devices, parsers, call) + rest == Header(call.driver, call.operation) + (payload + rest);
  }

  /** Every call comes out, in order and with its arguments, and nothing else does. */
  lemma {:induction false} CallsAreServed(devices: nat, parsers: Parsers, calls: seq<Call>, rest: seq<Byte>)
    requires AllProper(devices, parsers, calls)
    ensures Served(devices, parsers, Stream(devices, parsers, calls) + rest)
            == Preceded(calls, Served(devices, parsers, rest))
    decreases |calls|
  {
    hide NextCommand, CallBytes, Proper;
    if calls == [] {
      assert Stream(devices, parsers, calls) + rest == rest;
    } else {
      var tail := Stream(devices, parsers, calls[1..]) + rest;
      CallsAreServed(devices, parsers, calls[1..], rest);
      OneCall(devices, parsers, calls[0], tail);
      assert Stream(devices, parsers, calls) + rest == CallBytes(devices, parsers, calls[0]) + tail;
      assert [calls[0]] + (calls[1..] + Served(devices, parsers, rest).calls)
             == calls + Served(devices, parsers, rest).calls;
    }
  }
}
