/** The server's WebSocket transport (websocket.cpp): frames read out of arbitrary fragments,
    unmasked into a command, and frames written through partial writes. */
module WebSocket {
  import opened Bytes
  import opened WireFormat
  import opened WebSocketFrames
  import opened CommandBuffer
  import opened Session

  const WEBSOCK_READ_STR_LEN: int := 16384 * 16
  const WEBSOCK_SEND_BUF_LEN: int := 16384 * 16
  const KOHERON_READ_STR_LEN: int := 16384

  /** The longest payload that read_header accepts. */
  const LONGEST := WEBSOCK_READ_STR_LEN - 56

  /** The sending end: write(2) takes any part of what it is given, nothing, or fails. */
  class Sink {
    var sent: seq<Byte>

    /** How many writes took nothing or failed. */
    ghost var refusals: nat

    constructor ()
      ensures sent == [] && refusals == 0
    {
      sent, refusals := [], 0;
    }

    method Write(bytes: seq<Byte>) returns (n: int)
      requires bytes != []
      modifies this
      ensures -1 <= n <= |bytes|
      ensures sent == old(sent) + bytes[..if n > 0 then n else 0]
      ensures refusals == old(refusals) + if n > 0 then 0 else 1
    {
      n :| -1 <= n <= |bytes|;
      if n > 0 {
        sent := sent + bytes[..n];
      } else {
        refusals := refusals + 1;
      }
    }
  }

  /** A command before its arguments are parsed. */
  class Command {
    const header: Buffer
    const payload: Buffer

    constructor ()
      ensures fresh(header) && fresh(payload) && fresh(header.data) && fresh(payload.data)
      ensures header.data != payload.data
      ensures header.data.Length == HEADER_SIZE && header.position == 4
      ensures payload.data.Length == CMD_PAYLOAD_BUFFER_LEN && payload.position == 0
    {
      header := new Buffer(HEADER_SIZE, 4);
      payload := new Buffer(CMD_PAYLOAD_BUFFER_LEN, 0);
    }
  }

  /** What read_header finds in front of a stream. */
  datatype Head =
    | TooShort
    | Refused
    | CloseFrame
    | Data(headerSize: nat, maskOffset: nat, payloadSize: int)

  function Signed64(n: nat): int {
    if n >= 0x8000_0000_0000_0000 then n - 0x1_0000_0000_0000_0000 else n
  }

  /** A 64-bit pattern as a two's complement number. */
  lemma Signed64Is(n: nat)
    requires n < 0x1_0000_0000_0000_0000
    ensures -0x8000_0000_0000_0000 <= Signed64(n) < 0x8000_0000_0000_0000
    ensures Signed64(n) == n || Signed64(n) == n - 0x1_0000_0000_0000_0000
  {
  }

  function HeadOf(stream: seq<Byte>): Head {
    if |stream| < 6 then TooShort
    else if stream[0] % 16 == 8 then CloseFrame
    else if stream[0] % 16 != 1 && stream[0] % 16 != 2 then Refused
    else
      match FormOf(stream[1])
      case Small => Data(6, 2, stream[1] % 128)
      case Medium => if |stream| < 8 then TooShort else Data(8, 4, FromBigEndian(stream[2..4]))
      case Big =>
        if |stream| < 14 then TooShort
        else
          var n := Signed64(FromBigEndian(stream[2..10]));
          if n > LONGEST then Refused else Data(14, 10, n)
  }

  /** A command's two buffers hold this plaintext. */
  ghost predicate Carries(header: seq<Byte>, payload: seq<Byte>, plain: seq<Byte>) {
    && HEADER_SIZE <= |plain| <= HEADER_SIZE + |payload|
    && header == plain[..HEADER_SIZE]
    && payload[..|plain| - HEADER_SIZE] == plain[HEADER_SIZE..]
  }

  /** What read_stream leaves of a stream: its result, whether the connection has closed, the header
      found, the bytes received and those still to come. */
  ghost predicate StreamRead(stream: seq<Byte>, r: int, closed: bool, headerSize: nat, maskOffset: nat,
                             payloadSize: int, raw: seq<Byte>, rest: seq<Byte>)
  {
    match HeadOf(stream)
    case TooShort => r >= 0 && closed && (r == 0 ==> payloadSize <= 0)
    case Refused => r == -1
    case CloseFrame => r == 1 && closed
    case Data(header, mask, payload) =>
      && headerSize == header && maskOffset == mask && payloadSize == payload
      && var n := header + if payload > 0 then payload else 0;
      if |stream| < n then r == 1 && closed
      else
        && r == (if n == KOHERON_READ_STR_LEN then -1 else 0) && !closed
        && raw == stream[..n] && rest == stream[n..]
  }

  /** The two buffers of a command hold the unmasked payload of the bytes received. */
  ghost predicate Decoded(raw: seq<Byte>, mask: nat, payloadSize: int, header: seq<Byte>, payload: seq<Byte>) {
    payloadSize >= HEADER_SIZE && mask + 4 + payloadSize <= |raw| ==>
      Carries(header, payload, Masked(raw[mask + 4..mask + 4 + payloadSize], raw[mask..mask + 4]))
  }

  /** What receive_cmd makes of a stream on an open connection. */
  ghost predicate CommandRead(stream: seq<Byte>, r: int, closed: bool, payloadSize: int, rest: seq<Byte>,
                              header: seq<Byte>, payload: seq<Byte>)
  {
    match HeadOf(stream)
    case TooShort => closed
    case Refused => r == -1
    case CloseFrame => r == 0 && closed
    case Data(size, mask, length) =>
      && var n := size + if length > 0 then length else 0;
      if |stream| < n then r == 0 && closed
      else if length <= 0 || n == KOHERON_READ_STR_LEN then r == -1
      else
        && r == payloadSize == length && !closed && rest == stream[n..]
        && (length >= HEADER_SIZE ==> Carries(header, payload, Masked(stream[mask + 4..n], stream[mask..mask + 4])))
  }

  class WebSocket {
    const socket: Socket
    const sink: Sink
    const readStr: array<Byte>
    const sendBuf: array<Byte>
    var readStrLen: nat
    var headerSize: nat
    var maskOffset: nat
    var payloadSize: int
    var connectionClosed: bool

    constructor (socket: Socket, sink: Sink)
      ensures Valid() && this.socket == socket && this.sink == sink && !connectionClosed && readStrLen == 0
      ensures fresh(readStr) && fresh(sendBuf)
    {
      this.socket, this.sink := socket, sink;
      readStr := new Byte[WEBSOCK_READ_STR_LEN](_ => 0);
      sendBuf := new Byte[WEBSOCK_SEND_BUF_LEN];
      readStrLen, headerSize, maskOffset, payloadSize := 0, 6, 2, 0;
      connectionClosed := false;
    }

    ghost predicate Valid()
      reads this
    {
      && readStr.Length == WEBSOCK_READ_STR_LEN && sendBuf.Length == WEBSOCK_SEND_BUF_LEN
      && readStr != sendBuf
      && readStrLen <= WEBSOCK_READ_STR_LEN
      && (headerSize, maskOffset) in {(6, 2), (8, 4), (14, 10)}
    }

    ghost function Received(): seq<Byte>
      requires Valid()
      reads this, readStr
    {
      readStr[..readStrLen]
    }

    method ResetReadBuff()
      requires Valid()
      modifies this`readStrLen, readStr
      ensures Valid() && readStrLen == 0
    {
      for i := 0 to readStrLen {
        readStr[i] := 0;
      }
      readStrLen := 0;
    }

    /** read_n_bytes, whose callers always expect all of the bytes. */
    method ReadNBytes(bytes: int) returns (r: int)
      requires Valid() && readStrLen + bytes <= WEBSOCK_READ_STR_LEN
      modifies this`readStrLen, this`connectionClosed, readStr, socket
      ensures Valid()
      ensures bytes <= 0 ==> r == 0 && Received() == old(Received()) && socket.pending == old(socket.pending)
                             && connectionClosed == old(connectionClosed)
      ensures 0 < bytes <= |old(socket.pending)| ==>
                && Received() == old(Received()) + old(socket.pending)[..bytes]
                && socket.pending == old(socket.pending)[bytes..]
                && connectionClosed == old(connectionClosed)
                && r == if readStrLen == KOHERON_READ_STR_LEN then -1 else 0
      ensures 0 < bytes && |old(socket.pending)| < bytes ==>
                r == 1 && connectionClosed && socket.pending == []
      ensures readStrLen <= old(readStrLen) + if bytes > 0 then bytes else 0
    {
      var remaining, expected := bytes, bytes;
      ghost var before, start := socket.pending, Received();
      while expected > 0
        invariant Valid()
        invariant expected == remaining && (bytes <= 0 ==> remaining == bytes)
        invariant bytes > 0 ==> 0 <= remaining <= bytes
        invariant readStrLen + remaining == |start| + bytes
        invariant Received() + socket.pending == start + before
        invariant connectionClosed == old(connectionClosed)
        invariant expected <= 0 < bytes ==> readStrLen != KOHERON_READ_STR_LEN
        invariant bytes <= 0 ==> Received() == start && socket.pending == before
        decreases expected
      {
        var bytesRead := -1;
        while remaining > 0 && bytesRead != 0
          invariant Valid()
          invariant expected == remaining && 0 <= remaining <= bytes
          invariant readStrLen + remaining == |start| + bytes
          invariant Received() + socket.pending == start + before
          invariant bytesRead == 0 ==> socket.pending == [] && remaining > 0
          invariant connectionClosed == old(connectionClosed)
          decreases remaining, bytesRead != 0
        {
          ghost var sofar := Received();
          var chunk := socket.Read(remaining);
          bytesRead := |chunk|;
          if bytesRead > 0 {
            TcpSession.Store(readStr, readStrLen, chunk, WEBSOCK_READ_STR_LEN);
            readStrLen := readStrLen + bytesRead;
            assert Received() == sofar + chunk;
            assert sofar + chunk + socket.pending == sofar + (chunk + socket.pending);
            remaining := remaining - bytesRead;
            expected := expected - bytesRead;
          }
        }
        if bytesRead == 0 {
          assert |Received()| == |start + before|;
          connectionClosed := true;
          return 1;
        }
        if readStrLen == KOHERON_READ_STR_LEN {
          Exactly(start, before, Received(), socket.pending, bytes);
          return -1;
        }
      }
      if bytes > 0 {
        Exactly(start, before, Received(), socket.pending, bytes);
      }
      return 0;
    }

    static function CheckOpcode(opcode: nat): int {
      if opcode == 1 || opcode == 2 then 0 else if opcode == 8 then 1 else -1
    }

    method ReadHeader() returns (r: int)
      requires Valid() && readStrLen == 0 && !connectionClosed && payloadSize <= LONGEST
      modifies this`readStrLen, this`connectionClosed, this`headerSize, this`maskOffset, this`payloadSize
      modifies readStr, socket
      ensures Valid() && readStrLen <= 14 && (r >= 0 ==> payloadSize <= LONGEST)
      ensures match HeadOf(old(socket.pending))
              case TooShort => r == 0 && connectionClosed && socket.pending == []
              case Refused => r == -1
              case CloseFrame => r == 1 && connectionClosed
              case Data(header, mask, payload) =>
                && r == 0 && !connectionClosed
                && headerSize == header && maskOffset == mask && payloadSize == payload
                && Received() == old(socket.pending)[..headerSize]
                && socket.pending == old(socket.pending)[headerSize..]
    {
      ghost var before := socket.pending;
      LengthsBelow(before);
      hide FromBigEndian, Signed64;
      var err := ReadNBytes(6);
      if err < 0 {
        return -1;
      }
      if connectionClosed {
        return 0;
      }
      assert Received() == before[..6];
      assert readStr[0] == before[0] && readStr[1] == before[1];
      var streamSize := readStr[1] % 128;
      var opcodeErr := CheckOpcode(readStr[0] % 16);
      if opcodeErr < 0 {
        return -1;
      } else if opcodeErr == 1 {
        connectionClosed := true;
        return opcodeErr;
      }
      if streamSize <= 125 {
        headerSize, payloadSize, maskOffset := 6, streamSize, 2;
      } else if streamSize == 126 {
        err := ReadNBytes(2);
        if err < 0 {
          return -1;
        }
        if connectionClosed {
          return 0;
        }
        Joined(before, 6, 2);
        assert readStr[2..4] == Received()[2..4] == before[2..4];
        headerSize, payloadSize, maskOffset := 8, FromBigEndian(readStr[2..4]), 4;
      } else {
        err := ReadNBytes(8);
        if err < 0 {
          return -1;
        }
        if connectionClosed {
          return 0;
        }
        Joined(before, 6, 8);
        assert readStr[2..10] == Received()[2..10] == before[2..10];
        headerSize, payloadSize, maskOffset := 14, Signed64(FromBigEndian(readStr[2..10])), 10;
      }
      if payloadSize > LONGEST {
        return -1;
      }
      return 0;
    }

    method ReadStream() returns (r: int)
      requires Valid() && !connectionClosed && payloadSize <= LONGEST
      modifies this`readStrLen, this`connectionClosed, this`headerSize, this`maskOffset, this`payloadSize
      modifies readStr, socket
      ensures Valid() && (r >= 0 ==> payloadSize <= LONGEST)
      ensures StreamRead(old(socket.pending), r, connectionClosed, headerSize, maskOffset, payloadSize,
                         Received(), socket.pending)
    {
      ghost var before := socket.pending;
      HeadInside(before);
      hide HeadOf;
      ResetReadBuff();
      var headErr := ReadHeader();
      if headErr < 0 {
        return -1;
      }
      if headErr == 1 {
        return headErr;
      }
      if HeadOf(before).Data? && 0 < payloadSize <= |before| - headerSize {
        Joined(before, headerSize, payloadSize);
      }
      var err := ReadNBytes(payloadSize);
      if err < 0 {
        return -1;
      }
      return err;
    }

    /** decode_raw_stream_cmd: the first eight bytes of the payload are the command's header. */
    method DecodeRawStreamCmd(cmd: Command) returns (r: int)
      requires Valid() && payloadSize <= LONGEST
      requires cmd.header.data.Length == HEADER_SIZE && cmd.payload.data.Length == CMD_PAYLOAD_BUFFER_LEN
      requires cmd.header.data != readStr && cmd.payload.data != readStr && cmd.header.data != cmd.payload.data
      modifies cmd.header.data, cmd.payload.data
      ensures r == if readStrLen < headerSize + 1 then -1 else 0
      ensures r == 0 ==> Decoded(Received(), maskOffset, payloadSize, cmd.header.data[..], cmd.payload.data[..])
    {
      if readStrLen < headerSize + 1 {
        return -1;
      }
      hide *;
      Unmask(readStr, maskOffset, cmd.header.data, 0, HEADER_SIZE);
      ghost var header := cmd.header.data[..];
      assert cmd.header.data[..HEADER_SIZE] == header;
      if payloadSize >= HEADER_SIZE {
        Unmask(readStr, maskOffset, cmd.payload.data, HEADER_SIZE, payloadSize);
        assert cmd.header.data[..] == header;
      }
      InParts(readStr[..], readStrLen, maskOffset, payloadSize, header, cmd.payload.data[..]);
      return 0;
    }

    /** One of its two loops: the payload bytes from..to, unmasked into the front of `target`. */
    static method Unmask(readStr: array<Byte>, mask: nat, target: array<Byte>, from: nat, to: nat)
      requires from <= to && mask + 4 + to <= readStr.Length
      requires to - from <= target.Length && target != readStr
      modifies target
      ensures target[..to - from] == Masked(readStr[mask + 4..mask + 4 + to], readStr[mask..mask + 4])[from..]
    {
      ghost var data, key := readStr[mask + 4..mask + 4 + to], readStr[mask..mask + 4];
      ghost var plain := Masked(data, key);
      hide Xor, Masked;
      for i := from to to
        invariant target[..i - from] == plain[from..i]
      {
        MaskedAt(data, key, i);
        ghost var done := target[..i - from];
        target[i - from] := Xor(readStr[mask + 4 + i], readStr[mask + i % 4]);
        assert target[..i - from] == done;
        assert target[..i + 1 - from] == done + [plain[i]];
        OneMore(plain, from, i);
      }
    }

    method ReceiveCmd(cmd: Command) returns (r: int)
      requires Valid() && payloadSize <= LONGEST
      requires cmd.header.data.Length == HEADER_SIZE && cmd.payload.data.Length == CMD_PAYLOAD_BUFFER_LEN
      requires cmd.header.data != readStr && cmd.payload.data != readStr && cmd.header.data != cmd.payload.data
      modifies this`readStrLen, this`connectionClosed, this`headerSize, this`maskOffset, this`payloadSize
      modifies readStr, socket, cmd.header.data, cmd.payload.data
      ensures Valid() && (r >= 0 ==> payloadSize <= LONGEST)
      ensures old(connectionClosed) ==> r == 0 && connectionClosed
      ensures !old(connectionClosed) ==>
                CommandRead(old(socket.pending), r, connectionClosed, payloadSize, socket.pending,
                            cmd.header.data[..], cmd.payload.data[..])
    {
      if connectionClosed {
        return 0;
      }
      hide *;
      ghost var before := socket.pending;
      var err := ReadStream();
      ghost var read, raw, rest := err, Received(), socket.pending;
      if err < 0 {
        CommandOutcome(before, read, -1, connectionClosed, headerSize, maskOffset, payloadSize, raw, rest,
                       cmd.header.data[..], cmd.payload.data[..]);
        return -1;
      } else if err == 1 {
        CommandOutcome(before, read, 0, connectionClosed, headerSize, maskOffset, payloadSize, raw, rest,
                       cmd.header.data[..], cmd.payload.data[..]);
        return 0;
      }
      err := DecodeRawStreamCmd(cmd);
      CommandOutcome(before, read, if err < 0 then -1 else payloadSize, connectionClosed, headerSize, maskOffset,
                     payloadSize, raw, rest, cmd.header.data[..], cmd.payload.data[..]);
      if err < 0 {
        return -1;
      }
      return payloadSize;
    }

    /** Session<WEBSOCK>::read_command: 8 when a command has been read, 0 when the connection is
        closed, -1 otherwise. */
    method ReadCommand(cmd: Command) returns (r: int)
      requires Valid() && payloadSize <= LONGEST && !connectionClosed
      requires cmd.header.data.Length == HEADER_SIZE && cmd.payload.data.Length == CMD_PAYLOAD_BUFFER_LEN
      requires cmd.header.data != readStr && cmd.payload.data != readStr && cmd.header.data != cmd.payload.data
      modifies this`readStrLen, this`connectionClosed, this`headerSize, this`maskOffset, this`payloadSize
      modifies readStr, socket, cmd.header.data, cmd.payload.data
      ensures Valid() && (r >= 0 ==> payloadSize <= LONGEST)
      ensures r == -1 || (r == 0 && connectionClosed) || (r == HEADER_SIZE && !connectionClosed)
      ensures match DecodeFrame(old(socket.pending))
              case None => r != HEADER_SIZE
              case Some((f, form, rest)) =>
                f.key.Some? ==>
                  && (r == HEADER_SIZE <==> Accepted(f, form))
                  && (r == 0 <==> f.opcode == 8)
                  && (r == HEADER_SIZE ==>
                        socket.pending == rest && Carries(cmd.header.data[..], cmd.payload.data[..], f.payload))
    {
      HeadOfDecoded(socket.pending);
      hide HeadOf, DecodeFrame, Masked, Carries;
      var err := ReceiveCmd(cmd);
      if err < 0 {
        return -1;
      }
      if connectionClosed {
        return 0;
      }
      if payloadSize < HEADER_SIZE {
        return -1;
      }
      return HEADER_SIZE;
    }

    /** set_send_header */
    method SetSendHeader(dataLen: nat, format: Byte) returns (offset: nat)
      requires Valid() && 10 + dataLen <= WEBSOCK_SEND_BUF_LEN
      modifies sendBuf
      ensures offset == 2 + LengthBytes(Minimal(dataLen))
      ensures sendBuf[..offset]
              == [format, Length7(Minimal(dataLen), dataLen)] + ExtendedLength(Minimal(dataLen), dataLen)
    {
      for i := 0 to 10 + dataLen {
        sendBuf[i] := 0;
      }
      sendBuf[0] := format;
      hide BigEndian;
      if dataLen <= 125 {
        sendBuf[1] := dataLen;
        offset := 2;
      } else if dataLen <= 0xFFFF {
        sendBuf[1] := 126;
        PutLength(dataLen, 2);
        offset := 4;
      } else {
        sendBuf[1] := 127;
        PutLength(dataLen, 8);
        offset := 10;
      }
      assert sendBuf[..offset] == sendBuf[..2] + sendBuf[2..offset];
    }

    /** bits[2..2 + size], most significant byte first. */
    method PutLength(dataLen: nat, size: nat)
      requires Valid() && size <= 8
      modifies sendBuf
      ensures sendBuf[..2] == old(sendBuf[..2])
      ensures sendBuf[2..2 + size] == BigEndian(dataLen, size)
    {
      hide ShiftRight;
      for i := size downto 0
        invariant sendBuf[..2] == old(sendBuf[..2])
        invariant sendBuf[2..2 + size - i] == BigEndian(ShiftRight(dataLen, i), size - i)
      {
        ShiftOnceMore(dataLen, i);
        sendBuf[2 + size - 1 - i] := ShiftRight(dataLen, i) % 256;
      }
      ShiftNothing(dataLen);
    }

    /** send_request: positive if and only if there was something to write and no write was
        refused, whatever parts the writes took; every byte has then been written. */
    method SendRequest(bits: seq<Byte>) returns (r: int)
      modifies sink, this`connectionClosed
      ensures old(connectionClosed) || bits == [] ==>
                r == 0 && sink.sent == old(sink.sent) && sink.refusals == old(sink.refusals)
                && connectionClosed == old(connectionClosed)
      ensures !old(connectionClosed) && bits != [] ==> (r > 0 <==> sink.refusals == old(sink.refusals))
      ensures old(sink.refusals) <= sink.refusals <= old(sink.refusals) + 1
      ensures r > 0 ==> sink.sent == old(sink.sent) + bits && !connectionClosed
      ensures r <= 0 ==> old(sink.sent) <= sink.sent <= old(sink.sent) + bits
      ensures r <= 0 && bits != [] ==> sink.sent != old(sink.sent) + bits
      ensures r < 0 <==> connectionClosed && !old(connectionClosed)
    {
      if connectionClosed {
        return 0;
      }
      var bytesSend, offset := 0, 0;
      while true
        invariant 0 <= offset <= |bits| && bytesSend >= 0
        invariant bytesSend == 0 <==> offset == 0
        invariant !connectionClosed
        invariant sink.sent == old(sink.sent) + bits[..offset]
        invariant sink.refusals == old(sink.refusals)
        decreases |bits| - offset
      {
        if offset == |bits| {
          break;
        }
        bytesSend := sink.Write(bits[offset..]);
        if bytesSend <= 0 {
          break;
        }
        assert bits[..offset] + bits[offset..][..bytesSend] == bits[..offset + bytesSend];
        offset := offset + bytesSend;
      }
      assert bits[..|bits|] == bits && old(sink.sent) + [] == old(sink.sent);
      if bytesSend < 0 {
        connectionClosed := true;
        return -1;
      }
      return bytesSend;
    }

    /** send: one unfragmented binary frame around the data, if no write is refused; nothing when it
        is too long. */
    method Send(data: seq<Byte>) returns (r: int)
      requires Valid()
      modifies sink, sendBuf, this`connectionClosed
      ensures Valid()
      ensures old(connectionClosed) ==> r == 0 && sink.sent == old(sink.sent) && connectionClosed
      ensures !old(connectionClosed) && |data| + 10 > WEBSOCK_SEND_BUF_LEN ==>
                r == -1 && sink.sent == old(sink.sent) && !connectionClosed
      ensures !old(connectionClosed) && |data| + 10 <= WEBSOCK_SEND_BUF_LEN ==>
                SendsWhole(r, old(sink.sent), sink.sent, old(sink.refusals), sink.refusals,
                           EncodeFrame(ServerFrame(2, data), Minimal(|data|)))
    {
      if connectionClosed {
        return 0;
      }
      if |data| + 10 > WEBSOCK_SEND_BUF_LEN {
        return -1;
      }
      ServerFrameBytes(2, data);
      hide EncodeFrame, ExtendedLength, Minimal, Length7;
      var offset := SetSendHeader(|data|, 128 + 2);
      TcpSession.Store(sendBuf, offset, data, WEBSOCK_SEND_BUF_LEN);
      r := SendRequest(sendBuf[..offset + |data|]);
    }

    /** exit: a close frame without a payload. */
    method Exit() returns (r: int)
      requires Valid()
      modifies sink, sendBuf, this`connectionClosed
      ensures Valid()
      ensures old(connectionClosed) ==> r == 0 && sink.sent == old(sink.sent) && connectionClosed
      ensures !old(connectionClosed) ==>
                SendsWhole(r, old(sink.sent), sink.sent, old(sink.refusals), sink.refusals,
                           EncodeFrame(ServerFrame(8, []), Small))
    {
      ServerFrameBytes(8, []);
      hide EncodeFrame, ExtendedLength, Length7;
      var offset := SetSendHeader(0, 128 + 8);
      r := SendRequest(sendBuf[..offset]);
    }
  }

  /** Result r of sending `bytes`: all of them if and only if no write was refused, and otherwise a
      proper part from the front. */
  predicate SendsWhole(r: int, before: seq<Byte>, after: seq<Byte>, refusals: nat, refusals': nat,
                       bytes: seq<Byte>)
  {
    && (r > 0 <==> refusals' == refusals)
    && (r > 0 <==> after == before + bytes)
    && before <= after <= before + bytes
  }

  /** The frames a server sends: final, unmasked, no extension bits. */
  function ServerFrame(opcode: nat, data: seq<Byte>): Frame {
    Frame(true, 0, opcode, None, data)
  }

  lemma ServerFrameBytes(opcode: nat, data: seq<Byte>)
    requires opcode < 16 && |data| < 0x8000_0000_0000_0000
    ensures var form := Minimal(|data|);
            Holds(form, |data|)
            && EncodeFrame(ServerFrame(opcode, data), form)
               == [128 + opcode, Length7(form, |data|)] + ExtendedLength(form, |data|) + data
  {
    hide ExtendedLength;
  }

  /** Frames that carry a command as far as this server is concerned.  The FIN bit and the
      extension bits are not looked at. */
  predicate Accepted(f: Frame, form: Form) {
    && (f.opcode == 1 || f.opcode == 2)
    && HEADER_SIZE <= |f.payload| <= LONGEST
    && 6 + LengthBytes(form) + |f.payload| != KOHERON_READ_STR_LEN
  }

  lemma ShiftNothing(value: int)
    ensures ShiftRight(value, 0) == value
  {
  }

  /** How the server's view of a stream relates to the decoding of section 5.2. */
  lemma HeadOfDecoded(stream: seq<Byte>)
    ensures match DecodeFrame(stream)
            case None => HeadOf(stream).Data? ==> |stream| < HeadOf(stream).headerSize + HeadOf(stream).payloadSize
                                                  || HeadOf(stream).payloadSize <= 0
            case Some((f, form, rest)) =>
              f.key.Some? ==>
                && f.opcode < 16
                && var n := |f.payload|;
                if f.opcode == 8 then HeadOf(stream) == CloseFrame
                else if (f.opcode != 1 && f.opcode != 2) || n > LONGEST then
                  HeadOf(stream) == Refused || (HeadOf(stream).Data? && HeadOf(stream).payloadSize <= 0)
                else
                  && HeadOf(stream) == Data(6 + LengthBytes(form), 2 + LengthBytes(form), n)
                  && var at := 6 + LengthBytes(form);
                  && at + n <= |stream|
                  && f.payload == Masked(stream[at..at + n], stream[at - 4..at])
                  && rest == stream[at + n..]
  {
    hide FromBigEndian, Masked;
    LengthsBelow(stream);
  }

  /** From read_stream and decode_raw_stream_cmd to receive_cmd. */
  lemma CommandOutcome(stream: seq<Byte>, read: int, r: int, closed: bool, headerSize: nat, maskOffset: nat,
                       payloadSize: int, raw: seq<Byte>, rest: seq<Byte>, header: seq<Byte>, payload: seq<Byte>)
    requires StreamRead(stream, read, closed, headerSize, maskOffset, payloadSize, raw, rest)
    requires r == if read < 0 then -1 else if read == 1 then 0
                  else if |raw| < headerSize + 1 then -1 else payloadSize
    requires read >= 0 && read != 1 && |raw| >= headerSize + 1 ==>
               Decoded(raw, maskOffset, payloadSize, header, payload)
    ensures CommandRead(stream, r, closed, payloadSize, rest, header, payload)
  {
    HeadInside(stream);
    hide HeadOf, Masked, Carries;
    if HeadOf(stream).Data? && 0 < payloadSize {
      var n := headerSize + payloadSize;
      if n <= |stream| && read >= 0 && read != 1 {
        Inside(stream, raw, maskOffset, payloadSize);
      }
    }
  }

  /** A header that is cut short is one that needs more bytes, never another one. */
  lemma HeadOfPrefix(stream: seq<Byte>, k: nat)
    requires k <= |stream| && HeadOf(stream).Data?
    ensures HeadOf(stream[..k]) == TooShort || HeadOf(stream[..k]) == HeadOf(stream)
  {
    assert k >= 6 ==> stream[..k][0] == stream[0] && stream[..k][1] == stream[1];
    assert k >= 8 ==> stream[..k][2..4] == stream[2..4];
    assert k >= 14 ==> stream[..k][2..10] == stream[2..10];
    hide FromBigEndian;
  }

  /** A masked text or binary frame that is cut anywhere closes the connection. */
  lemma CutFrameCloses(f: Frame, form: Form, k: nat, r: int, closed: bool, payloadSize: int, rest: seq<Byte>,
                       header: seq<Byte>, payload: seq<Byte>)
    requires ValidFrame(f) && Holds(form, |f.payload|) && f.key.Some? && (f.opcode == 1 || f.opcode == 2)
    requires |f.payload| <= LONGEST && k < |EncodeFrame(f, form)|
    requires CommandRead(EncodeFrame(f, form)[..k], r, closed, payloadSize, rest, header, payload)
    ensures closed
  {
    var stream := EncodeFrame(f, form);
    assert stream + [] == stream;
    FrameRoundTrip(f, form, []);
    FrameLength(f, form);
    hide EncodeFrame, DecodeFrame, HeadOf, Masked, Carries;
    HeadOfDecoded(stream);
    HeadOfPrefix(stream, k);
  }

  lemma FrameLength(f: Frame, form: Form)
    requires ValidFrame(f) && Holds(form, |f.payload|) && f.key.Some?
    ensures |EncodeFrame(f, form)| == 6 + LengthBytes(form) + |f.payload|
  {
    hide BigEndian, Masked;
  }

  lemma MaskedAt(data: seq<Byte>, key: seq<Byte>, i: nat)
    requires |key| == 4 && i < |data|
    ensures Masked(data, key)[i] == Xor(data[i], key[i % 4])
  {
  }

  /** The two buffers, filled one after the other. */
  lemma InParts(a: seq<Byte>, n: nat, mask: nat, size: int, header: seq<Byte>, payload: seq<Byte>)
    requires n <= |a| && mask + 4 + HEADER_SIZE <= |a| && mask + 4 + size <= |a|
    requires header == Masked(a[mask + 4..mask + 4 + HEADER_SIZE], a[mask..mask + 4])[0..]
    requires size >= HEADER_SIZE ==>
               && size - HEADER_SIZE <= |payload|
               && payload[..size - HEADER_SIZE]
                  == Masked(a[mask + 4..mask + 4 + size], a[mask..mask + 4])[HEADER_SIZE..]
    ensures Decoded(a[..n], mask, size, header, payload)
  {
    hide Masked;
    if size >= HEADER_SIZE && mask + 4 + size <= n {
      assert a[..n][mask..mask + 4] == a[mask..mask + 4];
      assert a[..n][mask + 4..mask + 4 + size] == a[mask + 4..mask + 4 + size];
      assert a[mask + 4..mask + 4 + HEADER_SIZE] == a[mask + 4..mask + 4 + size][..HEADER_SIZE];
      MaskedPrefix(a[mask + 4..mask + 4 + size], a[mask..mask + 4], a[mask + 4..mask + 4 + HEADER_SIZE], header);
    }
  }

  lemma OneMore(s: seq<Byte>, from: nat, i: nat)
    requires from <= i < |s|
    ensures s[from..i + 1] == s[from..i] + [s[i]]
  {
  }

  lemma MaskedPrefix(data: seq<Byte>, key: seq<Byte>, prefix: seq<Byte>, plain: seq<Byte>)
    requires |key| == 4 && prefix <= data && plain == Masked(prefix, key)[0..]
    ensures plain == Masked(data, key)[..|prefix|]
  {
    hide Xor;
  }

  lemma HeadInside(stream: seq<Byte>)
    ensures var head := HeadOf(stream);
            head.Data? ==>
              && head.headerSize == head.maskOffset + 4 <= |stream|
              && (head.headerSize, head.maskOffset) in {(6, 2), (8, 4), (14, 10)}
              && head.payloadSize <= LONGEST
  {
    LengthsBelow(stream);
  }

  lemma Inside(stream: seq<Byte>, received: seq<Byte>, mask: nat, n: nat)
    requires mask + 4 + n <= |stream| && received == stream[..mask + 4 + n]
    ensures received[mask..mask + 4] == stream[mask..mask + 4]
    ensures received[mask + 4..mask + 4 + n] == stream[mask + 4..mask + 4 + n]
  {
  }

  lemma Joined(before: seq<Byte>, m: nat, n: nat)
    requires m + n <= |before|
    ensures before[..m] + before[m..][..n] == before[..m + n]
    ensures before[m..][n..] == before[m + n..]
  {
  }

  lemma Exactly(start: seq<Byte>, before: seq<Byte>, received: seq<Byte>, pending: seq<Byte>, n: nat)
    requires received + pending == start + before && |received| == |start| + n
    ensures n <= |before| && received == start + before[..n] && pending == before[n..]
  {
    assert received == (start + before)[..|start| + n];
    assert pending == (start + before)[|start| + n..];
  }

  lemma {:induction false} BytesBelow(bytes: seq<Byte>)
    ensures FromBigEndian(bytes) < Pow256(|bytes|)
  {
    if bytes != [] {
      BytesBelow(bytes[..|bytes| - 1]);
    }
  }

  lemma LengthsBelow(stream: seq<Byte>)
    ensures |stream| >= 8 ==> FromBigEndian(stream[2..4]) < 0x1_0000
    ensures |stream| >= 14 ==> FromBigEndian(stream[2..10]) < 0x1_0000_0000_0000_0000
  {
    Powers();
    if |stream| >= 8 {
      BytesBelow(stream[2..4]);
    }
    if |stream| >= 14 {
      BytesBelow(stream[2..10]);
    }
  }
}
