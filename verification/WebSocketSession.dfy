/** The WebSocket session: one command a frame, served with the same parsers as a TCP session. */
module WebSocketSession {
  import opened Bytes
  import opened WireFormat
  import opened WebSocketFrames
  import opened CommandBuffer
  import opened Session
  import W = WebSocket

  /** A frame as a client sends it, with the form of its length. */
  predicate Sent(f: Frame, form: Form) {
    ValidFrame(f) && Holds(form, |f.payload|) && f.key.Some?
  }

  predicate AllSent(frames: seq<(Frame, Form)>) {
    forall i :: 0 <= i < |frames| ==> Sent(frames[i].0, frames[i].1)
  }

  /** The bytes of the frames from the i-th on. */
  function FramesFrom(frames: seq<(Frame, Form)>, i: nat): seq<Byte>
    requires i <= |frames| && AllSent(frames)
    decreases |frames| - i
  {
    if i == |frames| then [] else EncodeFrame(frames[i].0, frames[i].1) + FramesFrom(frames, i + 1)
  }

  /** What one frame makes the server do, its payload read like the front of a TCP stream. */
  function Asked(devices: nat, parsers: Parsers, f: Frame, form: Form): Next {
    if W.Accepted(f, form) then NextCommand(devices, parsers, f.payload) else Close
  }

  /** No frame that names an operation ends inside its arguments. */
  predicate Complete(devices: nat, parsers: Parsers, frames: seq<(Frame, Form)>) {
    forall i :: 0 <= i < |frames| ==> !Asked(devices, parsers, frames[i].0, frames[i].1).Incomplete?
  }

  /** What the frames from the i-th on make the server do: a frame that it does not accept ends the
      session, a frame without a known operation is passed over. */
  function FramesServed(devices: nat, parsers: Parsers, frames: seq<(Frame, Form)>, i: nat): Service
    requires i <= |frames|
    decreases |frames| - i
  {
    if i == |frames| then Service([], false, false)
    else
      match Asked(devices, parsers, frames[i].0, frames[i].1)
      case Close => Service([], false, false)
      case NoSuchDriver => Service([], false, true)
      case Incomplete => Service([], true, false)
      case Ignored(_) => FramesServed(devices, parsers, frames, i + 1)
      case Execute(call, _) => Preceded([call], FramesServed(devices, parsers, frames, i + 1))
  }

  predicate AllMaximal(parsers: Parsers) {
    forall op :: op in parsers ==> Maximal(parsers[op])
  }

  function Executed(next: Next): seq<Call> {
    if next.Execute? then [next.call] else []
  }

  /** How a round of the loop ends. */
  datatype Round = Ended | Aborted | GoesOn

  class WebSocketSession {
    const websock: W.WebSocket
    const devices: nat
    const parsers: Parsers
    var executed: seq<Call>

    constructor (websock: W.WebSocket, devices: nat, parsers: Parsers)
      ensures this.websock == websock && this.devices == devices && this.parsers == parsers && executed == []
    {
      this.websock, this.devices, this.parsers, executed := websock, devices, parsers, [];
    }

    ghost predicate Open()
      reads websock
    {
      websock.Valid() && !websock.connectionClosed && websock.payloadSize <= W.LONGEST
    }

    /** read_command and its place in the loop; the frame in front of the stream, if there is one. */
    method ReceiveFrame(ghost f: Frame, ghost form: Form, ghost rest: seq<Byte>, cmd: W.Command) returns (open: bool)
      requires Open()
      requires cmd.header.data.Length == HEADER_SIZE && cmd.payload.data.Length == CMD_PAYLOAD_BUFFER_LEN
      requires cmd.header.data != websock.readStr && cmd.payload.data != websock.readStr
      requires cmd.header.data != cmd.payload.data
      requires websock.socket.pending != [] ==>
                 Sent(f, form) && websock.socket.pending == EncodeFrame(f, form) + rest
      modifies websock, websock.readStr, websock.socket, cmd.header.data, cmd.payload.data
      ensures open <==> old(websock.socket.pending) != [] && W.Accepted(f, form)
      ensures open ==> Open() && websock.socket.pending == rest
                       && W.Carries(cmd.header.data[..], cmd.payload.data[..], f.payload)
    {
      ghost var before := websock.socket.pending;
      Expect(before, f, form, rest);
      hide W.Accepted, W.Carries, DecodeFrame, EncodeFrame, Sent;
      var r := websock.ReadCommand(cmd);
      return r > 0;
    }

    /** DriverManager::execute and the generated switch; false when the server aborts on a driver
        that does not exist. */
    method Execute(cmd: W.Command, ghost plain: seq<Byte>) returns (running: bool)
      requires cmd.header.data.Length == HEADER_SIZE && cmd.payload.data.Length == CMD_PAYLOAD_BUFFER_LEN
      requires cmd.payload.position == 0 && W.Carries(cmd.header.data[..], cmd.payload.data[..], plain)
      requires AllMaximal(parsers)
      requires !NextCommand(devices, parsers, plain).Incomplete?
      modifies this`executed, cmd.payload`position
      ensures var next := NextCommand(devices, parsers, plain);
              && running == !next.NoSuchDriver?
              && (running ==> executed == old(executed) + Executed(next))
              && (!running ==> executed == old(executed))
    {
      ghost var payload := cmd.payload.data[..];
      CommandCarried(devices, parsers, cmd.header.data[..], payload, plain);
      assert cmd.payload.data[0..] == payload;
      hide *;
      var driver, operation := FromBigEndian(cmd.header.data[..][4..6]), FromBigEndian(cmd.header.data[..][6..8]);
      if driver >= devices {
        return false;
      }
      if driver != 0 && (driver, operation) in parsers {
        var args := cmd.payload.ParseArguments(parsers[(driver, operation)]);
        executed := executed + [Call(driver, operation, args.value)];
      } else {
        assert executed + [] == executed;
      }
      return true;
    }

    /** One round of Session::run. */
    method ServeFrame(ghost f: Frame, ghost form: Form, ghost rest: seq<Byte>) returns (round: Round)
      requires Open()
      requires websock.socket.pending != [] ==>
                 Sent(f, form) && websock.socket.pending == EncodeFrame(f, form) + rest
      requires websock.socket.pending != [] && W.Accepted(f, form) ==>
                 !NextCommand(devices, parsers, f.payload).Incomplete?
      requires AllMaximal(parsers)
      modifies this`executed, websock, websock.readStr, websock.socket
      ensures round == if old(websock.socket.pending) == [] || !W.Accepted(f, form) then Ended
                       else if NextCommand(devices, parsers, f.payload).NoSuchDriver? then Aborted else GoesOn
      ensures round != GoesOn ==> executed == old(executed)
      ensures round == GoesOn ==>
                && Open() && websock.socket.pending == rest
                && executed == old(executed) + Executed(NextCommand(devices, parsers, f.payload))
    {
      hide *;
      var cmd := new W.Command();
      var open := ReceiveFrame(f, form, rest, cmd);
      if !open {
        return Ended;
      }
      var running := Execute(cmd, f.payload);
      return if running then GoesOn else Aborted;
    }

    /** Session::run over a stream of masked frames, however it is fragmented: false when the server
        aborts on a driver that does not exist. */
    method Run(ghost frames: seq<(Frame, Form)>) returns (closed: bool)
      requires Open() && AllSent(frames) && Complete(devices, parsers, frames)
      requires AllMaximal(parsers)
      requires websock.socket.pending == FramesFrom(frames, 0)
      modifies this`executed, websock, websock.readStr, websock.socket
      ensures var service := FramesServed(devices, parsers, frames, 0);
              closed == !service.aborted && executed == old(executed) + service.calls
    {
      ghost var i, before := 0, executed;
      ghost var service := FramesServed(devices, parsers, frames, 0);
      assert Progress(devices, parsers, frames, i, service, before, executed, websock.socket.pending);
      hide *;
      while true
        invariant 0 <= i <= |frames| && Open()
        invariant Progress(devices, parsers, frames, i, service, before, executed, websock.socket.pending)
        decreases |frames| - i
      {
        NextFrame(devices, parsers, frames, i, service, before, executed, websock.socket.pending);
        ghost var front := Front(frames, i);
        var round := ServeFrame(front.f, front.form, front.rest);
        if round != GoesOn {
          return round == Ended;
        }
        i := i + 1;
      }
    }
  }

  /** The run has come to the i-th frame: what it has executed and what the rest asks for are
      together what the whole stream asks for. */
  ghost predicate Progress(devices: nat, parsers: Parsers, frames: seq<(Frame, Form)>, i: nat, s: Service,
                           before: seq<Call>, executed: seq<Call>, pending: seq<Byte>)
  {
    && i <= |frames| && AllSent(frames) && Complete(devices, parsers, frames)
    && pending == FramesFrom(frames, i)
    && var left := FramesServed(devices, parsers, frames, i);
       before + s.calls == executed + left.calls && s.aborted == left.aborted
  }

  datatype Ahead = Ahead(f: Frame, form: Form, rest: seq<Byte>)

  /** The i-th frame and what follows it; some frame when there is none. */
  function Front(frames: seq<(Frame, Form)>, i: nat): Ahead
    requires i <= |frames| && AllSent(frames)
  {
    if i < |frames| then Ahead(frames[i].0, frames[i].1, FramesFrom(frames, i + 1))
    else Ahead(Frame(true, 0, 1, None, []), Small, [])
  }

  /** What the next frame changes. */
  lemma NextFrame(devices: nat, parsers: Parsers, frames: seq<(Frame, Form)>, i: nat, s: Service,
                  before: seq<Call>, executed: seq<Call>, pending: seq<Byte>)
    requires i <= |frames| && AllSent(frames)
    requires Progress(devices, parsers, frames, i, s, before, executed, pending)
    ensures var front := Front(frames, i);
            var next := NextCommand(devices, parsers, front.f.payload);
            && (pending != [] ==>
                  i < |frames| && Sent(front.f, front.form) && pending == EncodeFrame(front.f, front.form) + front.rest)
            && (pending == [] || !W.Accepted(front.f, front.form) ==> executed == before + s.calls && !s.aborted)
            && (pending != [] && W.Accepted(front.f, front.form) ==>
                  && !next.Incomplete?
                  && (next.NoSuchDriver? ==> executed == before + s.calls && s.aborted)
                  && (!next.NoSuchDriver? ==>
                        Progress(devices, parsers, frames, i + 1, s, before, executed + Executed(next), front.rest)))
  {
    hide NextCommand, EncodeFrame, W.Accepted;
    assert executed + [] == executed;
    if i < |frames| {
      var (f, form) := frames[i];
      NotEmpty(f, form);
      var next := Asked(devices, parsers, f, form);
      if next.Execute? {
        var more := FramesServed(devices, parsers, frames, i + 1).calls;
        assert executed + ([next.call] + more) == executed + [next.call] + more;
      }
      if W.Accepted(f, form) {
        NotClose(devices, parsers, f, form);
      }
    }
  }

  lemma NotClose(devices: nat, parsers: Parsers, f: Frame, form: Form)
    requires W.Accepted(f, form)
    ensures !NextCommand(devices, parsers, f.payload).Close?
  {
  }

  lemma NotEmpty(f: Frame, form: Form)
    requires ValidFrame(f) && Holds(form, |f.payload|)
    ensures |EncodeFrame(f, form)| >= 2
  {
  }

  /** What decoding the front of the stream must give. */
  lemma Expect(stream: seq<Byte>, f: Frame, form: Form, rest: seq<Byte>)
    requires stream != [] ==> Sent(f, form) && stream == EncodeFrame(f, form) + rest
    ensures stream == [] ==> DecodeFrame(stream) == None
    ensures stream != [] ==> DecodeFrame(stream) == Some((f, form, rest)) && f.key.Some?
  {
    hide EncodeFrame;
    if stream != [] {
      FrameRoundTrip(f, form, rest);
    }
  }

  /** The command in the two buffers is the one in the payload of the frame. */
  lemma CommandCarried(devices: nat, parsers: Parsers, header: seq<Byte>, payload: seq<Byte>, plain: seq<Byte>)
    requires W.Carries(header, payload, plain)
    requires AllMaximal(parsers) && !NextCommand(devices, parsers, plain).Incomplete?
    ensures |header| == HEADER_SIZE
    ensures var driver, operation := FromBigEndian(header[4..6]), FromBigEndian(header[6..8]);
            var next := NextCommand(devices, parsers, plain);
            && (next.NoSuchDriver? <==> driver >= devices)
            && (next.Execute? <==> 0 < driver < devices && (driver, operation) in parsers)
            && (next.Execute? ==>
                  && Executed(next) == [Call(driver, operation, next.call.args)]
                  && Maximal(parsers[(driver, operation)])
                  && var parsed := ParsePacks(parsers[(driver, operation)], payload);
                     parsed.Some? && parsed.value.0 == next.call.args)
            && (!next.Execute? ==> Executed(next) == [])
  {
    hide ParsePacks, FromBigEndian, Maximal;
    assert header[4..6] == plain[4..6] && header[6..8] == plain[6..8];
    var next := NextCommand(devices, parsers, plain);
    if next.Execute? {
      var packs := parsers[(next.call.driver, next.call.operation)];
      var n := |plain| - HEADER_SIZE;
      assert payload == plain[HEADER_SIZE..] + payload[n..];
      PacksWithMore(packs, plain[HEADER_SIZE..], payload[n..]);
    }
  }

  /** Frames that carry calls, one each, are served as exactly these calls. */
  ghost predicate AllCarried(devices: nat, parsers: Parsers, frames: seq<(Frame, Form)>, calls: seq<Call>) {
    && |frames| == |calls|
    && forall i :: 0 <= i < |frames| ==>
         && Proper(devices, parsers, calls[i]) && W.Accepted(frames[i].0, frames[i].1)
         && frames[i].0.payload == CallBytes(devices, parsers, calls[i])
  }

  lemma {:induction false} CarriedCallsAreServed(devices: nat, parsers: Parsers, frames: seq<(Frame, Form)>,
                                                 calls: seq<Call>, i: nat)
    requires AllCarried(devices, parsers, frames, calls) && i <= |frames|
    ensures Complete(devices, parsers, frames)
    ensures FramesServed(devices, parsers, frames, i) == Service(calls[i..], false, false)
    decreases |frames| - i
  {
    hide NextCommand, Proper, CallBytes, W.Accepted;
    forall k | 0 <= k < |frames|
      ensures Asked(devices, parsers, frames[k].0, frames[k].1) == Execute(calls[k], [])
    {
      OneCall(devices, parsers, calls[k], []);
      assert CallBytes(devices, parsers, calls[k]) + [] == CallBytes(devices, parsers, calls[k]);
    }
    if i < |frames| {
      CarriedCallsAreServed(devices, parsers, frames, calls, i + 1);
      assert calls[i..] == [calls[i]] + calls[i + 1..];
    }
  }
}
