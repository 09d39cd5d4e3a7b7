/** The Python client and the TCP session together: what a program calls is what the drivers get. */
module EndToEnd {
  import opened Bytes
  import opened WireFormat
  import opened Session
  import K = KoheronClient

  /** One call of the client: send_command with the signature that the server published. */
  datatype ClientCall = ClientCall(driver: nat, operation: nat, args: seq<K.PyArg>)

  ghost predicate Deliverable(devices: nat, parsers: Parsers, c: ClientCall) {
    && 1 <= c.driver < devices && c.driver < 0x1_0000 && c.operation < 0x1_0000
    && (c.driver, c.operation) in parsers
    && var packs := parsers[(c.driver, c.operation)];
    && Maximal(packs)
    && K.AllSendable(UnpackAll(packs), c.args)
    && forall i :: 0 <= i < |c.args| ==> K.Plain(UnpackAll(packs)[i], c.args[i])
  }

  ghost function Meant(devices: nat, parsers: Parsers, c: ClientCall): Call
    requires Deliverable(devices, parsers, c)
  {
    Call(c.driver, c.operation, K.Meanings(UnpackAll(parsers[(c.driver, c.operation)]), c.args))
  }

  ghost predicate AllDeliverable(devices: nat, parsers: Parsers, calls: seq<ClientCall>) {
    forall i :: 0 <= i < |calls| ==> Deliverable(devices, parsers, calls[i])
  }

  ghost function AllMeant(devices: nat, parsers: Parsers, calls: seq<ClientCall>): (r: seq<Call>)
    requires AllDeliverable(devices, parsers, calls)
    ensures |r| == |calls|
  {
    seq(|calls|, i requires 0 <= i < |calls| => Meant(devices, parsers, calls[i]))
  }

  /** What send_command hands to the socket. */
  ghost function Put(devices: nat, parsers: Parsers, c: ClientCall): seq<Byte>
    requires Deliverable(devices, parsers, c)
  {
    var types := UnpackAll(parsers[(c.driver, c.operation)]);
    K.PayloadEncodes(types, c.args);
    Header(c.driver, c.operation) + K.Payload(K.Declare(types), c.args).value
  }

  /** The bytes of the first n calls. */
  ghost function PutFirst(devices: nat, parsers: Parsers, calls: seq<ClientCall>, n: nat): seq<Byte>
    requires AllDeliverable(devices, parsers, calls) && n <= |calls|
  {
    if n == 0 then [] else PutFirst(devices, parsers, calls, n - 1) + Put(devices, parsers, calls[n - 1])
  }

  /** send_command of the Python client. */
  method SendCommand(devices: nat, parsers: Parsers, c: ClientCall) returns (bytes: seq<Byte>)
    requires Deliverable(devices, parsers, c)
    ensures bytes == Put(devices, parsers, c)
  {
    var types := UnpackAll(parsers[(c.driver, c.operation)]);
    K.PayloadEncodes(types, c.args);
    hide *;
    var r := K.MakeCommand(c.driver, c.operation, Some((K.Declare(types), c.args)));
    bytes := r.value;
  }

  lemma PutIsCallBytes(devices: nat, parsers: Parsers, c: ClientCall)
    requires Deliverable(devices, parsers, c)
    ensures Proper(devices, parsers, Meant(devices, parsers, c))
    ensures Put(devices, parsers, c) == CallBytes(devices, parsers, Meant(devices, parsers, c))
  {
    var types := UnpackAll(parsers[(c.driver, c.operation)]);
    K.PayloadEncodes(types, c.args);
  }

  /** Any number of calls, sent back to back in front of anything else, reach the drivers in order
      and with the arguments that the program meant. */
  lemma {:induction false} Delivered(devices: nat, parsers: Parsers, calls: seq<ClientCall>, n: nat, rest: seq<Byte>)
    requires AllDeliverable(devices, parsers, calls) && n <= |calls|
    ensures Served(devices, parsers, PutFirst(devices, parsers, calls, n) + rest)
            == Preceded(AllMeant(devices, parsers, calls)[..n], Served(devices, parsers, rest))
    decreases n
  {
    hide Deliverable, Put, Meant, Served, Proper, CallBytes;
    var done := AllMeant(devices, parsers, calls);
    if n == 0 {
      assert PutFirst(devices, parsers, calls, n) + rest == rest;
    } else {
      var last := Meant(devices, parsers, calls[n - 1]);
      var bytes := Put(devices, parsers, calls[n - 1]);
      Delivered(devices, parsers, calls, n - 1, bytes + rest);
      assert PutFirst(devices, parsers, calls, n) + rest == PutFirst(devices, parsers, calls, n - 1) + (bytes + rest);
      PutIsCallBytes(devices, parsers, calls[n - 1]);
      OneMoreServed(devices, parsers, done[..n - 1], last, rest);
      assert done[..n] == done[..n - 1] + [last];
    }
  }

  lemma OneMoreServed(devices: nat, parsers: Parsers, done: seq<Call>, last: Call, rest: seq<Byte>)
    requires Proper(devices, parsers, last)
    ensures Preceded(done, Served(devices, parsers, CallBytes(devices, parsers, last) + rest))
            == Preceded(done + [last], Served(devices, parsers, rest))
  {
    hide Proper, CallBytes, NextCommand;
    OneCall(devices, parsers, last, rest);
    var after := Served(devices, parsers, rest);
    assert done + ([last] + after.calls) == done + [last] + after.calls;
  }

  /** A client makes the calls, the network delivers the bytes in pieces of any size, and the
      session runs until the client closes. */
  method Conversation(devices: nat, parsers: Parsers, calls: seq<ClientCall>) returns (session: TcpSession)
    requires AllDeliverable(devices, parsers, calls)
    requires forall op :: op in parsers ==> Maximal(parsers[op])
    ensures session.executed == AllMeant(devices, parsers, calls)
  {
    hide Deliverable, Put, Meant, Served;
    var bytes := [];
    for n := 0 to |calls|
      invariant bytes == PutFirst(devices, parsers, calls, n)
    {
      var command := SendCommand(devices, parsers, calls[n]);
      bytes := bytes + command;
    }
    Delivered(devices, parsers, calls, |calls|, []);
    assert bytes + [] == bytes;
    NothingServed(devices, parsers);
    var socket := new Socket(bytes);
    session := new TcpSession(socket, devices, parsers);
    var closed := session.Run();
  }

  lemma NothingServed(devices: nat, parsers: Parsers)
    ensures Served(devices, parsers, []) == Service([], false, false)
  {
  }
}
