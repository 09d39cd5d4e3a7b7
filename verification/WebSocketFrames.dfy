/** Frames as sections 5.2 and 5.3 of RFC 6455 lay them out. */
module WebSocketFrames {
  import opened Bytes
  import opened WireFormat

  /** The payload is the application's; on the wire it is masked when there is a key. */
  datatype Frame = Frame(fin: bool, rsv: nat, opcode: nat, key: Option<seq<Byte>>, payload: seq<Byte>)

  /** The three encodings of the payload length. */
  datatype Form = Small | Medium | Big

  predicate ValidFrame(f: Frame) {
    f.rsv < 8 && f.opcode < 16 && (f.key.Some? ==> |f.key.value| == 4)
  }

  predicate Holds(form: Form, n: nat) {
    match form
    case Small => n <= 125
    case Medium => n < 0x1_0000
    case Big => n < 0x8000_0000_0000_0000
  }

  /** The form that section 5.2 asks for: the shortest. */
  function Minimal(n: nat): Form {
    if n <= 125 then Small else if n < 0x1_0000 then Medium else Big
  }

  /** It holds the length, and no other form that does takes fewer bytes. */
  lemma MinimalIsShortest(n: nat, form: Form)
    requires Holds(form, n)
    ensures Holds(Minimal(n), n) && LengthBytes(Minimal(n)) <= LengthBytes(form)
  {
  }

  function Length7(form: Form, n: nat): nat {
    match form
    case Small => n
    case Medium => 126
    case Big => 127
  }

  function ExtendedLength(form: Form, n: nat): seq<Byte> {
    match form
    case Small => []
    case Medium => BigEndian(n, 2)
    case Big => BigEndian(n, 8)
  }

  /** transformed-octet-i = original-octet-i XOR masking-key-octet-(i MOD 4) */
  function Masked(data: seq<Byte>, key: seq<Byte>): (r: seq<Byte>)
    requires |key| == 4
    ensures |r| == |data|
  {
    seq(|data|, i requires 0 <= i < |data| => Xor(data[i], key[i % 4]))
  }

  function FirstByte(f: Frame): Byte
    requires ValidFrame(f)
  {
    (if f.fin then 128 else 0) + 16 * f.rsv + f.opcode
  }

  function FrameHeader(f: Frame, form: Form): seq<Byte>
    requires ValidFrame(f) && Holds(form, |f.payload|)
  {
    var mask := if f.key.Some? then 128 else 0;
    [FirstByte(f), mask + Length7(form, |f.payload|)] + ExtendedLength(form, |f.payload|)
    + if f.key.Some? then f.key.value else []
  }

  function EncodeFrame(f: Frame, form: Form): seq<Byte>
    requires ValidFrame(f) && Holds(form, |f.payload|)
  {
    FrameHeader(f, form) + if f.key.Some? then Masked(f.payload, f.key.value) else f.payload
  }

  /** The layout read forwards: a frame off the front of a stream, how its length was encoded, and
      the rest. */
  function DecodeFrame(stream: seq<Byte>): Option<(Frame, Form, seq<Byte>)> {
    if |stream| < 2 then None
    else
      var form := FormOf(stream[1]);
      var keyAt := 2 + LengthBytes(form);
      var payloadAt := keyAt + if stream[1] >= 128 then 4 else 0;
      if |stream| < payloadAt then None
      else
        var n := if form == Small then stream[1] % 128 else FromBigEndian(stream[2..keyAt]);
        if |stream| < payloadAt + n then None
        else
          var key := if stream[1] >= 128 then Some(stream[keyAt..payloadAt]) else None;
          var data := stream[payloadAt..payloadAt + n];
          Some((WithFirstByte(stream[0], key, if key.Some? then Masked(data, key.value) else data),
                form, stream[payloadAt + n..]))
  }

  function FormOf(b: Byte): Form {
    if b % 128 == 127 then Big else if b % 128 == 126 then Medium else Small
  }

  function WithFirstByte(b: Byte, key: Option<seq<Byte>>, payload: seq<Byte>): Frame {
    Frame(b >= 128, b / 16 % 8, b % 16, key, payload)
  }

  function LengthBytes(form: Form): nat {
    match form
    case Small => 0
    case Medium => 2
    case Big => 8
  }

  lemma MaskedTwice(data: seq<Byte>, key: seq<Byte>)
    requires |key| == 4
    ensures Masked(Masked(data, key), key) == data
  {
    hide Xor;
    forall i | 0 <= i < |data| ensures Masked(Masked(data, key), key)[i] == data[i] {
      XorTwice(data[i], key[i % 4]);
    }
  }

  lemma LengthRoundTrip(form: Form, n: nat)
    requires Holds(form, n)
    ensures |ExtendedLength(form, n)| == LengthBytes(form)
    ensures form != Small ==> FromBigEndian(ExtendedLength(form, n)) == n
    ensures Length7(form, n) < 128
  {
    Powers();
    if form != Small {
      ShiftOfUnsigned(n, LengthBytes(form));
      UnsignedRoundTrip(n, LengthBytes(form));
    }
  }

  lemma FirstByteFields(f: Frame)
    requires ValidFrame(f)
    ensures WithFirstByte(FirstByte(f), f.key, f.payload) == f
    ensures FirstByte(f) % 16 == f.opcode
  {
  }

  lemma SecondByteFields(masked: bool, form: Form, n: nat)
    requires Holds(form, n)
    ensures var b := (if masked then 128 else 0) + Length7(form, n);
            FormOf(b) == form && (form == Small ==> b % 128 == n)
  {
  }

  /** The slices of an encoded frame. */
  lemma FrameSlices(f: Frame, form: Form, rest: seq<Byte>)
    requires ValidFrame(f) && Holds(form, |f.payload|)
    ensures var stream := EncodeFrame(f, form) + rest;
            var keyAt := 2 + LengthBytes(form);
            var payloadAt := keyAt + if f.key.Some? then 4 else 0;
            var n := |f.payload|;
            && |FrameHeader(f, form)| == payloadAt
            && |stream| == payloadAt + n + |rest|
            && stream[0] == FirstByte(f)
            && stream[1] == (if f.key.Some? then 128 else 0) + Length7(form, n)
            && stream[2..keyAt] == ExtendedLength(form, n)
            && (f.key.Some? ==> stream[keyAt..payloadAt] == f.key.value)
            && stream[payloadAt..payloadAt + n] == (if f.key.Some? then Masked(f.payload, f.key.value) else f.payload)
            && stream[payloadAt + n..] == rest
  {
    LengthRoundTrip(form, |f.payload|);
    hide ExtendedLength, Masked, FirstByte, Length7;
  }

  /** Decoding gives back the frame, the length encoding and the rest. */
  lemma FrameRoundTrip(f: Frame, form: Form, rest: seq<Byte>)
    requires ValidFrame(f) && Holds(form, |f.payload|)
    ensures DecodeFrame(EncodeFrame(f, form) + rest) == Some((f, form, rest))
  {
    hide Length7, EncodeFrame, ExtendedLength, Masked, FirstByte, FromBigEndian, FormOf, WithFirstByte, FrameHeader;
    FrameSlices(f, form, rest);
    LengthRoundTrip(form, |f.payload|);
    FirstByteFields(f);
    SecondByteFields(f.key.Some?, form, |f.payload|);
    if f.key.Some? {
      MaskedTwice(f.payload, f.key.value);
    }
  }
}
