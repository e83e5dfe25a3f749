/**
 The packet objects of codec/ and `ReadPacket`, in place: writers that set the
 remaining length and emit one slice, unpackers that assign fields while consuming a
 buffer, each proved against the byte format of `Codec`.
 */
module Packets {
  import opened Wrappers
  import opened Bits
  import opened Stream
  import opened LengthField
  import opened Codec

  /** The slices handed to `conn.Write`, in order; on a WebSocket each is one message. */
  class Wire {
    var writes: seq<seq<byte>>

    constructor ()
      ensures writes == []
    {
      writes := [];
    }

    method Write(data: seq<byte>)
      modifies this
      ensures writes == old(writes) + [data]
    {
      writes := writes + [data];
    }
  }

  /** `bytes.Buffer`, read from the front. */
  class Buffer {
    var data: seq<byte>

    constructor (data: seq<byte>)
      ensures this.data == data
    {
      this.data := data;
    }

    method ReadFull(n: nat) returns (r: Result<seq<byte>>)
      modifies this
      ensures match Take(old(data), n)
              case Ok((head, rest)) => r == Ok(head) && data == rest
              case Err(e) => r == Err(e) && data == []
    {
      if n <= |data| {
        r := Ok(data[..n]);
        data := data[n..];
      } else {
        r := Err(if data == [] then EOF else UnexpectedEOF);
        data := [];
      }
    }

    /** One `Read`, which reports the end of the buffer only if it was asked for something. */
    method Read(n: nat) returns (r: Result<seq<byte>>)
      modifies this
      ensures r == if old(data) == [] && n > 0 then Err(EOF)
                   else Ok(old(data)[..if n < |old(data)| then n else |old(data)|])
    {
      if data == [] && n > 0 {
        return Err(EOF);
      }
      var k := if n < |data| then n else |data|;
      r := Ok(data[..k]);
      data := data[k..];
    }
  }

  lemma TypeByte(t: nat)
    requires t < 16
    ensures Or(Shl(t, 4) % 256, 0) == t * 16
  {
    assert Shl(t, 1) == 2 * Shl(t, 0) == 2 * t;
    assert Shl(t, 2) == 2 * Shl(t, 1) == 4 * t;
    assert Shl(t, 3) == 2 * Shl(t, 2) == 8 * t;
    assert Shl(t, 4) == 2 * Shl(t, 3) == 16 * t;
    assert (16 * t) % 256 == 16 * t;
    OrZeroRight(16 * t);
  }

  /** `FixedHeader.pack`. */
  method Pack(messageType: nat, length: nat) returns (header: seq<byte>)
    requires messageType < 16
    ensures header == Header(messageType, length)
  {
    TypeByte(messageType);
    var encoded := EncodeLength(length);
    header := [Or(Shl(messageType, 4) % 256, 0)] + encoded;
  }

  /** What a decoder reports, and what it leaves in its packet when it reports nothing. */
  ghost predicate Agrees(expected: Result<Packet>, err: Option<ReadError>, value: Packet) {
    match expected
    case Ok(p) => err == None && value == p
    case Err(e) => err == Some(e)
  }

  class ConnectPacket {
    var remainingLength: nat
    var magicNumber: u32
    var protocolVersion: byte
    var reserved: byte
    var keepalive: u16
    var credential: seq<byte>

    ghost function Value(): Packet
      reads this
    {
      Connect(magicNumber, protocolVersion, reserved, keepalive, credential)
    }

    constructor (remainingLength: nat)
      ensures this.remainingLength == remainingLength && Value() == Connect(0, 0, 0, 0, [])
    {
      this.remainingLength := remainingLength;
      magicNumber, protocolVersion, reserved, keepalive, credential := 0, 0, 0, 0, [];
    }

    method Write(w: Wire)
      modifies this`remainingLength, w
      ensures w.writes == old(w.writes) + [Encode(Value())] && remainingLength == |Body(Value())|
    {
      var body := BE32(magicNumber) + [protocolVersion] + [reserved] + BE16(keepalive);
      body := body + EncodeBytes(credential);
      remainingLength := |body|;
      var packet := Pack(1, remainingLength);
      w.Write(packet + body);
    }

    method Unpack(b: Buffer) returns (err: Option<ReadError>)
      modifies this, b
      ensures Agrees(UnpackConnect(old(b.data)), err, Value())
      ensures remainingLength == old(remainingLength)
    {
      var f := b.ReadFull(4);
      if f.Err? { return Some(f.error); }
      magicNumber := U32(f.value);
      f := b.ReadFull(1);
      if f.Err? { return Some(f.error); }
      protocolVersion := f.value[0];
      f := b.ReadFull(1);
      if f.Err? { return Some(f.error); }
      reserved := f.value[0];
      f := b.ReadFull(2);
      if f.Err? { return Some(f.error); }
      keepalive := U16(f.value);
      f := b.ReadFull(2);
      if f.Err? { return Some(f.error); }
      f := b.ReadFull(U16(f.value));
      if f.Err? { return Some(f.error); }
      credential := f.value;
      return None;
    }
  }

  class ConnackPacket {
    var remainingLength: nat
    var returnCode: byte
    var serverKeepalive: u16

    ghost function Value(): Packet
      reads this
    {
      Connack(returnCode, serverKeepalive)
    }

    constructor (remainingLength: nat)
      ensures this.remainingLength == remainingLength && Value() == Connack(0, 0)
    {
      this.remainingLength := remainingLength;
      returnCode, serverKeepalive := 0, 0;
    }

    method Write(w: Wire)
      modifies this`remainingLength, w
      ensures w.writes == old(w.writes) + [Encode(Value())] && remainingLength == 3
    {
      var body := [returnCode] + BE16(serverKeepalive);
      remainingLength := 3;
      var packet := Pack(2, remainingLength);
      w.Write(packet + body);
    }

    method Unpack(b: Buffer) returns (err: Option<ReadError>)
      modifies this, b
      ensures Agrees(UnpackConnack(old(b.data)), err, Value())
      ensures remainingLength == old(remainingLength)
    {
      var f := b.ReadFull(1);
      if f.Err? { return Some(f.error); }
      returnCode := f.value[0];
      f := b.ReadFull(2);
      if f.Err? { return Some(f.error); }
      serverKeepalive := U16(f.value);
      return None;
    }
  }

  class PushPacket {
    var remainingLength: nat
    var reserved: byte
    var payload: seq<byte>

    ghost function Value(): Packet
      reads this
    {
      Push(reserved, payload)
    }

    constructor (remainingLength: nat)
      ensures this.remainingLength == remainingLength && Value() == Push(0, [])
    {
      this.remainingLength := remainingLength;
      reserved, payload := 0, [];
    }

    method Write(w: Wire)
      modifies this`remainingLength, w
      ensures w.writes == old(w.writes) + [Encode(Value())] && remainingLength == 1 + |payload|
    {
      remainingLength := 1 + |payload|;
      var packet := Pack(3, remainingLength);
      w.Write(packet + ([0] + payload));
    }

    /** The payload length comes from the header, which `ReadPacket` has filled a buffer for. */
    method Unpack(b: Buffer) returns (err: Option<ReadError>)
      modifies this, b
      ensures |old(b.data)| == old(remainingLength) ==> Agrees(UnpackPush(old(b.data)), err, Value())
      ensures remainingLength == old(remainingLength)
    {
      var f := b.ReadFull(1);
      if f.Err? { return Some(f.error); }
      reserved := f.value[0];
      var payloadLength := remainingLength - 1;
      if payloadLength < 0 { return Some(NegativePayload); }
      f := b.Read(payloadLength);
      if f.Err? { return Some(f.error); }
      payload := f.value;
      return None;
    }
  }

  class DisconnectPacket {
    var remainingLength: nat
    var returnCode: byte

    ghost function Value(): Packet
      reads this
    {
      Disconnect(returnCode)
    }

    constructor (remainingLength: nat)
      ensures this.remainingLength == remainingLength && Value() == Disconnect(0)
    {
      this.remainingLength := remainingLength;
      returnCode := 0;
    }

    method Write(w: Wire)
      modifies this`remainingLength, w
      ensures w.writes == old(w.writes) + [Encode(Value())] && remainingLength == 1
    {
      remainingLength := 1;
      var packet := Pack(14, remainingLength);
      w.Write(packet + [returnCode]);
    }

    method Unpack(b: Buffer) returns (err: Option<ReadError>)
      modifies this, b
      ensures Agrees(UnpackDisconnect(old(b.data)), err, Value())
      ensures remainingLength == old(remainingLength)
    {
      var f := b.ReadFull(1);
      if f.Err? { return Some(f.error); }
      returnCode := f.value[0];
      return None;
    }
  }

  /** PINGREQ and PINGRESP: a bare header, written with the remaining length it holds. */
  class PingPacket {
    const request: bool
    var remainingLength: nat

    ghost function Value(): Packet
      reads this
    {
      if request then Pingreq(remainingLength) else Pingresp(remainingLength)
    }

    constructor (request: bool, remainingLength: nat)
      ensures this.request == request && this.remainingLength == remainingLength
    {
      this.request := request;
      this.remainingLength := remainingLength;
    }

    method Write(w: Wire)
      modifies w
      ensures w.writes == old(w.writes) + [Encode(Value())]
    {
      var packet := Pack(if request then 5 else 6, remainingLength);
      assert packet == Encode(Value());
      w.Write(packet);
    }
  }

  datatype ControlPacket =
    | NoPacket
    | AConnect(connect: ConnectPacket)
    | AConnack(connack: ConnackPacket)
    | APush(push: PushPacket)
    | APing(ping: PingPacket)
    | ADisconnect(disconnect: DisconnectPacket)

  ghost predicate Holds(cp: ControlPacket, p: Packet)
    reads match cp
          case NoPacket => {}
          case AConnect(c) => {c}
          case AConnack(c) => {c}
          case APush(c) => {c}
          case APing(c) => {c}
          case ADisconnect(c) => {c}
  {
    match cp
    case NoPacket => false
    case AConnect(c) => c.Value() == p
    case AConnack(c) => c.Value() == p
    case APush(c) => c.Value() == p
    case APing(c) => c.Value() == p
    case ADisconnect(c) => c.Value() == p
  }

  /** `NewControlPacketWithHeader` and the packet's own `Unpack`. */
  method UnpackBody(messageType: nat, body: seq<byte>) returns (cp: ControlPacket, err: Option<ReadError>)
    requires KnownType(messageType)
    ensures match Unpack(messageType, body)
            case Ok(p) => err == None && Holds(cp, p)
            case Err(e) => err == Some(e)
  {
    var b := new Buffer(body);
    if messageType == 1 {
      var c := new ConnectPacket(|body|);
      err := c.Unpack(b);
      cp := AConnect(c);
    } else if messageType == 2 {
      var c := new ConnackPacket(|body|);
      err := c.Unpack(b);
      cp := AConnack(c);
    } else if messageType == 3 {
      var c := new PushPacket(|body|);
      err := c.Unpack(b);
      cp := APush(c);
    } else if messageType == 5 || messageType == 6 {
      var c := new PingPacket(messageType == 5, |body|);
      cp, err := APing(c), None;
    } else {
      var c := new DisconnectPacket(|body|);
      err := c.Unpack(b);
      cp := ADisconnect(c);
    }
  }

  /**
   `ReadPacket` on a connection that delivers its bytes in arbitrary pieces gives the
   result, and leaves the rest, that the flat stream of those bytes determines.
   */
  method ReadControlPacket(r: StreamConn) returns (cp: ControlPacket, err: Option<ReadError>)
    modifies r
    ensures var expected := ReadPacket(old(r.Bytes()));
            && r.Bytes() == expected.rest
            && match expected.packet
               case Ok(p) => err == None && Holds(cp, p)
               case Err(e) => err == Some(e)
  {
    ghost var s := r.Bytes();
    cp := NoPacket;
    var first := r.ReadByte();
    if first.Err? { return NoPacket, Some(first.error); }
    var b := first.value;
    Nibbles(b);
    var messageType, flags := Shr(b, 4), And(b, 0x0F);
    if flags != 0 { return NoPacket, Some(NonZeroFlags(flags)); }
    var length := DecodeLength(r);
    if length.Err? { return NoPacket, Some(length.error); }
    ghost var n := DecodeLen(s[1..], 4).value.1;
    assert s[1..][n..] == s[1 + n..];
    if messageType !in {1, 2, 3, 5, 6, 14} { return NoPacket, Some(UnsupportedType(messageType)); }
    var body := r.ReadFull(length.value);
    if body.Err? { return NoPacket, Some(body.error); }
    cp, err := UnpackBody(messageType, body.value);
  }
}
