/**
 The six control packets as bytes and back (codec/). A frame is a type byte with zero
 flags, the remaining length, and a body.
 */
module Codec {
  import opened Bits
  import opened Stream
  import opened LengthField

  type u16 = x: int | 0 <= x < 0x1_0000
  type u32 = x: int | 0 <= x < 0x1_0000_0000

  /**
   A packet's fields. The two pings also carry the header's remaining length, which
   their writer emits as it finds it; the other writers compute it.
   */
  datatype Packet =
    | Connect(magic: u32, version: byte, reserved: byte, keepalive: u16, credential: seq<byte>)
    | Connack(returnCode: byte, serverKeepalive: u16)
    | Push(pushReserved: byte, payload: seq<byte>)
    | Pingreq(reqLength: nat)
    | Pingresp(respLength: nat)
    | Disconnect(reason: byte)

  function TypeOf(p: Packet): nat {
    match p
    case Connect(_, _, _, _, _) => 1
    case Connack(_, _) => 2
    case Push(_, _) => 3
    case Pingreq(_) => 5
    case Pingresp(_) => 6
    case Disconnect(_) => 14
  }

  predicate KnownType(t: nat) {
    t in {1, 2, 3, 5, 6, 14}
  }

  // ---------- writing ----------

  function BE16(n: u16): seq<byte> { [n / 256, n % 256] }

  function BE32(n: u32): seq<byte> {
    [n / 0x100_0000, n / 0x1_0000 % 256, n / 256 % 256, n % 256]
  }

  /** The length prefix keeps only the low 16 bits. */
  function EncodeBytes(field: seq<byte>): seq<byte> { BE16(|field| % 0x1_0000) + field }

  function Body(p: Packet): seq<byte> {
    match p
    case Connect(magic, version, reserved, keepalive, credential) =>
      BE32(magic) + [version] + [reserved] + BE16(keepalive) + EncodeBytes(credential)
    case Connack(rc, kp) => [rc] + BE16(kp)
    case Push(_, payload) => [0] + payload
    case Pingreq(_) => []
    case Pingresp(_) => []
    case Disconnect(reason) => [reason]
  }

  function HeaderLength(p: Packet): nat {
    match p
    case Pingreq(n) => n
    case Pingresp(n) => n
    case _ => |Body(p)|
  }

  function Header(t: nat, length: nat): seq<byte>
    requires t < 16
  {
    [t * 16] + EncodeLen(length)
  }

  function Encode(p: Packet): seq<byte> {
    Header(TypeOf(p), HeaderLength(p)) + Body(p)
  }

  // ---------- reading ----------

  function U16(b: seq<byte>): u16
    requires |b| == 2
  {
    var high: int, low: int := b[0], b[1];
    high * 256 + low
  }

  function U32(b: seq<byte>): u32
    requires |b| == 4
  {
    var b0: int, b1: int, b2: int, b3: int := b[0], b[1], b[2], b[3];
    ((b0 * 256 + b1) * 256 + b2) * 256 + b3
  }

  function UnpackConnect(b: seq<byte>): Result<Packet> {
    var (magic, b1) :- Take(b, 4);
    var (version, b2) :- Take(b1, 1);
    var (reserved, b3) :- Take(b2, 1);
    var (keepalive, b4) :- Take(b3, 2);
    var (length, b5) :- Take(b4, 2);
    var (credential, _) :- Take(b5, U16(length));
    Ok(Connect(U32(magic), version[0], reserved[0], U16(keepalive), credential))
  }

  function UnpackConnack(b: seq<byte>): Result<Packet> {
    var (rc, b1) :- Take(b, 1);
    var (kp, _) :- Take(b1, 2);
    Ok(Connack(rc[0], U16(kp)))
  }

  /** What follows the reserved byte is the payload, all of it. */
  function UnpackPush(b: seq<byte>): Result<Packet> {
    var (reserved, b1) :- Take(b, 1);
    Ok(Push(reserved[0], b1))
  }

  function UnpackDisconnect(b: seq<byte>): Result<Packet> {
    var (reason, _) :- Take(b, 1);
    Ok(Disconnect(reason[0]))
  }

  function Unpack(t: nat, body: seq<byte>): Result<Packet>
    requires KnownType(t)
  {
    match t
    case 1 => UnpackConnect(body)
    case 2 => UnpackConnack(body)
    case 3 => UnpackPush(body)
    case 5 => Ok(Pingreq(|body|))
    case 6 => Ok(Pingresp(|body|))
    case _ => UnpackDisconnect(body)
  }

  /** The outcome of reading one packet, and the bytes of the stream left after it. */
  datatype Outcome = Outcome(packet: Result<Packet>, rest: seq<byte>)

  /** Reading from the first byte after the header on. */
  function ReadBody(t: nat, length: nat, s: seq<byte>): Outcome {
    if !KnownType(t) then Outcome(Err(UnsupportedType(t)), s)
    else match Take(s, length)
         case Err(e) => Outcome(Err(e), [])
         case Ok((body, rest)) => Outcome(Unpack(t, body), rest)
  }

  function ReadPacket(s: seq<byte>): Outcome {
    if s == [] then Outcome(Err(EOF), [])
    else if s[0] % 16 != 0 then Outcome(Err(NonZeroFlags(s[0] % 16)), s[1..])
    else match DecodeLen(s[1..], 4)
         case Err(e) => Outcome(Err(e), [])
         case Ok((length, n)) =>
           DecodeBounded(s[1..], 4);
           ReadBody(s[0] / 16, length, s[1 + n..])
  }

  // ---------- one frame ----------

  /** A header in front of at least the bytes it announces leads to the body, and only to it. */
  lemma ReadHeader(t: nat, length: nat, s: seq<byte>)
    requires t < 16 && length < LIMIT
    ensures ReadPacket(Header(t, length) + s) == ReadBody(t, length, s)
  {
    var all := Header(t, length) + s;
    assert all[1..] == EncodeLen(length) + s;
    LengthRoundTripsExactly(length, s);
    assert all[1 + |EncodeLen(length)|..] == s;
  }

  /**
   A complete frame of a known type is consumed exactly, whether or not its body can
   be unpacked; the stream stays in step.
   */
  lemma FrameConsumedExactly(t: nat, body: seq<byte>, rest: seq<byte>)
    requires KnownType(t) && |body| < LIMIT
    ensures ReadPacket(Header(t, |body|) + body + rest) == Outcome(Unpack(t, body), rest)
  {
    ReadHeader(t, |body|, body + rest);
    BodyConsumed(t, body, rest);
    Regroup(Header(t, |body|), body, rest);
  }

  lemma BodyConsumed(t: nat, body: seq<byte>, rest: seq<byte>)
    requires KnownType(t)
    ensures ReadBody(t, |body|, body + rest) == Outcome(Unpack(t, body), rest)
  {
    TakeExact(body + rest, body, rest);
  }

  lemma Regroup(a: seq<byte>, b: seq<byte>, c: seq<byte>)
    ensures a + b + c == a + (b + c)
  {
  }

  /** What a packet turns into on the way: a credential is cut by its 16-bit length, a PUSH's reserved byte is lost. */
  function Received(p: Packet): Packet {
    match p
    case Connect(_, _, _, _, credential) => p.(credential := credential[..|credential| % 0x1_0000])
    case Push(_, payload) => Push(0, payload)
    case Pingreq(_) => Pingreq(0)
    case Pingresp(_) => Pingresp(0)
    case _ => p
  }

  lemma U32Inverse(n: u32)
    ensures U32(BE32(n)) == n
  {
    var h, m := n / 256, n / 0x1_0000;
    assert h / 256 == m && m / 256 == n / 0x100_0000;
    assert n == h * 256 + n % 256 && h == m * 256 + h % 256 && m == (m / 256) * 256 + m % 256;
  }

  lemma UnpackConnectBody(p: Packet)
    requires p.Connect?
    ensures UnpackConnect(Body(p)) == Ok(Received(p))
  {
    var cut := |p.credential| % 0x1_0000;
    var b5 := p.credential;
    var b4 := BE16(cut) + b5;
    var b3 := BE16(p.keepalive) + b4;
    var b2 := [p.reserved] + b3;
    var b1 := [p.version] + b2;
    assert Body(p) == BE32(p.magic) + b1;
    TakeExact(Body(p), BE32(p.magic), b1);
    TakeExact(b1, [p.version], b2);
    TakeExact(b2, [p.reserved], b3);
    TakeExact(b3, BE16(p.keepalive), b4);
    TakeExact(b4, BE16(cut), b5);
    U32Inverse(p.magic);
  }

  lemma UnpackBody(p: Packet)
    ensures Unpack(TypeOf(p), Body(p)) == Ok(Received(p))
  {
    match p
    case Connect(_, _, _, _, _) => UnpackConnectBody(p);
    case Connack(rc, kp) =>
      TakeExact(Body(p), [rc], BE16(kp));
      TakeExact(BE16(kp), BE16(kp), []);
    case Push(_, payload) => TakeExact(Body(p), [0], payload);
    case _ =>
  }

  /** Packets that arrive as they were sent. */
  predicate WellFormed(p: Packet) {
    match p
    case Connect(_, _, _, _, credential) => |credential| < 0x1_0000
    case Push(reserved, payload) => reserved == 0 && |payload| + 1 < LIMIT
    case Pingreq(n) => n == 0
    case Pingresp(n) => n == 0
    case _ => true
  }

  /** The frame announces its own body, and the announcement fits the length field. */
  predicate Framed(p: Packet) {
    HeaderLength(p) == |Body(p)| < LIMIT
  }

  lemma ReadFramed(p: Packet, rest: seq<byte>)
    requires Framed(p)
    ensures ReadPacket(Encode(p) + rest) == Outcome(Ok(Received(p)), rest)
  {
    FrameConsumedExactly(TypeOf(p), Body(p), rest);
    UnpackBody(p);
  }

  /** A successful read takes the header and as many bytes as the header announces. */
  lemma ReadLength(s: seq<byte>)
    requires ReadPacket(s).packet.Ok?
    ensures DecodeLen(s[1..], 4).Ok?
    ensures var (length, n) := DecodeLen(s[1..], 4).value;
            && |ReadPacket(s).rest| == |s| - 1 - n - length
            && (ReadPacket(s).packet.value.Pingreq? ==> ReadPacket(s).packet.value == Pingreq(length))
            && (ReadPacket(s).packet.value.Pingresp? ==> ReadPacket(s).packet.value == Pingresp(length))
  {
    DecodeBounded(s[1..], 4);
  }

  lemma AnnouncedLength(n: nat, tail: seq<byte>)
    ensures var d := DecodeLen(EncodeLen(n) + tail, 4);
            && d.Ok?
            && (n < LIMIT ==> d.value == (n, |EncodeLen(n)|))
            && (n >= LIMIT ==> d.value.0 < LIMIT && d.value.1 < |EncodeLen(n)|)
  {
    DecodeEncoded(n, 4, tail);
    DecodeBounded(EncodeLen(n) + tail, 4);
    PowersListed();
  }

  lemma OutOfStep(p: Packet, t: byte, n: nat, body: nat, tail: seq<byte>, rest: seq<byte>)
    requires |tail| == body + |rest| && !(n == body < LIMIT)
    requires if p.Pingreq? then n == p.reqLength else if p.Pingresp? then n == p.respLength else n == body
    ensures ReadPacket([t] + EncodeLen(n) + tail) != Outcome(Ok(p), rest)
  {
    var s := [t] + EncodeLen(n) + tail;
    assert s[1..] == EncodeLen(n) + tail;
    AnnouncedLength(n, tail);
    if ReadPacket(s).packet.Ok? {
      ReadLength(s);
    }
  }

  /** A body too long for the length field, or a ping with a length of its own, puts the reader out of step. */
  lemma NotFramedOutOfStep(p: Packet, rest: seq<byte>)
    requires !Framed(p)
    ensures ReadPacket(Encode(p) + rest) != Outcome(Ok(p), rest)
  {
    var body := Body(p);
    OutOfStep(p, TypeOf(p) * 16, HeaderLength(p), |body|, body + rest, rest);
    Regroup(Header(TypeOf(p), HeaderLength(p)), body, rest);
  }

  lemma WellFormedMeans(p: Packet)
    ensures WellFormed(p) <==> Framed(p) && Received(p) == p
  {
    if p.Connect? {
      assert |p.credential| < 0x1_0000 ==> p.credential[..|p.credential| % 0x1_0000] == p.credential;
    }
  }

  /** A packet written to a stream is read back, with what follows left untouched, exactly when it is well formed. */
  lemma RoundTripsExactly(p: Packet, rest: seq<byte>)
    ensures ReadPacket(Encode(p) + rest) == Outcome(Ok(p), rest) <==> WellFormed(p)
  {
    WellFormedMeans(p);
    if Framed(p) {
      ReadFramed(p, rest);
    } else {
      NotFramedOutOfStep(p, rest);
    }
  }

  // ---------- prefixes ----------

  /** A frame cut anywhere before its end yields an error and never a packet. */
  lemma StrictPrefixFails(t: nat, body: seq<byte>, k: nat)
    requires KnownType(t) && |body| < LIMIT && k < |Header(t, |body|) + body|
    ensures ReadPacket((Header(t, |body|) + body)[..k]).packet.Err?
    ensures ReadPacket((Header(t, |body|) + body)[..k]).rest == []
  {
    var len := EncodeLen(|body|);
    var s := (Header(t, |body|) + body)[..k];
    if k > 0 {
      if k <= |len| {
        assert s[1..] == len[..k - 1];
        PowersListed();
        DecodeCutShort(|body|, 4, k - 1);
      } else {
        var part := body[..k - 1 - |len|];
        assert s == Header(t, |body|) + part;
        ReadHeader(t, |body|, part);
      }
    }
  }

  // ---------- many frames ----------

  function EncodeAll(ps: seq<Packet>): seq<byte> {
    if ps == [] then [] else Encode(ps[0]) + EncodeAll(ps[1..])
  }

  /** Reading n packets one after the other: those read, or the first error; and the bytes left. */
  function ReadMore(s: seq<byte>, n: nat): (Result<seq<Packet>>, seq<byte>)
    decreases n
  {
    if n == 0 then (Ok([]), s)
    else
      var Outcome(p, rest) := ReadPacket(s);
      match p
      case Err(e) => (Err(e), rest)
      case Ok(packet) =>
        var (ps, rest') := ReadMore(rest, n - 1);
        (match ps case Ok(more) => Ok([packet] + more) case Err(e) => Err(e), rest')
  }

  /**
   Any sequence of well-formed packets, written in order and followed by any bytes, is
   read back as the same sequence with exactly those bytes left.
   */
  lemma {:induction false} SequenceRoundTrips(ps: seq<Packet>, rest: seq<byte>)
    requires forall i :: 0 <= i < |ps| ==> WellFormed(ps[i])
    ensures ReadMore(EncodeAll(ps) + rest, |ps|) == (Ok(ps), rest)
  {
    if ps == [] {
      assert EncodeAll(ps) + rest == rest;
    } else {
      var tail := EncodeAll(ps[1..]) + rest;
      assert EncodeAll(ps) + rest == Encode(ps[0]) + tail;
      assert WellFormed(ps[0]);
      RoundTripsExactly(ps[0], tail);
      SequenceRoundTrips(ps[1..], rest);
      assert [ps[0]] + ps[1..] == ps;
    }
  }
}
