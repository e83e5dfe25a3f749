/**
 The wire format of the six packets (codec/), byte by byte: where each field of a written
 frame lies, and what the reader makes of arbitrary bytes. Nothing here refers to the
 functions that assemble or take apart a body.
 */
module WireFormat {
  import opened Bits
  import opened Stream
  import opened LengthField
  import opened Codec

  /** The value of two, and of four, bytes in network order. */
  function Two(a: int, b: int): int { 256 * a + b }

  function Four(a: int, b: int, c: int, d: int): int { 16777216 * a + 65536 * b + 256 * c + d }

  // ---------- the length field ----------

  /** The value of up to four digits, the first the least significant. */
  function Digits(a: int, b: int, c: int, d: int): int { a + 128 * b + 16384 * c + 2097152 * d }

  /** All digits but the last carry the mark of 128. */
  lemma LengthBytes(n: nat)
    requires n < LIMIT
    ensures var e := EncodeLen(n);
            || (|e| == 1 && n == e[0] < 128)
            || (|e| == 2 && e[0] >= 128 > e[1] > 0 && n == Digits(e[0] - 128, e[1], 0, 0))
            || (|e| == 3 && e[0] >= 128 && e[1] >= 128 > e[2] > 0 && n == Digits(e[0] - 128, e[1] - 128, e[2], 0))
            || (|e| == 4 && e[0] >= 128 && e[1] >= 128 && e[2] >= 128 > e[3] > 0
                && n == Digits(e[0] - 128, e[1] - 128, e[2] - 128, e[3]))
  {
    if n >= 128 {
      var n1 := n / 128;
      assert EncodeLen(n) == [n % 128 + 128] + EncodeLen(n1);
      if n1 >= 128 {
        var n2 := n1 / 128;
        assert EncodeLen(n1) == [n1 % 128 + 128] + EncodeLen(n2);
        if n2 >= 128 {
          var n3 := n2 / 128;
          assert EncodeLen(n2) == [n2 % 128 + 128] + EncodeLen(n3);
          assert EncodeLen(n3) == [n3];
        }
      }
    }
  }

  /** The value of the last digit that is read, marked or not. */
  function Last(b: int): int { if b < 128 then b else b - 128 }

  function Read1(s: seq<byte>): Result<(int, nat)> {
    if |s| >= 1 then Ok((Last(s[0]), 1)) else Err(EOF)
  }

  function Read2(s: seq<byte>): Result<(int, nat)> {
    if |s| >= 1 && s[0] < 128 then Ok((s[0], 1))
    else if |s| >= 2 then Ok((Digits(s[0] - 128, Last(s[1]), 0, 0), 2))
    else Err(EOF)
  }

  function Read3(s: seq<byte>): Result<(int, nat)> {
    if |s| >= 1 && s[0] < 128 then Ok((s[0], 1))
    else if |s| >= 2 && s[1] < 128 then Ok((Digits(s[0] - 128, s[1], 0, 0), 2))
    else if |s| >= 3 then Ok((Digits(s[0] - 128, s[1] - 128, Last(s[2]), 0), 3))
    else Err(EOF)
  }

  /** Up to the first unmarked digit, but never more than four. */
  function Read4(s: seq<byte>): Result<(int, nat)> {
    if |s| >= 1 && s[0] < 128 then Ok((s[0], 1))
    else if |s| >= 2 && s[1] < 128 then Ok((Digits(s[0] - 128, s[1], 0, 0), 2))
    else if |s| >= 3 && s[2] < 128 then Ok((Digits(s[0] - 128, s[1] - 128, s[2], 0), 3))
    else if |s| >= 4 then Ok((Digits(s[0] - 128, s[1] - 128, s[2] - 128, Last(s[3])), 4))
    else Err(EOF)
  }

  /** A marked digit in front of a length. */
  function Longer(digit: int, tail: Result<(int, nat)>): Result<(int, nat)> {
    match tail
    case Ok((v, n)) => Ok((digit - 128 + 128 * v, n + 1))
    case Err(e) => Err(e)
  }

  lemma Shift2(s: seq<byte>)
    requires s != [] && s[0] >= 128
    ensures Longer(s[0], Read1(s[1..])) == Read2(s)
  {
  }

  lemma Shift3(s: seq<byte>)
    requires s != [] && s[0] >= 128
    ensures Longer(s[0], Read2(s[1..])) == Read3(s)
  {
  }

  lemma Shift4(s: seq<byte>)
    requires s != [] && s[0] >= 128
    ensures Longer(s[0], Read3(s[1..])) == Read4(s)
  {
  }

  lemma DecodeOne(s: seq<byte>, digits: nat, tail: Result<(int, nat)>)
    requires s != [] && digits > 0 && s[0] >= 128 && DecodeLen(s[1..], digits - 1) == tail
    ensures DecodeLen(s, digits) == Longer(s[0], tail)
  {
  }

  lemma Decode1(s: seq<byte>)
    ensures DecodeLen(s, 1) == Read1(s)
  {
    if s != [] && s[0] >= 128 {
      DecodeOne(s, 1, Ok((0, 0)));
    }
  }

  lemma Decode2(s: seq<byte>)
    ensures DecodeLen(s, 2) == Read2(s)
  {
    if s != [] && s[0] >= 128 {
      Decode1(s[1..]);
      DecodeOne(s, 2, Read1(s[1..]));
      Shift2(s);
    }
  }

  lemma Decode3(s: seq<byte>)
    ensures DecodeLen(s, 3) == Read3(s)
  {
    if s != [] && s[0] >= 128 {
      Decode2(s[1..]);
      DecodeOne(s, 3, Read2(s[1..]));
      Shift3(s);
    }
  }

  /** What any bytes mean as a length. */
  lemma LengthRead(s: seq<byte>)
    ensures DecodeLen(s, 4) == Read4(s)
  {
    if s != [] && s[0] >= 128 {
      Decode3(s[1..]);
      DecodeOne(s, 4, Read3(s[1..]));
      Shift4(s);
    }
  }

  // ---------- written frames ----------

  /** The bytes of a frame after its type byte and its length field. */
  function After(f: seq<byte>, header: nat): seq<byte> {
    if header <= |f| then f[header..] else []
  }

  lemma ConnectBytes(p: Packet)
    requires p.Connect?
    ensures var f := Encode(p);
            var n := |p.credential|;
            && |f| == 1 + |EncodeLen(10 + n)| + 10 + n && f[0] == 0x10 && f[1..|f| - 10 - n] == EncodeLen(10 + n)
            && var b := After(f, |f| - 10 - n);
               && |b| == 10 + n
               && Four(b[0], b[1], b[2], b[3]) == p.magic
               && b[4] == p.version && b[5] == p.reserved
               && Two(b[6], b[7]) == p.keepalive
               && Two(b[8], b[9]) == n % 65536
               && b[10..] == p.credential
  {
    ConnectFields(p);
    FrameParts(p);
  }

  lemma ConnectFields(p: Packet)
    requires p.Connect?
    ensures var b := Body(p);
            && |b| == 10 + |p.credential|
            && Four(b[0], b[1], b[2], b[3]) == p.magic
            && b[4] == p.version && b[5] == p.reserved
            && Two(b[6], b[7]) == p.keepalive
            && Two(b[8], b[9]) == |p.credential| % 65536
            && b[10..] == p.credential
  {
    var magic, keepalive, length := BE32(p.magic), BE16(p.keepalive), BE16(|p.credential| % 0x1_0000);
    MagicBytes(p.magic);
    TwoBytes(p.keepalive);
    TwoBytes(|p.credential| % 0x1_0000);
    Layout(magic, p.version, p.reserved, keepalive, length, p.credential);
    assert Body(p) == magic + [p.version] + [p.reserved] + keepalive + (length + p.credential);
  }

  lemma Layout(m: seq<byte>, version: byte, reserved: byte, k: seq<byte>, n: seq<byte>, credential: seq<byte>)
    requires |m| == 4 && |k| == 2 && |n| == 2
    ensures var b := m + [version] + [reserved] + k + (n + credential);
            && |b| == 10 + |credential| && b[0] == m[0] && b[1] == m[1] && b[2] == m[2] && b[3] == m[3]
            && b[4] == version && b[5] == reserved && b[6] == k[0] && b[7] == k[1] && b[8] == n[0] && b[9] == n[1]
            && b[10..] == credential
  {
  }

  lemma TwoBytes(n: u16)
    ensures |BE16(n)| == 2 && Two(BE16(n)[0], BE16(n)[1]) == n
  {
  }

  lemma MagicBytes(m: u32)
    ensures var b := BE32(m);
            |b| == 4 && Four(b[0], b[1], b[2], b[3]) == m
  {
    var h, l := m / 0x1_0000, m % 0x1_0000;
    assert h / 256 == m / 0x100_0000 && h % 256 == m / 0x1_0000 % 256;
    assert m / 256 == 256 * h + l / 256;
    assert m / 256 % 256 == l / 256 && m % 256 == l % 256;
  }

  lemma FrameParts(p: Packet)
    ensures var f, b := Encode(p), Body(p);
            var h := |f| - |b|;
            && h == 1 + |EncodeLen(HeaderLength(p))| && f[0] == TypeOf(p) * 16
            && f[1..h] == EncodeLen(HeaderLength(p)) && f[h..] == b
  {
  }

  lemma ConnackBytes(rc: byte, kp: u16)
    ensures var f := Encode(Connack(rc, kp));
            |f| == 5 && f[0] == 0x20 && f[1] == 3 && f[2] == rc && Two(f[3], f[4]) == kp
  {
    assert EncodeLen(3) == [3];
  }

  lemma PushBytes(reserved: byte, payload: seq<byte>)
    ensures var f := Encode(Push(reserved, payload));
            var h := |f| - |payload|;
            && h == 2 + |EncodeLen(1 + |payload|)| && f[0] == 0x30 && f[1..h - 1] == EncodeLen(1 + |payload|)
            && f[h - 1] == 0 && f[h..] == payload
  {
    var p := Push(reserved, payload);
    FrameParts(p);
    assert Body(p)[0] == 0 && Body(p)[1..] == payload;
  }

  lemma SmallBytes(reason: byte)
    ensures Encode(Pingreq(0)) == [0x50, 0]
    ensures Encode(Pingresp(0)) == [0x60, 0]
    ensures Encode(Disconnect(reason)) == [0xE0, 1, reason]
  {
    assert EncodeLen(0) == [0] && EncodeLen(1) == [1];
  }

  // ---------- reading arbitrary bytes ----------

  /** How a field that should end at `end` is missing: nothing of it there, or only a part. */
  function Short(start: nat, length: nat): ReadError {
    if length == start then EOF else UnexpectedEOF
  }

  /** A CONNECT body of any length, with anything after the credential. */
  function ConnectMeaning(b: seq<byte>): Result<Packet> {
    if |b| < 4 then Err(Short(0, |b|))
    else if |b| < 6 then Err(EOF)
    else if |b| < 8 then Err(Short(6, |b|))
    else if |b| < 10 then Err(Short(8, |b|))
    else
      var n := Two(b[8], b[9]);
      if |b| < 10 + n then Err(Short(10, |b|))
      else Ok(Connect(Four(b[0], b[1], b[2], b[3]), b[4], b[5], Two(b[6], b[7]), b[10..10 + n]))
  }

  lemma ConnectBodyRead(b: seq<byte>)
    ensures UnpackConnect(b) == ConnectMeaning(b)
  {
    if |b| >= 10 {
      ConnectBodyWhole(b);
    } else if |b| >= 4 {
      var b1 := b[4..];
      assert Take(b, 4) == Ok((b[..4], b1));
      if |b| >= 6 {
        assert b1[1..] == b[5..] && b1[1..][1..] == b[6..];
        if |b| >= 8 {
          assert b[6..][2..] == b[8..];
        }
      } else if |b| == 5 {
        assert b1[1..] == [];
      }
    }
  }

  lemma ConnectBodyWhole(b: seq<byte>)
    requires |b| >= 10
    ensures UnpackConnect(b) == ConnectMeaning(b)
  {
    ConnectTakes(b);
    var n: int := U16(b[8..10]);
    assert n == Two(b[8], b[9]) && U16(b[6..8]) == Two(b[6], b[7]);
    assert U32(b[..4]) == Four(b[0], b[1], b[2], b[3]);
    if |b| >= 10 + n {
      assert b[10..][..n] == b[10..10 + n];
    }
  }

  lemma ConnectTakes(b: seq<byte>)
    requires |b| >= 10
    ensures Take(b, 4) == Ok((b[..4], b[4..]))
    ensures Take(b[4..], 1) == Ok(([b[4]], b[5..]))
    ensures Take(b[5..], 1) == Ok(([b[5]], b[6..]))
    ensures Take(b[6..], 2) == Ok((b[6..8], b[8..]))
    ensures Take(b[8..], 2) == Ok((b[8..10], b[10..]))
  {
    assert b[4..][..1] == [b[4]] && b[4..][1..] == b[5..];
    assert b[5..][..1] == [b[5]] && b[5..][1..] == b[6..];
    assert b[6..][..2] == b[6..8] && b[6..][2..] == b[8..];
    assert b[8..][..2] == b[8..10] && b[8..][2..] == b[10..];
  }

  lemma ConnackBodyRead(b: seq<byte>)
    ensures UnpackConnack(b) ==
            if |b| < 2 then Err(EOF)
            else if |b| < 3 then Err(UnexpectedEOF)
            else Ok(Connack(b[0], Two(b[1], b[2])))
  {
    if |b| >= 1 {
      assert b[..1] == [b[0]];
      if |b| >= 3 {
        assert b[1..][..2] == [b[1], b[2]];
      }
    }
  }

  /** What a body of the given type byte means. */
  function Meaning(t: byte, b: seq<byte>): Result<Packet>
    requires t in {0x10, 0x20, 0x30, 0x50, 0x60, 0xE0}
  {
    if t == 0x10 then ConnectMeaning(b)
    else if t == 0x20 then
      if |b| < 2 then Err(EOF) else if |b| == 2 then Err(UnexpectedEOF) else Ok(Connack(b[0], Two(b[1], b[2])))
    else if t == 0x30 then if b == [] then Err(EOF) else Ok(Push(b[0], b[1..]))
    else if t == 0x50 then Ok(Pingreq(|b|))
    else if t == 0x60 then Ok(Pingresp(|b|))
    else if b == [] then Err(EOF) else Ok(Disconnect(b[0]))
  }

  lemma BodyRead(t: byte, b: seq<byte>)
    requires t in {0x10, 0x20, 0x30, 0x50, 0x60, 0xE0}
    ensures KnownType(t / 16) && Unpack(t / 16, b) == Meaning(t, b)
  {
    ConnectBodyRead(b);
    ConnackBodyRead(b);
    if b != [] {
      assert b[..1] == [b[0]];
    }
  }

  /** What any bytes mean, the length field being read as `LengthRead` says. */
  function BytesMeaning(s: seq<byte>): Outcome {
    if s == [] then Outcome(Err(EOF), [])
    else if s[0] % 16 != 0 then Outcome(Err(NonZeroFlags(s[0] % 16)), s[1..])
    else match DecodeLen(s[1..], 4)
         case Err(_) => Outcome(Err(EOF), [])
         case Ok((n, k)) =>
           var h := 1 + k;
           if h > |s| then Outcome(Err(EOF), [])
           else if s[0] !in {0x10, 0x20, 0x30, 0x50, 0x60, 0xE0} then Outcome(Err(UnsupportedType(s[0] / 16)), s[h..])
           else if |s| < h + n then Outcome(Err(Short(h, |s|)), [])
           else Outcome(Meaning(s[0], s[h..h + n]), s[h + n..])
  }

  /**
   The reader on any bytes: flags are refused, unknown types are refused, a short frame
   is an error, and everything else is the packet its bytes mean, with what follows the
   announced length left alone.
   */
  lemma BytesRead(s: seq<byte>)
    ensures ReadPacket(s) == BytesMeaning(s)
  {
    if s != [] && s[0] % 16 == 0 {
      LengthRead(s[1..]);
      KnownByte(s[0]);
      DecodeBounded(s[1..], 4);
      if DecodeLen(s[1..], 4).Ok? {
        var (n, k) := DecodeLen(s[1..], 4).value;
        BodyAt(s, 1 + k, n);
      }
    }
  }

  lemma BodyAt(s: seq<byte>, h: nat, n: nat)
    requires 0 < h <= |s| && s[0] % 16 == 0
    ensures ReadBody(s[0] / 16, n, s[h..]) ==
            if s[0] !in {0x10, 0x20, 0x30, 0x50, 0x60, 0xE0} then Outcome(Err(UnsupportedType(s[0] / 16)), s[h..])
            else if |s| < h + n then Outcome(Err(Short(h, |s|)), [])
            else Outcome(Meaning(s[0], s[h..h + n]), s[h + n..])
  {
    var rest := s[h..];
    KnownByte(s[0]);
    if s[0] in {0x10, 0x20, 0x30, 0x50, 0x60, 0xE0} && |rest| >= n {
      assert rest[..n] == s[h..h + n] && rest[n..] == s[h + n..];
      BodyRead(s[0], rest[..n]);
    }
  }

  lemma KnownByte(t: byte)
    requires t % 16 == 0
    ensures KnownType(t / 16) <==> t in {0x10, 0x20, 0x30, 0x50, 0x60, 0xE0}
  {
  }

  /** For example a CONNACK, of any three bytes. */
  lemma ConnackRead(a: byte, b: byte, c: byte, rest: seq<byte>)
    ensures ReadPacket([0x20, 3, a, b, c] + rest) == Outcome(Ok(Connack(a, Two(b, c))), rest)
  {
    OneByteLength(0x20, [a, b, c], rest);
    assert [0x20, 3, a, b, c] + rest == [0x20, 3] + [a, b, c] + rest;
  }

  /** And a CONNECT with a one-byte length, of any fields. */
  lemma ConnectRead(m: seq<byte>, version: byte, reserved: byte, k: seq<byte>, credential: seq<byte>, rest: seq<byte>)
    requires |m| == 4 && |k| == 2 && |credential| < 118
    ensures var b := m + [version] + [reserved] + k + ([0, |credential|] + credential);
            ReadPacket([0x10, 10 + |credential|] + b + rest) ==
            Outcome(Ok(Connect(Four(m[0], m[1], m[2], m[3]), version, reserved, Two(k[0], k[1]), credential)), rest)
  {
    var n := |credential|;
    var b := m + [version] + [reserved] + k + ([0, n] + credential);
    Layout(m, version, reserved, k, [0, n], credential);
    assert Two(b[8], b[9]) == n && b[10..10 + n] == b[10..] == credential;
    assert ConnectMeaning(b) == Ok(Connect(Four(m[0], m[1], m[2], m[3]), version, reserved, Two(k[0], k[1]), credential));
    OneByteLength(0x10, b, rest);
  }

  lemma OneByteLength(t: byte, b: seq<byte>, rest: seq<byte>)
    requires |b| < 128 && t in {0x10, 0x20, 0x30, 0x50, 0x60, 0xE0}
    ensures ReadPacket([t, |b|] + b + rest) == Outcome(Meaning(t, b), rest)
  {
    var s := [t, |b|] + b + rest;
    LengthRead(s[1..]);
    BytesRead(s);
    assert s[2..2 + |b|] == b && s[2 + |b|..] == rest;
  }
}
