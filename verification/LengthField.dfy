/**
 The variable-length "remaining length" of a frame (codec/codec.go), the scheme of
 section 2.2.3 of MQTT Version 3.1.1: base 128, least significant digit first, the top
 bit of each byte saying that another digit follows.
 */
module LengthField {
  import opened Bits
  import opened Stream

  function Pow128(n: nat): nat
    ensures Pow128(n) >= 1
  {
    if n == 0 then 1 else 128 * Pow128(n - 1)
  }

  /** 2^28: the lengths that four digits can carry. */
  const LIMIT := 268435456

  function EncodeLen(n: nat): seq<byte> {
    if n < 128 then [n] else [n % 128 + 128] + EncodeLen(n / 128)
  }

  /** The length and the number of bytes it took, reading at most `digits` bytes; none if they run out. */
  function DecodeLen(s: seq<byte>, digits: nat): Result<(nat, nat)>
    decreases s
  {
    if digits == 0 then Ok((0, 0))
    else if s == [] then Err(EOF)
    else if s[0] < 128 then Ok((s[0], 1))
    else
      var (v, n) :- DecodeLen(s[1..], digits - 1);
      Ok((s[0] - 128 + 128 * v, n + 1))
  }

  lemma {:induction false} DecodeBounded(s: seq<byte>, digits: nat)
    ensures DecodeLen(s, digits).Ok? ==>
              var (v, n) := DecodeLen(s, digits).value;
              v < Pow128(digits) && n <= digits && n <= |s| && (digits > 0 ==> n > 0)
  {
    if digits > 0 && s != [] {
      DecodeBounded(s[1..], digits - 1);
    }
  }

  /** Decoding an encoding gives the length back if it fits, and stops inside the encoding if not. */
  lemma {:induction false} DecodeEncoded(n: nat, digits: nat, rest: seq<byte>)
    requires digits > 0
    ensures var d := DecodeLen(EncodeLen(n) + rest, digits);
            if n < Pow128(digits) then d == Ok((n, |EncodeLen(n)|))
            else d.Ok? && d.value.1 == digits < |EncodeLen(n)|
  {
    var s := EncodeLen(n) + rest;
    if n < 128 {
      assert Pow128(digits) >= 128 * Pow128(digits - 1) >= 128;
    } else {
      assert s[1..] == EncodeLen(n / 128) + rest;
      if digits == 1 {
        assert Pow128(1) == 128 * Pow128(0) == 128;
        assert DecodeLen(s[1..], 0) == Ok((0, 0));
      } else {
        DecodeEncoded(n / 128, digits - 1, rest);
      }
    }
  }

  lemma PowersListed()
    ensures Pow128(0) == 1 && Pow128(1) == 128 && Pow128(2) == 16384
    ensures Pow128(3) == 2097152 && Pow128(4) == LIMIT
  {
    assert Pow128(1) == 128 * Pow128(0);
    assert Pow128(2) == 128 * Pow128(1);
    assert Pow128(3) == 128 * Pow128(2);
  }

  /** The four-digit decoder recovers a length, and what follows it, exactly when it is below 2^28. */
  lemma LengthRoundTripsExactly(n: nat, rest: seq<byte>)
    ensures DecodeLen(EncodeLen(n) + rest, 4) == Ok((n, |EncodeLen(n)|)) <==> n < LIMIT
  {
    DecodeEncoded(n, 4, rest);
    PowersListed();
  }

  /** No accepted encoding of a length is shorter than the one written. */
  lemma {:induction false} EncodingShortest(s: seq<byte>, digits: nat)
    requires digits > 0 && DecodeLen(s, digits).Ok?
    ensures |EncodeLen(DecodeLen(s, digits).value.0)| <= DecodeLen(s, digits).value.1
  {
    if s[0] >= 128 {
      var (v, n) := DecodeLen(s[1..], digits - 1).value;
      if digits > 1 {
        EncodingShortest(s[1..], digits - 1);
        assert (s[0] - 128 + 128 * v) / 128 == v;
      }
    }
  }

  /** A prefix that ends before the last digit cannot be decoded. */
  lemma {:induction false} DecodeCutShort(n: nat, digits: nat, k: nat)
    requires digits > 0 && n < Pow128(digits) && k < |EncodeLen(n)|
    ensures DecodeLen(EncodeLen(n)[..k], digits) == Err(EOF)
  {
    if k > 0 {
      assert n >= 128 && Pow128(1) == 128 * Pow128(0);
      assert EncodeLen(n)[..k][1..] == EncodeLen(n / 128)[..k - 1];
      DecodeCutShort(n / 128, digits - 1, k - 1);
    }
  }

  // ---------- the loops ----------

  method EncodeLength(length: nat) returns (encLength: seq<byte>)
    ensures encLength == EncodeLen(length)
  {
    encLength := [];
    var rest := length;
    while true
      invariant encLength + EncodeLen(rest) == EncodeLen(length)
      decreases rest
    {
      var digit: byte := rest % 128;
      rest := rest / 128;
      if rest > 0 {
        OrTopBit(digit);
        digit := Or(digit, 0x80);
      }
      encLength := encLength + [digit];
      if rest == 0 {
        break;
      }
    }
  }

  lemma OrTopBit(digit: nat)
    requires digit < 128
    ensures Or(digit, 0x80) == digit + 128
  {
    Constants();
    ShlSeven(1);
    OrDisjoint(digit, 1, 7);
  }

  lemma ShlSeven(v: nat)
    ensures Shl(v, 7) == 128 * v
  {
    assert Shl(v, 1) == 2 * v;
    assert Shl(v, 2) == 2 * Shl(v, 1);
    assert Shl(v, 3) == 2 * Shl(v, 2);
    assert Shl(v, 4) == 2 * Shl(v, 3);
    assert Shl(v, 5) == 2 * Shl(v, 4);
    assert Shl(v, 6) == 2 * Shl(v, 5);
  }

  /** `rLength |= uint32(digit&127) << multiplier`. */
  function AddDigit(acc: nat, digit: byte, multiplier: nat): nat {
    Or(acc, Shl(And(digit, 127), multiplier) % 0x1_0000_0000)
  }

  /** The seven bits a byte contributes. */
  function Digit(b: byte): nat { if b < 128 then b else b - 128 }

  lemma {:induction false} Pow2Monotone(j: nat, k: nat)
    requires j <= k
    ensures Pow2(j) <= Pow2(k)
  {
    if j < k {
      Pow2Monotone(j, k - 1);
    }
  }

  lemma Pow2Seven(k: nat)
    ensures Pow2(k + 7) == 128 * Pow2(k)
  {
    assert Pow2(k + 2) == 2 * Pow2(k + 1);
    assert Pow2(k + 4) == 2 * Pow2(k + 3) && Pow2(k + 3) == 2 * Pow2(k + 2);
    assert Pow2(k + 6) == 2 * Pow2(k + 5) && Pow2(k + 5) == 2 * Pow2(k + 4);
  }

  lemma DigitBound(d: nat, k: nat)
    requires d < 128 && k <= 21
    ensures Shl(d, k) + Pow2(k) <= Pow2(k + 7) <= LIMIT
  {
    Constants();
    ShlBound(d, 7, k);
    Pow2Monotone(k + 7, 28);
    Pow2Seven(7);
    Pow2Seven(14);
    Pow2Seven(21);
  }

  /** A digit joined by shift and or is added with its weight, and the 32-bit word does not overflow. */
  lemma DigitJoins(acc: nat, b: byte, k: nat)
    requires k <= 21 && acc < Pow2(k)
    ensures AddDigit(acc, b, k) == acc + Shl(Digit(b), k) < Pow2(k + 7)
  {
    AndByte(b);
    DigitBound(Digit(b), k);
    var shifted := Shl(Digit(b), k);
    assert shifted % 0x1_0000_0000 == shifted;
    assert Or(acc, shifted) == acc + shifted by {
      OrDisjoint(acc, Digit(b), k);
    }
  }

  /** How a decode goes on after digits worth `acc`, the next of which has weight 2^k. */
  function Continue(acc: nat, i: nat, k: nat, tail: Result<(nat, nat)>): Result<(nat, nat)> {
    match tail
    case Ok((v, n)) => Ok((acc + Shl(v, k), i + n))
    case Err(e) => Err(e)
  }

  lemma ContinueDigit(acc: nat, i: nat, k: nat, s: seq<byte>, digits: nat)
    requires s != [] && s[0] >= 128
    ensures Continue(acc, i, k, DecodeLen(s, digits + 1)) ==
            Continue(acc + Shl(Digit(s[0]), k), i + 1, k + 7, DecodeLen(s[1..], digits))
  {
    var tail := DecodeLen(s[1..], digits);
    if tail.Ok? {
      var d, v := Digit(s[0]), tail.value.0;
      ShlSeven(v);
      ShlTwice(v, 7, k);
      ShlAdd(d, 128 * v, k);
      assert Shl(d + 128 * v, k) == Shl(d, k) + Shl(v, k + 7);
    }
  }

  /** The rest of the decoding loop, i digits worth `acc` having been read. */
  function Loop(acc: nat, i: nat, s: seq<byte>): Result<(nat, nat)>
    decreases s
  {
    if i >= 4 then Ok((acc, i))
    else if s == [] then Err(EOF)
    else
      var acc' := acc + Shl(Digit(s[0]), 7 * i);
      if s[0] < 128 then Ok((acc', i + 1)) else Loop(acc', i + 1, s[1..])
  }

  lemma LoopTurn(acc: nat, i: nat, s: seq<byte>)
    requires i < 4 && |s| > 0
    ensures var acc' := acc + Shl(Digit(s[0]), 7 * i);
            Loop(acc, i, s) == if s[0] < 128 then Ok((acc', i + 1)) else Loop(acc', i + 1, s[1..])
  {
  }

  lemma {:induction false} LoopDecodes(acc: nat, i: nat, s: seq<byte>)
    requires i <= 4
    ensures Loop(acc, i, s) == Continue(acc, i, 7 * i, DecodeLen(s, 4 - i))
    decreases 4 - i
  {
    if i == 4 {
      ShlZero(28);
    } else if s != [] && s[0] >= 128 {
      ContinueDigit(acc, i, 7 * i, s, 3 - i);
      LoopDecodes(acc + Shl(Digit(s[0]), 7 * i), i + 1, s[1..]);
    }
  }

  lemma LoopDecodesAll(s: seq<byte>)
    ensures Loop(0, 0, s) == DecodeLen(s, 4)
    ensures Loop(0, 0, s).Ok? ==> Loop(0, 0, s).value.1 <= |s|
  {
    LoopDecodes(0, 0, s);
    DecodeBounded(s, 4);
  }

  method JoinDigit(rLength: nat, digit: byte, multiplier: nat) returns (joined: nat, last: bool)
    requires multiplier <= 21 && rLength < Pow2(multiplier)
    ensures joined == rLength + Shl(Digit(digit), multiplier) < Pow2(multiplier + 7)
    ensures last <==> digit < 128
  {
    DigitJoins(rLength, digit, multiplier);
    AndByte(digit);
    joined := Or(rLength, Shl(And(digit, 127), multiplier) % 0x1_0000_0000);
    last := And(digit, 128) == 0;
  }

  /** One turn of the decoding loop: the word with the next digit joined, and whether that was the last. */
  method NextDigit(r: StreamConn, rLength: nat, multiplier: nat, ghost i: nat) returns (res: Result<(nat, bool)>)
    requires i < 4 && multiplier == 7 * i && rLength < Pow2(multiplier)
    modifies r
    ensures old(r.Bytes()) == [] ==> res == Err(EOF) && r.Bytes() == []
    ensures old(r.Bytes()) != [] ==>
              && res.Ok? && r.Bytes() == old(r.Bytes())[1..] && res.value.0 < Pow2(multiplier + 7)
              && Loop(rLength, i, old(r.Bytes())) ==
                 if res.value.1 then Ok((res.value.0, i + 1)) else Loop(res.value.0, i + 1, r.Bytes())
  {
    ghost var s := r.Bytes();
    var digit := r.ReadByte();
    if digit.Err? {
      return Err(digit.error);
    }
    LoopTurn(rLength, i, s);
    var joined, last := JoinDigit(rLength, digit.value, multiplier);
    return Ok((joined, last));
  }

  /**
   The shift-and-or loop over a 32-bit word decodes exactly the base-128 length,
   whatever pieces the stream arrives in.
   */
  method DecodeLength(r: StreamConn) returns (res: Result<nat>)
    modifies r
    ensures match DecodeLen(old(r.Bytes()), 4)
            case Ok((v, n)) => n <= |old(r.Bytes())| && res == Ok(v) && r.Bytes() == old(r.Bytes())[n..]
            case Err(e) => res == Err(e) && r.Bytes() == []
  {
    ghost var s0 := r.Bytes();
    LoopDecodesAll(s0);
    ghost var i: nat, expected := 0, DecodeLen(s0, 4);
    var rLength: nat := 0;
    var multiplier: nat := 0;
    while multiplier < 27
      invariant i <= 4 && multiplier == 7 * i && i <= |s0|
      invariant r.Bytes() == s0[i..]
      invariant rLength < Pow2(multiplier)
      invariant Loop(rLength, i, r.Bytes()) == expected
      decreases 4 - i
    {
      var digit := NextDigit(r, rLength, multiplier, i);
      if digit.Err? {
        return Err(digit.error);
      }
      rLength := digit.value.0;
      i, multiplier := i + 1, multiplier + 7;
      if digit.value.1 {
        return Ok(rLength);
      }
    }
    return Ok(rLength);
  }
}
