/** Bitwise operators on naturals, bit by bit, and their arithmetic meaning. */
module Bits {
  type byte = x: int | 0 <= x < 256

  function Pow2(n: nat): nat
    ensures Pow2(n) >= 1
  {
    if n == 0 then 1 else 2 * Pow2(n - 1)
  }

  function Or(a: nat, b: nat): nat
    decreases a + b
  {
    if a == 0 && b == 0 then 0
    else (if a % 2 == 1 || b % 2 == 1 then 1 else 0) + 2 * Or(a / 2, b / 2)
  }

  function And(a: nat, b: nat): nat
    decreases a + b
  {
    if a == 0 && b == 0 then 0
    else (if a % 2 == 1 && b % 2 == 1 then 1 else 0) + 2 * And(a / 2, b / 2)
  }

  function Shl(a: nat, k: nat): nat { if k == 0 then a else 2 * Shl(a, k - 1) }

  function Shr(a: nat, k: nat): nat { if k == 0 then a else Shr(a, k - 1) / 2 }

  lemma {:induction false} OrZero(b: nat)
    ensures Or(0, b) == b
  {
    if b > 0 {
      OrZero(b / 2);
    }
  }

  /** Operands that share no bit position are joined by addition. */
  lemma {:induction false} OrDisjoint(a: nat, b: nat, k: nat)
    requires a < Pow2(k)
    ensures Or(a, Shl(b, k)) == a + Shl(b, k)
  {
    if k == 0 {
      OrZero(b);
    } else {
      OrDisjoint(a / 2, b, k - 1);
    }
  }

  lemma {:induction false} ShlAdd(a: nat, b: nat, k: nat)
    ensures Shl(a + b, k) == Shl(a, k) + Shl(b, k)
  {
    if k > 0 {
      ShlAdd(a, b, k - 1);
    }
  }

  lemma {:induction false} ShlTwice(a: nat, j: nat, k: nat)
    ensures Shl(Shl(a, j), k) == Shl(a, j + k)
  {
    if k > 0 {
      ShlTwice(a, j, k - 1);
    }
  }

  /** A number of j bits shifted by k leaves room for any k bits below it and still has j + k bits. */
  lemma {:induction false} ShlBound(a: nat, j: nat, k: nat)
    requires a < Pow2(j)
    ensures Shl(a, k) + Pow2(k) <= Pow2(j + k)
  {
    if k > 0 {
      ShlBound(a, j, k - 1);
    }
  }

  /** The k lowest bits of a number. */
  function Low(a: nat, k: nat): nat { if k == 0 then 0 else a % 2 + 2 * Low(a / 2, k - 1) }

  function Ones(k: nat): nat { if k == 0 then 0 else 1 + 2 * Ones(k - 1) }

  lemma {:induction false} AndZero(a: nat)
    ensures And(a, 0) == 0
  {
    if a > 0 {
      AndZero(a / 2);
    }
  }

  lemma {:induction false} OrZeroRight(a: nat)
    ensures Or(a, 0) == a
  {
    if a > 0 {
      OrZeroRight(a / 2);
    }
  }

  lemma {:induction false} AndOnes(a: nat, k: nat)
    ensures And(a, Ones(k)) == Low(a, k)
  {
    if k == 0 {
      AndZero(a);
    } else {
      AndOnes(a / 2, k - 1);
    }
  }

  /** Of a number of k + 1 bits, the k lowest and the top one. */
  lemma {:induction false} SplitTop(a: nat, k: nat)
    requires a < Pow2(k + 1)
    ensures Low(a, k) == if a < Pow2(k) then a else a - Pow2(k)
    ensures And(a, Pow2(k)) == if a < Pow2(k) then 0 else Pow2(k)
  {
    if k > 0 {
      SplitTop(a / 2, k - 1);
    }
  }

  lemma {:induction false} ShlZero(k: nat)
    ensures Shl(0, k) == 0
  {
    if k > 0 {
      ShlZero(k - 1);
    }
  }

  lemma Constants()
    ensures Pow2(7) == 128 && Pow2(8) == 256 && Ones(7) == 127 && Ones(4) == 15
  {
  }

  /** The low seven bits and the top bit of a byte. */
  lemma AndByte(d: byte)
    ensures And(d, 127) == if d < 128 then d else d - 128
    ensures And(d, 128) == if d < 128 then 0 else 128
  {
    Constants();
    AndOnes(d, 7);
    SplitTop(d, 7);
  }

  /** The two halves of a header byte. */
  lemma Nibbles(d: byte)
    ensures Shr(d, 4) == d / 16
    ensures And(d, 15) == d % 16
  {
    Constants();
    AndOnes(d, 4);
    var d1 := d / 2; var d2 := d1 / 2; var d3 := d2 / 2;
    assert Low(d3, 1) == d3 % 2;
    assert Low(d2, 2) == d2 % 2 + 2 * Low(d3, 1);
    assert Low(d1, 3) == d1 % 2 + 2 * Low(d2, 2);
    assert Low(d, 4) == d % 2 + 2 * Low(d1, 3);
    assert Shr(d, 1) == Shr(d, 0) / 2 == d1;
    assert Shr(d, 2) == Shr(d, 1) / 2 == d2;
    assert Shr(d, 3) == Shr(d, 2) / 2 == d3;
    assert Shr(d, 4) == Shr(d, 3) / 2 == d3 / 2;
  }
}
