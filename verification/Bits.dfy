/** Bitmasks as naturals: `a >> i & 1`, `a | 1 << i`, and masks built from their bits. */
module Bits {

  function Pow2(n: nat): (p: nat)
    ensures p >= 1
  {
    if n == 0 then 1 else 2 * Pow2(n - 1)
  }

  /** (a >> i) & 1 */
  predicate Bit(a: nat, i: nat) {
    if i == 0 then a % 2 == 1 else Bit(a / 2, i - 1)
  }

  /** a | (1 << i) */
  function SetBit(a: nat, i: nat): nat {
    if i == 0 then (if a % 2 == 1 then a else a + 1) else 2 * SetBit(a / 2, i - 1) + a % 2
  }

  lemma {:induction false} SetBitBits(a: nat, i: nat, j: nat)
    ensures Bit(SetBit(a, i), j) <==> j == i || Bit(a, j)
  {
    if i > 0 && j > 0 {
      SetBitBits(a / 2, i - 1, j - 1);
    }
  }

  lemma {:induction false} SetBitBound(a: nat, i: nat, n: nat)
    requires a < Pow2(n) && i < n
    ensures SetBit(a, i) < Pow2(n)
  {
    var h := Pow2(n - 1);
    assert Pow2(n) == 2 * h;
    if i > 0 {
      assert a / 2 < h;
      SetBitBound(a / 2, i - 1, n - 1);
      assert SetBit(a, i) == 2 * SetBit(a / 2, i - 1) + a % 2;
    }
  }

  lemma {:induction false} HighBits(a: nat, n: nat, j: nat)
    requires a < Pow2(n) && n <= j
    ensures !Bit(a, j)
  {
    if j > 0 {
      HighBits(a / 2, if n == 0 then 0 else n - 1, j - 1);
    }
  }

  lemma {:induction false} ZeroBits(j: nat)
    ensures !Bit(0, j)
  {
    HighBits(0, 0, j);
  }

  /** A mask below 2^n is determined by its first n bits. */
  lemma {:induction false} SameBits(a: nat, b: nat, n: nat)
    requires a < Pow2(n) && b < Pow2(n)
    requires forall j: nat :: j < n ==> (Bit(a, j) <==> Bit(b, j))
    ensures a == b
  {
    if n > 0 {
      forall j: nat | j < n - 1 ensures Bit(a / 2, j) <==> Bit(b / 2, j) {
        assert Bit(a, j + 1) <==> Bit(b, j + 1);
      }
      SameBits(a / 2, b / 2, n - 1);
      assert Bit(a, 0) <==> Bit(b, 0);
    }
  }

  /** The mask below 2^n whose bits are `f`. */
  ghost function FromBits(n: nat, f: nat -> bool): (a: nat)
    ensures a < Pow2(n)
  {
    if n == 0 then 0
    else
      var hi := FromBits(n - 1, (j: nat) => f(j + 1));
      2 * hi + if f(0) then 1 else 0
  }

  lemma {:induction false} FromBitsBits(n: nat, f: nat -> bool, j: nat)
    ensures Bit(FromBits(n, f), j) <==> j < n && f(j)
  {
    if n == 0 {
      ZeroBits(j);
    } else {
      var g := (i: nat) => f(i + 1);
      assert FromBits(n, f) / 2 == FromBits(n - 1, g);
      if j > 0 {
        FromBitsBits(n - 1, g, j - 1);
      }
    }
  }

  lemma {:induction false} Pow2Add(m: nat, n: nat)
    ensures Pow2(m + n) == Pow2(m) * Pow2(n)
  {
    if m > 0 {
      Pow2Add(m - 1, n);
      assert 2 * (Pow2(m - 1) * Pow2(n)) == 2 * Pow2(m - 1) * Pow2(n);
    }
  }
}
