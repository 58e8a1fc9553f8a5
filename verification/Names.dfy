/** Decimal numerals and the names `d_N` of the data propositions. */
module Names {

  predicate IsDigit(c: char) {
    '0' <= c <= '9'
  }

  function DigitChar(d: nat): (c: char)
    requires d < 10
    ensures IsDigit(c) && (c as int) - ('0' as int) == d
  {
    ('0' as int + d) as char
  }

  /** std::to_string of a natural. */
  function Decimal(n: nat): (s: string)
    ensures |s| >= 1 && forall k :: 0 <= k < |s| ==> IsDigit(s[k])
  {
    if n < 10 then [DigitChar(n)] else Decimal(n / 10) + [DigitChar(n % 10)]
  }

  function DigitValue(c: char): nat
    requires IsDigit(c)
  {
    c as int - '0' as int
  }

  /** The value of a string of digits. */
  function Value(s: string): (v: nat)
    requires forall k :: 0 <= k < |s| ==> IsDigit(s[k])
  {
    if s == [] then 0 else 10 * Value(s[..|s| - 1]) + DigitValue(s[|s| - 1])
  }

  lemma {:induction false} DecimalValue(n: nat)
    ensures Value(Decimal(n)) == n
  {
    if n >= 10 {
      DecimalValue(n / 10);
      assert Decimal(n)[..|Decimal(n)| - 1] == Decimal(n / 10);
    } else {
      assert Decimal(n)[..0] == [];
    }
  }

  function Pow10(k: nat): nat {
    if k == 0 then 1 else 10 * Pow10(k - 1)
  }

  lemma {:induction false} DecimalLength(n: nat, k: nat)
    requires k >= 1 && n < Pow10(k)
    ensures |Decimal(n)| <= k
  {
    if n >= 10 {
      assert Pow10(1) == 10;
      DecimalLength(n / 10, k - 1);
    }
  }

  function DName(i: nat): string {
    "d_" + Decimal(i)
  }

  /** The index read from an AP name: -1 unless it is `d_` and one to nine digits. */
  ghost function DIndex(ap: string): (d: int)
    ensures d >= -1
  {
    if && 2 < |ap| <= 11 && ap[0] == 'd' && ap[1] == '_'
       && (forall k :: 2 <= k < |ap| ==> IsDigit(ap[k]))
    then Value(ap[2..]) else -1
  }

  method DIndexFromApName(ap: string) returns (idx: int)
    ensures idx == DIndex(ap)
  {
    if |ap| <= 2 || ap[0] != 'd' || ap[1] != '_' { return -1; }
    if |ap| - 2 > 9 { return -1; }
    idx := 0;
    for i := 2 to |ap|
      invariant forall k :: 2 <= k < i ==> IsDigit(ap[k])
      invariant idx == Value(ap[2..i])
    {
      if !IsDigit(ap[i]) { return -1; }
      assert ap[2..i + 1][..|ap[2..i + 1]| - 1] == ap[2..i];
      idx := idx * 10 + DigitValue(ap[i]);
    }
    assert ap[2..|ap|] == ap[2..];
  }

  /** Every name D_name gives out, up to nine digits, is read back as its index. */
  lemma DIndexOfDName(i: nat)
    ensures DIndex(DName(i)) == if i < 1_000_000_000 then i else -1
  {
    var s := DName(i);
    assert s[2..] == Decimal(i);
    assert forall k :: 2 <= k < |s| ==> s[k] == Decimal(i)[k - 2];
    DecimalValue(i);
    if i < 1_000_000_000 {
      assert Pow10(9) == 1_000_000_000 by { Pow10Nine(); }
      DecimalLength(i, 9);
    } else {
      if |Decimal(i)| <= 9 {
        DecimalBound(i);
        Pow10Nine();
        Pow10Grows(|Decimal(i)|, 9);
      }
    }
  }

  lemma Pow10Nine()
    ensures Pow10(9) == 1_000_000_000
  {
    assert Pow10(3) == 1000;
    assert Pow10(6) == 1_000_000;
  }

  lemma {:induction false} Pow10Grows(j: nat, k: nat)
    requires j <= k
    ensures Pow10(j) <= Pow10(k)
  {
    if j < k { Pow10Grows(j, k - 1); }
  }

  lemma {:induction false} DecimalBound(n: nat)
    ensures n < Pow10(|Decimal(n)|)
  {
    if n >= 10 {
      DecimalBound(n / 10);
      var k := |Decimal(n / 10)|;
      assert Pow10(k + 1) == 10 * Pow10(k);
    } else {
      assert Pow10(1) == 10;
    }
  }
}
