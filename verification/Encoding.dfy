/** The propositional encodings of the Algorithm A and B skeletons: type indices and data patterns as
    conjunctions of literals. */
module Encoding {
  import opened Bits
  import opened Names
  import opened Options
  import opened Ltl

  function PName(j: nat): string { "p_" + Decimal(j) }

  function RName(j: nat): string { "r_" + Decimal(j) }

  // The data propositions `d_i` are Names.DName.

  /** The number whose bits are the `n` propositions `name` at step `t`. */
  ghost function Val(w: Word, t: nat, name: nat -> string, n: nat): (v: nat)
    ensures v < Pow2(n)
  {
    FromBits(n, (j: nat) => w(t, name(j)))
  }

  ghost function RhoOf(w: Word, t: nat, n: nat): (v: nat)
    ensures v < Pow2(n)
  {
    Val(w, t, RName, n)
  }

  ghost function SigmaOf(w: Word, t: nat, n: nat): (v: nat)
    ensures v < Pow2(n)
  {
    Val(w, t, PName, n)
  }

  ghost function MaskOf(w: Word, t: nat, k: nat): (v: nat)
    ensures v < Pow2(k)
  {
    Val(w, t, DName, k)
  }

  ghost predicate ReadsBits(w: Word, t: nat, name: nat -> string, n: nat, bits: nat) {
    forall j: nat :: j < n ==> (w(t, name(j)) <==> Bit(bits, j))
  }

  lemma BitsAreValue(w: Word, t: nat, name: nat -> string, n: nat, bits: nat)
    requires bits < Pow2(n)
    ensures ReadsBits(w, t, name, n, bits) <==> Val(w, t, name, n) == bits
  {
    var f := (j: nat) => w(t, name(j));
    forall j: nat | j < n ensures Bit(Val(w, t, name, n), j) <==> w(t, name(j)) {
      FromBitsBits(n, f, j);
    }
    if ReadsBits(w, t, name, n, bits) {
      SameBits(Val(w, t, name, n), bits, n);
    }
  }

  /** The conjunction of the `n` literals of `bits` holds exactly where the propositions spell the low
      `n` bits of `bits`. */
  method BitsEncode(bits: nat, n: nat, name: nat -> string) returns (f: Formula)
    ensures forall w: Word, t: nat :: Sat(f, w, t) <==> ReadsBits(w, t, name, n, bits)
    ensures bits < Pow2(n) ==> forall w: Word, t: nat :: Sat(f, w, t) <==> Val(w, t, name, n) == bits
  {
    var acc: Option<Formula> := None;
    for j := 0 to n
      invariant acc.Some? <==> j > 0
      invariant forall w: Word, t: nat :: SatAll(acc, w, t) <==> ReadsBits(w, t, name, j, bits)
    {
      ghost var before := acc;
      var literal := if Bit(bits, j) then Prop(name(j)) else Not(Prop(name(j)));
      acc := Conjoin(acc, literal);
      forall w: Word, t: nat ensures SatAll(acc, w, t) <==> ReadsBits(w, t, name, j + 1, bits) {
        assert SatAll(before, w, t) <==> ReadsBits(w, t, name, j, bits);
        assert Sat(literal, w, t) <==> (w(t, name(j)) <==> Bit(bits, j));
      }
    }
    f := if acc.None? then True else acc.value;
    forall w: Word, t: nat ensures Sat(f, w, t) <==> ReadsBits(w, t, name, n, bits) {
      assert SatAll(acc, w, t) <==> ReadsBits(w, t, name, n, bits);
    }
    if bits < Pow2(n) {
      forall w: Word, t: nat ensures Sat(f, w, t) <==> Val(w, t, name, n) == bits {
        BitsAreValue(w, t, name, n, bits);
      }
    }
  }

  method REncode(rho: nat, n: nat) returns (f: Formula)
    requires rho < Pow2(n)
    ensures forall w: Word, t: nat :: Sat(f, w, t) <==> RhoOf(w, t, n) == rho
  {
    f := BitsEncode(rho, n, RName);
    forall w: Word, t: nat ensures Sat(f, w, t) <==> RhoOf(w, t, n) == rho {}
  }

  method PEncode(sigma: nat, n: nat) returns (f: Formula)
    requires sigma < Pow2(n)
    ensures forall w: Word, t: nat :: Sat(f, w, t) <==> SigmaOf(w, t, n) == sigma
  {
    f := BitsEncode(sigma, n, PName);
    forall w: Word, t: nat ensures Sat(f, w, t) <==> SigmaOf(w, t, n) == sigma {}
  }

  method DPatternFormula(a: nat, k: nat) returns (f: Formula)
    requires a < Pow2(k)
    ensures forall w: Word, t: nat :: Sat(f, w, t) <==> MaskOf(w, t, k) == a
  {
    f := BitsEncode(a, k, DName);
    forall w: Word, t: nat ensures Sat(f, w, t) <==> MaskOf(w, t, k) == a {}
  }

  /** The bits that encode `size` indices: the least number from `minBits` on that suffices. */
  method EncodingBits(size: nat, minBits: nat) returns (n: nat)
    ensures minBits <= n && size <= Pow2(n)
    ensures n > minBits ==> Pow2(n - 1) < size
  {
    n := minBits;
    while Pow2(n) < size
      invariant minBits <= n && (n > minBits ==> Pow2(n - 1) < size)
      decreases size - Pow2(n)
    {
      n := n + 1;
    }
  }

  // Feasible triples (memory, type, data pattern).

  type Triple = (int, int, int)

  ghost predicate MasksInRange(triples: seq<Triple>, k: nat) {
    forall i :: 0 <= i < |triples| ==> 0 <= triples[i].2 < Pow2(k)
  }

  function MasksAt<Key>(index: map<Key, set<int>>, key: Key): set<int> {
    if key in index then index[key] else {}
  }

  /** The index of the triples by (memory, type). */
  ghost predicate IsPairIndex(triples: seq<Triple>, n: nat, index: map<(int, int), set<int>>)
    requires n <= |triples|
  {
    forall s: int, r: int, a: int {:trigger a in MasksAt(index, (s, r))} {:trigger (s, r, a) in triples[..n]} ::
      a in MasksAt(index, (s, r)) <==> (s, r, a) in triples[..n]
  }

  method IndexByPair(triples: seq<Triple>) returns (index: map<(int, int), set<int>>)
    ensures IsPairIndex(triples, |triples|, index)
  {
    index := map[];
    for i := 0 to |triples|
      invariant IsPairIndex(triples, i, index)
    {
      ghost var before := index;
      var (s, r, a) := triples[i];
      index := index[(s, r) := MasksAt(index, (s, r)) + {a}];
      assert triples[..i + 1] == triples[..i] + [triples[i]];
      forall x: int, y: int, z: int ensures z in MasksAt(index, (x, y)) <==> (x, y, z) in triples[..i + 1] {
        assert z in MasksAt(before, (x, y)) <==> (x, y, z) in triples[..i];
      }
    }
  }

  // The shapes of a clause about one encoding: forbid it outright, list its feasible patterns, or list
  // the infeasible ones.

  function Below(n: nat): (s: set<int>)
    ensures |s| == n && forall a :: a in s <==> 0 <= a < n
  {
    if n == 0 then {} else Below(n - 1) + {n - 1}
  }

  /** As many feasible masks as there are masks: every mask is feasible. */
  lemma AllMasks(s: set<int>, k: nat)
    requires forall a :: a in s ==> 0 <= a < Pow2(k)
    ensures |s| <= Pow2(k)
    ensures |s| == Pow2(k) ==> forall a :: 0 <= a < Pow2(k) ==> a in s
  {
    var all := Below(Pow2(k));
    assert s <= all && |all| == Pow2(k);
    assert all == s + (all - s) && |all| == |s| + |all - s|;
    if |s| == Pow2(k) {
      assert all - s == {};
      assert all == s;
    }
  }

  /** The disjunction of the patterns in `masks`, in ascending order. */
  method PatternDisjunction(masks: set<int>, k: nat) returns (f: Formula)
    requires masks != {} && forall a :: a in masks ==> 0 <= a < Pow2(k)
    ensures forall w: Word, t: nat :: Sat(f, w, t) <==> MaskOf(w, t, k) in masks
  {
    var acc: Option<Formula> := None;
    for a := 0 to Pow2(k)
      invariant acc.None? ==> forall b :: b in masks ==> a <= b
      invariant forall w: Word, t: nat :: SatAny(acc, w, t) <==> MaskOf(w, t, k) < a && MaskOf(w, t, k) in masks
    {
      if a in masks {
        ghost var before := acc;
        var pattern := DPatternFormula(a, k);
        acc := Disjoin(acc, pattern);
        forall w: Word, t: nat ensures SatAny(acc, w, t) <==> MaskOf(w, t, k) < a + 1 && MaskOf(w, t, k) in masks {
          assert SatAny(before, w, t) <==> MaskOf(w, t, k) < a && MaskOf(w, t, k) in masks;
          assert Sat(pattern, w, t) <==> MaskOf(w, t, k) == a;
        }
      }
    }
    assert exists a :: a in masks;
    f := acc.value;
    forall w: Word, t: nat ensures Sat(f, w, t) <==> MaskOf(w, t, k) in masks {
      assert SatAny(acc, w, t) <==> MaskOf(w, t, k) < Pow2(k) && MaskOf(w, t, k) in masks;
    }
  }
}
