/** The Algorithm B skeleton: the environment announces the 2-type of memory and input, remembers the
    output type, and in return the system keeps to the feasible moves. */
module AlgorithmB {
  import opened Bits
  import opened Options
  import opened Ltl
  import opened Encoding
  import A = AlgorithmA

  datatype Bundle = Bundle(formula: Formula, outs: seq<string>, ins: seq<string>, nRbits: nat, nPbits: nat, t1: nat,
                           t2: nat, k: nat)

  // Lists of conjuncts.

  ghost predicate SatEach(parts: seq<Formula>, w: Word) {
    forall i :: 0 <= i < |parts| ==> Sat(parts[i], w, 0)
  }

  lemma AppendGlobal(parts: seq<Formula>, clause: Formula)
    ensures forall w: Word :: SatEach(parts + [Globally(clause)], w) <==> SatEach(parts, w) && AlwaysSat(clause, w, 0)
  {
    var more := parts + [Globally(clause)];
    forall w: Word ensures SatEach(more, w) <==> SatEach(parts, w) && AlwaysSat(clause, w, 0) {
      GloballyIsAlways(clause, w, 0);
      if SatEach(more, w) {
        assert Sat(more[|parts|], w, 0);
        forall i | 0 <= i < |parts| ensures Sat(parts[i], w, 0) {
          assert more[i] == parts[i];
        }
      }
    }
  }

  method JoinParts(parts: seq<Formula>) returns (f: Option<Formula>)
    ensures f.None? <==> parts == []
    ensures forall w: Word :: SatAll(f, w, 0) <==> SatEach(parts, w)
  {
    f := None;
    for i := 0 to |parts|
      invariant f.None? <==> i == 0
      invariant forall w: Word :: SatAll(f, w, 0) <==> SatEach(parts[..i], w)
    {
      ghost var before := f;
      f := Conjoin(f, parts[i]);
      forall w: Word ensures SatAll(f, w, 0) <==> SatEach(parts[..i + 1], w) {
        assert SatAll(before, w, 0) <==> SatEach(parts[..i], w);
        SatEachStep(parts, i, w);
      }
    }
    assert parts[..|parts|] == parts;
  }

  lemma SatEachStep(parts: seq<Formula>, i: nat, w: Word)
    requires i < |parts|
    ensures SatEach(parts[..i + 1], w) <==> SatEach(parts[..i], w) && Sat(parts[i], w, 0)
  {
    assert forall j :: 0 <= j < i ==> parts[..i + 1][j] == parts[..i][j];
    assert parts[..i + 1][i] == parts[i];
    if SatEach(parts[..i + 1], w) {
      forall j | 0 <= j < i ensures Sat(parts[..i][j], w, 0) {
        assert Sat(parts[..i + 1][j], w, 0);
      }
    }
  }

  // The assumptions on the environment.

  /** 2-type `sigma` remembers the output type `rho`. */
  ghost predicate Remembers(pos: seq<int>, t2: nat, sigma: nat, rho: nat) {
    sigma < t2 && sigma < |pos| && pos[sigma] == rho
  }

  ghost predicate Rememberable(pos: seq<int>, t2: nat, rho: nat) {
    exists sigma: nat :: Remembers(pos, t2, sigma, rho)
  }

  /** After a step whose type is below `bound` and can be remembered, the environment remembers it. */
  ghost predicate MemoryAt(pos: seq<int>, t2: nat, np: nat, nr: nat, w: Word, bound: nat, u: nat) {
    RhoOf(w, u, nr) < bound && Rememberable(pos, t2, RhoOf(w, u, nr)) ==>
          Remembers(pos, t2, SigmaOf(w, u + 1, np), RhoOf(w, u, nr))
  }

  ghost predicate MemoryBelow(pos: seq<int>, t2: nat, np: nat, nr: nat, w: Word, bound: nat) {
    forall u: nat :: MemoryAt(pos, t2, np, nr, w, bound, u)
  }

  ghost predicate NoPairTypeIn(w: Word, np: nat, lo: nat, hi: nat) {
    forall u: nat :: !(lo <= SigmaOf(w, u, np) < hi)
  }

  method PairValidity(t2: nat, np: nat) returns (parts: seq<Formula>)
    requires t2 <= Pow2(np)
    ensures forall w: Word :: SatEach(parts, w) <==> NoPairTypeIn(w, np, t2, Pow2(np))
  {
    parts := [];
    for sigma := t2 to Pow2(np)
      invariant forall w: Word :: SatEach(parts, w) <==> NoPairTypeIn(w, np, t2, sigma)
    {
      ghost var before := parts;
      var p := PEncode(sigma, np);
      AppendGlobal(parts, Not(p));
      parts := parts + [Globally(Not(p))];
      forall w: Word ensures SatEach(parts, w) <==> NoPairTypeIn(w, np, t2, sigma + 1) {
        assert SatEach(before, w) <==> NoPairTypeIn(w, np, t2, sigma);
        forall u: nat ensures Sat(Not(p), w, u) <==> SigmaOf(w, u, np) != sigma {}
      }
    }
  }

  method Matching(pos: seq<int>, t2: nat, rho: nat) returns (matching: seq<nat>)
    ensures forall sigma: nat :: sigma in matching <==> Remembers(pos, t2, sigma, rho)
  {
    matching := [];
    var sigma := 0;
    while sigma < |pos| && sigma < t2
      invariant sigma <= |pos| && sigma <= t2
      invariant forall s: nat :: s in matching <==> s < sigma && Remembers(pos, t2, s, rho)
    {
      if pos[sigma] == rho { matching := matching + [sigma]; }
      sigma := sigma + 1;
    }
  }

  method PairDisjunction(matching: seq<nat>, np: nat) returns (f: Formula)
    requires matching != [] && forall i :: 0 <= i < |matching| ==> matching[i] < Pow2(np)
    ensures forall w: Word, t: nat :: Sat(f, w, t) <==> SigmaOf(w, t, np) in matching
  {
    var acc: Option<Formula> := None;
    for i := 0 to |matching|
      invariant acc.None? <==> i == 0
      invariant forall w: Word, t: nat :: SatAny(acc, w, t) <==> SigmaOf(w, t, np) in matching[..i]
    {
      ghost var before := acc;
      var p := PEncode(matching[i], np);
      acc := Disjoin(acc, p);
      assert matching[..i + 1] == matching[..i] + [matching[i]];
      forall w: Word, t: nat ensures SatAny(acc, w, t) <==> SigmaOf(w, t, np) in matching[..i + 1] {
        assert SatAny(before, w, t) <==> SigmaOf(w, t, np) in matching[..i];
        assert Sat(p, w, t) <==> SigmaOf(w, t, np) == matching[i];
      }
    }
    assert matching[..|matching|] == matching;
    f := acc.value;
    forall w: Word, t: nat ensures Sat(f, w, t) <==> SigmaOf(w, t, np) in matching {
      assert SatAny(acc, w, t) <==> SigmaOf(w, t, np) in matching;
    }
  }

  /** After a step of type `rho`, the environment remembers it if it can. */
  ghost predicate MemoryOf(pos: seq<int>, t2: nat, np: nat, nr: nat, w: Word, rho: nat, u: nat) {
    RhoOf(w, u, nr) == rho && Rememberable(pos, t2, rho) ==> Remembers(pos, t2, SigmaOf(w, u + 1, np), rho)
  }

  lemma MemoryClause(pos: seq<int>, t2: nat, np: nat, nr: nat, rho: nat, matching: seq<nat>, r: Formula, f: Formula,
                     w: Word)
    requires matching != [] && forall sigma: nat :: sigma in matching <==> Remembers(pos, t2, sigma, rho)
    requires forall t: nat :: Sat(r, w, t) <==> RhoOf(w, t, nr) == rho
    requires forall t: nat :: Sat(f, w, t) <==> SigmaOf(w, t, np) in matching
    ensures AlwaysSat(Implies(r, Next(f)), w, 0) <==> forall u: nat :: MemoryOf(pos, t2, np, nr, w, rho, u)
  {
    assert matching[0] in matching;
    forall u: nat ensures Sat(Implies(r, Next(f)), w, u) <==> MemoryOf(pos, t2, np, nr, w, rho, u) {
      assert Sat(Next(f), w, u) <==> Sat(f, w, u + 1);
    }
  }

  lemma MemoryNext(pos: seq<int>, t2: nat, np: nat, nr: nat, w: Word, rho: nat)
    ensures MemoryBelow(pos, t2, np, nr, w, rho + 1) <==>
              MemoryBelow(pos, t2, np, nr, w, rho) && forall u: nat :: MemoryOf(pos, t2, np, nr, w, rho, u)
  {
    var next := rho + 1;
    forall u: nat
      ensures MemoryAt(pos, t2, np, nr, w, next, u) <==>
                MemoryAt(pos, t2, np, nr, w, rho, u) && MemoryOf(pos, t2, np, nr, w, rho, u)
    {
    }
  }

  method MemoryClauses(assume0: seq<Formula>, pos: seq<int>, t1: nat, t2: nat, np: nat, nr: nat)
    returns (parts: seq<Formula>)
    requires t1 <= Pow2(nr) && t2 <= Pow2(np)
    ensures forall w: Word :: SatEach(parts, w) <==> SatEach(assume0, w) && MemoryBelow(pos, t2, np, nr, w, t1)
  {
    parts := assume0;
    for rho := 0 to t1
      invariant forall w: Word :: SatEach(parts, w) <==> SatEach(assume0, w) && MemoryBelow(pos, t2, np, nr, w, rho)
    {
      ghost var before := parts;
      var matching := Matching(pos, t2, rho);
      if matching != [] {
        assert forall i :: 0 <= i < |matching| ==> matching[i] in matching;
        var f := PairDisjunction(matching, np);
        var r := REncode(rho, nr);
        AppendGlobal(parts, Implies(r, Next(f)));
        parts := parts + [Globally(Implies(r, Next(f)))];
        forall w: Word ensures AlwaysSat(Implies(r, Next(f)), w, 0) <==>
              forall u: nat :: MemoryOf(pos, t2, np, nr, w, rho, u) {
          MemoryClause(pos, t2, np, nr, rho, matching, r, f, w);
        }
      }
      forall w: Word ensures SatEach(parts, w) <==> SatEach(assume0, w) && MemoryBelow(pos, t2, np, nr, w, rho + 1) {
        assert SatEach(before, w) <==> SatEach(assume0, w) && MemoryBelow(pos, t2, np, nr, w, rho);
        MemoryNext(pos, t2, np, nr, w, rho);
        if matching == [] {
          assert !Rememberable(pos, t2, rho);
          forall u: nat ensures MemoryOf(pos, t2, np, nr, w, rho, u) {}
        }
      }
    }
  }

  // The guarantees of the system.

  method TypeValidity(t1: nat, nr: nat) returns (parts: seq<Formula>)
    requires t1 <= Pow2(nr)
    ensures forall w: Word :: SatEach(parts, w) <==> A.NoTypeIn(w, nr, t1, Pow2(nr))
  {
    parts := [];
    for rho := t1 to Pow2(nr)
      invariant forall w: Word :: SatEach(parts, w) <==> A.NoTypeIn(w, nr, t1, rho)
    {
      ghost var before := parts;
      var r := REncode(rho, nr);
      AppendGlobal(parts, Not(r));
      parts := parts + [Globally(Not(r))];
      forall w: Word ensures SatEach(parts, w) <==> A.NoTypeIn(w, nr, t1, rho + 1) {
        assert SatEach(before, w) <==> A.NoTypeIn(w, nr, t1, rho);
        forall u: nat ensures Sat(Not(r), w, u) <==> RhoOf(w, u, nr) != rho {}
      }
    }
  }

  /** A step of 2-type `sigma` and type `rho` carries one of the data patterns `masks`. */
  ghost predicate PairOnly(w: Word, u: nat, np: nat, nr: nat, k: nat, sigma: nat, rho: nat, masks: set<int>) {
    SigmaOf(w, u, np) == sigma && RhoOf(w, u, nr) == rho ==> MaskOf(w, u, k) in masks
  }

  ghost predicate PairForbids(w: Word, u: nat, np: nat, nr: nat, k: nat, sigma: nat, rho: nat, masks: set<int>,
                              a: nat) {
    SigmaOf(w, u, np) == sigma && RhoOf(w, u, nr) == rho && MaskOf(w, u, k) < a ==> MaskOf(w, u, k) in masks
  }

  ghost predicate AlwaysPairOnly(w: Word, np: nat, nr: nat, k: nat, sigma: nat, rho: nat, masks: set<int>) {
    forall u: nat :: PairOnly(w, u, np, nr, k, sigma, rho, masks)
  }

  ghost predicate AlwaysPairForbids(w: Word, np: nat, nr: nat, k: nat, sigma: nat, rho: nat, masks: set<int>, a: nat) {
    forall u: nat :: PairForbids(w, u, np, nr, k, sigma, rho, masks, a)
  }

  ghost predicate IsPair(w: Word, u: nat, np: nat, nr: nat, sigma: nat, rho: nat) {
    SigmaOf(w, u, np) == sigma && RhoOf(w, u, nr) == rho
  }

  method EncodePair(sigma: nat, rho: nat, np: nat, nr: nat) returns (f: Formula)
    requires sigma < Pow2(np) && rho < Pow2(nr)
    ensures forall w: Word, u: nat :: Sat(f, w, u) <==> IsPair(w, u, np, nr, sigma, rho)
  {
    var p := PEncode(sigma, np);
    var r := REncode(rho, nr);
    f := And(p, r);
    forall w: Word, u: nat ensures Sat(f, w, u) <==> IsPair(w, u, np, nr, sigma, rho) {
      assert Sat(p, w, u) <==> SigmaOf(w, u, np) == sigma;
      assert Sat(r, w, u) <==> RhoOf(w, u, nr) == rho;
    }
  }

  lemma PairPart(parts: seq<Formula>, clause: Formula, np: nat, nr: nat, k: nat, sigma: nat, rho: nat, masks: set<int>)
    requires forall w: Word, u: nat :: Sat(clause, w, u) <==> PairOnly(w, u, np, nr, k, sigma, rho, masks)
    ensures forall w: Word :: SatEach(parts + [Globally(clause)], w) <==>
              SatEach(parts, w) && AlwaysPairOnly(w, np, nr, k, sigma, rho, masks)
  {
    AppendGlobal(parts, clause);
    forall w: Word ensures AlwaysSat(clause, w, 0) <==> AlwaysPairOnly(w, np, nr, k, sigma, rho, masks) {}
  }

  method PairClauses(before: seq<Formula>, sigma: nat, rho: nat, masks: set<int>, k: nat, np: nat, nr: nat)
    returns (parts: seq<Formula>)
    requires sigma < Pow2(np) && rho < Pow2(nr) && A.IsMasks(masks, k)
    ensures forall w: Word :: SatEach(parts, w) <==>
              SatEach(before, w) && AlwaysPairOnly(w, np, nr, k, sigma, rho, masks)
  {
    AllMasks(masks, k);
    var feasible, infeasible := |masks|, Pow2(k) - |masks|;
    parts := before;
    if infeasible == 0 {
      forall w: Word, u: nat ensures PairOnly(w, u, np, nr, k, sigma, rho, masks) {}
      return;
    }
    var pair := EncodePair(sigma, rho, np, nr);
    if feasible == 0 || k == 0 {
      assert masks == {};
      PairPart(before, Not(pair), np, nr, k, sigma, rho, masks);
      parts := before + [Globally(Not(pair))];
    } else if feasible <= infeasible {
      var patterns := PatternDisjunction(masks, k);
      forall w: Word, u: nat
        ensures Sat(Implies(pair, patterns), w, u) <==> PairOnly(w, u, np, nr, k, sigma, rho, masks) {
        assert Sat(pair, w, u) <==> IsPair(w, u, np, nr, sigma, rho);
      }
      PairPart(before, Implies(pair, patterns), np, nr, k, sigma, rho, masks);
      parts := before + [Globally(Implies(pair, patterns))];
    } else {
      parts := PairInfeasible(before, sigma, rho, masks, k, np, nr, pair);
    }
  }

  method PairInfeasible(before: seq<Formula>, sigma: nat, rho: nat, masks: set<int>, k: nat, np: nat, nr: nat,
                        pair: Formula)
    returns (parts: seq<Formula>)
    requires A.IsMasks(masks, k)
    requires forall w: Word, u: nat :: Sat(pair, w, u) <==> IsPair(w, u, np, nr, sigma, rho)
    ensures forall w: Word :: SatEach(parts, w) <==>
              SatEach(before, w) && AlwaysPairOnly(w, np, nr, k, sigma, rho, masks)
  {
    parts := before;
    for a := 0 to Pow2(k)
      invariant forall w: Word :: SatEach(parts, w) <==>
                  SatEach(before, w) && AlwaysPairForbids(w, np, nr, k, sigma, rho, masks, a)
    {
      ghost var was := parts;
      if a !in masks {
        var d := DPatternFormula(a, k);
        AppendGlobal(parts, Not(And(pair, d)));
        parts := parts + [Globally(Not(And(pair, d)))];
        forall w: Word, u: nat ensures Sat(Not(And(pair, d)), w, u) <==> !PairMove(w, u, np, nr, k, sigma, rho, a) {
          assert Sat(pair, w, u) <==> IsPair(w, u, np, nr, sigma, rho);
          assert Sat(d, w, u) <==> MaskOf(w, u, k) == a;
        }
        forall w: Word ensures AlwaysSat(Not(And(pair, d)), w, 0) <==> NeverPairMove(w, np, nr, k, sigma, rho, a) {}
      }
      forall w: Word
        ensures SatEach(parts, w) <==> SatEach(before, w) && AlwaysPairForbids(w, np, nr, k, sigma, rho, masks, a + 1)
      {
        assert SatEach(was, w) <==> SatEach(before, w) && AlwaysPairForbids(w, np, nr, k, sigma, rho, masks, a);
        PairForbidNext(w, np, nr, k, sigma, rho, masks, a);
      }
    }
    forall w: Word ensures SatEach(parts, w) <==>
          SatEach(before, w) && AlwaysPairOnly(w, np, nr, k, sigma, rho, masks) {
      assert SatEach(parts, w) <==> SatEach(before, w) && AlwaysPairForbids(w, np, nr, k, sigma, rho, masks, Pow2(k));
      forall u: nat
        ensures PairForbids(w, u, np, nr, k, sigma, rho, masks, Pow2(k)) <==>
                  PairOnly(w, u, np, nr, k, sigma, rho, masks)
      {
      }
    }
  }

  ghost predicate PairMove(w: Word, u: nat, np: nat, nr: nat, k: nat, sigma: nat, rho: nat, a: nat) {
    IsPair(w, u, np, nr, sigma, rho) && MaskOf(w, u, k) == a
  }

  ghost predicate NeverPairMove(w: Word, np: nat, nr: nat, k: nat, sigma: nat, rho: nat, a: nat) {
    forall u: nat :: !PairMove(w, u, np, nr, k, sigma, rho, a)
  }

  lemma PairForbidNext(w: Word, np: nat, nr: nat, k: nat, sigma: nat, rho: nat, masks: set<int>, a: nat)
    ensures AlwaysPairForbids(w, np, nr, k, sigma, rho, masks, a + 1) <==>
              AlwaysPairForbids(w, np, nr, k, sigma, rho, masks, a)
                  && (a !in masks ==> NeverPairMove(w, np, nr, k, sigma, rho, a))
  {
    var b := a + 1;
    forall u: nat
      ensures PairForbids(w, u, np, nr, k, sigma, rho, masks, b) <==>
                PairForbids(w, u, np, nr, k, sigma, rho, masks, a)
                    && (a !in masks ==> !PairMove(w, u, np, nr, k, sigma, rho, a))
    {
    }
  }

  /** The pairs before (sigma, rho) in the order of the two loops. */
  ghost predicate Before(s: nat, r: nat, t1: nat, sigma: nat, rho: nat) {
    r < t1 && (s < sigma || (s == sigma && r < rho))
  }

  ghost predicate PairFeasible(triples: seq<Triple>, w: Word, u: nat, np: nat, nr: nat, k: nat) {
    (SigmaOf(w, u, np), RhoOf(w, u, nr), MaskOf(w, u, k)) in triples
  }

  ghost predicate FeasibleAt(triples: seq<Triple>, t1: nat, np: nat, nr: nat, k: nat, w: Word, sigma: nat, rho: nat,
                             u: nat) {
    Before(SigmaOf(w, u, np), RhoOf(w, u, nr), t1, sigma, rho) ==> PairFeasible(triples, w, u, np, nr, k)
  }

  ghost predicate FeasibleBelow(triples: seq<Triple>, t1: nat, np: nat, nr: nat, k: nat, w: Word, sigma: nat,
                                rho: nat) {
    forall u: nat :: FeasibleAt(triples, t1, np, nr, k, w, sigma, rho, u)
  }

  lemma FeasibleNext(triples: seq<Triple>, t1: nat, np: nat, nr: nat, k: nat, w: Word, sigma: nat, rho: nat,
                     masks: set<int>)
    requires rho < t1 && forall a: int :: a in masks <==> (sigma, rho, a) in triples
    ensures FeasibleBelow(triples, t1, np, nr, k, w, sigma, rho + 1) <==>
              FeasibleBelow(triples, t1, np, nr, k, w, sigma, rho) && AlwaysPairOnly(w, np, nr, k, sigma, rho, masks)
  {
    var next := rho + 1;
    forall u: nat
      ensures FeasibleAt(triples, t1, np, nr, k, w, sigma, next, u) <==>
                FeasibleAt(triples, t1, np, nr, k, w, sigma, rho, u) && PairOnly(w, u, np, nr, k, sigma, rho, masks)
    {
    }
  }

  lemma FeasibleRow(triples: seq<Triple>, t1: nat, np: nat, nr: nat, k: nat, w: Word, sigma: nat)
    ensures FeasibleBelow(triples, t1, np, nr, k, w, sigma, t1) <==>
              FeasibleBelow(triples, t1, np, nr, k, w, sigma + 1, 0)
  {
    var next := sigma + 1;
    forall u: nat
      ensures FeasibleAt(triples, t1, np, nr, k, w, sigma, t1, u) <==> FeasibleAt(triples, t1, np, nr, k, w, next, 0, u)
    {
    }
  }

  method RowClauses(before: seq<Formula>, ghost base: seq<Formula>, sigma: nat, triples: seq<Triple>,
                    index: map<(int, int), set<int>>, t1: nat, k: nat, np: nat, nr: nat) returns (parts: seq<Formula>)
    requires t1 <= Pow2(nr) && sigma < Pow2(np) && MasksInRange(triples, k) && IsPairIndex(triples, |triples|, index)
    requires forall w: Word :: SatEach(before, w) <==>
               SatEach(base, w) && FeasibleBelow(triples, t1, np, nr, k, w, sigma, 0)
    ensures forall w: Word :: SatEach(parts, w) <==>
              SatEach(base, w) && FeasibleBelow(triples, t1, np, nr, k, w, sigma, t1)
  {
    parts := before;
    assert triples[..|triples|] == triples;
    for rho := 0 to t1
      invariant forall w: Word :: SatEach(parts, w) <==>
                  SatEach(base, w) && FeasibleBelow(triples, t1, np, nr, k, w, sigma, rho)
    {
      ghost var was := parts;
      var masks := MasksAt(index, (sigma, rho));
      assert forall a: int :: a in masks <==> (sigma, rho, a) in triples;
      parts := PairClauses(parts, sigma, rho, masks, k, np, nr);
      forall w: Word
        ensures SatEach(parts, w) <==> SatEach(base, w) && FeasibleBelow(triples, t1, np, nr, k, w, sigma, rho + 1)
      {
        assert SatEach(was, w) <==> SatEach(base, w) && FeasibleBelow(triples, t1, np, nr, k, w, sigma, rho);
        FeasibleNext(triples, t1, np, nr, k, w, sigma, rho, masks);
      }
    }
  }

  method FeasibilityClauses(before: seq<Formula>, triples: seq<Triple>, t1: nat, t2: nat, k: nat, np: nat, nr: nat)
    returns (parts: seq<Formula>)
    requires t1 <= Pow2(nr) && t2 <= Pow2(np) && MasksInRange(triples, k)
    ensures forall w: Word :: SatEach(parts, w) <==>
              SatEach(before, w) && FeasibleBelow(triples, t1, np, nr, k, w, t2, 0)
  {
    var index := IndexByPair(triples);
    parts := before;
    for sigma := 0 to t2
      invariant forall w: Word :: SatEach(parts, w) <==>
                  SatEach(before, w) && FeasibleBelow(triples, t1, np, nr, k, w, sigma, 0)
    {
      parts := RowClauses(parts, before, sigma, triples, index, t1, k, np, nr);
      forall w: Word ensures SatEach(parts, w) <==>
            SatEach(before, w) && FeasibleBelow(triples, t1, np, nr, k, w, sigma + 1, 0) {
        FeasibleRow(triples, t1, np, nr, k, w, sigma);
      }
    }
  }

  // The skeleton.

  /** The environment always announces a 2-type, and one that remembers the last output type whenever
      that is a type and some 2-type remembers it. */
  ghost predicate Assumed(pos: seq<int>, t1: nat, t2: nat, np: nat, nr: nat, w: Word) {
    (forall u: nat :: SigmaOf(w, u, np) < t2) && (forall u: nat :: MemoryAt(pos, t2, np, nr, w, t1, u))
  }

  ghost predicate StepGuaranteed(triples: seq<Triple>, t1: nat, np: nat, nr: nat, k: nat, w: Word, u: nat) {
    RhoOf(w, u, nr) < t1 && PairFeasible(triples, w, u, np, nr, k)
  }

  /** Every step has a type and is feasible for the announced 2-type. */
  ghost predicate Guaranteed(triples: seq<Triple>, t1: nat, np: nat, nr: nat, k: nat, w: Word) {
    forall u: nat :: StepGuaranteed(triples, t1, np, nr, k, w, u)
  }

  lemma AssumptionsMean(pos: seq<int>, t1: nat, t2: nat, np: nat, nr: nat, w: Word)
    ensures NoPairTypeIn(w, np, t2, Pow2(np)) && MemoryBelow(pos, t2, np, nr, w, t1) <==>
              Assumed(pos, t1, t2, np, nr, w)
  {
  }

  /** When every announced 2-type is one, the clauses say that every step is feasible. */
  lemma GuaranteesMean(triples: seq<Triple>, t1: nat, t2: nat, np: nat, nr: nat, k: nat, w: Word)
    requires forall u: nat :: SigmaOf(w, u, np) < t2
    ensures A.NoTypeIn(w, nr, t1, Pow2(nr)) && FeasibleBelow(triples, t1, np, nr, k, w, t2, 0) <==>
              Guaranteed(triples, t1, np, nr, k, w)
  {
    if A.NoTypeIn(w, nr, t1, Pow2(nr)) && FeasibleBelow(triples, t1, np, nr, k, w, t2, 0) {
      forall u: nat ensures StepGuaranteed(triples, t1, np, nr, k, w, u) {
        assert FeasibleAt(triples, t1, np, nr, k, w, t2, 0, u);
      }
    }
    if Guaranteed(triples, t1, np, nr, k, w) {
      forall u: nat ensures RhoOf(w, u, nr) < t1 && FeasibleAt(triples, t1, np, nr, k, w, t2, 0, u) {
        assert StepGuaranteed(triples, t1, np, nr, k, w, u);
      }
    }
  }

  method InputList(np: nat) returns (ins: seq<string>)
    ensures ins == seq(np, j requires 0 <= j => PName(j))
  {
    ins := [];
    for j := 0 to np
      invariant ins == seq(j, i requires 0 <= i => PName(i))
    {
      ins := ins + [PName(j)];
    }
  }

  method Guarantees(t1: nat, t2: nat, k: nat, triples: seq<Triple>, phi: Option<Formula>, np: nat, nr: nat)
    returns (parts: seq<Formula>)
    requires t1 <= Pow2(nr) && t2 <= Pow2(np) && MasksInRange(triples, k)
    ensures parts != []
    ensures forall w: Word :: SatEach(parts, w) <==>
              A.NoTypeIn(w, nr, t1, Pow2(nr)) && FeasibleBelow(triples, t1, np, nr, k, w, t2, 0) && SatAll(phi, w, 0)
  {
    var valid := TypeValidity(t1, nr);
    var feasible := FeasibilityClauses(valid, triples, t1, t2, k, np, nr);
    var last := if phi.None? then True else phi.value;
    parts := feasible + [last];
    forall w: Word
      ensures SatEach(parts, w) <==>
                A.NoTypeIn(w, nr, t1, Pow2(nr)) && FeasibleBelow(triples, t1, np, nr, k, w, t2, 0) && SatAll(phi, w, 0)
    {
      assert parts[..|feasible|] == feasible && parts[..|feasible| + 1] == parts;
      SatEachStep(parts, |feasible|, w);
      assert SatEach(valid, w) <==> A.NoTypeIn(w, nr, t1, Pow2(nr));
    }
  }

  method Assumptions(t1: nat, t2: nat, pos: seq<int>, np: nat, nr: nat) returns (parts: seq<Formula>)
    requires t1 <= Pow2(nr) && t2 <= Pow2(np)
    ensures forall w: Word :: SatEach(parts, w) <==> Assumed(pos, t1, t2, np, nr, w)
  {
    var valid := PairValidity(t2, np);
    parts := MemoryClauses(valid, pos, t1, t2, np, nr);
    forall w: Word ensures SatEach(parts, w) <==> Assumed(pos, t1, t2, np, nr, w) {
      assert SatEach(valid, w) <==> NoPairTypeIn(w, np, t2, Pow2(np));
      AssumptionsMean(pos, t1, t2, np, nr, w);
    }
  }

  /** The formula holds on exactly the words on which, if the environment keeps to the assumption, the
      system keeps to the feasible moves and to phi*. */
  method BuildSkeleton(t1: nat, t2: nat, k: nat, triples: seq<Triple>, pos: seq<int>, phi: Option<Formula>)
    returns (b: Bundle)
    requires MasksInRange(triples, k)
    ensures b.t1 == t1 && b.t2 == t2 && b.k == k && t1 <= Pow2(b.nRbits) && t2 <= Pow2(b.nPbits)
    ensures b.nRbits >= 1 && (b.nRbits > 1 ==> Pow2(b.nRbits - 1) < t1) && (b.nPbits > 0 ==> Pow2(b.nPbits - 1) < t2)
    ensures b.outs == A.OutputNames(b.nRbits, k) && b.ins == seq(b.nPbits, j requires 0 <= j => PName(j))
    ensures forall w: Word :: Sat(b.formula, w, 0) <==>
              (Assumed(pos, t1, t2, b.nPbits, b.nRbits, w) ==>
                Guaranteed(triples, t1, b.nPbits, b.nRbits, k, w) && SatAll(phi, w, 0))
  {
    var np := EncodingBits(t2, 0);
    var nr := EncodingBits(t1, 1);
    var ins := InputList(np);
    var outs := A.OutputList(nr, k);
    var assumptions := Assumptions(t1, t2, pos, np, nr);
    var guarantees := Guarantees(t1, t2, k, triples, phi, np, nr);
    var premise := JoinParts(assumptions);
    var promise := JoinParts(guarantees);
    var formula := if premise.None? then promise.value else Implies(premise.value, promise.value);
    b := Bundle(formula, outs, ins, nr, np, t1, t2, k);
    forall w: Word
      ensures Sat(formula, w, 0) <==>
                (Assumed(pos, t1, t2, np, nr, w) ==> Guaranteed(triples, t1, np, nr, k, w) && SatAll(phi, w, 0))
    {
      assert SatAll(premise, w, 0) <==> SatEach(assumptions, w);
      assert SatAll(promise, w, 0) <==> SatEach(guarantees, w);
      if Assumed(pos, t1, t2, np, nr, w) {
        GuaranteesMean(triples, t1, t2, np, nr, k, w);
      }
    }
  }

  /** When every remembered position is an output type, the assumption needs no bound on the last type. */
  lemma MemoryWithoutBound(pos: seq<int>, t1: nat, t2: nat, np: nat, nr: nat, w: Word, u: nat)
    requires forall i :: 0 <= i < |pos| ==> pos[i] < t1
    ensures MemoryAt(pos, t2, np, nr, w, t1, u) <==>
              (Rememberable(pos, t2, RhoOf(w, u, nr)) ==> Remembers(pos, t2, SigmaOf(w, u + 1, np), RhoOf(w, u, nr)))
  {
    if Rememberable(pos, t2, RhoOf(w, u, nr)) {
      var sigma: nat :| Remembers(pos, t2, sigma, RhoOf(w, u, nr));
      assert pos[sigma] < t1;
    }
  }
}
