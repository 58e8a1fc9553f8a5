/** The Algorithm A skeleton: a finite feasibility relation compiled into a formula over the bits of
    the output type and the data propositions, and the words that satisfy it. */
module AlgorithmA {
  import opened Bits
  import opened Options
  import opened Names
  import opened Ltl
  import opened Encoding

  datatype Bundle = Bundle(formula: Formula, outs: seq<string>, nRbits: nat, t1: nat, k: nat)

  // The constraint of one type: a step of type `rho` carries one of the data patterns `masks`.

  ghost predicate OnlyMasks(w: Word, t: nat, n: nat, k: nat, rho: nat, masks: set<int>) {
    RhoOf(w, t, n) == rho ==> MaskOf(w, t, k) in masks
  }

  /** The part of `OnlyMasks` that forbids the patterns below `a`. */
  ghost predicate ForbidsBelow(w: Word, t: nat, n: nat, k: nat, rho: nat, masks: set<int>, a: nat) {
    RhoOf(w, t, n) == rho && MaskOf(w, t, k) < a ==> MaskOf(w, t, k) in masks
  }

  ghost predicate IsMasks(masks: set<int>, k: nat) {
    forall a :: a in masks ==> 0 <= a < Pow2(k)
  }

  ghost predicate IsMove(w: Word, u: nat, n: nat, k: nat, rho: nat, a: nat) {
    RhoOf(w, u, n) == rho && MaskOf(w, u, k) == a
  }

  method NegAtom(rho: nat, a: nat, k: nat, n: nat) returns (f: Formula)
    requires rho < Pow2(n) && a < Pow2(k)
    ensures forall w: Word, t: nat :: Sat(f, w, t) <==> !IsMove(w, t, n, k, rho, a)
  {
    var r := REncode(rho, n);
    if k == 0 {
      f := Not(r);
      forall w: Word, t: nat ensures Sat(f, w, t) <==> !IsMove(w, t, n, k, rho, a) {
        assert MaskOf(w, t, k) < Pow2(0);
      }
    } else {
      var d := DPatternFormula(a, k);
      f := Not(And(r, d));
      forall w: Word, t: nat ensures Sat(f, w, t) <==> !IsMove(w, t, n, k, rho, a) {
        assert Sat(d, w, t) <==> MaskOf(w, t, k) == a;
      }
    }
  }

  /** Conjoins the constraint of type `rho` in the shape its feasible patterns call for. */
  method ConjoinMoves(body: Option<Formula>, rho: nat, masks: set<int>, k: nat, n: nat) returns (next: Option<Formula>)
    requires rho < Pow2(n) && IsMasks(masks, k)
    ensures forall w: Word, t: nat :: SatAll(next, w, t) <==> SatAll(body, w, t) && OnlyMasks(w, t, n, k, rho, masks)
  {
    AllMasks(masks, k);
    var feasible, infeasible := |masks|, Pow2(k) - |masks|;
    next := body;
    if infeasible == 0 {
      forall w: Word, t: nat ensures OnlyMasks(w, t, n, k, rho, masks) {}
    } else if feasible == 0 {
      var r := REncode(rho, n);
      next := Conjoin(body, Not(r));
      forall w: Word, t: nat ensures Sat(Not(r), w, t) <==> OnlyMasks(w, t, n, k, rho, masks) {}
    } else if feasible <= infeasible {
      var patterns := PatternDisjunction(masks, k);
      var r := REncode(rho, n);
      next := Conjoin(body, Implies(r, patterns));
      forall w: Word, t: nat ensures Sat(Implies(r, patterns), w, t) <==> OnlyMasks(w, t, n, k, rho, masks) {}
    } else {
      next := ConjoinInfeasible(body, rho, masks, k, n);
    }
  }

  method ConjoinInfeasible(body: Option<Formula>, rho: nat, masks: set<int>, k: nat, n: nat)
    returns (next: Option<Formula>)
    requires rho < Pow2(n) && IsMasks(masks, k)
    ensures forall w: Word, t: nat :: SatAll(next, w, t) <==> SatAll(body, w, t) && OnlyMasks(w, t, n, k, rho, masks)
  {
    next := body;
    for a := 0 to Pow2(k)
      invariant forall w: Word, t: nat :: SatAll(next, w, t) <==>
                  SatAll(body, w, t) && ForbidsBelow(w, t, n, k, rho, masks, a)
    {
      ghost var before := next;
      if a !in masks {
        var atom := NegAtom(rho, a, k, n);
        next := Conjoin(next, atom);
      }
      forall w: Word, t: nat
        ensures SatAll(next, w, t) <==> SatAll(body, w, t) && ForbidsBelow(w, t, n, k, rho, masks, a + 1)
      {
        assert SatAll(before, w, t) <==> SatAll(body, w, t) && ForbidsBelow(w, t, n, k, rho, masks, a);
        assert a !in masks ==> (SatAll(next, w, t) <==> SatAll(before, w, t) && !IsMove(w, t, n, k, rho, a));
      }
    }
    forall w: Word, t: nat ensures SatAll(next, w, t) <==> SatAll(body, w, t) && OnlyMasks(w, t, n, k, rho, masks) {
      assert SatAll(next, w, t) <==> SatAll(body, w, t) && ForbidsBelow(w, t, n, k, rho, masks, Pow2(k));
    }
  }

  // The same constraint at every step.

  ghost predicate AlwaysOnly(w: Word, t: nat, n: nat, k: nat, rho: nat, masks: set<int>) {
    forall u: nat :: t <= u ==> OnlyMasks(w, u, n, k, rho, masks)
  }

  ghost predicate AlwaysForbids(w: Word, t: nat, n: nat, k: nat, rho: nat, masks: set<int>, a: nat) {
    forall u: nat :: t <= u ==> ForbidsBelow(w, u, n, k, rho, masks, a)
  }

  lemma GlobalClause(clause: Formula, n: nat, k: nat, rho: nat, masks: set<int>)
    requires forall w: Word, u: nat :: Sat(clause, w, u) <==> OnlyMasks(w, u, n, k, rho, masks)
    ensures forall w: Word, t: nat :: Sat(Globally(clause), w, t) <==> AlwaysOnly(w, t, n, k, rho, masks)
  {
    forall w: Word, t: nat ensures Sat(Globally(clause), w, t) <==> AlwaysOnly(w, t, n, k, rho, masks) {
      if Sat(Globally(clause), w, t) {
        forall u: nat | t <= u ensures OnlyMasks(w, u, n, k, rho, masks) {
          assert Sat(clause, w, u);
        }
      }
    }
  }

  method AppendGlobalMoves(formula: Option<Formula>, rho: nat, masks: set<int>, k: nat, n: nat)
    returns (next: Option<Formula>)
    requires rho < Pow2(n) && IsMasks(masks, k)
    ensures forall w: Word, t: nat :: SatAll(next, w, t) <==>
              SatAll(formula, w, t) && AlwaysOnly(w, t, n, k, rho, masks)
  {
    AllMasks(masks, k);
    var feasible, infeasible := |masks|, Pow2(k) - |masks|;
    next := formula;
    if infeasible == 0 {
      forall w: Word, u: nat ensures OnlyMasks(w, u, n, k, rho, masks) {}
    } else if feasible == 0 {
      var r := REncode(rho, n);
      next := Conjoin(formula, Globally(Not(r)));
      GlobalClause(Not(r), n, k, rho, masks);
    } else if feasible <= infeasible {
      var patterns := PatternDisjunction(masks, k);
      var r := REncode(rho, n);
      next := Conjoin(formula, Globally(Implies(r, patterns)));
      GlobalClause(Implies(r, patterns), n, k, rho, masks);
    } else {
      next := AppendInfeasible(formula, rho, masks, k, n);
    }
  }

  method AppendInfeasible(formula: Option<Formula>, rho: nat, masks: set<int>, k: nat, n: nat)
    returns (next: Option<Formula>)
    requires rho < Pow2(n) && IsMasks(masks, k)
    ensures forall w: Word, t: nat :: SatAll(next, w, t) <==>
              SatAll(formula, w, t) && AlwaysOnly(w, t, n, k, rho, masks)
  {
    next := formula;
    for a := 0 to Pow2(k)
      invariant forall w: Word, t: nat :: SatAll(next, w, t) <==>
                  SatAll(formula, w, t) && AlwaysForbids(w, t, n, k, rho, masks, a)
    {
      ghost var before := next;
      if a !in masks {
        var atom := NegAtom(rho, a, k, n);
        next := Conjoin(next, Globally(atom));
        forall w: Word, t: nat ensures Sat(Globally(atom), w, t) <==> NeverMove(w, t, n, k, rho, a) {
          NeverSat(atom, w, t, n, k, rho, a);
        }
      }
      forall w: Word, t: nat
        ensures SatAll(next, w, t) <==> SatAll(formula, w, t) && AlwaysForbids(w, t, n, k, rho, masks, a + 1)
      {
        assert SatAll(before, w, t) <==> SatAll(formula, w, t) && AlwaysForbids(w, t, n, k, rho, masks, a);
        ForbidNext(w, t, n, k, rho, masks, a);
      }
    }
    forall w: Word, t: nat ensures SatAll(next, w, t) <==> SatAll(formula, w, t) && AlwaysOnly(w, t, n, k, rho, masks) {
      assert SatAll(next, w, t) <==> SatAll(formula, w, t) && AlwaysForbids(w, t, n, k, rho, masks, Pow2(k));
      forall u: nat ensures ForbidsBelow(w, u, n, k, rho, masks, Pow2(k)) <==> OnlyMasks(w, u, n, k, rho, masks) {}
    }
  }

  ghost predicate NeverMove(w: Word, t: nat, n: nat, k: nat, rho: nat, a: nat) {
    forall u: nat :: t <= u ==> !IsMove(w, u, n, k, rho, a)
  }

  lemma NeverSat(atom: Formula, w: Word, t: nat, n: nat, k: nat, rho: nat, a: nat)
    requires forall u: nat :: Sat(atom, w, u) <==> !IsMove(w, u, n, k, rho, a)
    ensures Sat(Globally(atom), w, t) <==> NeverMove(w, t, n, k, rho, a)
  {
    if Sat(Globally(atom), w, t) {
      forall u: nat | t <= u ensures !IsMove(w, u, n, k, rho, a) {
        assert Sat(atom, w, u);
      }
    }
  }

  lemma ForbidNext(w: Word, t: nat, n: nat, k: nat, rho: nat, masks: set<int>, a: nat)
    ensures AlwaysForbids(w, t, n, k, rho, masks, a + 1) <==>
              AlwaysForbids(w, t, n, k, rho, masks, a) && (a !in masks ==> NeverMove(w, t, n, k, rho, a))
  {
    var b := a + 1;
    forall u: nat
      ensures ForbidsBelow(w, u, n, k, rho, masks, b) <==>
                ForbidsBelow(w, u, n, k, rho, masks, a) && (a !in masks ==> !IsMove(w, u, n, k, rho, a))
    {
    }
  }

  // The words of a relation.

  /** `rho` with pattern `a` is feasible from some memory. */
  ghost predicate FromSome(triples: seq<Triple>, rho: int, a: int) {
    exists s: int :: (s, rho, a) in triples
  }

  ghost predicate TypeOk(triples: seq<Triple>, t1: nat, n: nat, k: nat, w: Word, t: nat) {
    RhoOf(w, t, n) < t1 && FromSome(triples, RhoOf(w, t, n), MaskOf(w, t, k))
  }

  /** The move at step `t` is feasible from memory `sigma`. */
  ghost predicate MoveOk(triples: seq<Triple>, n: nat, k: nat, w: Word, sigma: int, t: nat) {
    (sigma, RhoOf(w, t, n), MaskOf(w, t, k)) in triples
  }

  ghost predicate StepOk(triples: seq<Triple>, n: nat, k: nat, w: Word, t: nat) {
    MoveOk(triples, n, k, w, RhoOf(w, t, n), t + 1)
  }

  /** Every step has a type below `t1` that some memory admits, every step is feasible from the type of
      the one before, and the first one from the initial memory when that is a type. */
  ghost predicate FollowsRelation(triples: seq<Triple>, t1: nat, n: nat, k: nat, init: int, w: Word) {
    && (forall t: nat :: TypeOk(triples, t1, n, k, w, t))
    && (forall t: nat :: StepOk(triples, n, k, w, t))
    && (0 <= init < t1 ==> MoveOk(triples, n, k, w, init, 0))
  }

  method IndexByType(triples: seq<Triple>) returns (index: map<int, set<int>>)
    ensures forall r: int, a: int :: a in MasksAt(index, r) <==> FromSome(triples, r, a)
  {
    index := map[];
    for i := 0 to |triples|
      invariant forall r: int, a: int :: a in MasksAt(index, r) <==> FromSome(triples[..i], r, a)
    {
      ghost var before := index;
      var (s, r, a) := triples[i];
      index := index[r := MasksAt(index, r) + {a}];
      forall x: int, y: int ensures y in MasksAt(index, x) <==> FromSome(triples[..i + 1], x, y) {
        assert y in MasksAt(before, x) <==> FromSome(triples[..i], x, y);
        FromSomeStep(triples, i, x, y);
      }
    }
    assert triples[..|triples|] == triples;
  }

  lemma FromSomeStep(triples: seq<Triple>, i: nat, x: int, y: int)
    requires i < |triples|
    ensures FromSome(triples[..i + 1], x, y) <==>
              FromSome(triples[..i], x, y) || (triples[i].1 == x && triples[i].2 == y)
  {
    var (s0, r0, a0) := triples[i];
    forall s: int ensures (s, x, y) in triples[..i + 1] <==>
          (s, x, y) in triples[..i] || (s == s0 && x == r0 && y == a0) {
      assert triples[..i + 1] == triples[..i] + [triples[i]];
    }
    if r0 == x && a0 == y {
      assert (s0, x, y) in triples[..i + 1];
    }
  }

  // The moves from one memory type.

  ghost predicate MovesBelow(triples: seq<Triple>, n: nat, k: nat, w: Word, sigma: int, t: nat, bound: nat) {
    RhoOf(w, t, n) < bound ==> MoveOk(triples, n, k, w, sigma, t)
  }

  /** The moves feasible from memory `sigma` as a conjunction; None when it would be empty. */
  method MovesFrom(sigma: int, triples: seq<Triple>, index: map<(int, int), set<int>>, t1: nat, k: nat, n: nat)
    returns (body: Option<Formula>)
    requires t1 <= Pow2(n) && MasksInRange(triples, k) && IsPairIndex(triples, |triples|, index)
    ensures forall w: Word, t: nat :: SatAll(body, w, t) <==> MovesBelow(triples, n, k, w, sigma, t, t1)
  {
    body := None;
    assert triples[..|triples|] == triples;
    for rho := 0 to t1
      invariant forall w: Word, t: nat :: SatAll(body, w, t) <==> MovesBelow(triples, n, k, w, sigma, t, rho)
    {
      ghost var before := body;
      var masks := MasksAt(index, (sigma, rho));
      assert forall a: int :: a in masks <==> (sigma, rho, a) in triples;
      body := ConjoinMoves(body, rho, masks, k, n);
      forall w: Word, t: nat ensures SatAll(body, w, t) <==> MovesBelow(triples, n, k, w, sigma, t, rho + 1) {
        assert SatAll(before, w, t) <==> MovesBelow(triples, n, k, w, sigma, t, rho);
      }
    }
  }

  // The clauses at every step, read from step 0.

  ghost predicate NoTypeIn(w: Word, n: nat, lo: nat, hi: nat) {
    forall u: nat :: !(lo <= RhoOf(w, u, n) < hi)
  }

  lemma NeverType(r: Formula, w: Word, n: nat, rho: nat)
    requires forall u: nat :: Sat(r, w, u) <==> RhoOf(w, u, n) == rho
    ensures Sat(Globally(Not(r)), w, 0) <==> forall u: nat :: RhoOf(w, u, n) != rho
  {
    GloballyIsAlways(Not(r), w, 0);
    forall u: nat ensures Sat(Not(r), w, u) <==> RhoOf(w, u, n) != rho {}
  }

  /** (1) Every encoding that is no type is forbidden. */
  method ValidityClauses(t1: nat, n: nat) returns (formula: Option<Formula>)
    requires t1 <= Pow2(n)
    ensures forall w: Word :: SatAll(formula, w, 0) <==> NoTypeIn(w, n, t1, Pow2(n))
  {
    formula := None;
    for rho := t1 to Pow2(n)
      invariant forall w: Word :: SatAll(formula, w, 0) <==> NoTypeIn(w, n, t1, rho)
    {
      ghost var before := formula;
      var r := REncode(rho, n);
      formula := Conjoin(formula, Globally(Not(r)));
      forall w: Word ensures SatAll(formula, w, 0) <==> NoTypeIn(w, n, t1, rho + 1) {
        assert SatAll(before, w, 0) <==> NoTypeIn(w, n, t1, rho);
        NeverType(r, w, n, rho);
      }
    }
  }

  ghost predicate AdmittedBelow(triples: seq<Triple>, n: nat, k: nat, w: Word, rho: nat) {
    forall u: nat :: AdmittedAt(triples, n, k, w, rho, u)
  }

  ghost predicate AdmittedAt(triples: seq<Triple>, n: nat, k: nat, w: Word, rho: nat, u: nat) {
    RhoOf(w, u, n) < rho ==> FromSome(triples, RhoOf(w, u, n), MaskOf(w, u, k))
  }

  /** (2) A type carries only patterns that some memory admits. */
  method TypeClauses(formula: Option<Formula>, triples: seq<Triple>, t1: nat, k: nat, n: nat)
    returns (next: Option<Formula>)
    requires t1 <= Pow2(n) && MasksInRange(triples, k)
    ensures forall w: Word :: SatAll(next, w, 0) <==> SatAll(formula, w, 0) && AdmittedBelow(triples, n, k, w, t1)
  {
    var index := IndexByType(triples);
    next := formula;
    for rho := 0 to t1
      invariant forall w: Word :: SatAll(next, w, 0) <==> SatAll(formula, w, 0) && AdmittedBelow(triples, n, k, w, rho)
    {
      ghost var before := next;
      var masks := MasksAt(index, rho);
      assert forall a: int :: a in masks <==> FromSome(triples, rho, a);
      next := AppendGlobalMoves(next, rho, masks, k, n);
      forall w: Word ensures SatAll(next, w, 0) <==> SatAll(formula, w, 0) && AdmittedBelow(triples, n, k, w, rho + 1) {
        assert SatAll(before, w, 0) <==> SatAll(formula, w, 0) && AdmittedBelow(triples, n, k, w, rho);
        AdmitNext(triples, n, k, w, rho, masks);
      }
    }
  }

  lemma AdmitNext(triples: seq<Triple>, n: nat, k: nat, w: Word, rho: nat, masks: set<int>)
    requires forall a: int :: a in masks <==> FromSome(triples, rho, a)
    ensures AdmittedBelow(triples, n, k, w, rho + 1) <==>
              AdmittedBelow(triples, n, k, w, rho) && AlwaysOnly(w, 0, n, k, rho, masks)
  {
    var next := rho + 1;
    forall u: nat
      ensures AdmittedAt(triples, n, k, w, next, u) <==>
                AdmittedAt(triples, n, k, w, rho, u) && OnlyMasks(w, u, n, k, rho, masks)
    {
    }
  }

  ghost predicate StepsBelow(triples: seq<Triple>, t1: nat, n: nat, k: nat, w: Word, sigma: nat) {
    forall u: nat :: StepAt(triples, t1, n, k, w, sigma, u)
  }

  ghost predicate StepAt(triples: seq<Triple>, t1: nat, n: nat, k: nat, w: Word, sigma: nat, u: nat) {
    RhoOf(w, u, n) < sigma ==> MovesBelow(triples, n, k, w, RhoOf(w, u, n), u + 1, t1)
  }

  /** (3) After a step of type `sigma`, the moves feasible from it. */
  method StepClauses(formula: Option<Formula>, triples: seq<Triple>, index: map<(int, int), set<int>>, t1: nat, k: nat,
                     n: nat)
    returns (next: Option<Formula>)
    requires t1 <= Pow2(n) && MasksInRange(triples, k) && IsPairIndex(triples, |triples|, index)
    ensures forall w: Word :: SatAll(next, w, 0) <==> SatAll(formula, w, 0) && StepsBelow(triples, t1, n, k, w, t1)
  {
    next := formula;
    for sigma := 0 to t1
      invariant forall w: Word :: SatAll(next, w, 0) <==>
                  SatAll(formula, w, 0) && StepsBelow(triples, t1, n, k, w, sigma)
    {
      ghost var before := next;
      var body := MovesFrom(sigma, triples, index, t1, k, n);
      if body.Some? {
        var r := REncode(sigma, n);
        next := Conjoin(next, Globally(Implies(r, Next(body.value))));
        forall w: Word ensures Sat(Globally(Implies(r, Next(body.value))), w, 0) <==>
              StepsFrom(triples, t1, n, k, w, sigma) {
          StepClause(triples, t1, n, k, sigma, r, body.value, w);
        }
      }
      forall w: Word ensures SatAll(next, w, 0) <==>
            SatAll(formula, w, 0) && StepsBelow(triples, t1, n, k, w, sigma + 1) {
        assert SatAll(before, w, 0) <==> SatAll(formula, w, 0) && StepsBelow(triples, t1, n, k, w, sigma);
        if body.None? {
          forall u: nat ensures StepFrom(triples, t1, n, k, w, sigma, u) {
            assert SatAll(body, w, u + 1);
          }
        }
        StepsNext(triples, t1, n, k, w, sigma);
      }
    }
  }

  ghost predicate StepFrom(triples: seq<Triple>, t1: nat, n: nat, k: nat, w: Word, sigma: nat, u: nat) {
    RhoOf(w, u, n) == sigma ==> MovesBelow(triples, n, k, w, sigma, u + 1, t1)
  }

  ghost predicate StepsFrom(triples: seq<Triple>, t1: nat, n: nat, k: nat, w: Word, sigma: nat) {
    forall u: nat :: StepFrom(triples, t1, n, k, w, sigma, u)
  }

  lemma StepClause(triples: seq<Triple>, t1: nat, n: nat, k: nat, sigma: nat, r: Formula, body: Formula, w: Word)
    requires forall t: nat :: Sat(r, w, t) <==> RhoOf(w, t, n) == sigma
    requires forall t: nat :: Sat(body, w, t) <==> MovesBelow(triples, n, k, w, sigma, t, t1)
    ensures Sat(Globally(Implies(r, Next(body))), w, 0) <==> StepsFrom(triples, t1, n, k, w, sigma)
  {
    var clause := Implies(r, Next(body));
    forall u: nat ensures Sat(clause, w, u) <==> StepFrom(triples, t1, n, k, w, sigma, u) {
      assert Sat(Next(body), w, u) <==> Sat(body, w, u + 1);
    }
    if Sat(Globally(clause), w, 0) {
      forall u: nat ensures StepFrom(triples, t1, n, k, w, sigma, u) {
        assert Sat(clause, w, u);
      }
    }
  }

  lemma StepsNext(triples: seq<Triple>, t1: nat, n: nat, k: nat, w: Word, sigma: nat)
    ensures StepsBelow(triples, t1, n, k, w, sigma + 1) <==>
              StepsBelow(triples, t1, n, k, w, sigma) && StepsFrom(triples, t1, n, k, w, sigma)
  {
    var next := sigma + 1;
    forall u: nat
      ensures StepAt(triples, t1, n, k, w, next, u) <==>
                StepAt(triples, t1, n, k, w, sigma, u) && StepFrom(triples, t1, n, k, w, sigma, u)
    {
    }
  }

  // The skeleton.

  function OutputNames(nRbits: nat, k: nat): seq<string> {
    seq(nRbits, j requires 0 <= j => RName(j)) + seq(k, i requires 0 <= i => DName(i))
  }

  method OutputList(n: nat, k: nat) returns (outs: seq<string>)
    ensures outs == OutputNames(n, k)
  {
    outs := [];
    for j := 0 to n
      invariant outs == OutputNames(j, 0)
    {
      outs := outs + [RName(j)];
    }
    for i := 0 to k
      invariant outs == OutputNames(n, i)
    {
      outs := outs + [DName(i)];
    }
  }

  /** (1) to (3) */
  method RelationClauses(triples: seq<Triple>, index: map<(int, int), set<int>>, t1: nat, k: nat, n: nat)
    returns (f: Option<Formula>)
    requires t1 <= Pow2(n) && MasksInRange(triples, k) && IsPairIndex(triples, |triples|, index)
    ensures forall w: Word :: SatAll(f, w, 0) <==>
              NoTypeIn(w, n, t1, Pow2(n)) && AdmittedBelow(triples, n, k, w, t1) && StepsBelow(triples, t1, n, k, w, t1)
  {
    var f1 := ValidityClauses(t1, n);
    var f2 := TypeClauses(f1, triples, t1, k, n);
    f := StepClauses(f2, triples, index, t1, k, n);
    forall w: Word
      ensures SatAll(f, w, 0) <==>
                NoTypeIn(w, n, t1, Pow2(n)) && AdmittedBelow(triples, n, k, w, t1)
                    && StepsBelow(triples, t1, n, k, w, t1)
    {
      assert SatAll(f2, w, 0) <==> SatAll(f1, w, 0) && AdmittedBelow(triples, n, k, w, t1);
    }
  }

  /** (3_0) The first step reads the initial memory. */
  method InitialClause(f: Option<Formula>, triples: seq<Triple>, index: map<(int, int), set<int>>, t1: nat, k: nat,
                       n: nat, init: int)
    returns (next: Option<Formula>)
    requires t1 <= Pow2(n) && MasksInRange(triples, k) && IsPairIndex(triples, |triples|, index)
    ensures forall w: Word :: SatAll(next, w, 0) <==>
              SatAll(f, w, 0) && (0 <= init < t1 ==> MovesBelow(triples, n, k, w, init, 0, t1))
  {
    next := f;
    if 0 <= init < t1 {
      var body := MovesFrom(init, triples, index, t1, k, n);
      if body.Some? { next := Conjoin(f, body.value); }
      forall w: Word ensures SatAll(next, w, 0) <==> SatAll(f, w, 0) && MovesBelow(triples, n, k, w, init, 0, t1) {
        assert SatAll(body, w, 0) <==> MovesBelow(triples, n, k, w, init, 0, t1);
      }
    }
  }

  /** The formula holds on exactly the words that follow the relation and satisfy phi*, whichever shapes
      its clauses took.  `init` is -1 for no initial memory. */
  method BuildSkeleton(t1: nat, k: nat, triples: seq<Triple>, phi: Option<Formula>, init: int) returns (b: Bundle)
    requires MasksInRange(triples, k)
    ensures b.t1 == t1 && b.k == k && b.nRbits >= 1 && t1 <= Pow2(b.nRbits)
            && (b.nRbits > 1 ==> Pow2(b.nRbits - 1) < t1)
    ensures b.outs == OutputNames(b.nRbits, k)
    ensures forall w: Word :: Sat(b.formula, w, 0) <==>
              FollowsRelation(triples, t1, b.nRbits, k, init, w) && SatAll(phi, w, 0)
  {
    var n := EncodingBits(t1, 1);
    var outs := OutputList(n, k);
    var index := IndexByPair(triples);
    var f3 := RelationClauses(triples, index, t1, k, n);
    var f4 := InitialClause(f3, triples, index, t1, k, n, init);
    var last := if phi.None? then True else phi.value;
    var f5 := Conjoin(f4, last);
    b := Bundle(f5.value, outs, n, t1, k);
    forall w: Word ensures Sat(b.formula, w, 0) <==> FollowsRelation(triples, t1, n, k, init, w) && SatAll(phi, w, 0) {
      ClausesMeanRelation(triples, t1, n, k, init, w);
      assert SatAll(f4, w, 0) <==> SatAll(f3, w, 0) && (0 <= init < t1 ==> MovesBelow(triples, n, k, w, init, 0, t1));
      assert Sat(last, w, 0) <==> SatAll(phi, w, 0);
    }
  }

  lemma ClausesMeanRelation(triples: seq<Triple>, t1: nat, n: nat, k: nat, init: int, w: Word)
    ensures FollowsRelation(triples, t1, n, k, init, w) <==>
              && NoTypeIn(w, n, t1, Pow2(n)) && AdmittedBelow(triples, n, k, w, t1)
                 && StepsBelow(triples, t1, n, k, w, t1)
              && (0 <= init < t1 ==> MovesBelow(triples, n, k, w, init, 0, t1))
  {
    if FollowsRelation(triples, t1, n, k, init, w) {
      forall u: nat ensures RhoOf(w, u, n) < t1 && AdmittedAt(triples, n, k, w, t1, u)
          && StepAt(triples, t1, n, k, w, t1, u) {
        assert TypeOk(triples, t1, n, k, w, u) && StepOk(triples, n, k, w, u);
      }
    }
    if && NoTypeIn(w, n, t1, Pow2(n)) && AdmittedBelow(triples, n, k, w, t1) && StepsBelow(triples, t1, n, k, w, t1)
       && (0 <= init < t1 ==> MovesBelow(triples, n, k, w, init, 0, t1)) {
      forall u: nat ensures TypeOk(triples, t1, n, k, w, u) {
        assert AdmittedAt(triples, n, k, w, t1, u);
      }
      forall u: nat ensures StepOk(triples, n, k, w, u) {
        var next := u + 1;
        assert TypeOk(triples, t1, n, k, w, u) && TypeOk(triples, t1, n, k, w, next);
        assert StepAt(triples, t1, n, k, w, t1, u);
      }
    }
  }
}
