/** Algorithms A and D agree: the moves that Algorithm A's formula admits are the moves that Algorithm
    D's feasibility table admits from the same initial memory. */
module SkeletonAgreement {
  import opened Bits
  import opened Names
  import opened DataGame
  import opened Ltl
  import opened Encoding
  import opened AlgorithmA
  import opened Options

  /** The relation handed to Algorithm A: one triple for each 3-type. */
  function TriplesOf(p: Problem): (triples: seq<Triple>)
    requires |p.typeA| == |p.t3|
    ensures |triples| == |p.t3|
  {
    seq(|p.t3|, t requires 0 <= t < |p.t3| => (p.t3[t].posM, p.t3[t].posY, p.typeA[t]))
  }

  lemma FeasibleIsTriple(p: Problem, rho: nat, rp: nat, d: nat)
    requires IsProblem(p)
    ensures Feasible(p, rho, rp, d) <==>
              rho < p.t1 && rp < p.t1 && d < Pow2(p.k) && (rho as int, rp as int, d as int) in TriplesOf(p)
  {
    var triples := TriplesOf(p);
    if (rho as int, rp as int, d as int) in triples {
      var t :| 0 <= t < |triples| && triples[t] == (rho as int, rp as int, d as int);
      assert p.t3[t].posM == rho && p.t3[t].posY == rp && p.typeA[t] == d;
    }
    if Feasible(p, rho, rp, d) {
      var t :| 0 <= t < |p.t3| && t < |p.typeA| && p.t3[t].posM == rho && p.t3[t].posY == rp && p.typeA[t] == d;
      assert triples[t] == (rho as int, rp as int, d as int);
    }
  }

  // A sequence of moves as a word.

  ghost predicate SpellsBit(name: nat -> string, n: nat, bits: nat, prop: string) {
    exists j: nat :: j < n && prop == name(j) && Bit(bits, j)
  }

  /** The word whose output bits spell the types `rho` and whose data propositions spell the patterns
      `mask`. */
  ghost function MovesWord(rho: nat -> nat, mask: nat -> nat, n: nat, k: nat): Word {
    (t: nat, prop: string) => SpellsBit(RName, n, rho(t), prop) || SpellsBit(DName, k, mask(t), prop)
  }

  lemma NamesDiffer(i: nat, j: nat)
    ensures RName(i) == RName(j) ==> i == j
    ensures DName(i) == DName(j) ==> i == j
    ensures RName(i) != DName(j)
  {
    DecimalValue(i);
    DecimalValue(j);
    assert RName(i)[2..] == Decimal(i) && RName(j)[2..] == Decimal(j);
    assert DName(i)[2..] == Decimal(i) && DName(j)[2..] == Decimal(j);
    assert RName(i)[0] == 'r' && DName(j)[0] == 'd';
  }

  lemma TypeBit(rho: nat, mask: nat, n: nat, k: nat, j: nat)
    requires j < n
    ensures SpellsBit(RName, n, rho, RName(j)) || SpellsBit(DName, k, mask, RName(j)) <==> Bit(rho, j)
  {
    forall i: nat ensures (RName(j) == RName(i) ==> i == j) && RName(j) != DName(i) {
      NamesDiffer(j, i);
    }
  }

  lemma PatternBit(rho: nat, mask: nat, n: nat, k: nat, j: nat)
    requires j < k
    ensures SpellsBit(RName, n, rho, DName(j)) || SpellsBit(DName, k, mask, DName(j)) <==> Bit(mask, j)
  {
    forall i: nat ensures (DName(j) == DName(i) ==> i == j) && DName(j) != RName(i) {
      NamesDiffer(i, j);
    }
  }

  lemma WordSpells(rho: nat -> nat, mask: nat -> nat, n: nat, k: nat, t: nat)
    requires rho(t) < Pow2(n) && mask(t) < Pow2(k)
    ensures RhoOf(MovesWord(rho, mask, n, k), t, n) == rho(t)
    ensures MaskOf(MovesWord(rho, mask, n, k), t, k) == mask(t)
  {
    var w := MovesWord(rho, mask, n, k);
    forall j: nat | j < n ensures w(t, RName(j)) <==> Bit(rho(t), j) {
      TypeBit(rho(t), mask(t), n, k, j);
    }
    forall j: nat | j < k ensures w(t, DName(j)) <==> Bit(mask(t), j) {
      PatternBit(rho(t), mask(t), n, k, j);
    }
    BitsAreValue(w, t, RName, n, rho(t));
    BitsAreValue(w, t, DName, k, mask(t));
  }

  /** The memory before step `t`: the type of the previous output. */
  function MemoryBefore(init: nat, rho: nat -> nat, t: nat): nat {
    if t == 0 then init else rho(t - 1)
  }

  ghost predicate TableAdmits(p: Problem, init: nat, rho: nat -> nat, mask: nat -> nat, t: nat) {
    Feasible(p, MemoryBefore(init, rho, t), rho(t), mask(t))
  }

  /** The word spells the moves. */
  ghost predicate Spelt(w: Word, n: nat, k: nat, rho: nat -> nat, mask: nat -> nat) {
    forall t: nat :: RhoOf(w, t, n) == rho(t) && MaskOf(w, t, k) == mask(t)
  }

  lemma RelationToTable(p: Problem, n: nat, init: nat, rho: nat -> nat, mask: nat -> nat, w: Word, t: nat)
    requires IsProblem(p) && init < p.t1 && Spelt(w, n, p.k, rho, mask)
    requires FollowsRelation(TriplesOf(p), p.t1, n, p.k, init, w)
    ensures TableAdmits(p, init, rho, mask, t)
  {
    var triples := TriplesOf(p);
    assert TypeOk(triples, p.t1, n, p.k, w, t);
    if t > 0 {
      var last := t - 1;
      assert StepOk(triples, n, p.k, w, last) && TypeOk(triples, p.t1, n, p.k, w, last);
    }
    FeasibleIsTriple(p, MemoryBefore(init, rho, t), rho(t), mask(t));
  }

  lemma TableToRelation(p: Problem, n: nat, init: nat, rho: nat -> nat, mask: nat -> nat, w: Word)
    requires IsProblem(p) && init < p.t1 && Spelt(w, n, p.k, rho, mask)
    requires forall t: nat :: TableAdmits(p, init, rho, mask, t)
    ensures FollowsRelation(TriplesOf(p), p.t1, n, p.k, init, w)
  {
    var triples := TriplesOf(p);
    forall t: nat ensures MoveOk(triples, n, p.k, w, MemoryBefore(init, rho, t), t) && rho(t) < p.t1 {
      assert TableAdmits(p, init, rho, mask, t);
      FeasibleIsTriple(p, MemoryBefore(init, rho, t), rho(t), mask(t));
    }
    forall t: nat ensures TypeOk(triples, p.t1, n, p.k, w, t) {
      assert MoveOk(triples, n, p.k, w, MemoryBefore(init, rho, t), t);
    }
    forall t: nat ensures StepOk(triples, n, p.k, w, t) {
      var next := t + 1;
      assert MoveOk(triples, n, p.k, w, MemoryBefore(init, rho, next), next);
    }
    assert MoveOk(triples, n, p.k, w, MemoryBefore(init, rho, 0), 0);
  }

  /** A sequence of moves satisfies Algorithm A's relation clauses, with the initial memory as its
      initial type, iff Algorithm D's table admits every move from the memory the moves before it left. */
  lemma RelationIsTable(p: Problem, n: nat, init: nat, rho: nat -> nat, mask: nat -> nat)
    requires IsProblem(p) && init < p.t1
    requires forall t: nat :: rho(t) < Pow2(n) && mask(t) < Pow2(p.k)
    ensures FollowsRelation(TriplesOf(p), p.t1, n, p.k, init, MovesWord(rho, mask, n, p.k)) <==>
              forall t: nat :: TableAdmits(p, init, rho, mask, t)
  {
    var w := MovesWord(rho, mask, n, p.k);
    forall t: nat ensures RhoOf(w, t, n) == rho(t) && MaskOf(w, t, p.k) == mask(t) {
      WordSpells(rho, mask, n, p.k, t);
    }
    if FollowsRelation(TriplesOf(p), p.t1, n, p.k, init, w) {
      forall t: nat ensures TableAdmits(p, init, rho, mask, t) {
        RelationToTable(p, n, init, rho, mask, w, t);
      }
    }
    if forall t: nat :: TableAdmits(p, init, rho, mask, t) {
      TableToRelation(p, n, init, rho, mask, w);
    }
  }

  /** Algorithm A built from Algorithm D's table, without phi*: its formula holds on a sequence of moves
      iff the table admits every move of the sequence. */
  method SkeletonOfTable(p: Problem, init: nat) returns (b: Bundle)
    requires IsProblem(p) && init < p.t1 && MasksInRange(TriplesOf(p), p.k)
    ensures p.t1 <= Pow2(b.nRbits)
    ensures forall rho: nat -> nat, mask: nat -> nat ::
              (forall t: nat :: rho(t) < Pow2(b.nRbits) && mask(t) < Pow2(p.k)) ==>
                (Sat(b.formula, MovesWord(rho, mask, b.nRbits, p.k), 0) <==>
                 forall t: nat :: TableAdmits(p, init, rho, mask, t))
  {
    b := BuildSkeleton(p.t1, p.k, TriplesOf(p), None, init);
    forall rho: nat -> nat, mask: nat -> nat | forall t: nat :: rho(t) < Pow2(b.nRbits) && mask(t) < Pow2(p.k)
      ensures Sat(b.formula, MovesWord(rho, mask, b.nRbits, p.k), 0) <==>
                forall t: nat :: TableAdmits(p, init, rho, mask, t)
    {
      RelationIsTable(p, b.nRbits, init, rho, mask);
    }
  }
}
