/** The synthesis game read from ltlsynt, the D-pattern an assignment carries, and the system's
    choices of a D-pattern together with an AP assignment. */
module SynthGame {
  import opened Bits
  import opened Names
  import opened Options

  /** An edge label: a Boolean expression over AP indices. */
  datatype Label = True | False | Ap(ap: nat) | Neg(arg: Label) | Conj(left: Label, right: Label)
      | Disj(left: Label, right: Label)

  /** A guard is None when its text is not a label; a colour is -1 for none. */
  datatype GameEdge = GameEdge(guard: Option<Label>, next: nat, color: int)

  datatype Game = Game(
    numStates: nat,
    init: nat,
    player: seq<int>,
    stateColor: seq<int>,
    trans: seq<seq<GameEdge>>,
    aps: seq<string>,
    controllable: seq<bool>,
    nColors: int,
    statePriority: seq<int>,
    edgePriority: seq<seq<int>>,
    accKnown: bool,
    accAcceptsUncolored: bool,
    multiColored: bool)

  ghost predicate IsGame(g: Game) {
    && |g.player| == |g.stateColor| == |g.trans| == |g.statePriority| == |g.edgePriority| == g.numStates
    && (forall q :: 0 <= q < g.numStates ==> g.player[q] == 0 || g.player[q] == 1)
    && (forall q :: 0 <= q < g.numStates ==> |g.edgePriority[q]| == |g.trans[q]|)
    && (forall q, j :: 0 <= q < g.numStates && 0 <= j < |g.trans[q]| ==> g.trans[q][j].next < g.numStates)
  }

  /** The value of a label when bit `i` of `a` is AP `i`; an AP outside the table is false. */
  predicate Eval(l: Label, nAps: nat, a: nat) {
    match l
    case True => true
    case False => false
    case Ap(i) => i < nAps && Bit(a, i)
    case Neg(x) => !Eval(x, nAps, a)
    case Conj(x, y) => Eval(x, nAps, a) && Eval(y, nAps, a)
    case Disj(x, y) => Eval(x, nAps, a) || Eval(y, nAps, a)
  }

  /** The data proposition below `k` that AP `ap` names, -1 for none. */
  ghost function NamedD(g: Game, k: nat, ap: nat): (d: int)
    ensures -1 <= d < k
  {
    if ap < |g.aps| && ap < |g.controllable| && g.controllable[ap] && 0 <= DIndex(g.aps[ap]) < k
    then DIndex(g.aps[ap]) else -1
  }

  /** Every data proposition is named by some AP. */
  ghost predicate AllNamed(g: Game, k: nat) {
    forall d: nat :: d < k ==> Mentioned(g, k, d)
  }

  ghost predicate Mentioned(g: Game, k: nat, d: nat) {
    exists ap: nat :: NamedD(g, k, ap) == d
  }

  // The D-pattern of an assignment.

  ghost predicate DBit(g: Game, k: nat, a: nat, n: nat, d: nat) {
    exists ap: nat {:trigger NamedD(g, k, ap)} :: ap < n && NamedD(g, k, ap) == d && Bit(a, ap)
  }

  /** The projection of an assignment on the data propositions: bit `d` is set iff some AP naming
      `d` is true. */
  ghost function DPattern(g: Game, k: nat, a: nat): (pat: nat)
    ensures pat < Pow2(k)
  {
    FromBits(k, (d: nat) => DBit(g, k, a, |g.aps|, d))
  }

  method DPatternFromAssignment(g: Game, k: nat, a: nat) returns (pat: nat)
    ensures pat == DPattern(g, k, a)
  {
    pat := 0;
    forall d: nat ensures !Bit(pat, d) { ZeroBits(d); }
    for ap := 0 to |g.aps|
      invariant pat < Pow2(k)
      invariant forall d: nat :: Bit(pat, d) <==> DBit(g, k, a, ap, d)
    {
      ghost var before := pat;
      if ap < |g.controllable| && g.controllable[ap] && Bit(a, ap) {
        var d := DIndexFromApName(g.aps[ap]);
        if 0 <= d < k {
          SetBitBound(pat, d, k);
          pat := SetBit(pat, d);
        }
      }
      forall d: nat ensures Bit(pat, d) <==> DBit(g, k, a, ap + 1, d) {
        DBitStep(g, k, a, ap, d);
        if 0 <= NamedD(g, k, ap) && Bit(a, ap) {
          SetBitBits(before, NamedD(g, k, ap), d);
        }
      }
    }
    forall d: nat | d < k ensures Bit(pat, d) <==> Bit(DPattern(g, k, a), d) {
      FromBitsBits(k, (d: nat) => DBit(g, k, a, |g.aps|, d), d);
    }
    SameBits(pat, DPattern(g, k, a), k);
  }

  lemma DBitStep(g: Game, k: nat, a: nat, ap: nat, d: nat)
    ensures DBit(g, k, a, ap + 1, d) <==> DBit(g, k, a, ap, d) || (NamedD(g, k, ap) == d && Bit(a, ap))
  {
  }

  // The system's choices.

  /** AP `ap` names the same data proposition as a later AP below `n`, whose index the table keeps. */
  ghost predicate Shadowed(g: Game, k: nat, ap: nat, n: nat) {
    exists x: nat {:trigger NamedD(g, k, x)} :: ap < x < n && NamedD(g, k, x) == NamedD(g, k, ap)
  }

  /** An AP that names a data proposition carries its D-bit (a shadowed one is false); every other AP
      is free, and so is the D-bit of a proposition that no AP names. */
  ghost predicate Agrees(g: Game, k: nat, d: nat, a: nat, ap: nat) {
    NamedD(g, k, ap) >= 0 ==> (Bit(a, ap) <==> !Shadowed(g, k, ap, |g.aps|) && Bit(d, NamedD(g, k, ap)))
  }

  ghost predicate IsChoice(g: Game, k: nat, d: nat, a: nat) {
    && d < Pow2(k) && a < Pow2(|g.aps|)
    && forall ap: nat :: ap < |g.aps| ==> Agrees(g, k, d, a, ap)
  }

  ghost predicate IsEntry(g: Game, k: nat, n: nat, apOfD: seq<Option<nat>>, d: nat, x: nat)
    requires d < |apOfD|
  {
    apOfD[d] == Some(x) <==> x < n && NamedD(g, k, x) == d && !Shadowed(g, k, x, n)
  }

  /** `apOfD` gives, for each data proposition, the last AP below `n` that names it. */
  ghost predicate IsTable(g: Game, k: nat, n: nat, apOfD: seq<Option<nat>>) {
    |apOfD| == k && forall d: nat, x: nat :: d < k ==> IsEntry(g, k, n, apOfD, d, x)
  }

  /** `other` lists the APs below `n` that name no data proposition, each once. */
  ghost predicate IsOthers(g: Game, k: nat, n: nat, other: seq<nat>) {
    && (forall i, j :: 0 <= i < j < |other| ==> other[i] != other[j])
    && (forall ap: nat {:trigger NamedD(g, k, ap)} :: ap in other <==> ap < n && NamedD(g, k, ap) < 0)
  }

  ghost predicate IsSplit(g: Game, k: nat, n: nat, apOfD: seq<Option<nat>>, other: seq<nat>) {
    n <= |g.aps| && IsTable(g, k, n, apOfD) && IsOthers(g, k, n, other)
  }

  lemma TableStep(g: Game, k: nat, n: nat, before: seq<Option<nat>>, after: seq<Option<nat>>)
    requires IsTable(g, k, n, before)
    requires after == if NamedD(g, k, n) >= 0 then before[NamedD(g, k, n) := Some(n)] else before
    ensures IsTable(g, k, n + 1, after)
  {
    var next := n + 1;
    forall d: nat, x: nat | d < k ensures IsEntry(g, k, next, after, d, x) {
      assert Shadowed(g, k, x, next) <==> Shadowed(g, k, x, n) || (x < n && NamedD(g, k, n) == NamedD(g, k, x));
      assert IsEntry(g, k, n, before, d, x);
    }
  }

  method SplitAps(g: Game, k: nat) returns (apOfD: seq<Option<nat>>, other: seq<nat>)
    ensures IsSplit(g, k, |g.aps|, apOfD, other)
  {
    apOfD, other := seq(k, _ => None), [];
    for ap := 0 to |g.aps|
      invariant IsTable(g, k, ap, apOfD) && IsOthers(g, k, ap, other)
    {
      ghost var before := apOfD;
      var ctrl := ap < |g.controllable| && g.controllable[ap];
      var d := -1;
      if ctrl { d := DIndexFromApName(g.aps[ap]); }
      if 0 <= d < k {
        apOfD := apOfD[d := Some(ap)];
      } else {
        other := other + [ap];
      }
      TableStep(g, k, ap, before, apOfD);
    }
  }

  /** Bit `ap` of the assignment once the D-bits below `i` are copied. */
  ghost predicate CopiedBit(apOfD: seq<Option<nat>>, d: nat, i: nat, ap: nat) {
    exists e: nat :: e < i && e < |apOfD| && apOfD[e] == Some(ap) && Bit(d, e)
  }

  ghost predicate SpreadBit(other: seq<nat>, o: nat, i: nat, ap: nat) {
    exists t: nat :: t < i && t < |other| && other[t] == ap && Bit(o, t)
  }

  /** The assignment of the D-pattern `d` and the values `o` of the other APs. */
  method ChoiceAssignment(g: Game, k: nat, apOfD: seq<Option<nat>>, other: seq<nat>, d: nat, o: nat) returns (a: nat)
    requires IsSplit(g, k, |g.aps|, apOfD, other)
    ensures a < Pow2(|g.aps|)
    ensures forall ap: nat :: Bit(a, ap) <==> CopiedBit(apOfD, d, k, ap) || SpreadBit(other, o, |other|, ap)
  {
    a := 0;
    forall ap: nat ensures !Bit(a, ap) { ZeroBits(ap); }
    for i := 0 to k
      invariant a < Pow2(|g.aps|)
      invariant forall ap: nat :: Bit(a, ap) <==> CopiedBit(apOfD, d, i, ap)
    {
      ghost var before := a;
      if Bit(d, i) && apOfD[i].Some? {
        var x := apOfD[i].value;
        assert IsEntry(g, k, |g.aps|, apOfD, i, x);
        SetBitBound(a, x, |g.aps|);
        a := SetBit(a, x);
        forall ap: nat ensures Bit(a, ap) <==> ap == x || Bit(before, ap) { SetBitBits(before, x, ap); }
      }
      forall ap: nat ensures CopiedBit(apOfD, d, i + 1, ap) <==>
            CopiedBit(apOfD, d, i, ap) || (apOfD[i] == Some(ap) && Bit(d, i)) {}
    }
    for t := 0 to |other|
      invariant a < Pow2(|g.aps|)
      invariant forall ap: nat :: Bit(a, ap) <==> CopiedBit(apOfD, d, k, ap) || SpreadBit(other, o, t, ap)
    {
      ghost var before := a;
      if Bit(o, t) {
        assert other[t] in other && NamedD(g, k, other[t]) < 0;
        SetBitBound(a, other[t], |g.aps|);
        a := SetBit(a, other[t]);
        forall ap: nat ensures Bit(a, ap) <==> ap == other[t] || Bit(before, ap) { SetBitBits(before, other[t], ap); }
      }
      forall ap: nat ensures SpreadBit(other, o, t + 1, ap) <==>
            SpreadBit(other, o, t, ap) || (other[t] == ap && Bit(o, t)) {}
    }
  }

  /** What `ChoiceAssignment` computes is a choice, and reads back `o` on the other APs. */
  lemma AssignmentIsChoice(g: Game, k: nat, apOfD: seq<Option<nat>>, other: seq<nat>, d: nat, o: nat, a: nat)
    requires IsSplit(g, k, |g.aps|, apOfD, other) && d < Pow2(k) && a < Pow2(|g.aps|)
    requires forall ap: nat :: Bit(a, ap) <==> CopiedBit(apOfD, d, k, ap) || SpreadBit(other, o, |other|, ap)
    ensures IsChoice(g, k, d, a)
    ensures forall t: nat :: t < |other| ==> (Bit(a, other[t]) <==> Bit(o, t))
  {
    forall ap: nat | ap < |g.aps| ensures Agrees(g, k, d, a, ap) {
      var e := NamedD(g, k, ap);
      if e >= 0 {
        assert !SpreadBit(other, o, |other|, ap);
        forall x: nat | x < k ensures apOfD[x] == Some(ap) <==> x == e && !Shadowed(g, k, ap, |g.aps|) {
          assert IsEntry(g, k, |g.aps|, apOfD, x, ap);
        }
        assert CopiedBit(apOfD, d, k, ap) <==> apOfD[e] == Some(ap) && Bit(d, e);
      }
    }
    forall t: nat | t < |other| ensures Bit(a, other[t]) <==> Bit(o, t) {
      forall x: nat | x < k ensures apOfD[x] != Some(other[t]) {
        assert IsEntry(g, k, |g.aps|, apOfD, x, other[t]);
      }
      assert Bit(o, t) ==> SpreadBit(other, o, |other|, other[t]);
    }
  }

  /** A choice is determined by its D-pattern and its values on the other APs. */
  lemma ChoiceIsDetermined(g: Game, k: nat, apOfD: seq<Option<nat>>, other: seq<nat>, d: nat, a: nat, b: nat)
    requires IsSplit(g, k, |g.aps|, apOfD, other) && IsChoice(g, k, d, a) && IsChoice(g, k, d, b)
    requires forall t: nat :: t < |other| ==> (Bit(a, other[t]) <==> Bit(b, other[t]))
    ensures a == b
  {
    forall ap: nat | ap < |g.aps| ensures Bit(a, ap) <==> Bit(b, ap) {
      assert Agrees(g, k, d, a, ap) && Agrees(g, k, d, b, ap);
      if NamedD(g, k, ap) < 0 {
        assert ap in other;
      }
    }
    SameBits(a, b, |g.aps|);
  }

  /** The row of the system's choices with D-pattern `d`. */
  ghost predicate IsRow(g: Game, k: nat, d: nat, row: seq<(nat, nat)>) {
    && (forall x: nat, a: nat :: (x, a) in row <==> x == d && IsChoice(g, k, d, a))
    && (forall i, j :: 0 <= i < j < |row| ==> row[i] != row[j])
  }

  method ChoicesOfPattern(g: Game, k: nat, apOfD: seq<Option<nat>>, other: seq<nat>, d: nat)
    returns (row: seq<(nat, nat)>)
    requires IsSplit(g, k, |g.aps|, apOfD, other) && d < Pow2(k)
    ensures |row| == Pow2(|other|) && IsRow(g, k, d, row)
  {
    row := [];
    for o := 0 to Pow2(|other|)
      invariant |row| == o
      invariant forall i :: 0 <= i < o ==> row[i].0 == d && IsChoice(g, k, d, row[i].1)
      invariant forall i: nat, t: nat :: i < o && t < |other| ==> (Bit(row[i].1, other[t]) <==> Bit(i, t))
    {
      var a := ChoiceAssignment(g, k, apOfD, other, d, o);
      AssignmentIsChoice(g, k, apOfD, other, d, o, a);
      row := row + [(d, a)];
    }
    forall x: nat, a: nat | x == d && IsChoice(g, k, d, a) ensures (x, a) in row {
      var f := (t: nat) => t < |other| && Bit(a, other[t]);
      var o := FromBits(|other|, f);
      forall t: nat | t < |other| ensures Bit(a, other[t]) <==> Bit(row[o].1, other[t]) {
        FromBitsBits(|other|, f, t);
      }
      ChoiceIsDetermined(g, k, apOfD, other, d, a, row[o].1);
      assert row[o] == (x, a);
    }
    forall i, j | 0 <= i < j < |row| ensures row[i] != row[j] {
      if row[i] == row[j] {
        forall t: nat | t < |other| ensures Bit(i, t) <==> Bit(j, t) {
          assert Bit(row[i].1, other[t]) <==> Bit(i, t);
          assert Bit(row[j].1, other[t]) <==> Bit(j, t);
        }
        SameBits(i, j, |other|);
      }
    }
  }

  /** Every pair (D-pattern, AP assignment) the system may pick, each exactly once: 2^K patterns times
      the assignments of the APs that name no data proposition. */
  method SysChoices(g: Game, k: nat) returns (out: seq<(nat, nat)>, ghost others: nat)
    ensures forall d: nat, a: nat :: (d, a) in out <==> IsChoice(g, k, d, a)
    ensures forall i, j :: 0 <= i < j < |out| ==> out[i] != out[j]
    ensures |out| == Pow2(k + others)
    ensures exists other: seq<nat> :: |other| == others && IsOthers(g, k, |g.aps|, other)
  {
    var apOfD, other := SplitAps(g, k);
    others := |other|;
    assert IsOthers(g, k, |g.aps|, other);
    out := [];
    for d := 0 to Pow2(k)
      invariant |out| == d * Pow2(|other|)
      invariant forall x: nat, a: nat :: (x, a) in out <==> x < d && IsChoice(g, k, x, a)
      invariant forall i, j :: 0 <= i < j < |out| ==> out[i] != out[j]
    {
      var row := ChoicesOfPattern(g, k, apOfD, other, d);
      forall i, j | 0 <= i < |out| && 0 <= j < |row| ensures out[i] != row[j] {
        assert (out[i].0, out[i].1) in out && (row[j].0, row[j].1) in row;
      }
      out := out + row;
    }
    Pow2Add(k, |other|);
  }

  /** The last AP below `n` that names `e`. */
  lemma {:induction false} LastNaming(g: Game, k: nat, e: nat, x: nat, n: nat) returns (last: nat)
    requires x < n && NamedD(g, k, x) == e
    ensures last < n && NamedD(g, k, last) == e && !Shadowed(g, k, last, n)
    decreases n - x
  {
    if Shadowed(g, k, x, n) {
      var y: nat :| x < y < n && NamedD(g, k, y) == e;
      last := LastNaming(g, k, e, y, n);
    } else {
      last := x;
    }
  }

  lemma ChoiceCarriesItsPattern(g: Game, k: nat, d: nat, a: nat)
    requires AllNamed(g, k) && IsChoice(g, k, d, a)
    ensures DPattern(g, k, a) == d
  {
    var f := (e: nat) => DBit(g, k, a, |g.aps|, e);
    forall e: nat | e < k ensures Bit(DPattern(g, k, a), e) <==> Bit(d, e) {
      FromBitsBits(k, f, e);
      assert Mentioned(g, k, e);
      var x: nat :| NamedD(g, k, x) == e;
      var last := LastNaming(g, k, e, x, |g.aps|);
      assert Agrees(g, k, d, a, last);
      forall ap: nat | ap < |g.aps| && NamedD(g, k, ap) == e && Bit(a, ap) ensures Bit(d, e) {
        assert Agrees(g, k, d, a, ap);
      }
    }
    SameBits(DPattern(g, k, a), d, k);
  }

  /** A data proposition no AP names is still chosen true by the system, and reads false in the pattern
      the environment's filter takes from the same assignment. */
  lemma UnmentionedDiffers(g: Game, k: nat, e: nat) returns (d: nat, a: nat)
    requires e < k && !Mentioned(g, k, e)
    ensures IsChoice(g, k, d, a) && DPattern(g, k, a) != d
  {
    d, a := SetBit(0, e), 0;
    SetBitBound(0, e, k);
    SetBitBits(0, e, e);
    forall ap: nat | ap < |g.aps| ensures Agrees(g, k, d, a, ap) {
      ZeroBits(ap);
      if NamedD(g, k, ap) >= 0 {
        SetBitBits(0, e, NamedD(g, k, ap));
        ZeroBits(NamedD(g, k, ap));
      }
    }
    FromBitsBits(k, (x: nat) => DBit(g, k, a, |g.aps|, x), e);
  }

  /** The system's choice of data and the environment's reading of it agree on every choice exactly
      when every data proposition is an AP of the game. */
  lemma PatternsAgreeIffAllNamed(g: Game, k: nat)
    ensures (forall d: nat, a: nat :: IsChoice(g, k, d, a) ==> DPattern(g, k, a) == d) <==> AllNamed(g, k)
  {
    if AllNamed(g, k) {
      forall d: nat, a: nat | IsChoice(g, k, d, a) ensures DPattern(g, k, a) == d {
        ChoiceCarriesItsPattern(g, k, d, a);
      }
    } else {
      var e: nat :| e < k && !Mentioned(g, k, e);
      var d, a := UnmentionedDiffers(g, k, e);
    }
  }
}
