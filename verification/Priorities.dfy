/** The priorities of a parsed game: from the colours and the acceptance name to the solver's
    convention that the greatest recurring priority decides, odd for the system. */
module Priorities {
  import opened Acceptance
  import opened Recurrence

  /** The acc-name item; Other is any other name, or none. */
  datatype AccName = All | Buchi | CoBuchi | Parity(min: bool, even: bool) | Other

  /** The priority of a colour. */
  function ColorPriority(name: AccName, k: int, c: int): int {
    match name
    case All => 1
    case Buchi => if c == 0 then 1 else 0
    case CoBuchi => if c == 0 then 2 else 1
    case Parity(min, even) =>
      var p := if min then k - 1 - c else c;
      var winEvenAfter := if min then (if (k - 1) % 2 == 0 then even else !even) else even;
      if winEvenAfter then p + 1 else p
    case Other => c
  }

  /** The priority of a state: uncoloured states have one too. */
  function StatePriorityOf(name: AccName, k: int, c: int): int {
    match name
    case All => 1
    case Buchi => if c == 0 then 1 else 0
    case CoBuchi => if c == 0 then 2 else 1
    case _ => if c >= 0 then ColorPriority(name, k, c) else 0
  }

  /** The priority of an edge: -1 without a colour. */
  function EdgePriorityOf(name: AccName, k: int, c: int): int {
    if c < 0 then -1 else ColorPriority(name, k, c)
  }

  /** Index of the first character that is no space, tab or CR. */
  function FirstText(s: string, i: nat): (j: nat)
    requires i <= |s|
    ensures i <= j <= |s|
    decreases |s| - i
  {
    if i < |s| && (s[i] == ' ' || s[i] == '\t' || s[i] == '\r') then FirstText(s, i + 1) else i
  }

  /** A header without an acc-name whose condition is `0 t` reads as `all`. */
  function EffectiveName(name: AccName, k: int, cond: string): AccName {
    if name == Other && k == 0 && FirstText(cond, 0) < |cond| && cond[FirstText(cond, 0)] == 't' then All else name
  }

  /** The priority part of the parsed game. */
  datatype Scored = Scored(statePriority: seq<int>, edgePriority: seq<seq<int>>, accKnown: bool,
                           accAcceptsUncolored: bool)

  ghost predicate IsScored(name: AccName, k: int, cond: string, stateColor: seq<int>, edgeColor: seq<seq<int>>,
                           r: Scored) {
    var eff := EffectiveName(name, k, cond);
    && |r.statePriority| == |stateColor| && |r.edgePriority| == |edgeColor|
    && (forall q :: 0 <= q < |stateColor| ==> r.statePriority[q] == StatePriorityOf(eff, k, stateColor[q]))
    && (forall q :: 0 <= q < |edgeColor| ==> |r.edgePriority[q]| == |edgeColor[q]|)
    && (forall q, j :: 0 <= q < |edgeColor| && 0 <= j < |edgeColor[q]| ==>
          r.edgePriority[q][j] == EdgePriorityOf(eff, k, edgeColor[q][j]))
    && r.accKnown == (eff != Other && ReadWithoutColors(cond).Value?)
    && r.accAcceptsUncolored == (r.accKnown && ReadWithoutColors(cond).value)
  }

  /** Computes the priorities of all states and edges, and what a run without recurring colours is
      worth. */
  method ComputePriorities(name: AccName, k: int, cond: string, stateColor: seq<int>, edgeColor: seq<seq<int>>)
    returns (r: Scored)
    ensures IsScored(name, k, cond, stateColor, edgeColor, r)
  {
    var eff := name;
    if name == Other && k == 0 {
      var first := FirstText(cond, 0);
      if first < |cond| && cond[first] == 't' { eff := All; }
    }
    var known, uncolored := false, false;
    if eff != Other {
      var empty := AcceptanceWithoutColors(cond);
      known := empty.Value?;
      if empty.Value? { uncolored := empty.value; }
    }
    var sp: seq<int>, ep: seq<seq<int>> := [], [];
    for q := 0 to |stateColor|
      invariant |sp| == q && forall x :: 0 <= x < q ==> sp[x] == StatePriorityOf(eff, k, stateColor[x])
    {
      sp := sp + [StatePriorityOf(eff, k, stateColor[q])];
    }
    for q := 0 to |edgeColor|
      invariant |ep| == q && forall x :: 0 <= x < q ==> |ep[x]| == |edgeColor[x]|
      invariant forall x, j :: 0 <= x < q && 0 <= j < |edgeColor[x]| ==>
                  ep[x][j] == EdgePriorityOf(eff, k, edgeColor[x][j])
    {
      var row: seq<int> := [];
      for j := 0 to |edgeColor[q]|
        invariant |row| == j && forall x :: 0 <= x < j ==> row[x] == EdgePriorityOf(eff, k, edgeColor[q][x])
      {
        row := row + [EdgePriorityOf(eff, k, edgeColor[q][j])];
      }
      ep := ep + [row];
    }
    r := Scored(sp, ep, known, uncolored);
  }

  // The canonical conditions of the HOA format.

  predicate Winning(even: bool, c: nat) {
    (c % 2 == 0) == even
  }

  /** parity max over the colours 0..c */
  function MaxTree(even: bool, c: nat): Acc {
    if c == 0 then (if Winning(even, 0) then Inf(0) else Fin(0))
    else if Winning(even, c) then Or(Inf(c), MaxTree(even, c - 1))
    else And(Fin(c), MaxTree(even, c - 1))
  }

  /** parity min over the colours c..k-1 */
  function MinTree(even: bool, c: nat, k: nat): Acc
    requires c < k
    decreases k - c
  {
    if c == k - 1 then (if Winning(even, c) then Inf(c) else Fin(c))
    else if Winning(even, c) then Or(Inf(c), MinTree(even, c + 1, k))
    else And(Fin(c), MinTree(even, c + 1, k))
  }

  /** `acc` is the canonical condition of `name` with `k` colours; parity without colours may be either
      constant. */
  ghost predicate IsCanonical(name: AccName, k: nat, acc: Acc) {
    match name
    case All => k == 0 && acc == T
    case Buchi => k == 1 && acc == Inf(0)
    case CoBuchi => k == 1 && acc == Fin(0)
    case Parity(min, even) =>
      if k == 0 then acc == T || acc == F
      else acc == if min then MinTree(even, 0, k) else MaxTree(even, k - 1)
    case Other => false
  }

  /** Without recurring colours among 0..c the max tree has the value its last leaf gives it. */
  lemma {:induction false} MaxTreeMeaning(even: bool, c: nat, seen: nat -> bool, x: nat)
    requires x <= c && seen(x) && forall y: nat :: x < y <= c ==> !seen(y)
    ensures Holds(MaxTree(even, c), seen) <==> Winning(even, x)
  {
    if x < c {
      MaxTreeMeaning(even, c - 1, seen, x);
    } else if c > 0 && !Winning(even, c) {
      assert !Holds(Fin(c), seen);
    }
  }

  lemma {:induction false} MinTreeMeaning(even: bool, c: nat, k: nat, seen: nat -> bool, x: nat)
    requires c <= x < k && seen(x) && forall y: nat :: c <= y < x ==> !seen(y)
    ensures Holds(MinTree(even, c, k), seen) <==> Winning(even, x)
    decreases k - c
  {
    if c < x {
      MinTreeMeaning(even, c + 1, k, seen, x);
    } else if c < k - 1 && !Winning(even, c) {
      assert !Holds(Fin(c), seen);
    }
  }

  // Runs.

  /** The weight of a state or an edge of a parsed game: two above the priority of its colour, so that
      any colour dominates the weight of a run without recurring colours. */
  function Lift(name: AccName, k: int, c: int): int {
    ColorPriority(name, k, c) + 2
  }

  ghost predicate Seen(sc: nat -> int, ec: nat -> int, c: int) {
    Recurs(sc, c) || Recurs(ec, c)
  }

  ghost function SeenColors(sc: nat -> int, ec: nat -> int): nat -> bool {
    (c: nat) => Seen(sc, ec, c)
  }

  ghost predicate Accepts(acc: Acc, sc: nat -> int, ec: nat -> int) {
    Holds(acc, SeenColors(sc, ec))
  }

  ghost predicate ColorsBelow(k: nat, w: nat -> int) {
    forall t: nat :: -1 <= w(t) < k
  }

  /** The weights `sw` and `ew` of a run with state colours `sc` and edge colours `ec`. */
  ghost predicate Weighted(name: AccName, k: nat, base: int, sc: nat -> int, ec: nat -> int, sw: nat -> int,
                           ew: nat -> int) {
    && ColorsBelow(k, sc) && ColorsBelow(k, ec)
    && (forall t: nat :: sw(t) == if sc(t) < 0 then base else Lift(name, k, sc(t)))
    && (forall t: nat :: ew(t) == if ec(t) < 0 then -1 else Lift(name, k, ec(t)))
  }

  /** Distinct colours of a canonical condition have distinct weights, all of them at least 2. */
  lemma LiftIsInjective(name: AccName, k: nat, acc: Acc, c: nat, d: nat)
    requires IsCanonical(name, k, acc) && c < k && d < k
    ensures Lift(name, k, c) >= 2 && (Lift(name, k, c) == Lift(name, k, d) ==> c == d)
  {
  }

  /** Every colour weighs more than a run without recurring colours. */
  lemma LiftBounds(name: AccName, k: nat, c: nat)
    requires c < k
    ensures 2 <= Lift(name, k, c) <= k + 4
  {
  }

  // What a header's priorities make of its condition.

  /** `x` is a colour of greatest weight among the colours `seen`. */
  ghost predicate IsGreatest(name: AccName, k: nat, seen: nat -> bool, x: nat) {
    x < k && seen(x) && forall y: nat :: seen(y) ==> y < k && Lift(name, k, y) <= Lift(name, k, x)
  }

  /** The condition holds for a set of recurring colours, not empty, iff the greatest weight among them is
      odd. */
  ghost predicate Scores(name: AccName, k: nat, acc: Acc) {
    forall seen: nat -> bool, x: nat :: IsGreatest(name, k, seen, x) ==>
          (Holds(acc, seen) <==> Lift(name, k, x) % 2 == 1)
  }

  /** From step `n` on, a step of weight `top` has a colour below `c`. */
  ghost predicate TopColorsBelow(cw: nat -> int, w: nat -> int, top: int, c: nat, n: nat) {
    forall t: nat :: n <= t && w(t) == top ==> 0 <= cw(t) < c
  }

  /** There are finitely many colours, so one of them recurs with a weight that recurs. */
  lemma {:induction false} RecurringWeight(name: AccName, k: nat, cw: nat -> int, w: nat -> int, other: int, top: int,
                                           c: nat, n: nat) returns (x: nat)
    requires c <= k && Recurs(w, top) && TopColorsBelow(cw, w, top, c, n)
    requires forall t: nat :: w(t) == if cw(t) < 0 then other else Lift(name, k, cw(t))
    ensures x < k && Recurs(cw, x) && Lift(name, k, x) == top
    decreases c
  {
    assert HitsFrom(w, top, n);
    if Lift(name, k, c - 1) != top {
      x := RecurringWeight(name, k, cw, w, other, top, c - 1, n);
    } else if Recurs(cw, c - 1) {
      x := c - 1;
    } else {
      var m: nat :| !HitsFrom(cw, c - 1, m);
      x := RecurringWeight(name, k, cw, w, other, top, c - 1, if m < n then n else m);
    }
  }

  lemma RecurringColor(name: AccName, k: nat, cw: nat -> int, w: nat -> int, other: int, x: nat, top: int, m: nat)
    requires x < k && Recurs(cw, x) && BoundedFrom(w, top, m)
    requires forall t: nat :: w(t) == if cw(t) < 0 then other else Lift(name, k, cw(t))
    ensures Lift(name, k, x) <= top
  {
    assert HitsFrom(cw, x, m);
    var i: nat :| m <= i && cw(i) == x;
    assert w(i) <= top;
  }

  /** Every recurring colour weighs at most the dominant weight. */
  lemma SeenIsBounded(name: AccName, k: nat, base: int, sc: nat -> int, ec: nat -> int, sw: nat -> int, ew: nat -> int,
                      top: int, x: nat)
    requires Weighted(name, k, base, sc, ec, sw, ew) && PairDominates(sw, ew, top) && x < k && Seen(sc, ec, x)
    ensures Lift(name, k, x) <= top
  {
    var m: nat :| BoundedFrom(sw, top, m) && BoundedFrom(ew, top, m);
    if Recurs(sc, x) {
      RecurringColor(name, k, sc, sw, base, x, top, m);
    } else {
      RecurringColor(name, k, ec, ew, -1, x, top, m);
    }
  }

  lemma SeenIsColor(k: nat, sc: nat -> int, ec: nat -> int, x: nat)
    requires ColorsBelow(k, sc) && ColorsBelow(k, ec) && Seen(sc, ec, x)
    ensures x < k
  {
    assert Recurs(sc, x) ==> HitsFrom(sc, x, 0);
    assert Recurs(ec, x) ==> HitsFrom(ec, x, 0);
    var t: nat :| sc(t) == x || ec(t) == x;
    assert sc(t) < k && ec(t) < k;
  }

  /** Priority normalisation preserves meaning: if the priorities score the condition, a run is accepted
      iff its greatest recurring weight is odd.  A run that sees no colour infinitely often follows the base
      weight, 1 iff the condition holds for such a run. */
  lemma WeightDecidesAcceptance(name: AccName, k: nat, acc: Acc, sc: nat -> int, ec: nat -> int,
                                base: int, sw: nat -> int, ew: nat -> int, top: int)
    requires Scores(name, k, acc) && base == if Uncolored(acc) then 1 else 0
    requires Weighted(name, k, base, sc, ec, sw, ew) && PairDominates(sw, ew, top)
    ensures Accepts(acc, sc, ec) <==> top % 2 == 1
  {
    hide Lift;
    if top < 2 {
      NoColorSeen(name, k, sc, ec, base, sw, ew, top);
      UncoloredHolds(acc, SeenColors(sc, ec));
    } else {
      var x: nat;
      if Recurs(sw, top) {
        x := RecurringWeight(name, k, sc, sw, base, top, k, 0);
      } else {
        x := RecurringWeight(name, k, ec, ew, -1, top, k, 0);
      }
      forall y: nat | Seen(sc, ec, y) ensures y < k && Lift(name, k, y) <= Lift(name, k, x) {
        SeenIsColor(k, sc, ec, y);
        SeenIsBounded(name, k, base, sc, ec, sw, ew, top, y);
      }
      assert IsGreatest(name, k, SeenColors(sc, ec), x);
    }
  }

  lemma NoColorSeen(name: AccName, k: nat, sc: nat -> int, ec: nat -> int,
                    base: int, sw: nat -> int, ew: nat -> int, top: int)
    requires 0 <= base <= 1
    requires Weighted(name, k, base, sc, ec, sw, ew) && PairDominates(sw, ew, top) && top < 2
    ensures top == base && forall x: nat :: !Seen(sc, ec, x)
  {
    hide Lift;
    forall x: nat ensures !Seen(sc, ec, x) {
      if Seen(sc, ec, x) {
        SeenIsColor(k, sc, ec, x);
        LiftBounds(name, k, x);
        SeenIsBounded(name, k, base, sc, ec, sw, ew, top, x);
      }
    }
    forall c: nat | c < k ensures Lift(name, k, c) >= 2 { LiftBounds(name, k, c); }
    var n: nat :| BoundedFrom(sw, top, n) && BoundedFrom(ew, top, n);
    assert -1 <= sc(n) < k && sw(n) <= top;
    assert Recurs(sw, top) ==> HitsFrom(sw, top, n);
    assert Recurs(ew, top) ==> HitsFrom(ew, top, n);
    var i: nat :| n <= i && (sw(i) == top || ew(i) == top);
    assert -1 <= sc(i) < k && -1 <= ec(i) < k;
  }

  lemma BuchiDecides(k: nat, acc: Acc, seen: nat -> bool, x: nat)
    requires IsCanonical(Buchi, k, acc) && x < k && seen(x)
    requires forall y: nat :: seen(y) ==> y < k && Lift(Buchi, k, y) <= Lift(Buchi, k, x)
    ensures Holds(acc, seen) <==> Lift(Buchi, k, x) % 2 == 1
  {
  }

  lemma CoBuchiDecides(k: nat, acc: Acc, seen: nat -> bool, x: nat)
    requires IsCanonical(CoBuchi, k, acc) && x < k && seen(x)
    requires forall y: nat :: seen(y) ==> y < k && Lift(CoBuchi, k, y) <= Lift(CoBuchi, k, x)
    ensures Holds(acc, seen) <==> Lift(CoBuchi, k, x) % 2 == 1
  {
  }

  lemma MinDecides(even: bool, k: nat, acc: Acc, seen: nat -> bool, x: nat)
    requires IsCanonical(Parity(true, even), k, acc) && x < k && seen(x)
    requires forall y: nat :: seen(y) ==> y < k && Lift(Parity(true, even), k, y) <= Lift(Parity(true, even), k, x)
    ensures Holds(acc, seen) <==> Lift(Parity(true, even), k, x) % 2 == 1
  {
    forall y: nat | y < x ensures !seen(y) {}
    MinTreeMeaning(even, 0, k, seen, x);
  }

  lemma MaxDecides(even: bool, k: nat, acc: Acc, seen: nat -> bool, x: nat)
    requires IsCanonical(Parity(false, even), k, acc) && x < k && seen(x)
    requires forall y: nat :: seen(y) ==> y < k && Lift(Parity(false, even), k, y) <= Lift(Parity(false, even), k, x)
    ensures Holds(acc, seen) <==> Lift(Parity(false, even), k, x) % 2 == 1
  {
    hide Holds, MaxTree;
    forall y: nat | x < y <= k - 1 ensures !seen(y) {}
    MaxTreeMeaning(even, k - 1, seen, x);
  }

  /** The recurring colour with the greatest priority decides the condition. */
  lemma DominantColorDecides(name: AccName, k: nat, acc: Acc, seen: nat -> bool, x: nat)
    requires IsCanonical(name, k, acc) && x < k && seen(x)
    requires forall y: nat :: seen(y) ==> y < k && Lift(name, k, y) <= Lift(name, k, x)
    ensures Holds(acc, seen) <==> Lift(name, k, x) % 2 == 1
  {
    hide Lift, Holds;
    match name
    case All =>
    case Buchi => BuchiDecides(k, acc, seen, x);
    case CoBuchi => CoBuchiDecides(k, acc, seen, x);
    case Parity(min, even) =>
      if min { MinDecides(even, k, acc, seen, x); } else { MaxDecides(even, k, acc, seen, x); }
  }

  /** The priorities of a name score its canonical condition. */
  lemma CanonicalScores(name: AccName, k: nat, acc: Acc)
    requires IsCanonical(name, k, acc)
    ensures Scores(name, k, acc)
  {
    hide Lift, Holds;
    forall seen: nat -> bool, x: nat | IsGreatest(name, k, seen, x)
      ensures Holds(acc, seen) <==> Lift(name, k, x) % 2 == 1
    {
      DominantColorDecides(name, k, acc, seen, x);
    }
  }
}
