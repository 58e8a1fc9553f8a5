/** The deletion-based core of a conflicting specification, with anchors that keep the start of the
    always part while conjuncts are dropped. */
module UnsatCore {
  import opened StartRule

  predicate IsConjunct(c: Wff) {
    c.Leaf? || c.Anchor? || c.Always?
  }

  /** An always conjunct that reads less far back than `k` gets an anchor there, if it reads a stream at a
      moving step at all. */
  function Anchored<B, T>(r: Reading<B, T>, c: Wff, k: nat): Wff {
    if c.Always? && Lookback(r, c.arg) < k && Moving(r, c.arg) then Always(Both(c.arg, Anchor(k))) else c
  }

  function AnchoredAll<B, T>(r: Reading<B, T>, cs: seq<Wff>, k: nat): (ks: seq<Wff>)
    ensures |ks| == |cs| && forall i :: 0 <= i < |cs| ==> ks[i] == Anchored(r, cs[i], k)
  {
    seq(|cs|, i requires 0 <= i < |cs| => Anchored(r, cs[i], k))
  }

  /** An anchor changes where a conjunct starts, not what it asks. */
  lemma AnchoredHolds<B, T>(r: Reading<B, T>, c: Wff, k: nat, start: nat, tr: T)
    ensures HoldsFrom(r, Anchored(r, c, k), start, tr) <==> HoldsFrom(r, c, start, tr)
  {
    if Anchored(r, c, k) != c {
      var b := c.arg;
      forall u: nat ensures Means(r, Both(b, Anchor(k)), tr, u) <==> Means(r, b, tr, u) {}
      assert MeansFrom(r, Both(b, Anchor(k)), tr, start) <==> MeansFrom(r, b, tr, start);
    }
  }

  /** What reads fixed steps only has no lookback and says the same at every step. */
  lemma {:induction false} FixedSteps<B(!new), T(!new)>(r: Reading<B, T>, f: Wff, tr: T, t: nat, u: nat)
    requires IsReading(r) && !Moving(r, f)
    ensures Lookback(r, f) == 0 && (Means(r, f, tr, t) <==> Means(r, f, tr, u))
    decreases f
  {
    match f
    case Leaf(id) =>
    case Paren(g) => FixedSteps(r, g, tr, t, u);
    case Both(g, h) => FixedSteps(r, g, tr, t, u); FixedSteps(r, h, tr, t, u);
    case Always(g) =>
      FixedSteps(r, g, tr, t, u);
      forall x: nat, y: nat ensures Means(r, g, tr, x) <==> Means(r, g, tr, y) {
        FixedSteps(r, g, tr, x, y);
      }
      FixedAlways(r, g, tr, t);
      FixedAlways(r, g, tr, u);
  }

  lemma FixedAlways<B(!new), T(!new)>(r: Reading<B, T>, g: Wff, tr: T, t: nat)
    requires forall x: nat, y: nat :: Means(r, g, tr, x) <==> Means(r, g, tr, y)
    ensures Means(r, Always(g), tr, t) <==> Means(r, g, tr, 0)
  {
    AlwaysIsMeansFrom(r, g, tr, t);
    forall x: nat ensures Means(r, g, tr, x) <==> Means(r, g, tr, 0) {}
    if MeansFrom(r, g, tr, t) {
      assert Means(r, g, tr, t);
    }
  }

  /** A conjunct that the start cannot move: no always, or an always of fixed steps. */
  lemma StartFree<B(!new), T(!new)>(r: Reading<B, T>, c: Wff, j: nat, k: nat, tr: T)
    requires IsReading(r) && IsConjunct(c) && (c.Always? ==> !Moving(r, c.arg))
    ensures HoldsFrom(r, c, j, tr) <==> HoldsFrom(r, c, k, tr)
  {
    if c.Always? {
      forall x: nat, y: nat ensures Means(r, c.arg, tr, x) <==> Means(r, c.arg, tr, y) {
        FixedSteps(r, c.arg, tr, x, y);
      }
      assert MeansFrom(r, c.arg, tr, j) ==> Means(r, c.arg, tr, j);
      assert MeansFrom(r, c.arg, tr, k) ==> Means(r, c.arg, tr, k);
      forall x: nat ensures Means(r, c.arg, tr, x) <==> Means(r, c.arg, tr, j) {}
    }
  }

  // Subsets of the anchored conjuncts.

  /** Every element of `part` is an anchored conjunct of a specification of depth `k`. */
  ghost predicate PartOf<B, T>(r: Reading<B, T>, part: seq<Wff>, k: nat) {
    forall i :: 0 <= i < |part| ==> IsPart(r, part[i], k)
  }

  ghost predicate IsPart<B, T>(r: Reading<B, T>, c: Wff, k: nat) {
    IsConjunct(c) && Depth(r, c) <= k && (c.Always? && Moving(r, c.arg) ==> Depth(r, c) == k)
  }

  lemma AnchoredIsPart<B(!new), T(!new)>(r: Reading<B, T>, c: Wff, k: nat)
    requires IsReading(r) && IsConjunct(c) && Depth(r, c) <= k
    ensures IsPart(r, Anchored(r, c, k), k)
  {
    if c.Always? {
      assert Depth(r, c) == Lookback(r, c.arg);
      var b := Both(c.arg, Anchor(k));
      assert Lookback(r, b) == Max(Lookback(r, c.arg), Lookback(r, Anchor(k))) == k;
      assert Depth(r, Always(b)) == Lookback(r, b);
    }
  }

  lemma {:induction false} DepthOfPart<B, T>(r: Reading<B, T>, part: seq<Wff>, k: nat)
    requires PartOf(r, part, k)
    ensures DepthOfAll(r, part) <= k
    ensures (exists i :: 0 <= i < |part| && Depth(r, part[i]) == k) ==> DepthOfAll(r, part) == k
    decreases |part|
  {
    if part != [] {
      var init := part[..|part| - 1];
      forall i | 0 <= i < |init| ensures IsPart(r, init[i], k) { assert init[i] == part[i]; }
      DepthOfPart(r, init, k);
      assert IsPart(r, part[|part| - 1], k);
      if i :| 0 <= i < |part| && Depth(r, part[i]) == k {
        assert i < |part| - 1 ==> init[i] == part[i];
      }
    }
  }

  /** However many conjuncts are dropped, the always part of the rest is asked from step `k` on. */
  lemma PartStartsAtDepth<B(!new), T(!new)>(r: Reading<B, T>, part: seq<Wff>, k: nat, tr: T)
    requires IsReading(r) && PartOf(r, part, k)
    ensures ListHolds(r, part, tr) <==> AllHoldFrom(r, part, k, tr)
  {
    var d := DepthOfAll(r, part);
    DepthOfPart(r, part, k);
    if d != k {
      forall i | 0 <= i < |part| ensures HoldsFrom(r, part[i], d, tr) <==> HoldsFrom(r, part[i], k, tr) {
        assert IsPart(r, part[i], k);
        StartFree(r, part[i], d, k, tr);
      }
    }
  }

  /** Every element of `a` is one of `b`. */
  ghost predicate Among(a: seq<Wff>, b: seq<Wff>) {
    forall i :: 0 <= i < |a| ==> a[i] in b
  }

  /** Deletion is monotone: what conflicts among the anchored conjuncts still conflicts with more of them. */
  lemma DeletionMonotone<B(!new), T(!new)>(r: Reading<B, T>, a: seq<Wff>, b: seq<Wff>, k: nat)
    requires IsReading(r) && PartOf(r, a, k) && PartOf(r, b, k) && Among(a, b) && ListConflicting(r, a)
    ensures ListConflicting(r, b)
  {
    forall s: B ensures !KeepsAll(r, b, s) {
      assert !KeepsAll(r, a, s);
      var tr: T :| r.produces(s, tr) && !ListHolds(r, a, tr);
      PartStartsAtDepth(r, a, k, tr);
      PartStartsAtDepth(r, b, k, tr);
      var i :| 0 <= i < |a| && !HoldsFrom(r, a[i], k, tr);
      var j :| 0 <= j < |b| && b[j] == a[i];
      assert !HoldsFrom(r, b[j], k, tr);
    }
  }

  // The core as anchored and as written.

  lemma HoldsLater<B, T>(r: Reading<B, T>, c: Wff, d: nat, k: nat, tr: T)
    requires IsConjunct(c) && d <= k && HoldsFrom(r, c, d, tr)
    ensures HoldsFrom(r, c, k, tr)
  {
  }

  lemma AllAnchoredHold<B, T>(r: Reading<B, T>, cs: seq<Wff>, k: nat, start: nat, tr: T)
    ensures AllHoldFrom(r, AnchoredAll(r, cs, k), start, tr) <==> AllHoldFrom(r, cs, start, tr)
  {
    var ks := AnchoredAll(r, cs, k);
    forall i | 0 <= i < |cs| ensures HoldsFrom(r, ks[i], start, tr) <==> HoldsFrom(r, cs[i], start, tr) {
      AnchoredHolds(r, cs[i], k, start, tr);
    }
  }

  ghost predicate ConjunctsUpTo<B, T>(r: Reading<B, T>, cs: seq<Wff>, k: nat) {
    forall i :: 0 <= i < |cs| ==> IsConjunct(cs[i]) && Depth(r, cs[i]) <= k
  }

  lemma AnchoredArePart<B(!new), T(!new)>(r: Reading<B, T>, cs: seq<Wff>, k: nat)
    requires IsReading(r) && ConjunctsUpTo(r, cs, k)
    ensures PartOf(r, AnchoredAll(r, cs, k), k)
  {
    forall i | 0 <= i < |cs| ensures IsPart(r, AnchoredAll(r, cs, k)[i], k) {
      AnchoredIsPart(r, cs[i], k);
    }
  }

  lemma {:induction false} DepthBounds<B, T>(r: Reading<B, T>, cs: seq<Wff>, k: nat)
    ensures DepthOfAll(r, cs) <= k <==> forall i :: 0 <= i < |cs| ==> Depth(r, cs[i]) <= k
    decreases |cs|
  {
    if cs != [] {
      var init := cs[..|cs| - 1];
      DepthBounds(r, init, k);
      if DepthOfAll(r, cs) <= k {
        forall i | 0 <= i < |cs| ensures Depth(r, cs[i]) <= k {
          assert i < |cs| - 1 ==> cs[i] == init[i];
        }
      }
      if forall i :: 0 <= i < |cs| ==> Depth(r, cs[i]) <= k {
        forall i | 0 <= i < |init| ensures Depth(r, init[i]) <= k {
          assert init[i] == cs[i];
        }
      }
    }
  }

  /** What conflicts with its anchors conflicts as written: without them the always part only starts
      earlier. */
  lemma WrittenConflicts<B(!new), T(!new)>(r: Reading<B, T>, cs: seq<Wff>, k: nat)
    requires IsReading(r) && ConjunctsUpTo(r, cs, k) && ListConflicting(r, AnchoredAll(r, cs, k))
    ensures ListConflicting(r, cs)
  {
    var ks := AnchoredAll(r, cs, k);
    AnchoredArePart(r, cs, k);
    DepthBounds(r, cs, k);
    forall s: B ensures !KeepsAll(r, cs, s) {
      assert !KeepsAll(r, ks, s);
      var tr: T :| r.produces(s, tr) && !ListHolds(r, ks, tr);
      PartStartsAtDepth(r, ks, k, tr);
      AllAnchoredHold(r, cs, k, k, tr);
      var i :| 0 <= i < |cs| && !HoldsFrom(r, cs[i], k, tr);
      if HoldsFrom(r, cs[i], DepthOfAll(r, cs), tr) {
        HoldsLater(r, cs[i], DepthOfAll(r, cs), k, tr);
      }
    }
  }

  /** The whole specification conflicts with its anchors as it does as written. */
  lemma WholeConflicts<B(!new), T(!new)>(r: Reading<B, T>, f: Wff)
    requires IsReading(r) && Conflicting(r, f)
    ensures ListConflicting(r, AnchoredAll(r, Conjuncts(f), Depth(r, f)))
  {
    var cs, k := Conjuncts(f), Depth(r, f);
    var ks := AnchoredAll(r, cs, k);
    SplitConflicts(r, f);
    ConjunctsDepth(r, f);
    DepthBounds(r, cs, k);
    AnchoredArePart(r, cs, k);
    forall tr: T ensures ListHolds(r, ks, tr) <==> ListHolds(r, cs, tr) {
      PartStartsAtDepth(r, ks, k, tr);
      AllAnchoredHold(r, cs, k, k, tr);
    }
    forall s: B ensures !KeepsAll(r, ks, s) {
      assert !KeepsAll(r, cs, s);
      var tr: T :| r.produces(s, tr) && !ListHolds(r, cs, tr);
      assert !ListHolds(r, ks, tr);
    }
  }

  // The deletion loop.

  datatype Verdict = Unknown | Conflict | Fine

  /** The verdict of sat or realizable on a conjunction, which may be no verdict. */
  ghost predicate SoundCheck<B(!new), T(!new)>(r: Reading<B, T>, check: Wff -> Verdict) {
    forall f: Wff :: (check(f) == Conflict ==> Conflicting(r, f)) && (check(f) == Fine ==> !Conflicting(r, f))
  }

  ghost predicate AlwaysDecides(check: Wff -> Verdict) {
    forall f: Wff :: check(f) != Unknown
  }

  function Skip<X>(xs: seq<X>, i: nat): seq<X>
    requires i < |xs|
  {
    xs[..i] + xs[i + 1..]
  }

  /** `a` is `b` with some elements left out, in the order of `b`. */
  ghost predicate IsSubsequence(a: seq<Wff>, b: seq<Wff>) {
    exists places: seq<nat> :: AtPlaces(a, b, places)
  }

  ghost predicate AtPlaces(a: seq<Wff>, b: seq<Wff>, places: seq<nat>) {
    && |places| == |a|
    && (forall i :: 0 <= i < |a| ==> places[i] < |b| && a[i] == b[places[i]])
    && (forall i, j :: 0 <= i < j < |a| ==> places[i] < places[j])
  }

  /** Leaving out any element of the list, and whatever more, leaves no conflict. */
  ghost predicate Minimal<B(!new), T(!new)>(r: Reading<B, T>, ks: seq<Wff>) {
    forall j: nat, part: seq<Wff> {:trigger Among(part, Skip(ks, j))} ::
      j < |ks| && Among(part, Skip(ks, j)) ==> !ListConflicting(r, part)
  }

  datatype Core = Undecided | Core(conjuncts: seq<Wff>)

  method DeepestLookback<B, T>(r: Reading<B, T>, cs: seq<Wff>) returns (k: nat)
    requires forall i :: 0 <= i < |cs| ==> IsConjunct(cs[i])
    ensures k == DepthOfAll(r, cs)
  {
    k := 0;
    for i := 0 to |cs|
      invariant k == DepthOfAll(r, cs[..i])
    {
      assert cs[..i + 1][..i] == cs[..i];
      if cs[i].Always? { k := Max(k, Lookback(r, cs[i].arg)); }
    }
    assert cs[..|cs|] == cs;
  }

  method AnchorEach<B, T>(r: Reading<B, T>, cs: seq<Wff>, k: nat) returns (ks: seq<Wff>)
    ensures ks == AnchoredAll(r, cs, k)
  {
    ks := cs;
    for i := 0 to |cs|
      invariant |ks| == |cs|
      invariant forall j :: 0 <= j < |cs| ==> ks[j] == if j < i then Anchored(r, cs[j], k) else cs[j]
    {
      if ks[i].Always? && Lookback(r, ks[i].arg) < k && Moving(r, ks[i].arg) {
        ks := ks[i := Always(Both(ks[i].arg, Anchor(k)))];
      }
    }
  }

  method SkipBoth(cs: seq<Wff>, ks: seq<Wff>, i: nat) returns (rest: seq<Wff>, restChecked: seq<Wff>)
    requires |cs| == |ks| && i < |cs|
    ensures rest == Skip(cs, i) && restChecked == Skip(ks, i)
  {
    rest, restChecked := [], [];
    for j := 0 to |cs|
      invariant rest == if j <= i then cs[..j] else cs[..i] + cs[i + 1..j]
      invariant restChecked == if j <= i then ks[..j] else ks[..i] + ks[i + 1..j]
    {
      if j != i { rest, restChecked := rest + [cs[j]], restChecked + [ks[j]]; }
    }
  }

  /** A conjunct found to be needed stays needed when another one goes. */
  lemma StillNeeded<B(!new), T(!new)>(r: Reading<B, T>, ks: seq<Wff>, k: nat, i: nat, j: nat)
    requires IsReading(r) && PartOf(r, ks, k) && j < i < |ks| && !ListConflicting(r, Skip(ks, j))
    ensures !ListConflicting(r, Skip(Skip(ks, i), j))
  {
    var a, b := Skip(Skip(ks, i), j), Skip(ks, j);
    SkipIsPart(r, ks, k, j);
    SkipIsPart(r, ks, k, i);
    SkipIsPart(r, Skip(ks, i), k, j);
    assert Among(a, b) by {
      forall x | 0 <= x < |a| ensures a[x] in b {
        assert if x < j then a[x] == b[x] else if x + 1 < i then a[x] == b[x] else a[x] == b[x + 1];
      }
    }
    if ListConflicting(r, a) {
      DeletionMonotone(r, a, b, k);
    }
  }

  lemma SkipIsPart<B, T>(r: Reading<B, T>, ks: seq<Wff>, k: nat, i: nat)
    requires PartOf(r, ks, k) && i < |ks|
    ensures PartOf(r, Skip(ks, i), k)
  {
    forall x | 0 <= x < |ks| - 1 ensures IsPart(r, Skip(ks, i)[x], k) {
      assert Skip(ks, i)[x] == ks[if x < i then x else x + 1];
    }
  }

  lemma NeededIsMinimal<B(!new), T(!new)>(r: Reading<B, T>, ks: seq<Wff>, k: nat)
    requires IsReading(r) && PartOf(r, ks, k)
    requires forall j: nat :: j < |ks| ==> !ListConflicting(r, Skip(ks, j))
    ensures Minimal(r, ks)
  {
    forall j: nat, part: seq<Wff> | j < |ks| && Among(part, Skip(ks, j)) ensures !ListConflicting(r, part) {
      var b := Skip(ks, j);
      SkipIsPart(r, ks, k, j);
      forall x | 0 <= x < |part| ensures IsPart(r, part[x], k) {
        assert part[x] in b;
        var y :| 0 <= y < |b| && b[y] == part[x];
        assert IsPart(r, b[y], k);
      }
      if ListConflicting(r, part) {
        DeletionMonotone(r, part, b, k);
      }
    }
  }

  lemma SkipPlaces(cs: seq<Wff>, all: seq<Wff>, places: seq<nat>, i: nat)
    requires AtPlaces(cs, all, places) && i < |cs|
    ensures AtPlaces(Skip(cs, i), all, Skip(places, i))
  {
    var a, p := Skip(cs, i), Skip(places, i);
    forall x | 0 <= x < |a|
      ensures a[x] == cs[if x < i then x else x + 1] && p[x] == places[if x < i then x else x + 1] {}
  }

  /** What the loop keeps: the conjuncts left are some of the specification's, in its order, and conflict
      with their anchors; those before `i` are needed, as far as the checks decide. */
  ghost predicate LoopState<B(!new), T(!new)>(r: Reading<B, T>, all: seq<Wff>, k: nat, cs: seq<Wff>, ks: seq<Wff>,
                                              places: seq<nat>) {
    && cs != [] && ks == AnchoredAll(r, cs, k) && ConjunctsUpTo(r, cs, k)
    && AtPlaces(cs, all, places) && ListConflicting(r, ks)
  }

  ghost predicate NeededBefore<B(!new), T(!new)>(r: Reading<B, T>, ks: seq<Wff>, i: nat) {
    forall j: nat :: j < i && j < |ks| ==> !ListConflicting(r, Skip(ks, j))
  }

  lemma DropKeeps<B(!new), T(!new)>(r: Reading<B, T>, all: seq<Wff>, k: nat, cs: seq<Wff>, ks: seq<Wff>,
                                    places: seq<nat>, i: nat)
    requires IsReading(r) && LoopState(r, all, k, cs, ks, places) && i < |cs| && |cs| > 1
             && ListConflicting(r, Skip(ks, i))
    ensures LoopState(r, all, k, Skip(cs, i), Skip(ks, i), Skip(places, i))
    ensures NeededBefore(r, ks, i) ==> NeededBefore(r, Skip(ks, i), i)
  {
    var rest := Skip(cs, i);
    SkipPlaces(cs, all, places, i);
    forall x | 0 <= x < |rest| ensures rest[x] == cs[if x < i then x else x + 1] {}
    assert Skip(ks, i) == AnchoredAll(r, rest, k);
    AnchoredArePart(r, cs, k);
    if NeededBefore(r, ks, i) {
      forall j: nat | j < i && j < |ks| - 1 ensures !ListConflicting(r, Skip(Skip(ks, i), j)) {
        StillNeeded(r, ks, k, i, j);
      }
    }
  }

  /** What the loop leaves when every check decides. */
  ghost function Deletion<B(!new), T(!new)>(r: Reading<B, T>, cs: seq<Wff>, k: nat, i: nat): seq<Wff>
    decreases |cs| - i
  {
    if i < |cs| && |cs| > 1 then
      if ListConflicting(r, Skip(AnchoredAll(r, cs, k), i)) then Deletion(r, Skip(cs, i), k, i)
            else Deletion(r, cs, k, i + 1)
    else cs
  }

  /** The core that is printed when every check decides. */
  ghost function PrintedCore<B(!new), T(!new)>(r: Reading<B, T>, f: Wff): seq<Wff> {
    Deletion(r, Conjuncts(f), Depth(r, f), 0)
  }

  /** One turn of the loop: drops conjunct `i` if the rest still conflicts, and passes on otherwise. */
  method TryDrop<B(!new), T(!new)>(r: Reading<B, T>, check: Wff -> Verdict, ghost all: seq<Wff>, ghost k: nat,
                                   cs: seq<Wff>, ks: seq<Wff>, ghost places: seq<nat>, i: nat)
    returns (cs': seq<Wff>, ks': seq<Wff>, ghost places': seq<nat>, i': nat)
    requires IsReading(r) && SoundCheck(r, check) && LoopState(r, all, k, cs, ks, places) && i < |cs| && |cs| > 1
    ensures LoopState(r, all, k, cs', ks', places')
    ensures (|cs'| == |cs| - 1 && i' == i) || (|cs'| == |cs| && i' == i + 1)
    ensures AlwaysDecides(check) && NeededBefore(r, ks, i) ==> NeededBefore(r, ks', i')
    ensures AlwaysDecides(check) ==> Deletion(r, cs', k, i') == Deletion(r, cs, k, i)
  {
    cs', ks', places', i' := cs, ks, places, i;
    var rest, restChecked := SkipBoth(cs, ks, i);
    ConjunctionConflicts(r, restChecked);
    var conj := Conjunction(restChecked);
    if check(conj) == Conflict {
      DropKeeps(r, all, k, cs, ks, places, i);
      cs', ks', places' := rest, restChecked, Skip(places, i);
      return;
    }
    i' := i + 1;
    if AlwaysDecides(check) {
      assert check(conj) == Fine && !ListConflicting(r, Skip(ks, i));
    }
  }

  method DeletionLoop<B(!new), T(!new)>(r: Reading<B, T>, check: Wff -> Verdict, ghost all: seq<Wff>, ghost k: nat,
                                        cs0: seq<Wff>, ks0: seq<Wff>, ghost places0: seq<nat>)
    returns (cs: seq<Wff>, ghost ks: seq<Wff>, ghost places: seq<nat>, checks: nat)
    requires IsReading(r) && SoundCheck(r, check) && LoopState(r, all, k, cs0, ks0, places0)
    ensures LoopState(r, all, k, cs, ks, places) && checks <= |cs0|
    ensures AlwaysDecides(check) && !ListConflicting(r, []) ==> NeededBefore(r, ks, |ks|)
    ensures AlwaysDecides(check) ==> cs == Deletion(r, cs0, k, 0)
  {
    var checked, i: nat := ks0, 0;
    cs, places, checks := cs0, places0, 0;
    while i < |cs| && |cs| > 1
      invariant i <= |cs| <= |cs0| && LoopState(r, all, k, cs, checked, places)
      invariant checks + |cs| == |cs0| + i
      invariant AlwaysDecides(check) ==> NeededBefore(r, checked, i) && Deletion(r, cs, k, i) == Deletion(r, cs0, k, 0)
      decreases |cs| - i
    {
      cs, checked, places, i := TryDrop(r, check, all, k, cs, checked, places, i);
      checks := checks + 1;
    }
    ks := checked;
    if |ks| == 1 { assert Skip(ks, 0) == []; }
  }

  /** The core of a specification: empty when it does not conflict, undecided when the whole gets no
      verdict.  Otherwise its conjuncts come from the specification in order and conflict, as written and
      with their anchors, after at most one check more than there are conjuncts.  When every check decides
      and nothing at all does not conflict, the anchored core is minimal. */
  method FindCore<B(!new), T(!new)>(r: Reading<B, T>, check: Wff -> Verdict, f: Wff) returns (core: Core, checks: nat)
    requires IsReading(r) && SoundCheck(r, check)
    ensures checks <= |Conjuncts(f)| + 1
    ensures core == Undecided <==> check(f) == Unknown
    ensures check(f) == Fine ==> core == Core([])
    ensures check(f) == Conflict ==>
              && core.Core? && core.conjuncts != [] && IsSubsequence(core.conjuncts, Conjuncts(f))
              && ListConflicting(r, core.conjuncts) && ListConflicting(r, AnchoredAll(r, core.conjuncts, Depth(r, f)))
    ensures check(f) == Conflict && AlwaysDecides(check) && !ListConflicting(r, []) ==>
              Minimal(r, AnchoredAll(r, core.conjuncts, Depth(r, f)))
    ensures check(f) == Conflict && AlwaysDecides(check) ==> core.conjuncts == PrintedCore(r, f)
  {
    var cs := CollectConjuncts(f, []);
    var k := DeepestLookback(r, cs);
    var checked := AnchorEach(r, cs, k);
    var whole := check(f);
    checks := 1;
    if whole == Unknown { return Undecided, checks; }
    if whole == Fine { return Core([]), checks; }
    ghost var places := StartOfLoop(r, f, cs, checked, k);
    ghost var all, ks := cs, [];
    var more;
    cs, ks, places, more := DeletionLoop(r, check, all, k, cs, checked, places);
    checks := checks + more;
    core := Core(cs);
    EndOfLoop(r, f, cs, ks, k, places, AlwaysDecides(check) && !ListConflicting(r, []));
  }

  lemma StartOfLoop<B(!new), T(!new)>(r: Reading<B, T>, f: Wff, cs: seq<Wff>, ks: seq<Wff>, k: nat)
    returns (places: seq<nat>)
    requires IsReading(r) && Conflicting(r, f) && cs == Conjuncts(f) && k == DepthOfAll(r, cs)
             && ks == AnchoredAll(r, cs, k)
    ensures k == Depth(r, f) && LoopState(r, Conjuncts(f), k, cs, ks, places)
  {
    ConjunctsDepth(r, f);
    DepthBounds(r, cs, k);
    WholeConflicts(r, f);
    places := seq(|cs|, i requires 0 <= i => i);
  }

  lemma EndOfLoop<B(!new), T(!new)>(r: Reading<B, T>, f: Wff, cs: seq<Wff>, ks: seq<Wff>, k: nat, places: seq<nat>,
                                    needed: bool)
    requires IsReading(r) && LoopState(r, Conjuncts(f), k, cs, ks, places)
    requires needed ==> NeededBefore(r, ks, |ks|)
    ensures IsSubsequence(cs, Conjuncts(f)) && ListConflicting(r, cs)
    ensures needed ==> Minimal(r, ks)
  {
    WrittenConflicts(r, cs, k);
    if needed {
      AnchoredArePart(r, cs, k);
      NeededIsMinimal(r, ks, k);
    }
  }
}
