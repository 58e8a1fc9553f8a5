/** The core as it is printed, without its anchors: when it is minimal, and what goes wrong when it is
    not. */
module PrintedCore {
  import opened StartRule
  import opened UnsatCore

  // The conjuncts of a specification.

  predicate IsSplit(c: Wff) {
    c.Leaf? || c.Anchor? || (c.Always? && (c.arg.Leaf? || c.arg.Anchor?))
  }

  /** After splitting, nothing is left to split under an always. */
  lemma {:induction false} ConjunctsAreSplit(f: Wff)
    ensures forall i :: 0 <= i < |Conjuncts(f)| ==> IsSplit(Conjuncts(f)[i])
    decreases f
  {
    match f
    case Paren(g) => ConjunctsAreSplit(g);
    case Both(g, h) => ConjunctsAreSplit(g); ConjunctsAreSplit(h);
    case Always(g) => ConjunctsAreSplit(g);
    case _ =>
  }

  /** An always of a moving leaf that reads less far back than `k`: as printed it can start earlier. */
  ghost predicate IsShallow<B, T>(r: Reading<B, T>, c: Wff, k: nat) {
    c.Always? && c.arg.Leaf? && r.moving(c.arg.id) && r.lookback(c.arg.id) < k
  }

  /** The conjunct is about the trace; an anchor is true of every trace. */
  predicate IsAbout(c: Wff) {
    c.Leaf? || (c.Always? && c.arg.Leaf?)
  }

  /** No conjunct about the trace stands beside one that reads less far back than `k`. */
  ghost predicate SafeToPrint<B, T>(r: Reading<B, T>, cs: seq<Wff>, k: nat) {
    forall i, j :: 0 <= i < |cs| && 0 <= j < |cs| && IsShallow(r, cs[i], k) && cs[j] != cs[i] ==> !IsAbout(cs[j])
  }

  /** If the specification conflicts, and nothing at all does not, its printed core is minimal. */
  ghost predicate PrintsMinimal<B(!new), T(!new)>(r: Reading<B, T>, f: Wff) {
    IsReading(r) && Conflicting(r, f) && !ListConflicting(r, []) ==> Minimal(r, UnsatCore.PrintedCore(r, f))
  }

  // What the deletion leaves.

  lemma {:induction false} DeletionKeeps<B(!new), T(!new)>(r: Reading<B, T>, all: seq<Wff>, k: nat, cs: seq<Wff>,
                                                           places: seq<nat>, i: nat)
    returns (left: seq<nat>)
    requires IsReading(r) && LoopState(r, all, k, cs, AnchoredAll(r, cs, k), places) && i <= |cs|
    requires NeededBefore(r, AnchoredAll(r, cs, k), i) && !ListConflicting(r, [])
    ensures var core := Deletion(r, cs, k, i);
            && LoopState(r, all, k, core, AnchoredAll(r, core, k), left)
            && NeededBefore(r, AnchoredAll(r, core, k), |core|)
    decreases |cs| - i
  {
    var ks := AnchoredAll(r, cs, k);
    if i < |cs| && |cs| > 1 {
      if ListConflicting(r, Skip(ks, i)) {
        DropKeeps(r, all, k, cs, ks, places, i);
        left := DeletionKeeps(r, all, k, Skip(cs, i), Skip(places, i), i);
      } else {
        left := DeletionKeeps(r, all, k, cs, places, i + 1);
      }
    } else {
      left := places;
      if |cs| == 1 { assert Skip(ks, 0) == []; }
    }
  }

  /** The printed core comes from the conjuncts, conflicts with its anchors, and needs every one of them. */
  lemma CoreOf<B(!new), T(!new)>(r: Reading<B, T>, f: Wff) returns (places: seq<nat>)
    requires IsReading(r) && Conflicting(r, f) && !ListConflicting(r, [])
    ensures var core, k := UnsatCore.PrintedCore(r, f), Depth(r, f);
            && LoopState(r, Conjuncts(f), k, core, AnchoredAll(r, core, k), places)
            && NeededBefore(r, AnchoredAll(r, core, k), |core|)
  {
    var cs, k := Conjuncts(f), Depth(r, f);
    ConjunctsDepth(r, f);
    places := StartOfLoop(r, f, cs, AnchoredAll(r, cs, k), k);
    places := DeletionKeeps(r, cs, k, cs, places, 0);
  }

  // Where nothing shallow is left, printing changes nothing.

  /** A conjunct that is not shallow and does not read to depth `k` is asked the same from every start. */
  lemma StartDoesNotMatter<B(!new), T(!new)>(r: Reading<B, T>, c: Wff, d: nat, k: nat, tr: T)
    requires IsReading(r) && IsSplit(c) && !IsShallow(r, c, k) && Depth(r, c) <= d < k
    ensures HoldsFrom(r, c, d, tr) <==> HoldsFrom(r, c, k, tr)
  {
    if c.Always? && c.arg.Leaf? {
      assert Lookback(r, c.arg) == r.lookback(c.arg.id) && Depth(r, c) == Lookback(r, c.arg);
      StartFree(r, c, d, k, tr);
    }
  }

  lemma PrintedHolds<B(!new), T(!new)>(r: Reading<B, T>, part: seq<Wff>, k: nat, tr: T)
    requires IsReading(r) && ConjunctsUpTo(r, part, k)
    requires forall i :: 0 <= i < |part| ==> IsSplit(part[i]) && !IsShallow(r, part[i], k)
    ensures ListHolds(r, part, tr) <==> ListHolds(r, AnchoredAll(r, part, k), tr)
  {
    var d := DepthOfAll(r, part);
    AnchoredArePart(r, part, k);
    PartStartsAtDepth(r, AnchoredAll(r, part, k), k, tr);
    AllAnchoredHold(r, part, k, k, tr);
    DepthBounds(r, part, k);
    DepthBounds(r, part, d);
    if d < k {
      forall i | 0 <= i < |part| ensures HoldsFrom(r, part[i], d, tr) <==> HoldsFrom(r, part[i], k, tr) {
        StartDoesNotMatter(r, part[i], d, k, tr);
      }
    }
  }

  lemma PrintedConflicts<B(!new), T(!new)>(r: Reading<B, T>, part: seq<Wff>, k: nat)
    requires IsReading(r) && ConjunctsUpTo(r, part, k) && ListConflicting(r, part)
    requires forall i :: 0 <= i < |part| ==> IsSplit(part[i]) && !IsShallow(r, part[i], k)
    ensures ListConflicting(r, AnchoredAll(r, part, k))
  {
    var ks := AnchoredAll(r, part, k);
    forall b: B ensures !KeepsAll(r, ks, b) {
      assert !KeepsAll(r, part, b);
      var tr: T :| r.produces(b, tr) && !ListHolds(r, part, tr);
      PrintedHolds(r, part, k, tr);
    }
  }

  /** Without a shallow conjunct the printed core is minimal because the anchored one is. */
  lemma DeepIsMinimal<B(!new), T(!new)>(r: Reading<B, T>, cs: seq<Wff>, k: nat)
    requires IsReading(r) && ConjunctsUpTo(r, cs, k) && Minimal(r, AnchoredAll(r, cs, k))
    requires forall i :: 0 <= i < |cs| ==> IsSplit(cs[i]) && !IsShallow(r, cs[i], k)
    ensures Minimal(r, cs)
  {
    var ks := AnchoredAll(r, cs, k);
    forall j: nat, part: seq<Wff> | j < |cs| && Among(part, Skip(cs, j)) ensures !ListConflicting(r, part) {
      forall x | 0 <= x < |part|
        ensures IsConjunct(part[x]) && Depth(r, part[x]) <= k && IsSplit(part[x]) && !IsShallow(r, part[x], k)
        ensures AnchoredAll(r, part, k)[x] in Skip(ks, j)
      {
        assert part[x] in Skip(cs, j);
        var y :| 0 <= y < |cs| - 1 && Skip(cs, j)[y] == part[x];
        var z := if y < j then y else y + 1;
        assert cs[z] == part[x] && Skip(ks, j)[y] == ks[z];
      }
      assert Among(AnchoredAll(r, part, k), Skip(ks, j));
      if ListConflicting(r, part) {
        PrintedConflicts(r, part, k);
      }
    }
  }

  // Beside a shallow conjunct only anchors are safe, and the core drops them.

  lemma AnchorsHold<B, T>(r: Reading<B, T>, c: Wff, k: nat, tr: T)
    requires IsSplit(c) && !IsAbout(c)
    ensures HoldsFrom(r, c, k, tr)
  {
  }

  lemma StillFails<B(!new), T(!new)>(r: Reading<B, T>, cs: seq<Wff>, k: nat, x: nat, y: nat, tr: T)
    requires x < |cs| && y < |cs| && x != y && IsSplit(cs[y]) && (cs[y] == cs[x] || !IsAbout(cs[y]))
    requires !AllHoldFrom(r, cs, k, tr)
    ensures !AllHoldFrom(r, Skip(cs, y), k, tr)
  {
    var z :| 0 <= z < |cs| && !HoldsFrom(r, cs[z], k, tr);
    if z == y && cs[y] != cs[x] { AnchorsHold(r, cs[y], k, tr); }
    var w := if z == y then x else z;
    assert Skip(cs, y)[if w < y then w else w - 1] == cs[z];
  }

  lemma SkipAnchored<B, T>(r: Reading<B, T>, cs: seq<Wff>, k: nat, y: nat)
    requires y < |cs|
    ensures Skip(AnchoredAll(r, cs, k), y) == AnchoredAll(r, Skip(cs, y), k)
  {
  }

  /** An element that repeats another one, or is an anchor, is not needed. */
  lemma NotNeeded<B(!new), T(!new)>(r: Reading<B, T>, cs: seq<Wff>, k: nat, x: nat, y: nat)
    requires IsReading(r) && ConjunctsUpTo(r, cs, k) && ListConflicting(r, AnchoredAll(r, cs, k))
    requires x < |cs| && y < |cs| && x != y && IsSplit(cs[y]) && (cs[y] == cs[x] || !IsAbout(cs[y]))
    ensures ListConflicting(r, Skip(AnchoredAll(r, cs, k), y))
  {
    var ks := AnchoredAll(r, cs, k);
    var rest := Skip(ks, y);
    AnchoredArePart(r, cs, k);
    SkipIsPart(r, ks, k, y);
    SkipAnchored(r, cs, k, y);
    forall b: B ensures !KeepsAll(r, rest, b) {
      assert !KeepsAll(r, ks, b);
      var tr: T :| r.produces(b, tr) && !ListHolds(r, ks, tr);
      PartStartsAtDepth(r, ks, k, tr);
      PartStartsAtDepth(r, rest, k, tr);
      AllAnchoredHold(r, cs, k, k, tr);
      AllAnchoredHold(r, Skip(cs, y), k, k, tr);
      StillFails(r, cs, k, x, y, tr);
    }
  }

  lemma ShallowIsAlone<B(!new), T(!new)>(r: Reading<B, T>, all: seq<Wff>, k: nat, core: seq<Wff>, places: seq<nat>,
                                         x: nat)
    requires IsReading(r) && LoopState(r, all, k, core, AnchoredAll(r, core, k), places)
    requires NeededBefore(r, AnchoredAll(r, core, k), |core|) && SafeToPrint(r, all, k)
    requires forall i :: 0 <= i < |all| ==> IsSplit(all[i])
    requires x < |core| && IsShallow(r, core[x], k)
    ensures |core| == 1
  {
    if |core| > 1 {
      var y: nat := if x == 0 then 1 else 0;
      assert core[x] == all[places[x]] && core[y] == all[places[y]];
      NotNeeded(r, core, k, x, y);
    }
  }

  lemma AmongNothing(part: seq<Wff>)
    ensures Among(part, []) <==> part == []
  {
    if part != [] { assert part[0] !in []; }
  }

  lemma SingleIsMinimal<B(!new), T(!new)>(r: Reading<B, T>, cs: seq<Wff>)
    requires |cs| == 1 && !ListConflicting(r, [])
    ensures Minimal(r, cs)
  {
    forall j: nat, part: seq<Wff> | j < |cs| && Among(part, Skip(cs, j)) ensures !ListConflicting(r, part) {
      assert Skip(cs, j) == [];
      AmongNothing(part);
    }
  }

  /** Safe conjuncts: the printed core is minimal, whatever the leaves say. */
  lemma SafeIsMinimal<B(!new), T(!new)>(r: Reading<B, T>, f: Wff)
    requires SafeToPrint(r, Conjuncts(f), Depth(r, f))
    ensures PrintsMinimal(r, f)
  {
    if IsReading(r) && Conflicting(r, f) && !ListConflicting(r, []) {
      var all, core, k := Conjuncts(f), UnsatCore.PrintedCore(r, f), Depth(r, f);
      var places := CoreOf(r, f);
      ConjunctsAreSplit(f);
      forall i | 0 <= i < |core| ensures IsSplit(core[i]) { assert core[i] == all[places[i]]; }
      AnchoredArePart(r, core, k);
      NeededIsMinimal(r, AnchoredAll(r, core, k), k);
      if x: nat :| x < |core| && IsShallow(r, core[x], k) {
        ShallowIsAlone(r, all, k, core, places, x);
        SingleIsMinimal(r, core);
      } else {
        DeepIsMinimal(r, core, k);
      }
    }
  }

  // Beside a shallow conjunct anything about the trace is unsafe.

  /** The shallow leaf `a` holds from step `k` on in the traces `s1` and before it in every other; the
      leaf `e` holds in every trace but `s1`; every other leaf holds. */
  ghost function Spoiled<T(!new)>(a: nat, e: nat, k: nat, s1: T -> bool): (nat, T, nat) -> bool {
    (id: nat, tr: T, t: nat) => if id == a then (t >= k) == s1(tr) else if id == e then !s1(tr) else true
  }

  ghost function SpoiledReading<B(!new), T(!new)>(r: Reading<B, T>, a: nat, e: nat, k: nat, s1: T -> bool): Reading<B,
        T> {
    r.(holds := Spoiled(a, e, k, s1))
  }

  /** Every behaviour produces a trace. */
  ghost predicate IsTotal<B(!new), T(!new)>(r: Reading<B, T>) {
    forall b: B :: ProducesOne(r, b)
  }

  ghost predicate ProducesOne<B, T(!new)>(r: Reading<B, T>, b: B) {
    exists tr: T :: r.produces(b, tr)
  }

  /** No trace is produced by both behaviours. */
  ghost predicate AreApart<B, T(!new)>(r: Reading<B, T>, b0: B, b1: B) {
    forall tr: T :: !(r.produces(b0, tr) && r.produces(b1, tr))
  }

  ghost function TracesOf<B, T>(r: Reading<B, T>, b: B): T -> bool {
    (tr: T) => r.produces(b, tr)
  }

  lemma {:induction false} SameLookback<B(!new), T(!new)>(r: Reading<B, T>, v: Reading<B, T>, f: Wff)
    requires v.lookback == r.lookback
    ensures Lookback(v, f) == Lookback(r, f) && Depth(v, f) == Depth(r, f)
    decreases f
  {
    match f
    case Paren(g) => SameLookback(r, v, g);
    case Both(g, h) => SameLookback(r, v, g); SameLookback(r, v, h);
    case Always(g) => SameLookback(r, v, g);
    case _ =>
  }

  /** A shallow conjunct, and another one about the trace. */
  ghost predicate IsSpoiler<B, T>(r: Reading<B, T>, cs: seq<Wff>, k: nat, a: nat, d: Wff, e: nat) {
    && Always(Leaf(a)) in cs && r.moving(a) && r.lookback(a) < k
    && d in cs && d != Always(Leaf(a)) && (d == Leaf(e) || d == Always(Leaf(e)))
  }

  lemma UnsafeHasSpoiler<B, T>(r: Reading<B, T>, cs: seq<Wff>, k: nat) returns (a: nat, d: Wff, e: nat)
    requires !SafeToPrint(r, cs, k)
    ensures IsSpoiler(r, cs, k, a, d, e)
  {
    var i, j :| 0 <= i < |cs| && 0 <= j < |cs| && IsShallow(r, cs[i], k) && cs[j] != cs[i] && IsAbout(cs[j]);
    a, d := cs[i].arg.id, cs[j];
    e := if d.Leaf? then d.id else d.arg.id;
    assert cs[i] == Always(Leaf(a));
  }

  /** From the depth on, every trace but `s1` breaks the shallow conjunct and nothing else, and `s1` keeps
      it and breaks the other one. */
  lemma SpoiledFrom<B(!new), T(!new)>(v: Reading<B, T>, a: nat, e: nat, k: nat, s1: T -> bool, c: Wff, tr: T)
    requires v.holds == Spoiled(a, e, k, s1) && IsSplit(c) && v.lookback(a) < k
    ensures c == Always(Leaf(a)) ==> (HoldsFrom(v, c, k, tr) <==> s1(tr))
    ensures c != Always(Leaf(a)) && !s1(tr) ==> HoldsFrom(v, c, k, tr)
    ensures c != Always(Leaf(a)) && (c == Leaf(e) || c == Always(Leaf(e))) && s1(tr) ==> !HoldsFrom(v, c, k, tr)
  {
    if c.Always? && c.arg.Leaf? {
      assert Means(v, c.arg, tr, k) == Spoiled(a, e, k, s1)(c.arg.id, tr, k);
    }
  }

  /** As printed, the shallow conjunct conflicts alone: it is asked before step `k` too. */
  lemma ShallowConflicts<B(!new), T(!new)>(v: Reading<B, T>, a: nat, e: nat, k: nat, s1: T -> bool)
    requires v.holds == Spoiled(a, e, k, s1) && IsTotal(v) && v.lookback(a) < k
    ensures ListConflicting(v, [Always(Leaf(a))])
  {
    var c, j := Always(Leaf(a)), v.lookback(a);
    SingleDepth(v, c);
    forall b: B ensures !KeepsAll(v, [c], b) {
      assert ProducesOne(v, b);
      var tr: T :| v.produces(b, tr);
      assert Means(v, Leaf(a), tr, j) == Spoiled(a, e, k, s1)(a, tr, j);
      assert Means(v, Leaf(a), tr, k) == Spoiled(a, e, k, s1)(a, tr, k);
      assert !MeansFrom(v, Leaf(a), tr, j);
      assert !HoldsFrom(v, [c][0], j, tr);
      assert v.produces(b, tr) && !ListHolds(v, [c], tr);
    }
  }

  lemma SpoiledConflicts<B(!new), T(!new)>(v: Reading<B, T>, f: Wff, a: nat, d: Wff, e: nat, s1: T -> bool, b1: B)
    requires IsSpoiler(v, Conjuncts(f), Depth(v, f), a, d, e) && IsTotal(v)
    requires v.holds == Spoiled(a, e, Depth(v, f), s1)
    ensures Conflicting(v, f) && !ListConflicting(v, [])
  {
    var cs, k, c := Conjuncts(f), Depth(v, f), Always(Leaf(a));
    ConjunctsAreSplit(f);
    ConjunctsDepth(v, f);
    SplitConflicts(v, f);
    var i :| 0 <= i < |cs| && cs[i] == c;
    var j :| 0 <= j < |cs| && cs[j] == d;
    forall b: B ensures !KeepsAll(v, cs, b) {
      assert ProducesOne(v, b);
      var tr: T :| v.produces(b, tr);
      SpoiledFrom(v, a, e, k, s1, c, tr);
      SpoiledFrom(v, a, e, k, s1, d, tr);
      assert v.produces(b, tr) && !ListHolds(v, cs, tr);
    }
    assert KeepsAll(v, [], b1);
  }

  /** Whatever the deletion leaves contains the shallow conjunct and another one. */
  lemma CoreHasBoth<B(!new), T(!new)>(v: Reading<B, T>, cs: seq<Wff>, k: nat, a: nat, e: nat, b0: B, b1: B)
    returns (x: nat, y: nat)
    requires IsReading(v) && ConjunctsUpTo(v, cs, k) && ListConflicting(v, AnchoredAll(v, cs, k)) && v.lookback(a) < k
    requires forall i :: 0 <= i < |cs| ==> IsSplit(cs[i])
    requires v.holds == Spoiled(a, e, k, TracesOf(v, b1)) && AreApart(v, b0, b1)
    ensures x < |cs| && y < |cs| && cs[x] == Always(Leaf(a)) && cs[y] != Always(Leaf(a))
  {
    var tr;
    x, tr := Broken(v, cs, k, b0);
    SpoiledFrom(v, a, e, k, TracesOf(v, b1), cs[x], tr);
    y, tr := Broken(v, cs, k, b1);
    SpoiledFrom(v, a, e, k, TracesOf(v, b1), cs[y], tr);
  }

  lemma Broken<B(!new), T(!new)>(v: Reading<B, T>, cs: seq<Wff>, k: nat, b: B) returns (x: nat, tr: T)
    requires IsReading(v) && ConjunctsUpTo(v, cs, k) && ListConflicting(v, AnchoredAll(v, cs, k))
    ensures x < |cs| && v.produces(b, tr) && !HoldsFrom(v, cs[x], k, tr)
  {
    var ks := AnchoredAll(v, cs, k);
    AnchoredArePart(v, cs, k);
    assert !KeepsAll(v, ks, b);
    tr :| v.produces(b, tr) && !ListHolds(v, ks, tr);
    PartStartsAtDepth(v, ks, k, tr);
    AllAnchoredHold(v, cs, k, k, tr);
    x :| x < |cs| && !HoldsFrom(v, cs[x], k, tr);
  }

  /** Unsafe conjuncts: some leaves make the printed core conflict with less. */
  lemma UnsafeIsSpoiled<B(!new), T(!new)>(r: Reading<B, T>, f: Wff, b0: B, b1: B) returns (v: Reading<B, T>)
    requires !SafeToPrint(r, Conjuncts(f), Depth(r, f)) && IsTotal(r) && AreApart(r, b0, b1)
    requires forall id: nat :: !r.moving(id) ==> r.lookback(id) == 0
    ensures v == r.(holds := v.holds) && !PrintsMinimal(v, f)
  {
    hide HoldsFrom, Depth, SafeToPrint, Conflicting, ListConflicting, UnsatCore.PrintedCore, NeededBefore;
    var cs, k := Conjuncts(f), Depth(r, f);
    var a, d, e := UnsafeHasSpoiler(r, cs, k);
    v := SpoiledReading(r, a, e, k, TracesOf(r, b1));
    SameLookback(r, v, f);
    assert TracesOf(v, b1) == TracesOf(r, b1);
    forall b: B ensures ProducesOne(v, b) {
      assert ProducesOne(r, b);
      var tr: T :| r.produces(b, tr);
      assert v.produces(b, tr);
    }
    assert AreApart(v, b0, b1);
    assert IsReading(v);
    SpoiledConflicts(v, f, a, d, e, TracesOf(v, b1), b1);
    var core := UnsatCore.PrintedCore(v, f);
    var places := CoreOf(v, f);
    ConjunctsAreSplit(f);
    forall i | 0 <= i < |core| ensures IsSplit(core[i]) { assert core[i] == cs[places[i]]; }
    var x, y := CoreHasBoth(v, core, k, a, e, b0, b1);
    ShallowConflicts(v, a, e, k, TracesOf(v, b1));
    var part := [Always(Leaf(a))];
    assert Skip(core, y)[if x < y then x else x - 1] == core[x];
    assert Among(part, Skip(core, y));
  }

  /** For given lookbacks and behaviours, the printed core is minimal whatever the leaves say exactly when no
      conjunct about the trace stands beside an always that reads less far back than the deepest one.  Every
      behaviour produces a trace, and two have none in common: two streams for satisfiability, two
      controllers with different first outputs for realizability. */
  lemma PrintedMinimalIffSafe<B(!new), T(!new)>(r: Reading<B, T>, f: Wff, b0: B, b1: B)
    requires IsTotal(r) && AreApart(r, b0, b1) && forall id: nat :: !r.moving(id) ==> r.lookback(id) == 0
    ensures (forall holds: (nat, T, nat) -> bool :: PrintsMinimal(r.(holds := holds), f))
            <==> SafeToPrint(r, Conjuncts(f), Depth(r, f))
  {
    if SafeToPrint(r, Conjuncts(f), Depth(r, f)) {
      forall holds: (nat, T, nat) -> bool ensures PrintsMinimal(r.(holds := holds), f) {
        var v := r.(holds := holds);
        SameLookback(r, v, f);
        SafeIsMinimal(v, f);
      }
    } else {
      var v := UnsafeIsSpoiled(r, f, b0, b1);
      assert !PrintsMinimal(r.(holds := v.holds), f);
    }
  }

  // Specifications as they are written have no anchors.

  predicate IsWritten(f: Wff) {
    match f
    case Leaf(_) => true
    case Anchor(_) => false
    case Paren(g) => IsWritten(g)
    case Both(g, h) => IsWritten(g) && IsWritten(h)
    case Always(g) => IsWritten(g)
  }

  lemma {:induction false} WrittenAreAbout(f: Wff)
    requires IsWritten(f)
    ensures forall i :: 0 <= i < |Conjuncts(f)| ==> IsAbout(Conjuncts(f)[i])
    decreases f
  {
    match f
    case Paren(g) => WrittenAreAbout(g);
    case Both(g, h) => WrittenAreAbout(g); WrittenAreAbout(h);
    case Always(g) => WrittenAreAbout(g);
    case _ =>
  }

  /** Every moving always conjunct reads to depth `k`. */
  ghost predicate AllDeep<B, T>(r: Reading<B, T>, cs: seq<Wff>, k: nat) {
    forall i :: 0 <= i < |cs| ==> !IsShallow(r, cs[i], k)
  }

  lemma {:induction false} DeepestConjunct<B, T>(r: Reading<B, T>, cs: seq<Wff>) returns (i: nat)
    requires DepthOfAll(r, cs) > 0
    ensures i < |cs| && Depth(r, cs[i]) == DepthOfAll(r, cs)
    decreases |cs|
  {
    i := |cs| - 1;
    if Depth(r, cs[i]) != DepthOfAll(r, cs) {
      i := DeepestConjunct(r, cs[..|cs| - 1]);
    }
  }

  lemma WrittenSafeIffDeep<B(!new), T(!new)>(r: Reading<B, T>, f: Wff)
    requires IsWritten(f)
    ensures SafeToPrint(r, Conjuncts(f), Depth(r, f)) <==> AllDeep(r, Conjuncts(f), Depth(r, f))
  {
    var cs, k := Conjuncts(f), Depth(r, f);
    WrittenAreAbout(f);
    if i :| 0 <= i < |cs| && IsShallow(r, cs[i], k) {
      ConjunctsDepth(r, f);
      var j := DeepestConjunct(r, cs);
      assert Depth(r, cs[i]) == Lookback(r, cs[i].arg) == r.lookback(cs[i].arg.id);
      assert cs[j] != cs[i];
    }
  }

  /** For a written specification: exactly when every moving always conjunct reads as far back as the deepest
      one. */
  lemma PrintedMinimalIffDeep<B(!new), T(!new)>(r: Reading<B, T>, f: Wff, b0: B, b1: B)
    requires IsTotal(r) && AreApart(r, b0, b1) && forall id: nat :: !r.moving(id) ==> r.lookback(id) == 0
    requires IsWritten(f)
    ensures (forall holds: (nat, T, nat) -> bool :: PrintsMinimal(r.(holds := holds), f))
            <==> AllDeep(r, Conjuncts(f), Depth(r, f))
  {
    PrintedMinimalIffSafe(r, f, b0, b1);
    WrittenSafeIffDeep(r, f);
  }

  /** The same for satisfiability, where a behaviour is a trace and produces itself. */
  lemma SatisfiablePrintedIffDeep<T(!new)>(r: Reading<T, T>, f: Wff, t0: T, t1: T)
    requires t0 != t1 && (forall b: T, tr: T :: r.produces(b, tr) == (tr == b)) && IsWritten(f)
    requires forall id: nat :: !r.moving(id) ==> r.lookback(id) == 0
    ensures (forall holds: (nat, T, nat) -> bool :: PrintsMinimal(r.(holds := holds), f))
            <==> AllDeep(r, Conjuncts(f), Depth(r, f))
  {
    forall b: T ensures ProducesOne(r, b) { assert r.produces(b, b); }
    PrintedMinimalIffDeep(r, f, t0, t1);
  }

  // One bit stream `x`, checked for satisfiability: a behaviour is a stream and produces itself.

  /** The leaves `x[t] != x[0]`, `x[t] = x[t-1]`, `x[t] = 1`, `x[t] = 1 | x[t-1] = 1` and `x[0] = 0`. */
  predicate StreamHolds(id: nat, x: nat -> bool, t: nat) {
    match id
    case 0 => x(t) != x(0)
    case 1 => t > 0 && x(t) == x(t - 1)
    case 2 => x(t)
    case 3 => x(t) || (t > 0 && x(t - 1))
    case _ => !x(0)
  }

  ghost function Streams(): Reading<nat -> bool, nat -> bool> {
    Reading((id: nat, x: nat -> bool, t: nat) => StreamHolds(id, x, t),
            (id: nat) => if id == 1 || id == 3 then 1 else 0,
            (id: nat) => id < 4,
            (b: nat -> bool, x: nat -> bool) => x == b)
  }

  ghost const STREAMS := Streams()

  lemma StreamsIsReading()
    ensures IsReading(STREAMS)
  {
    forall id: nat, x: nat -> bool, t: nat, u: nat | !STREAMS.moving(id)
      ensures STREAMS.holds(id, x, t) == STREAMS.holds(id, x, u)
    {
      assert StreamHolds(id, x, t) == StreamHolds(id, x, u);
    }
  }

  /** The leaf from step `k` of the stream on. */
  ghost predicate Says(id: nat, x: nat -> bool, k: nat) {
    forall t: nat :: k <= t ==> STREAMS.holds(id, x, t)
  }

  lemma AlwaysSays(id: nat, x: nat -> bool, k: nat)
    ensures HoldsFrom(STREAMS, Always(Leaf(id)), k, x) <==> Says(id, x, k)
  {
    assert MeansFrom(STREAMS, Leaf(id), x, k) ==> Says(id, x, k) by {
      forall t: nat | k <= t ensures Means(STREAMS, Leaf(id), x, t) <==> STREAMS.holds(id, x, t) {}
    }
  }

  lemma TwoHold(c: Wff, d: Wff, x: nat -> bool)
    ensures var k := Max(Depth(STREAMS, c), Depth(STREAMS, d));
            ListHolds(STREAMS, [c, d], x) <==> HoldsFrom(STREAMS, c, k, x) && HoldsFrom(STREAMS, d, k, x)
  {
    hide HoldsFrom, Depth, AllHoldFrom;
    var k := Max(Depth(STREAMS, c), Depth(STREAMS, d));
    assert [c, d] == [c] + [d];
    DepthOfAllAppend(STREAMS, [c], [d]);
    SingleDepth(STREAMS, c);
    SingleDepth(STREAMS, d);
    SingleHoldsFrom(c, k, x);
    SingleHoldsFrom(d, k, x);
    AllHoldAppend(STREAMS, [c], [d], k, x);
  }

  lemma SingleHoldsFrom(c: Wff, k: nat, x: nat -> bool)
    ensures AllHoldFrom(STREAMS, [c], k, x) <==> HoldsFrom(STREAMS, c, k, x)
  {
    assert AllHoldFrom(STREAMS, [c], k, x) ==> HoldsFrom(STREAMS, [c][0], k, x);
  }

  lemma SingleHolds(c: Wff, x: nat -> bool)
    ensures ListHolds(STREAMS, [c], x) <==> HoldsFrom(STREAMS, c, Depth(STREAMS, c), x)
  {
    SingleDepth(STREAMS, c);
    SingleHoldsFrom(c, Depth(STREAMS, c), x);
  }

  /** A stream that keeps the list: no conflict. */
  lemma NoConflict(cs: seq<Wff>, x: nat -> bool)
    requires ListHolds(STREAMS, cs, x)
    ensures !ListConflicting(STREAMS, cs)
  {
    assert KeepsAll(STREAMS, cs, x);
  }

  /** Every stream breaks the list: a conflict. */
  lemma AllBreak(cs: seq<Wff>)
    requires forall x: nat -> bool :: !ListHolds(STREAMS, cs, x)
    ensures ListConflicting(STREAMS, cs)
  {
    forall x: nat -> bool ensures !KeepsAll(STREAMS, cs, x) {
      assert STREAMS.produces(x, x) && !ListHolds(STREAMS, cs, x);
    }
  }

  ghost const RISES: nat -> bool := (t: nat) => t > 0

  const NEVER_FIRST := Always(Leaf(0))
  const CONSTANT := Always(Leaf(1))

  lemma PairConflicts()
    ensures ListConflicting(STREAMS, [NEVER_FIRST, CONSTANT])
  {
    var cs := [NEVER_FIRST, CONSTANT];
    forall x: nat -> bool ensures !ListHolds(STREAMS, cs, x) {
      TwoHold(NEVER_FIRST, CONSTANT, x);
      AlwaysSays(0, x, 1);
      AlwaysSays(1, x, 1);
      assert STREAMS.holds(0, x, 1) == !STREAMS.holds(1, x, 1);
    }
    AllBreak(cs);
  }

  /** `0111...` keeps the anchored first conjunct, and `0000...` the second. */
  lemma NeitherAlone()
    ensures !ListConflicting(STREAMS, [Always(Both(Leaf(0), Anchor(1)))])
    ensures !ListConflicting(STREAMS, [CONSTANT])
    ensures !ListConflicting(STREAMS, [])
  {
    var never := (t: nat) => false;
    var c := Always(Both(Leaf(0), Anchor(1)));
    SingleHolds(c, RISES);
    assert MeansFrom(STREAMS, Both(Leaf(0), Anchor(1)), RISES, 1);
    NoConflict([c], RISES);
    SingleHolds(CONSTANT, never);
    AlwaysSays(1, never, 1);
    NoConflict([CONSTANT], never);
    NoConflict([], never);
  }

  /** As it is printed, the first conjunct is asked from step 0 on, where `x[0] != x[0]` fails. */
  lemma PrintedAlone()
    ensures ListConflicting(STREAMS, [NEVER_FIRST])
  {
    forall x: nat -> bool ensures !ListHolds(STREAMS, [NEVER_FIRST], x) {
      SingleHolds(NEVER_FIRST, x);
      AlwaysSays(0, x, 0);
      assert !STREAMS.holds(0, x, 0);
    }
    AllBreak([NEVER_FIRST]);
  }

  lemma KeepsBoth(k: nat)
    requires k == 1
    ensures var cs := [NEVER_FIRST, CONSTANT];
            && Deletion(STREAMS, cs, k, 0) == cs
            && NeededBefore(STREAMS, AnchoredAll(STREAMS, cs, k), 2)
  {
    var cs := [NEVER_FIRST, CONSTANT];
    var ks := AnchoredAll(STREAMS, cs, k);
    NeitherAlone();
    assert Anchored(STREAMS, CONSTANT, k) == CONSTANT;
    assert Anchored(STREAMS, NEVER_FIRST, k) == Always(Both(Leaf(0), Anchor(1)));
    assert Skip(ks, 0) == [CONSTANT] && Skip(ks, 1) == [Always(Both(Leaf(0), Anchor(1)))];
    assert Deletion(STREAMS, cs, k, 2) == cs;
    assert Deletion(STREAMS, cs, k, 1) == cs;
  }

  /** `always x[t] != x[0]` and `always x[t] = x[t-1]`: the core is both, and minimal with anchors, and the
      first as it is printed conflicts alone. */
  lemma CoreAsPrinted()
    ensures var f, cs := Both(NEVER_FIRST, CONSTANT), [NEVER_FIRST, CONSTANT];
            && IsReading(STREAMS) && IsWritten(f) && Conflicting(STREAMS, f) && !ListConflicting(STREAMS, [])
            && UnsatCore.PrintedCore(STREAMS, f) == cs
            && Minimal(STREAMS, AnchoredAll(STREAMS, cs, Depth(STREAMS, f)))
            && ListConflicting(STREAMS, [NEVER_FIRST]) && !Minimal(STREAMS, cs)
  {
    var f, cs := Both(NEVER_FIRST, CONSTANT), [NEVER_FIRST, CONSTANT];
    StreamsIsReading();
    assert Conjuncts(f) == cs && Depth(STREAMS, f) == 1;
    PairConflicts();
    SplitConflicts(STREAMS, f);
    NeitherAlone();
    PrintedAlone();
    KeepsBoth(1);
    AnchoredArePart(STREAMS, cs, 1);
    NeededIsMinimal(STREAMS, AnchoredAll(STREAMS, cs, 1), 1);
    assert Skip(cs, 1) == [NEVER_FIRST];
    assert Among([NEVER_FIRST], Skip(cs, 1));
  }

  /** Without anchors, dropping a conjunct can make a conflict: `always x[t] = 1`,
      `always x[t] = 1 | x[t-1] = 1` and `x[0] = 0` do not conflict, since the always part starts at step 1,
      and without the second they do. */
  lemma WithoutAnchors()
    ensures !ListConflicting(STREAMS, [Always(Leaf(2)), Always(Leaf(3)), Leaf(4)])
    ensures ListConflicting(STREAMS, [Always(Leaf(2)), Leaf(4)])
  {
    var one, either, first := Always(Leaf(2)), Always(Leaf(3)), Leaf(4);
    assert [one, either, first] == [one, either] + [first] && [one, either] == [one] + [either];
    DepthOfAllAppend(STREAMS, [one, either], [first]);
    DepthOfAllAppend(STREAMS, [one], [either]);
    SingleDepth(STREAMS, one);
    SingleDepth(STREAMS, either);
    SingleDepth(STREAMS, first);
    AlwaysSays(2, RISES, 1);
    AlwaysSays(3, RISES, 1);
    TwoHold(one, either, RISES);
    SingleHoldsFrom(first, 1, RISES);
    AllHoldAppend(STREAMS, [one, either], [first], 1, RISES);
    NoConflict([one, either, first], RISES);
    forall x: nat -> bool ensures !ListHolds(STREAMS, [one, first], x) {
      TwoHold(one, first, x);
      AlwaysSays(2, x, 0);
      assert STREAMS.holds(2, x, 0) == !STREAMS.holds(4, x, 0);
    }
    AllBreak([one, first]);
  }
}
