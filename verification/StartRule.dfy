/** The conjuncts of a specification and the rule for where its always part starts. */
module StartRule {

  /** A formula as the core splits it.  A leaf is anything that is no parenthesis, conjunction or always;
      an anchor is the literal `x[t-k] = x[t-k]`, true wherever it is asked. */
  datatype Wff = Leaf(id: nat) | Anchor(depth: nat) | Paren(arg: Wff) | Both(left: Wff, right: Wff) | Always(arg: Wff)

  /** What the leaves say of a trace at a step, how far back they read, whether they read a stream at a
      moving step, and which traces a behaviour of the system can produce: itself for satisfiability,
      its answers to every input for realizability. */
  datatype Reading<!B, !T> = Reading(holds: (nat, T, nat) -> bool, lookback: nat -> nat, moving: nat -> bool,
                                     produces: (B, T) -> bool)

  /** A leaf that reads fixed steps only has no lookback and says the same at every step. */
  ghost predicate IsReading<B(!new), T(!new)>(r: Reading<B, T>) {
    && (forall id: nat :: !r.moving(id) ==> r.lookback(id) == 0)
    && (forall id: nat, tr: T, t: nat, u: nat :: !r.moving(id) ==> r.holds(id, tr, t) == r.holds(id, tr, u))
  }

  function Max(a: nat, b: nat): nat {
    if a < b then b else a
  }

  function Lookback<B, T>(r: Reading<B, T>, f: Wff): nat {
    match f
    case Leaf(id) => r.lookback(id)
    case Anchor(k) => k
    case Paren(g) => Lookback(r, g)
    case Both(g, h) => Max(Lookback(r, g), Lookback(r, h))
    case Always(g) => Lookback(r, g)
  }

  /** Some stream is read at a moving step. */
  predicate Moving<B, T>(r: Reading<B, T>, f: Wff) {
    match f
    case Leaf(id) => r.moving(id)
    case Anchor(_) => true
    case Paren(g) => Moving(r, g)
    case Both(g, h) => Moving(r, g) || Moving(r, h)
    case Always(g) => Moving(r, g)
  }

  /** The formula at a step of a trace. */
  ghost predicate Means<B, T>(r: Reading<B, T>, f: Wff, tr: T, t: nat) {
    match f
    case Leaf(id) => r.holds(id, tr, t)
    case Anchor(_) => true
    case Paren(g) => Means(r, g, tr, t)
    case Both(g, h) => Means(r, g, tr, t) && Means(r, h, tr, t)
    case Always(g) => forall u: nat :: t <= u ==> Means(r, g, tr, u)
  }

  ghost predicate MeansEach<B, T>(r: Reading<B, T>, cs: seq<Wff>, tr: T, t: nat) {
    forall i :: 0 <= i < |cs| ==> Means(r, cs[i], tr, t)
  }

  ghost predicate MeansFrom<B, T>(r: Reading<B, T>, f: Wff, tr: T, k: nat) {
    forall u: nat :: k <= u ==> Means(r, f, tr, u)
  }

  lemma AlwaysIsMeansFrom<B, T>(r: Reading<B, T>, f: Wff, tr: T, t: nat)
    ensures Means(r, Always(f), tr, t) <==> MeansFrom(r, f, tr, t)
  {
  }

  // The start rule.

  /** The deepest lookback of the always statements of a specification. */
  function Depth<B, T>(r: Reading<B, T>, f: Wff): nat {
    match f
    case Paren(g) => Depth(r, g)
    case Both(g, h) => Max(Depth(r, g), Depth(r, h))
    case Always(g) => Lookback(r, g)
    case _ => 0
  }

  /** The specification with its always statements asked from step `k` on, and every other conjunct from
      its own lookback. */
  ghost predicate HoldsFrom<B, T>(r: Reading<B, T>, f: Wff, k: nat, tr: T) {
    match f
    case Paren(g) => HoldsFrom(r, g, k, tr)
    case Both(g, h) => HoldsFrom(r, g, k, tr) && HoldsFrom(r, h, k, tr)
    case Always(g) => MeansFrom(r, g, tr, k)
    case _ => Means(r, f, tr, Lookback(r, f))
  }

  ghost predicate SpecHolds<B, T>(r: Reading<B, T>, f: Wff, tr: T) {
    HoldsFrom(r, f, Depth(r, f), tr)
  }

  /** Every trace of the behaviour keeps to the specification. */
  ghost predicate Keeps<B, T(!new)>(r: Reading<B, T>, f: Wff, b: B) {
    forall tr: T :: r.produces(b, tr) ==> SpecHolds(r, f, tr)
  }

  ghost predicate Conflicting<B(!new), T(!new)>(r: Reading<B, T>, f: Wff) {
    forall b: B :: !Keeps(r, f, b)
  }

  // The same for a list of conjuncts.

  function DepthOfAll<B, T>(r: Reading<B, T>, cs: seq<Wff>): nat {
    if cs == [] then 0 else Max(DepthOfAll(r, cs[..|cs| - 1]), Depth(r, cs[|cs| - 1]))
  }

  ghost predicate AllHoldFrom<B, T>(r: Reading<B, T>, cs: seq<Wff>, k: nat, tr: T) {
    forall i :: 0 <= i < |cs| ==> HoldsFrom(r, cs[i], k, tr)
  }

  ghost predicate ListHolds<B, T>(r: Reading<B, T>, cs: seq<Wff>, tr: T) {
    AllHoldFrom(r, cs, DepthOfAll(r, cs), tr)
  }

  ghost predicate KeepsAll<B, T(!new)>(r: Reading<B, T>, cs: seq<Wff>, b: B) {
    forall tr: T :: r.produces(b, tr) ==> ListHolds(r, cs, tr)
  }

  ghost predicate ListConflicting<B(!new), T(!new)>(r: Reading<B, T>, cs: seq<Wff>) {
    forall b: B :: !KeepsAll(r, cs, b)
  }

  /** The conjunction of a list, as the checks are given it. */
  function Conjunction(cs: seq<Wff>): Wff
    requires cs != []
  {
    if |cs| == 1 then cs[0] else Both(Conjunction(cs[..|cs| - 1]), cs[|cs| - 1])
  }

  lemma {:induction false} ConjunctionHolds<B, T>(r: Reading<B, T>, cs: seq<Wff>, k: nat, tr: T)
    requires cs != []
    ensures Depth(r, Conjunction(cs)) == DepthOfAll(r, cs)
    ensures HoldsFrom(r, Conjunction(cs), k, tr) <==> AllHoldFrom(r, cs, k, tr)
    decreases |cs|
  {
    var init := cs[..|cs| - 1];
    if |cs| > 1 {
      ConjunctionHolds(r, init, k, tr);
      if AllHoldFrom(r, init, k, tr) && HoldsFrom(r, cs[|cs| - 1], k, tr) {
        forall i | 0 <= i < |cs| ensures HoldsFrom(r, cs[i], k, tr) {
          assert i < |cs| - 1 ==> cs[i] == init[i];
        }
      }
      if AllHoldFrom(r, cs, k, tr) {
        forall i | 0 <= i < |init| ensures HoldsFrom(r, init[i], k, tr) {
          assert init[i] == cs[i];
        }
      }
    } else {
      assert init == [];
    }
  }

  /** A list conflicts iff its conjunction does. */
  lemma ConjunctionConflicts<B(!new), T(!new)>(r: Reading<B, T>, cs: seq<Wff>)
    requires cs != []
    ensures Conflicting(r, Conjunction(cs)) <==> ListConflicting(r, cs)
  {
    forall tr: T ensures SpecHolds(r, Conjunction(cs), tr) <==> ListHolds(r, cs, tr) {
      ConjunctionHolds(r, cs, DepthOfAll(r, cs), tr);
    }
    forall b: B ensures Keeps(r, Conjunction(cs), b) <==> KeepsAll(r, cs, b) {}
  }

  // The conjuncts.

  /** `always` of an always conjunct is the conjunct itself. */
  function Wrap(c: Wff): Wff {
    if c.Always? then c else Always(c)
  }

  function WrapEach(cs: seq<Wff>): (ws: seq<Wff>)
    ensures |ws| == |cs| && forall i :: 0 <= i < |cs| ==> ws[i] == Wrap(cs[i])
  {
    seq(|cs|, i requires 0 <= i < |cs| => Wrap(cs[i]))
  }

  function Conjuncts(f: Wff): (cs: seq<Wff>)
    ensures cs != []
    ensures forall i :: 0 <= i < |cs| ==> cs[i].Leaf? || cs[i].Anchor? || cs[i].Always?
  {
    match f
    case Paren(g) => Conjuncts(g)
    case Both(g, h) => Conjuncts(g) + Conjuncts(h)
    case Always(g) => WrapEach(Conjuncts(g))
    case _ => [f]
  }

  /** The operands of the top-level conjunction, each always split over its own conjuncts. */
  method CollectConjuncts(f: Wff, out: seq<Wff>) returns (cs: seq<Wff>)
    ensures cs == out + Conjuncts(f)
    decreases f
  {
    match f {
      case Paren(g) =>
        cs := CollectConjuncts(g, out);
      case Both(g, h) =>
        cs := CollectConjuncts(g, out);
        cs := CollectConjuncts(h, cs);
      case Always(g) =>
        var body := CollectConjuncts(g, []);
        cs := out;
        for i := 0 to |body|
          invariant cs == out + WrapEach(body)[..i]
        {
          cs := cs + [if body[i].Always? then body[i] else Always(body[i])];
        }
        assert WrapEach(body)[..|body|] == WrapEach(body);
      case Leaf(_) => cs := out + [f];
      case Anchor(_) => cs := out + [f];
    }
  }

  lemma MeansEachAppend<B, T>(r: Reading<B, T>, a: seq<Wff>, b: seq<Wff>, tr: T, t: nat)
    ensures MeansEach(r, a + b, tr, t) <==> MeansEach(r, a, tr, t) && MeansEach(r, b, tr, t)
  {
    var c := a + b;
    if MeansEach(r, c, tr, t) {
      forall i | 0 <= i < |a| ensures Means(r, a[i], tr, t) { assert c[i] == a[i]; }
      forall i | 0 <= i < |b| ensures Means(r, b[i], tr, t) { assert c[|a| + i] == b[i]; }
    }
  }

  lemma WrapMeans<B, T>(r: Reading<B, T>, c: Wff, tr: T, t: nat)
    ensures Means(r, Wrap(c), tr, t) <==> MeansFrom(r, c, tr, t)
  {
    if c.Always? {
      AlwaysIsMeansFrom(r, c.arg, tr, t);
      if Means(r, c, tr, t) {
        forall u: nat | t <= u ensures Means(r, c, tr, u) {
          forall v: nat | u <= v ensures Means(r, c.arg, tr, v) {}
          AlwaysIsMeansFrom(r, c.arg, tr, u);
        }
      }
    } else {
      AlwaysIsMeansFrom(r, c, tr, t);
    }
  }

  /** The list conjoins to the formula at every step of every trace. */
  lemma {:induction false} ConjunctsMean<B, T>(r: Reading<B, T>, f: Wff, tr: T, t: nat)
    ensures MeansEach(r, Conjuncts(f), tr, t) <==> Means(r, f, tr, t)
    decreases f
  {
    match f
    case Leaf(_) => assert Conjuncts(f)[0] == f;
    case Anchor(_) => assert Conjuncts(f)[0] == f;
    case Paren(g) => ConjunctsMean(r, g, tr, t);
    case Both(g, h) =>
      ConjunctsMean(r, g, tr, t);
      ConjunctsMean(r, h, tr, t);
      MeansEachAppend(r, Conjuncts(g), Conjuncts(h), tr, t);
    case Always(g) =>
      forall u: nat ensures MeansEach(r, Conjuncts(g), tr, u) <==> Means(r, g, tr, u) {
        ConjunctsMean(r, g, tr, u);
      }
      AlwaysIsMeansFrom(r, g, tr, t);
      WrappedMean(r, g, tr, t);
  }

  lemma WrappedMean<B, T>(r: Reading<B, T>, g: Wff, tr: T, t: nat)
    requires forall u: nat :: MeansEach(r, Conjuncts(g), tr, u) <==> Means(r, g, tr, u)
    ensures MeansEach(r, WrapEach(Conjuncts(g)), tr, t) <==> MeansFrom(r, g, tr, t)
  {
    var cs := Conjuncts(g);
    var ws := WrapEach(cs);
    forall i | 0 <= i < |cs| ensures Means(r, ws[i], tr, t) <==> MeansFrom(r, cs[i], tr, t) {
      WrapMeans(r, cs[i], tr, t);
    }
    if MeansEach(r, ws, tr, t) {
      forall u: nat | t <= u ensures Means(r, g, tr, u) {
        forall i | 0 <= i < |cs| ensures Means(r, cs[i], tr, u) {
          assert Means(r, ws[i], tr, t);
        }
        assert MeansEach(r, cs, tr, u);
      }
    }
    if MeansFrom(r, g, tr, t) {
      forall i | 0 <= i < |ws| ensures Means(r, ws[i], tr, t) {
        forall u: nat | t <= u ensures Means(r, cs[i], tr, u) {
          assert MeansEach(r, cs, tr, u);
        }
      }
    }
  }

  // Splitting keeps the start of the always part.

  lemma {:induction false} DepthOfAllAppend<B, T>(r: Reading<B, T>, a: seq<Wff>, b: seq<Wff>)
    ensures DepthOfAll(r, a + b) == Max(DepthOfAll(r, a), DepthOfAll(r, b))
    decreases |b|
  {
    if b == [] {
      assert a + b == a;
    } else {
      assert (a + b)[..|a + b| - 1] == a + b[..|b| - 1];
      DepthOfAllAppend(r, a, b[..|b| - 1]);
    }
  }

  lemma {:induction false} WrappedDepth<B, T>(r: Reading<B, T>, g: Wff)
    ensures DepthOfAll(r, WrapEach(Conjuncts(g))) == Lookback(r, g)
    decreases g
  {
    match g
    case Leaf(_) => SingleDepth(r, Always(g)); assert WrapEach([g]) == [Always(g)];
    case Anchor(_) => SingleDepth(r, Always(g)); assert WrapEach([g]) == [Always(g)];
    case Paren(h) => WrappedDepth(r, h);
    case Both(a, b) =>
      WrappedDepth(r, a);
      WrappedDepth(r, b);
      WrapAppend(Conjuncts(a), Conjuncts(b));
      DepthOfAllAppend(r, WrapEach(Conjuncts(a)), WrapEach(Conjuncts(b)));
    case Always(h) =>
      WrappedDepth(r, h);
      WrapTwice(Conjuncts(h));
  }

  lemma WrapAppend(a: seq<Wff>, b: seq<Wff>)
    ensures WrapEach(a + b) == WrapEach(a) + WrapEach(b)
  {
  }

  lemma WrapTwice(cs: seq<Wff>)
    ensures WrapEach(WrapEach(cs)) == WrapEach(cs)
  {
  }

  lemma SingleDepth<B, T>(r: Reading<B, T>, f: Wff)
    ensures DepthOfAll(r, [f]) == Depth(r, f)
  {
    assert [f][..0] == [];
  }

  lemma {:induction false} ConjunctsDepth<B, T>(r: Reading<B, T>, f: Wff)
    ensures DepthOfAll(r, Conjuncts(f)) == Depth(r, f)
    decreases f
  {
    match f
    case Leaf(_) => SingleDepth(r, f);
    case Anchor(_) => SingleDepth(r, f);
    case Paren(g) => ConjunctsDepth(r, g);
    case Both(g, h) =>
      ConjunctsDepth(r, g);
      ConjunctsDepth(r, h);
      DepthOfAllAppend(r, Conjuncts(g), Conjuncts(h));
    case Always(g) => WrappedDepth(r, g);
  }

  /** Under the start rule too, the list is the specification: with its always part started at the same
      step, it holds on the same traces. */
  lemma {:induction false} ConjunctsHold<B, T>(r: Reading<B, T>, f: Wff, k: nat, tr: T)
    ensures AllHoldFrom(r, Conjuncts(f), k, tr) <==> HoldsFrom(r, f, k, tr)
    decreases f
  {
    match f
    case Leaf(_) => assert Conjuncts(f)[0] == f;
    case Anchor(_) => assert Conjuncts(f)[0] == f;
    case Paren(g) => ConjunctsHold(r, g, k, tr);
    case Both(g, h) =>
      ConjunctsHold(r, g, k, tr);
      ConjunctsHold(r, h, k, tr);
      AllHoldAppend(r, Conjuncts(g), Conjuncts(h), k, tr);
    case Always(g) =>
      forall u: nat ensures MeansEach(r, Conjuncts(g), tr, u) <==> Means(r, g, tr, u) {
        ConjunctsMean(r, g, tr, u);
      }
      WrappedMean(r, g, tr, k);
      AlwaysHold(r, WrapEach(Conjuncts(g)), k, tr);
  }

  lemma AllHoldAppend<B, T>(r: Reading<B, T>, a: seq<Wff>, b: seq<Wff>, k: nat, tr: T)
    ensures AllHoldFrom(r, a + b, k, tr) <==> AllHoldFrom(r, a, k, tr) && AllHoldFrom(r, b, k, tr)
  {
    var c := a + b;
    if AllHoldFrom(r, c, k, tr) {
      forall i | 0 <= i < |a| ensures HoldsFrom(r, a[i], k, tr) { assert c[i] == a[i]; }
      forall i | 0 <= i < |b| ensures HoldsFrom(r, b[i], k, tr) { assert c[|a| + i] == b[i]; }
    }
  }

  lemma AlwaysHold<B, T>(r: Reading<B, T>, ws: seq<Wff>, k: nat, tr: T)
    requires forall i :: 0 <= i < |ws| ==> ws[i].Always?
    ensures AllHoldFrom(r, ws, k, tr) <==> MeansEach(r, ws, tr, k)
  {
    forall i | 0 <= i < |ws| ensures HoldsFrom(r, ws[i], k, tr) <==> Means(r, ws[i], tr, k) {
      AlwaysIsMeansFrom(r, ws[i].arg, tr, k);
    }
  }

  lemma SplitConflicts<B(!new), T(!new)>(r: Reading<B, T>, f: Wff)
    ensures Conflicting(r, f) <==> ListConflicting(r, Conjuncts(f))
  {
    forall tr: T ensures SpecHolds(r, f, tr) <==> ListHolds(r, Conjuncts(f), tr) {
      ConjunctsDepth(r, f);
      ConjunctsHold(r, f, Depth(r, f), tr);
    }
    forall b: B ensures Keeps(r, f, b) <==> KeepsAll(r, Conjuncts(f), b) {}
  }
}
