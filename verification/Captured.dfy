/** When the bit game decides what its skeleton says: atoms are named `p0`, `p1`, ... and replaced in turn,
    so a stream of such a name is replaced too. */
module Captured {
  import opened Options
  import opened Ltl
  import opened Substitution
  import opened Bookkeeping
  import opened BitGame
  import opened AigerGame
  import opened AigerExport

  /** A name that the formulas of the atoms may read. */
  ghost predicate IsBit(needs: set<Need>, n: string) {
    Input(n) in needs || Output(n) in needs || IsBookkeeping(HistoryOf(needs), FrozenOf(needs), n)
  }

  lemma {:induction false} TermReadsBits(n: Term, needs: set<Need>, x: string)
    requires TermFormula(n).Some? && TermNeeds(n) <= needs && x in Props(TermFormula(n).value)
    ensures IsBit(needs, x)
  {
    match n
    case Read(y, back, input) =>
      assert StreamNeed(y, input) in TermNeeds(n);
      if back > 0 {
        HistoryNeedsMember(y, back, History((y, back)));
        assert (y, back) in HistoryOf(needs);
        assert HistoryName((y, back).0, (y, back).1) == x;
      }
    case ReadAt(y, step, _) =>
      assert Frozen((y, step)) in needs;
      assert (y, step) in FrozenOf(needs);
      assert FixedName((y, step).0, (y, step).1) == x;
    case Complement(a) => TermReadsBits(a, needs, x);
    case Parens(a) => TermReadsBits(a, needs, x);
    case Operation(_, a, b) =>
      if x in Props(TermFormula(a).value) { TermReadsBits(a, needs, x); } else { TermReadsBits(b, needs, x); }
    case _ =>
  }

  lemma {:induction false} RuleReadsBits(atoms: seq<NamedAtom>, j: nat, x: string)
    requires AllTaken(atoms) && j < |atoms| && x in Props(RulesOf(atoms)[j].formula)
    ensures IsBit(NeedsOfAll(atoms), x)
  {
    var atom := atoms[j].0;
    NeedsOfOne(atoms, j);
    if x in Props(TermFormula(atom.left).value) {
      TermReadsBits(atom.left, NeedsOfAll(atoms), x);
    } else {
      TermReadsBits(atom.right, NeedsOfAll(atoms), x);
    }
  }

  /** Both readings of an atom read such names only. */
  lemma {:induction false} ReadingsReadBits(atoms: seq<NamedAtom>, n: string)
    requires AllTaken(atoms) && n in AtOnce(RulesOf(atoms))
    ensures forall x :: x in Props(AtOnce(RulesOf(atoms))[n]) ==> IsBit(NeedsOfAll(atoms), x)
    ensures forall x :: x in Props(AfterAll(RulesOf(atoms))[n]) ==> IsBit(NeedsOfAll(atoms), x)
  {
    var rules, needs := RulesOf(atoms), NeedsOfAll(atoms);
    forall j, x | 0 <= j < |atoms| && x in Props(rules[j].formula) ensures IsBit(needs, x) {
      RuleReadsBits(atoms, j, x);
    }
    var i := RuleOf(rules, n);
    ReplaceEachReads(rules[i].formula, rules[i + 1..], (x: string) => IsBit(needs, x));
  }

  // Streams that give the bits any values at some step.

  lemma {:induction false} LargestIndex(keys: set<Key>) returns (b: nat)
    ensures forall key :: key in keys ==> key.1 <= b
    decreases keys
  {
    b := 0;
    if key :| key in keys {
      b := LargestIndex(keys - {key});
      b := if b < key.1 then key.1 else b;
    }
  }

  /** The streams with the given values at step `2 * b + 1`, and before it what the history outputs up to
      `b` back, and at the first steps what the fixed copies up to step `b`, then hold. */
  ghost function Snapshot(values: string -> bool, b: nat): Word {
    (u: nat, x: string) =>
      if u > 2 * b then values(x) else if u > b then values(HistoryName(x, 2 * b + 1 - u)) else values(FixedName(x, u))
  }

  /** The needs are about streams with names of their own, and reach no further than `b`. */
  ghost predicate IsClear(needs: set<Need>, b: nat) {
    && WellFormed(needs)
    && (forall x :: Input(x) in needs || Output(x) in needs ==> !IsBookkeeping(HistoryOf(needs), FrozenOf(needs), x))
    && (forall key :: key in HistoryOf(needs) || key in FrozenOf(needs) ==> key.1 <= b)
  }

  lemma {:induction false} KeyIsClear(needs: set<Need>, b: nat, key: Key)
    requires IsClear(needs, b) && (key in HistoryOf(needs) || key in FrozenOf(needs))
    ensures !IsBookkeeping(HistoryOf(needs), FrozenOf(needs), key.0) && key.1 <= b
    ensures key in HistoryOf(needs) ==> key.1 >= 1
    ensures Closed(HistoryOf(needs))
  {
    hide IsBookkeeping;
    WellFormedIsClosed(needs);
  }

  lemma {:induction false} HistoryOfSnapshot(values: string -> bool, b: nat, needs: set<Need>, pre: Past, w: Word,
                                             key: Key)
    requires IsClear(needs, b) && key in HistoryOf(needs)
    requires Tied(w, HistoryOf(needs), FrozenOf(needs))
    requires Carries(w, Snapshot(values, b), pre, HistoryOf(needs), FrozenOf(needs))
    ensures w(2 * b + 1, HistoryName(key.0, key.1)) == values(HistoryName(key.0, key.1))
  {
    hide IsClear, IsBookkeeping, HistoryName, Tied, Closed;
    KeyIsClear(needs, b, key);
    HistoryHolds(w, HistoryOf(needs), FrozenOf(needs), key, 2 * b + 1);
    var u: nat := 2 * b + 1 - key.1;
    assert w(u, key.0) == Snapshot(values, b)(u, key.0);
    assert 2 * b + 1 - u == key.1;
  }

  lemma {:induction false} FixedOfSnapshot(values: string -> bool, b: nat, needs: set<Need>, pre: Past, w: Word,
                                           key: Key)
    requires IsClear(needs, b) && key in FrozenOf(needs)
    requires Tied(w, HistoryOf(needs), FrozenOf(needs))
    requires Carries(w, Snapshot(values, b), pre, HistoryOf(needs), FrozenOf(needs))
    ensures w(2 * b + 1, FixedName(key.0, key.1)) == values(FixedName(key.0, key.1))
  {
    hide IsClear, IsBookkeeping, FixedName, Closed;
    KeyIsClear(needs, b, key);
    FixedHolds(w, key, 2 * b + 1);
    assert w(key.1, key.0) == Snapshot(values, b)(key.1, key.0);
  }

  lemma {:induction false} SnapshotHolds(values: string -> bool, b: nat, needs: set<Need>, pre: Past, w: Word,
                                         n: string)
    requires IsClear(needs, b) && IsBit(needs, n)
    requires Tied(w, HistoryOf(needs), FrozenOf(needs))
    requires Carries(w, Snapshot(values, b), pre, HistoryOf(needs), FrozenOf(needs))
    ensures w(2 * b + 1, n) == values(n)
  {
    hide HistoryName, FixedName, Tied;
    var history, fixedAt := HistoryOf(needs), FrozenOf(needs);
    if Input(n) in needs || Output(n) in needs {
      assert !IsBookkeeping(history, fixedAt, n);
      assert w(2 * b + 1, n) == Snapshot(values, b)(2 * b + 1, n);
    } else if IsHistoryName(history, n) {
      var key :| key in history && HistoryName(key.0, key.1) == n;
      HistoryOfSnapshot(values, b, needs, pre, w, key);
    } else {
      var key :| key in fixedAt && FixedName(key.0, key.1) == n;
      FixedOfSnapshot(values, b, needs, pre, w, key);
    }
  }

  ghost predicate TiedCarrier(atoms: seq<NamedAtom>, w: Word, s: Word, pre: Past) {
    var needs := NeedsOfAll(atoms);
    Tied(w, HistoryOf(needs), FrozenOf(needs)) && Carries(w, s, pre, HistoryOf(needs), FrozenOf(needs))
  }

  /** Both readings of an atom at the step of the snapshot. */
  lemma {:induction false} SnapshotReadings(atoms: seq<NamedAtom>, n: string, values: string -> bool, b: nat, w: Word,
                                            pre: Past)
    requires AllTaken(atoms) && IsClear(NeedsOfAll(atoms), b) && n in AtOnce(RulesOf(atoms))
    requires TiedCarrier(atoms, w, Snapshot(values, b), pre)
    ensures Sat(AfterAll(RulesOf(atoms))[n], w, 2 * b + 1) <==> Sat(AfterAll(RulesOf(atoms))[n], Still(values), 0)
    ensures Sat(AtOnce(RulesOf(atoms))[n], w, 2 * b + 1) <==> Sat(AtOnce(RulesOf(atoms))[n], Still(values), 0)
  {
    hide Sat, IsClear, IsBit, Tied, Carries, RulesOf, AtOnce, ReplaceEach, Snapshot;
    var rules, needs := RulesOf(atoms), NeedsOfAll(atoms);
    forall x | IsBit(needs, x) ensures w(2 * b + 1, x) == values(x) {
      SnapshotHolds(values, b, needs, pre, w, x);
    }
    ReadingsReadBits(atoms, n);
    RulesArePropositional(atoms);
    RuleIsPropositional(rules, n);
    PropositionalMeans(AfterAll(rules)[n], w, 2 * b + 1, values);
    PropositionalMeans(AtOnce(rules)[n], w, 2 * b + 1, values);
  }

  /** The game of a skeleton that asks for an atom at step `t` reads the atom's last formula there. */
  lemma {:induction false} GameReads(atoms: seq<NamedAtom>, n: string, t: nat, w: Word)
    requires AllTaken(atoms) && n in AtOnce(RulesOf(atoms))
    requires Tied(w, HistoryOf(NeedsOfAll(atoms)), FrozenOf(NeedsOfAll(atoms)))
    ensures InGame(NextTimes(Prop(n), t), atoms, w) <==> Sat(AfterAll(RulesOf(atoms))[n], w, t)
  {
    hide NextTimes, RulesOf, Tied, AtOnce, ReplaceEach;
    var rules, skel := RulesOf(atoms), NextTimes(Prop(n), t);
    SequentialIsAfterAll(skel, rules);
    ApplyMeans(skel, AfterAll(rules), w, 0);
    NextTimesMeans(Prop(n), t, Reading(w, AfterAll(rules)), 0);
  }

  /** The skeleton reads the atom itself. */
  lemma {:induction false} SkeletonReads(atoms: seq<NamedAtom>, n: string, t: nat, w: Word, s: Word, pre: Past)
    requires AllTaken(atoms) && ClearStreams(atoms) && n in AtOnce(RulesOf(atoms)) && AtomFor(atoms, n).Some?
    requires TiedCarrier(atoms, w, s, pre)
    ensures Sat(NextTimes(Prop(n), t), AtomWord(atoms, s, pre), 0) <==> Sat(AtOnce(RulesOf(atoms))[n], w, t)
  {
    hide NextTimes, RulesOf, Tied, AtOnce, Carries, ClearStreams;
    var rules, skel := RulesOf(atoms), NextTimes(Prop(n), t);
    NextTimesProps(Prop(n), t);
    NextTimesMeans(Prop(n), t, AtomWord(atoms, s, pre), 0);
    SameAtomWord(skel, atoms, w, s, pre, n);
    RuleReadsAtom(atoms, rules, w, n, t);
  }

  /** If every word that carries the streams reads a skeleton wrongly, the skeleton is misdecided. */
  lemma {:induction false} Misdecided(skel: Formula, atoms: seq<NamedAtom>, s: Word, pre: Past, w: Word)
    requires AllTaken(atoms) && TiedCarrier(atoms, w, s, pre)
    requires forall v: Word :: TiedCarrier(atoms, v, s, pre) ==>
               (InGame(skel, atoms, v) <==> !Sat(skel, AtomWord(atoms, s, pre), 0))
    ensures !Decided(skel, atoms, s, pre)
  {
    hide Sat, Tied, Carries, AtomWord, ReplaceEach;
    forall v: Word | InGame(skel, atoms, v)
      ensures Tied(v, HistoryOf(NeedsOfAll(atoms)), FrozenOf(NeedsOfAll(atoms))) {}
  }

  lemma {:induction false} ClearUpTo(atoms: seq<NamedAtom>) returns (b: nat)
    requires ClearStreams(atoms)
    ensures IsClear(NeedsOfAll(atoms), b)
  {
    hide IsBookkeeping, NeedsOfAll, WellFormed;
    AllNeedsWellFormed(atoms);
    b := LargestIndex(HistoryOf(NeedsOfAll(atoms)) + FrozenOf(NeedsOfAll(atoms)));
  }

  /** An atom whose value changes is misread by a skeleton that asks for it at such a step. */
  lemma {:induction false} HarmedIsMisread(atoms: seq<NamedAtom>, n: string, values: string -> bool)
    returns (t: nat, s: Word, pre: Past)
    requires AllTaken(atoms) && ClearStreams(atoms)
    requires n in AtOnce(RulesOf(atoms)) && !Unharmed(RulesOf(atoms), n, values)
    ensures ClearProps(NextTimes(Prop(n), t), atoms) && !Decided(NextTimes(Prop(n), t), atoms, s, pre)
  {
    hide AtOnce, AfterAll, RulesOf, Sat, NextTimes, Snapshot, Decided, ClearStreams, IsClear;
    var b := ClearUpTo(atoms);
    t, s, pre := 2 * b + 1, Snapshot(values, b), (j: nat, x: string) => false;
    NextTimesProps(Prop(n), t);
    HasAtom(atoms, n);
    HarmedAt(atoms, n, values, b, pre);
  }

  lemma {:induction false} HarmedAt(atoms: seq<NamedAtom>, n: string, values: string -> bool, b: nat, pre: Past)
    requires AllTaken(atoms) && ClearStreams(atoms) && IsClear(NeedsOfAll(atoms), b) && AtomFor(atoms, n).Some?
    requires n in AtOnce(RulesOf(atoms)) && !Unharmed(RulesOf(atoms), n, values)
    ensures !Decided(NextTimes(Prop(n), 2 * b + 1), atoms, Snapshot(values, b), pre)
  {
    hide Tied, Carries, AtOnce, RulesOf, Sat, NextTimes, Snapshot, InGame, Decided, AtomWord, ReplaceEach, AtomFor,
      NeedsOfAll, IsClear, ClearStreams;
    var needs, skel, s := NeedsOfAll(atoms), NextTimes(Prop(n), 2 * b + 1), Snapshot(values, b);
    forall w: Word | TiedCarrier(atoms, w, s, pre)
      ensures InGame(skel, atoms, w) <==> !Sat(skel, AtomWord(atoms, s, pre), 0)
    {
      SnapshotReadings(atoms, n, values, b, w, pre);
      GameReads(atoms, n, 2 * b + 1, w);
      SkeletonReads(atoms, n, 2 * b + 1, w, s, pre);
    }
    ClearIsDistinct(needs, b);
    ExtensionTied(s, pre, HistoryOf(needs), FrozenOf(needs));
    Misdecided(skel, atoms, s, pre, Extension(s, pre, HistoryOf(needs), FrozenOf(needs)));
  }

  lemma {:induction false} ClearIsDistinct(needs: set<Need>, b: nat)
    requires IsClear(needs, b)
    ensures Distinct(HistoryOf(needs), FrozenOf(needs)) && Closed(HistoryOf(needs))
  {
    forall key | key in HistoryOf(needs) || key in FrozenOf(needs)
      ensures !IsBookkeeping(HistoryOf(needs), FrozenOf(needs), key.0)
    {
      KeyIsClear(needs, b, key);
    }
    WellFormedIsClosed(needs);
  }

  lemma {:induction false} HasAtom(atoms: seq<NamedAtom>, n: string)
    requires AllTaken(atoms) && n in AtOnce(RulesOf(atoms))
    ensures AtomFor(atoms, n).Some?
  {
    forall j | 0 <= j < |atoms| ensures IsRuleOf(RulesOf(atoms)[j], atoms[j]) {}
    AtomOfRule(atoms, RulesOf(atoms), n);
  }

  lemma {:induction false} NextTimesProps(f: Formula, k: nat)
    ensures Props(NextTimes(f, k)) == Props(f)
    decreases k
  {
    if k > 0 {
      NextTimesProps(f, k - 1);
    }
  }

  /** The game decides what the skeleton says, for every skeleton, all streams and any past, exactly when no
      atom's formula changes its value by the replacements that come after it. */
  lemma {:induction false} DecidesIffHarmless(atoms: seq<NamedAtom>)
    requires AllTaken(atoms) && ClearStreams(atoms)
    ensures (forall skel: Formula, s: Word, pre: Past :: ClearProps(skel, atoms) ==> Decided(skel, atoms, s, pre))
            <==> Harmless(RulesOf(atoms))
  {
    var rules := RulesOf(atoms);
    if Harmless(rules) {
      forall skel: Formula, s: Word, pre: Past | ClearProps(skel, atoms) ensures Decided(skel, atoms, s, pre) {
        GameDecides(skel, atoms, s, pre);
      }
    } else {
      var n: string, values: string -> bool :| n in AtOnce(rules) && !Unharmed(rules, n, values);
      var t, s, pre := HarmedIsMisread(atoms, n, values);
    }
  }

  // A stream named like an atom.

  const P1_IS_ONE := Atom(Eq, Read("p1", 0, false), One)
  const O1_IS_ZERO := Atom(Eq, Read("o1", 0, false), Zero)

  /** `p1[t] = 1` and `o1[t] = 0`. */
  const CAPTURED: seq<NamedAtom> := [(P1_IS_ONE, "p0"), (O1_IS_ZERO, "p1")]

  ghost const ZERO: Word := (u: nat, n: string) => false
  ghost const NONE: Past := (j: nat, x: string) => false

  const BOTH := And(Prop("p0"), Prop("p1"))

  lemma {:induction false} CapturedFormulas()
    ensures AllTaken(CAPTURED)
    ensures RulesOf(CAPTURED) == [Rule("p0", Iff(Prop("p1"), True)), Rule("p1", Iff(Prop("o1"), False))]
  {
    assert AtomFormula(P1_IS_ONE) == Some(Iff(Prop("p1"), True));
    assert AtomFormula(O1_IS_ZERO) == Some(Iff(Prop("o1"), False));
  }

  lemma {:induction false} CapturedNeeds()
    ensures NeedsOfAll(CAPTURED) == {Output("p1"), Output("o1")}
  {
    assert CAPTURED[..1] == [(P1_IS_ONE, "p0")] && CAPTURED[..1][..0] == [];
    assert NeedsOfAll(CAPTURED[..1]) == NeedsOfAll([]) + AtomNeeds(P1_IS_ONE);
    assert NeedsOfAll(CAPTURED) == NeedsOfAll(CAPTURED[..1]) + AtomNeeds(O1_IS_ZERO);
    assert AtomNeeds(P1_IS_ONE) == {Output("p1")} && AtomNeeds(O1_IS_ZERO) == {Output("o1")};
  }

  lemma {:induction false} CapturedRewritten()
    ensures ReplaceEach(BOTH, RulesOf(CAPTURED)) ==
              And(Iff(Iff(Prop("o1"), False), True), Iff(Prop("o1"), False))
  {
    CapturedFormulas();
    var first, second := Rule("p0", Iff(Prop("p1"), True)), Rule("p1", Iff(Prop("o1"), False));
    var once := And(Iff(Prop("p1"), True), Prop("p1"));
    assert Replace(BOTH, first) == once;
    assert RulesOf(CAPTURED)[1..] == [second] && [second][1..] == [];
    assert ReplaceEach(BOTH, RulesOf(CAPTURED)) == ReplaceEach(once, [second]) == Replace(once, second);
  }

  lemma {:induction false} NothingRemembered()
    ensures HistoryOf(NeedsOfAll(CAPTURED)) == {} && FrozenOf(NeedsOfAll(CAPTURED)) == {}
  {
    CapturedNeeds();
  }

  lemma {:induction false} RewrittenHolds()
    ensures Sat(ReplaceEach(BOTH, RulesOf(CAPTURED)), ZERO, 0)
  {
    CapturedRewritten();
    hide RulesOf, ReplaceEach;
    assert Sat(And(Iff(Iff(Prop("o1"), False), True), Iff(Prop("o1"), False)), ZERO, 0);
  }

  lemma {:induction false} CapturedInGame()
    requires AllTaken(CAPTURED)
    ensures ClearNames(BOTH, CAPTURED) && InGame(BOTH, CAPTURED, ZERO) && TiedCarrier(CAPTURED, ZERO, ZERO, NONE)
  {
    hide RulesOf, NeedsOfAll, ReplaceEach, AtomFormula, Sat;
    NothingRemembered();
    RewrittenHolds();
  }

  /** The skeleton asks for `p1[t] = 1`.  With all streams 0 it fails, and the word of these streams is in
      the game, where `p1` has become `o1[t] = 0`. */
  lemma {:induction false} StreamNamedLikeAtom()
    ensures AllTaken(CAPTURED) && ClearNames(BOTH, CAPTURED)
    ensures InGame(BOTH, CAPTURED, ZERO) && TiedCarrier(CAPTURED, ZERO, ZERO, NONE)
    ensures !Sat(BOTH, AtomWord(CAPTURED, ZERO, NONE), 0) && !Decided(BOTH, CAPTURED, ZERO, NONE)
  {
    CapturedFormulas();
    hide RulesOf, NeedsOfAll, ReplaceEach, Sat, AtomFormula, AllTaken, Tied, ClearStreams, ClearProps;
    CapturedInGame();
    AtomFails();
  }

  lemma {:induction false} AtomFails()
    ensures !Sat(BOTH, AtomWord(CAPTURED, ZERO, NONE), 0)
  {
    assert AtomFor(CAPTURED, "p0") == Some(P1_IS_ONE);
    assert !AtomHolds(P1_IS_ONE, ZERO, NONE, 0);
    assert !AtomWord(CAPTURED, ZERO, NONE)(0, "p0");
  }

  // A stream named like a bookkeeping output.

  const X_BEFORE := Atom(Eq, Read("x", 1, false), One)
  const H_NOW := Atom(Eq, Read("__h_x_1", 0, false), One)

  /** `x[t-1] = 1` and `__h_x_1[t] = 1`. */
  const CLASHING: seq<NamedAtom> := [(X_BEFORE, "p0"), (H_NOW, "p1")]

  const DIFFER := Globally(Join(Difference, Prop("p0"), Prop("p1")))

  lemma {:induction false} ClashingFormulas()
    ensures AllTaken(CLASHING)
    ensures RulesOf(CLASHING) == [Rule("p0", Iff(Prop("__h_x_1"), True)), Rule("p1", Iff(Prop("__h_x_1"), True))]
  {
    assert HistoryName("x", 1) == "__h_x_1";
    assert AtomFormula(X_BEFORE) == Some(Iff(Prop("__h_x_1"), True));
    assert AtomFormula(H_NOW) == Some(Iff(Prop("__h_x_1"), True));
  }

  lemma {:induction false} ClashingRewritten()
    ensures ReplaceEach(DIFFER, RulesOf(CLASHING)) ==
              Globally(Join(Difference, Iff(Prop("__h_x_1"), True), Iff(Prop("__h_x_1"), True)))
  {
    ClashingFormulas();
    var h := Iff(Prop("__h_x_1"), True);
    var once := Globally(Join(Difference, h, Prop("p1")));
    assert Replace(DIFFER, Rule("p0", h)) == once;
    assert RulesOf(CLASHING)[1..] == [Rule("p1", h)] && [Rule("p1", h)][1..] == [];
    assert ReplaceEach(DIFFER, RulesOf(CLASHING)) == ReplaceEach(once, [Rule("p1", h)]) == Replace(once, Rule("p1", h));
  }

  lemma {:induction false} DifferHolds(s: Word)
    requires s == ((t: nat, n: string) => n == "__h_x_1")
    ensures Sat(DIFFER, AtomWord(CLASHING, s, NONE), 0)
  {
    assert AtomFor(CLASHING, "p0") == Some(X_BEFORE);
    assert CLASHING[1..] == [(H_NOW, "p1")] && AtomFor(CLASHING[1..], "p1") == Some(H_NOW);
    assert AtomFor(CLASHING, "p1") == Some(H_NOW);
    var v, either := AtomWord(CLASHING, s, NONE), Join(Difference, Prop("p0"), Prop("p1"));
    forall u: nat ensures Sat(either, v, u) {
      BeforeAndNow(s, u);
      assert v(u, "p0") == AtomHolds(X_BEFORE, s, NONE, u) && v(u, "p1") == AtomHolds(H_NOW, s, NONE, u);
    }
    GloballyIsAlways(either, v, 0);
  }

  lemma {:induction false} RewrittenFails(w: Word)
    ensures !Sat(ReplaceEach(DIFFER, RulesOf(CLASHING)), w, 0)
  {
    var h := Iff(Prop("__h_x_1"), True);
    ClashingRewritten();
    hide ReplaceEach, RulesOf;
    assert !Sat(Join(Difference, h, h), w, 0);
    GloballyIsAlways(Join(Difference, h, h), w, 0);
  }

  /** The skeleton asks that the two differ at every step.  Streams that do so exist, and the game, in which
      both are the one output `__h_x_1`, has no word at all. */
  lemma {:induction false} StreamNamedLikeHistory()
    ensures AllTaken(CLASHING) && NoCapture(RulesOf(CLASHING)) && !ClearStreams(CLASHING)
    ensures exists s: Word :: Sat(DIFFER, AtomWord(CLASHING, s, NONE), 0)
    ensures forall w: Word :: !InGame(DIFFER, CLASHING, w)
  {
    ClashingFormulas();
    ClashingStreams();
    DifferHolds((t: nat, n: string) => n == "__h_x_1");
    hide ReplaceEach, AtomFormula, NeedsOfAll, Sat, AllTaken, ClearStreams;
    forall w: Word ensures !InGame(DIFFER, CLASHING, w) { RewrittenFails(w); }
  }

  lemma {:induction false} BeforeAndNow(s: Word, u: nat)
    requires s == ((t: nat, n: string) => n == "__h_x_1")
    ensures !AtomHolds(X_BEFORE, s, NONE, u) && AtomHolds(H_NOW, s, NONE, u)
  {
  }

  lemma {:induction false} ClashingStreams()
    ensures !ClearStreams(CLASHING)
  {
    var needs := NeedsOfAll(CLASHING);
    assert CLASHING[..1] == [(X_BEFORE, "p0")] && CLASHING[..1][..0] == [];
    assert NeedsOfAll(CLASHING[..1]) == NeedsOfAll([]) + AtomNeeds(X_BEFORE);
    assert needs == NeedsOfAll(CLASHING[..1]) + AtomNeeds(H_NOW);
    HistoryNeedsMember("x", 1, History(("x", 1)));
    assert History(("x", 1)) in AtomNeeds(X_BEFORE) && Output("__h_x_1") in AtomNeeds(H_NOW);
    assert ("x", 1) in HistoryOf(needs) && HistoryName(("x", 1).0, ("x", 1).1) == "__h_x_1";
    assert IsHistoryName(HistoryOf(needs), "__h_x_1");
  }
}
