/** Controllers of the bit game and of its skeleton: what a player who reads the inputs step by step can
    make of them. */
module Controllers {
  import opened Options
  import opened Ltl
  import opened Substitution
  import opened Bookkeeping
  import opened BitGame
  import opened AigerGame
  import opened AigerExport

  /** The word that the controller makes of every word of the inputs. */
  type Controller = Word -> Word

  ghost predicate SameInputs(ins: set<string>, i: Word, j: Word, t: nat) {
    forall u: nat, x: string :: u <= t && x in ins ==> i(u, x) == j(u, x)
  }

  ghost predicate SameStep(w: Word, v: Word, t: nat) {
    forall n: string :: w(t, n) == v(t, n)
  }

  /** The controller keeps the inputs, and what it does at a step depends on the inputs up to it. */
  ghost predicate IsController(ins: set<string>, c: Controller) {
    && (forall i: Word, u: nat, x: string :: x in ins ==> c(i)(u, x) == i(u, x))
    && (forall i: Word, j: Word, t: nat :: SameInputs(ins, i, j, t) ==> SameStep(c(i), c(j), t))
  }

  /** Every word it makes is in the game. */
  ghost predicate PlaysGame(ins: set<string>, skel: Formula, atoms: seq<NamedAtom>, c: Controller)
    requires AllTaken(atoms)
  {
    IsController(ins, c) && forall i: Word :: InGame(skel, atoms, c(i))
  }

  ghost predicate SamePast(p: Past, q: Past) {
    forall k: nat, x: string :: p(k, x) == q(k, x)
  }

  /** A past that depends on the inputs at step 0. */
  ghost predicate IsStart(ins: set<string>, past: Word -> Past) {
    forall i: Word, j: Word :: SameInputs(ins, i, j, 0) ==> SamePast(past(i), past(j))
  }

  /** On every word it makes, with its past, the skeleton holds, each atom read on the streams. */
  ghost predicate PlaysSkeleton(ins: set<string>, skel: Formula, atoms: seq<NamedAtom>, c: Controller,
                                past: Word -> Past) {
    IsController(ins, c) && IsStart(ins, past) && forall i: Word :: Sat(skel, AtomWord(atoms, c(i), past(i)), 0)
  }

  /** A controller of the game is one of the skeleton. */
  lemma {:induction false} GameGivesController(ins: set<string>, skel: Formula, atoms: seq<NamedAtom>, c: Controller)
    requires AllTaken(atoms) && Harmless(RulesOf(atoms)) && PlaysGame(ins, skel, atoms, c)
    ensures PlaysSkeleton(ins, skel, atoms, c, (i: Word) => PastOf(c(i)))
  {
    hide Harmless, RulesOf, Sat, Tied, ReplaceEach, InGame, AtomWord, SameInputs, SamePast, PastOf;
    var past := (i: Word) => PastOf(c(i));
    forall i: Word ensures Sat(skel, AtomWord(atoms, c(i), past(i)), 0) {
      InGameHolds(skel, atoms, c(i));
    }
    forall i: Word, j: Word | SameInputs(ins, i, j, 0) ensures SamePast(past(i), past(j)) {
      assert SameStep(c(i), c(j), 0);
      SamePastOf(c(i), c(j));
    }
  }

  lemma {:induction false} SamePastOf(w: Word, v: Word)
    requires SameStep(w, v, 0)
    ensures SamePast(PastOf(w), PastOf(v))
  {
    forall k: nat, x: string ensures PastOf(w)(k, x) == PastOf(v)(k, x) {
      assert w(0, HistoryName(x, k)) == v(0, HistoryName(x, k));
    }
  }

  lemma {:induction false} InGameHolds(skel: Formula, atoms: seq<NamedAtom>, w: Word)
    requires AllTaken(atoms) && Harmless(RulesOf(atoms)) && InGame(skel, atoms, w)
    ensures Sat(skel, AtomWord(atoms, w, PastOf(w)), 0)
  {
    hide Harmless, RulesOf, Sat, Tied, ReplaceEach;
    TiedGame(skel, atoms, w);
  }

  /** Fixed reads are of step 0 only. */
  ghost predicate FixedAtStart(needs: set<Need>) {
    forall key :: key in FrozenOf(needs) ==> key.1 == 0
  }

  /** Then the bookkeeping outputs at a step depend on the streams up to it and on the past. */
  lemma {:induction false} ExtensionIsCausal(s: Word, v: Word, pre: Past, past: Past, needs: set<Need>, t: nat,
                                             n: string)
    requires (forall u: nat :: u <= t ==> SameStep(s, v, u)) && SamePast(pre, past) && FixedAtStart(needs)
    ensures ExtendedValue(s, pre, HistoryOf(needs), FrozenOf(needs), t, n) ==
              ExtendedValue(v, past, HistoryOf(needs), FrozenOf(needs), t, n)
  {
    hide HistoryName, FixedName;
    var history, fixedAt := HistoryOf(needs), FrozenOf(needs);
    if IsHistoryName(history, n) {
      var key :| key in history && HistoryName(key.0, key.1) == n;
      ExtendedHistory(s, pre, history, fixedAt, key, t);
      ExtendedHistory(v, past, history, fixedAt, key, t);
      if t >= key.1 { assert SameStep(s, v, t - key.1); }
    } else if IsFixedName(fixedAt, n) {
      var key :| key in fixedAt && FixedName(key.0, key.1) == n;
      ExtendedFixed(s, pre, history, fixedAt, key, t);
      ExtendedFixed(v, past, history, fixedAt, key, t);
      assert SameStep(s, v, 0);
    } else {
      assert SameStep(s, v, t);
    }
  }

  /** With fixed reads of step 0 only, a controller of the skeleton becomes one of the game. */
  lemma {:induction false} ControllerGivesGame(ins: set<string>, skel: Formula, atoms: seq<NamedAtom>, c: Controller,
                                               past: Word -> Past)
    requires AllTaken(atoms) && Harmless(RulesOf(atoms)) && ClearNames(skel, atoms) && FixedAtStart(NeedsOfAll(atoms))
    requires forall x :: x in ins ==> !IsBookkeeping(HistoryOf(NeedsOfAll(atoms)), FrozenOf(NeedsOfAll(atoms)), x)
    requires PlaysSkeleton(ins, skel, atoms, c, past)
    ensures PlaysGame(ins, skel, atoms,
                      (i: Word) => Extension(c(i), past(i), HistoryOf(NeedsOfAll(atoms)), FrozenOf(NeedsOfAll(atoms))))
  {
    hide Harmless, RulesOf, Sat, IsBookkeeping, FixedAtStart, Tied, ReplaceEach;
    var needs := NeedsOfAll(atoms);
    var history, fixedAt := HistoryOf(needs), FrozenOf(needs);
    var d := (i: Word) => Extension(c(i), past(i), history, fixedAt);
    AllNeedsWellFormed(atoms);
    WellFormedIsClosed(needs);
    forall i: Word ensures InGame(skel, atoms, d(i)) && Carries(d(i), c(i), past(i), history, fixedAt) {
      ExtensionTied(c(i), past(i), history, fixedAt);
      CarriedGame(skel, atoms, d(i), c(i), past(i));
    }
    forall i: Word, j: Word, t: nat | SameInputs(ins, i, j, t) ensures SameStep(d(i), d(j), t) {
      forall u: nat | u <= t ensures SameStep(c(i), c(j), u) { assert SameInputs(ins, i, j, u); }
      assert SameInputs(ins, i, j, 0);
      forall n: string ensures d(i)(t, n) == d(j)(t, n) {
        ExtensionIsCausal(c(i), c(j), past(i), past(j), needs, t, n);
      }
    }
  }

  // A fixed read after step 0.

  const FOLLOWS := Atom(Eq, Read("o1", 0, false), Read("i1", 0, true))

  /** `o1[t] = i1[t]` and `o1[k] = 1`. */
  function Foretelling(k: nat): seq<NamedAtom> {
    [(FOLLOWS, "p0"), (Atom(Eq, ReadAt("o1", k, false), One), "p1")]
  }

  /** `o1` follows `i1`, whatever `o1[k]` is. */
  const FOLLOW := And(Globally(Prop("p0")), Or(Prop("p1"), Not(Prop("p1"))))

  lemma {:induction false} ForetellingRules(k: nat)
    ensures AllTaken(Foretelling(k)) && NoCapture(RulesOf(Foretelling(k)))
  {
    var first := Rule("p0", Iff(Prop("o1"), Prop("i1")));
    assert AtomFormula(FOLLOWS) == Some(first.formula);
    assert AtomFormula(Foretelling(k)[1].0) == Some(Iff(Prop(FixedName("o1", k)), True));
    assert RulesOf(Foretelling(k))[0] == first && Props(first.formula) == {"o1", "i1"};
    assert RulesOf(Foretelling(k))[1].prop == "p1";
  }

  lemma {:induction false} ForetellingNeeds(k: nat)
    ensures NeedsOfAll(Foretelling(k)) == {Output("o1"), Input("i1"), Frozen(("o1", k))}
  {
    var atoms := Foretelling(k);
    assert atoms[..1] == [(FOLLOWS, "p0")] && atoms[..1][..0] == [];
    assert NeedsOfAll(atoms[..1]) == NeedsOfAll([]) + AtomNeeds(FOLLOWS);
    assert NeedsOfAll(atoms) == NeedsOfAll(atoms[..1]) + AtomNeeds(atoms[1].0);
    assert HistoryNeeds("o1", 0) == {} && HistoryNeeds("i1", 0) == {};
    assert AtomNeeds(FOLLOWS) == {Output("o1"), Input("i1")};
    assert AtomNeeds(atoms[1].0) == {Output("o1"), Frozen(("o1", k))};
  }

  lemma {:induction false} ForetellingKeys(k: nat)
    ensures HistoryOf(NeedsOfAll(Foretelling(k))) == {} && FrozenOf(NeedsOfAll(Foretelling(k))) == {("o1", k)}
  {
    ForetellingNeeds(k);
    var needs := NeedsOfAll(Foretelling(k));
    assert Frozen(("o1", k)) in needs && Frozen(("o1", k)).key == ("o1", k);
  }

  lemma {:induction false} ForetellingNames(k: nat)
    ensures ClearNames(FOLLOW, Foretelling(k))
    ensures !IsBookkeeping(HistoryOf(NeedsOfAll(Foretelling(k))), FrozenOf(NeedsOfAll(Foretelling(k))), "i1")
  {
    ForetellingNeeds(k);
    ForetellingKeys(k);
    assert FixedName("o1", k)[0] == '_' && "o1"[0] == 'o' && "i1"[0] == 'i';
    assert AtomFor(Foretelling(k), "p0") == Some(FOLLOWS);
    assert Foretelling(k)[1..] == [Foretelling(k)[1]] && AtomFor(Foretelling(k)[1..], "p1").Some?;
    assert Props(FOLLOW) == {"p0", "p1"};
  }

  /** The skeleton asks that `o1` is `i1` at every step. */
  lemma {:induction false} FollowMeans(k: nat, s: Word, pre: Past)
    ensures Sat(FOLLOW, AtomWord(Foretelling(k), s, pre), 0) <==> forall u: nat :: s(u, "o1") == s(u, "i1")
  {
    var v := AtomWord(Foretelling(k), s, pre);
    assert AtomFor(Foretelling(k), "p0") == Some(FOLLOWS);
    forall u: nat ensures v(u, "p0") <==> s(u, "o1") == s(u, "i1") {
      assert v(u, "p0") == AtomHolds(FOLLOWS, s, pre, u);
      assert StreamAt(s, pre, "o1", 0, u) == s(u, "o1") && StreamAt(s, pre, "i1", 0, u) == s(u, "i1");
    }
    GloballyIsAlways(Prop("p0"), v, 0);
    assert Sat(FOLLOW, v, 0) <==> Sat(Globally(Prop("p0")), v, 0);
    if Sat(Globally(Prop("p0")), v, 0) {
      forall u: nat ensures s(u, "o1") == s(u, "i1") { assert Sat(Prop("p0"), v, u); }
    }
  }

  ghost const COPY: Controller := (i: Word) => ((u: nat, n: string) => i(u, "i1"))

  ghost const EMPTY: Word -> Past := (i: Word) => ((j: nat, x: string) => false)

  lemma {:induction false} CopyPlays(k: nat)
    ensures PlaysSkeleton({"i1"}, FOLLOW, Foretelling(k), COPY, EMPTY)
  {
    forall i: Word ensures Sat(FOLLOW, AtomWord(Foretelling(k), COPY(i), EMPTY(i)), 0) {
      FollowMeans(k, COPY(i), EMPTY(i));
    }
    forall i: Word, j: Word, t: nat | SameInputs({"i1"}, i, j, t) ensures SameStep(COPY(i), COPY(j), t) {
      assert i(t, "i1") == j(t, "i1");
    }
  }

  /** The copy of `o1[k]` is chosen at step 0, before the input that it has to repeat. */
  lemma {:induction false} NoForetelling(k: nat, c: Controller)
    requires k > 0 && AllTaken(Foretelling(k)) && NoCapture(RulesOf(Foretelling(k)))
    ensures !PlaysGame({"i1"}, FOLLOW, Foretelling(k), c)
  {
    var low: Word := (u: nat, n: string) => false;
    var high: Word := (u: nat, n: string) => u == k;
    var copy := FixedName("o1", k);
    if PlaysGame({"i1"}, FOLLOW, Foretelling(k), c) {
      assert SameInputs({"i1"}, low, high, 0);
      assert SameStep(c(low), c(high), 0);
      CopyIsInput(k, c, low);
      CopyIsInput(k, c, high);
    }
  }

  lemma {:induction false} CopyIsInput(k: nat, c: Controller, i: Word)
    requires AllTaken(Foretelling(k)) && NoCapture(RulesOf(Foretelling(k)))
    requires PlaysGame({"i1"}, FOLLOW, Foretelling(k), c)
    ensures c(i)(0, FixedName("o1", k)) == i(k, "i1")
  {
    var w := c(i);
    assert InGame(FOLLOW, Foretelling(k), w);
    NoCaptureIsHarmless(RulesOf(Foretelling(k)));
    TiedGame(FOLLOW, Foretelling(k), w);
    FollowMeans(k, w, PastOf(w));
    ForetellingKeys(k);
    assert ("o1", k) in FrozenOf(NeedsOfAll(Foretelling(k)));
    FixedHolds(w, ("o1", k), 0);
  }

  /** The skeleton has a controller for every `k`, and the game has one exactly for `k == 0`. */
  lemma {:induction false} FixedReadForetells(k: nat)
    ensures AllTaken(Foretelling(k)) && PlaysSkeleton({"i1"}, FOLLOW, Foretelling(k), COPY, EMPTY)
    ensures (exists c: Controller :: PlaysGame({"i1"}, FOLLOW, Foretelling(k), c)) <==> k == 0
  {
    ForetellingRules(k);
    CopyPlays(k);
    if k == 0 {
      NoCaptureIsHarmless(RulesOf(Foretelling(k)));
      ForetellingNames(k);
      ForetellingKeys(k);
      ControllerGivesGame({"i1"}, FOLLOW, Foretelling(k), COPY, EMPTY);
    } else {
      forall c: Controller ensures !PlaysGame({"i1"}, FOLLOW, Foretelling(k), c) { NoForetelling(k, c); }
    }
  }
}
