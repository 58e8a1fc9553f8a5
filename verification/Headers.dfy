/** Games with the header they were read with: what their weights say of a play, against what their
    acceptance condition says. */
module Headers {
  import opened Recurrence
  import opened StrategyGames
  import opened SynthGame
  import opened DataGame
  import opened ProductGame
  import opened ProductCorrect
  import Names
  import Acc = Acceptance
  import Pri = Priorities

  // A game read from HOA text.

  ghost predicate EdgeColorsOf(g: Game, edgeColor: seq<seq<int>>) {
    && |edgeColor| == |g.trans|
    && (forall q :: 0 <= q < |edgeColor| ==> |edgeColor[q]| == |g.trans[q]|)
    && (forall q, j :: 0 <= q < |edgeColor| && 0 <= j < |edgeColor[q]| ==> edgeColor[q][j] == g.trans[q][j].color)
  }

  ghost predicate ColorsInRange(g: Game, edgeColor: seq<seq<int>>) {
    && (forall q :: 0 <= q < |g.stateColor| ==> -1 <= g.stateColor[q] < g.nColors)
    && (forall q, j :: 0 <= q < |edgeColor| && 0 <= j < |edgeColor[q]| ==> -1 <= edgeColor[q][j] < g.nColors)
  }

  /** The priorities of the game are those computed from its colours and its header. */
  ghost predicate HasPriorities(g: Game, edgeColor: seq<seq<int>>, name: Pri.AccName, text: string) {
    && IsGame(g) && EdgeColorsOf(g, edgeColor) && ColorsInRange(g, edgeColor) && g.nColors >= 0
    && Pri.IsScored(name, g.nColors, text, g.stateColor, edgeColor,
                    Pri.Scored(g.statePriority, g.edgePriority, g.accKnown, g.accAcceptsUncolored))
  }

  /** A game with one colour at most on every state and edge, whose header names its acceptance `name` and
      spells it `text`, the condition `acc`. */
  ghost predicate IsHeader(g: Game, edgeColor: seq<seq<int>>, name: Pri.AccName, text: string, acc: Acc.Acc) {
    HasPriorities(g, edgeColor, name, text) && !g.multiColored && Acc.IsTextOf(text, acc)
  }

  /** A game whose header has a known name, the priorities of which score its condition. */
  ghost predicate IsParsed(g: Game, edgeColor: seq<seq<int>>, name: Pri.AccName, text: string, acc: Acc.Acc) {
    var eff := Pri.EffectiveName(name, g.nColors, text);
    IsHeader(g, edgeColor, name, text, acc) && eff != Pri.Other && Pri.Scores(eff, g.nColors, acc)
  }

  /** `acc` means what the canonical condition of `name` with `k` colours means. */
  ghost predicate IsConditionOf(name: Pri.AccName, k: nat, acc: Acc.Acc) {
    exists canonical: Acc.Acc :: Pri.IsCanonical(name, k, canonical) && SameCondition(acc, canonical)
  }

  ghost predicate SameCondition(a: Acc.Acc, b: Acc.Acc) {
    forall seen: nat -> bool :: Acc.Holds(a, seen) <==> Acc.Holds(b, seen)
  }

  lemma ParsedIsKnown(g: Game, edgeColor: seq<seq<int>>, name: Pri.AccName, text: string, acc: Acc.Acc)
    requires IsParsed(g, edgeColor, name, text, acc)
    ensures g.accKnown && g.accAcceptsUncolored == Acc.Uncolored(acc) && !Unsupported(g)
  {
    Acc.TextReads(text, acc);
  }

  ghost function Base(acc: Acc.Acc): int {
    if Acc.Uncolored(acc) then 1 else 0
  }

  /** A header that spells the condition of its name is scored by its priorities. */
  lemma ConditionScores(name: Pri.AccName, k: nat, acc: Acc.Acc)
    requires IsConditionOf(name, k, acc)
    ensures name != Pri.Other && Pri.Scores(name, k, acc)
  {
    var canonical :| Pri.IsCanonical(name, k, canonical) && SameCondition(acc, canonical);
    Pri.CanonicalScores(name, k, canonical);
    forall seen: nat -> bool, x: nat | Pri.IsGreatest(name, k, seen, x)
      ensures Acc.Holds(acc, seen) <==> Pri.Lift(name, k, x) % 2 == 1
    {
      assert Acc.Holds(acc, seen) <==> Acc.Holds(canonical, seen);
    }
  }

  lemma ParsedStateWeight(g: Game, edgeColor: seq<seq<int>>, name: Pri.AccName, text: string, acc: Acc.Acc, q: nat)
    requires IsParsed(g, edgeColor, name, text, acc) && q < g.numStates
    ensures StateWeight(g, q) == if g.stateColor[q] < 0 then Base(acc)
                                 else Pri.Lift(Pri.EffectiveName(name, g.nColors, text), g.nColors, g.stateColor[q])
    ensures 0 <= StateWeight(g, q) <= g.nColors + 4
  {
    ParsedIsKnown(g, edgeColor, name, text, acc);
    if g.stateColor[q] >= 0 {
      Pri.LiftBounds(Pri.EffectiveName(name, g.nColors, text), g.nColors, g.stateColor[q]);
    }
  }

  lemma ParsedEdgeWeight(g: Game, edgeColor: seq<seq<int>>, name: Pri.AccName, text: string, acc: Acc.Acc, q: nat,
                         j: nat)
    requires IsParsed(g, edgeColor, name, text, acc) && q < g.numStates && j < |g.trans[q]|
    ensures EdgeWeight(g, q, j) == if g.trans[q][j].color < 0 then -1
                                   else Pri.Lift(Pri.EffectiveName(name, g.nColors, text), g.nColors,
                                                 g.trans[q][j].color)
    ensures -1 <= EdgeWeight(g, q, j) <= g.nColors + 4
  {
    ParsedIsKnown(g, edgeColor, name, text, acc);
    var c := edgeColor[q][j];
    assert g.edgePriority[q][j] == Pri.EdgePriorityOf(Pri.EffectiveName(name, g.nColors, text), g.nColors, c);
    if c >= 0 {
      Pri.LiftBounds(Pri.EffectiveName(name, g.nColors, text), g.nColors, c);
    }
  }

  // The data game under the original acceptance condition.

  ghost function StateColors(p: Problem, s: State, mv: nat -> Move): nat -> int {
    (t: nat) => StateColorAt(p, StateAt(p, s, mv, t))
  }

  ghost function StateColorAt(p: Problem, x: State): int {
    if x.q < |p.game.stateColor| then p.game.stateColor[x.q] else -1
  }

  ghost function EdgeColors(p: Problem, s: State, mv: nat -> Move): nat -> int {
    (t: nat) => EdgeColorAt(p, StateAt(p, s, mv, t), mv(t))
  }

  ghost function EdgeColorAt(p: Problem, x: State, m: Move): int {
    if x.q < |p.game.trans| && m.j < |p.game.trans[x.q]| then p.game.trans[x.q][m.j].color else -1
  }

  ghost predicate PlayAccepted(p: Problem, acc: Acc.Acc, s: State, mv: nat -> Move) {
    Pri.Accepts(acc, StateColors(p, s, mv), EdgeColors(p, s, mv))
  }

  /** The data game in which the system wins the infinite plays that the acceptance condition accepts. */
  ghost function AcceptArena(p: Problem, acc: Acc.Acc): Arena<State, Move> {
    DataArena(p, (i: int, s: State, mv: nat -> Move) => (i == 1) == PlayAccepted(p, acc, s, mv))
  }

  ghost predicate LegalPlay(p: Problem, s: State, mv: nat -> Move) {
    forall t: nat :: Legal(p, StateAt(p, s, mv, t), mv(t))
  }

  lemma DigitSet(lead: string, fin: bool, d: nat) returns (c: Acc.Spelling)
    requires Acc.AllSpace(lead) && d < 10
    ensures Acc.IsSpelling(c) && Acc.Level(c) == 2 && Acc.Erase(c) == if fin then Acc.Fin(d) else Acc.Inf(d)
    ensures Acc.Flatten(c) == lead + (Acc.Keyword(fin) + ("(" + Names.Decimal(d) + ")"))
  {
    c := Acc.ColorSet(lead, fin, "", "", Names.Decimal(d), "");
    Names.DecimalValue(d);
    assert "" + "(" + "" + Names.Decimal(d) + "" + ")" == "(" + Names.Decimal(d) + ")";
  }

  /** `zero | (one & two)` */
  lemma GroupedText(zero: Acc.Spelling, one: Acc.Spelling, two: Acc.Spelling)
    requires Acc.IsSpelling(zero) && Acc.IsSpelling(one) && Acc.IsSpelling(two)
    requires Acc.Level(zero) == Acc.Level(one) == Acc.Level(two) == 2
    ensures Acc.IsTextOf(Acc.Flatten(zero) + (" | (" + Acc.Flatten(one) + " &" + Acc.Flatten(two) + ")"),
                         Acc.Or(Acc.Erase(zero), Acc.And(Acc.Erase(one), Acc.Erase(two))))
  {
    var both := Acc.Conjunction(one, " ", two);
    var group := Acc.Group(" ", both, "");
    var c := Acc.Disjunction(zero, " ", group);
    var z, o, t := Acc.Flatten(zero), Acc.Flatten(one), Acc.Flatten(two);
    assert Acc.Flatten(both) == o + (" " + ("&" + t));
    assert Acc.Flatten(group) == " " + ("(" + (Acc.Flatten(both) + ("" + ")")));
    assert Acc.IsSpelling(both) && Acc.IsSpelling(group) && Acc.IsSpelling(c);
    var text := z + (" | (" + o + " &" + t + ")");
    assert Acc.Flatten(c) == text by {
      assert Acc.Flatten(c) == z + (" " + ("|" + Acc.Flatten(group)));
      GroupedString(z, o, t);
    }
    assert Acc.Erase(both) == Acc.And(Acc.Erase(one), Acc.Erase(two));
    assert Acc.Erase(group) == Acc.Erase(both);
    assert Acc.Erase(c) == Acc.Or(Acc.Erase(zero), Acc.Erase(group));
    ShowText(c, text);
  }

  lemma ShowText(c: Acc.Spelling, text: string)
    requires Acc.IsSpelling(c) && text == Acc.Flatten(c)
    ensures Acc.IsTextOf(text, Acc.Erase(c))
  {
    assert text == Acc.Flatten(c) + "";
    assert Acc.Spells(c, "", text, Acc.Erase(c));
  }

  lemma GroupedString(z: string, o: string, t: string)
    ensures z + (" " + ("|" + (" " + ("(" + ((o + (" " + ("&" + t))) + ("" + ")")))))) ==
              z + (" | (" + o + " &" + t + ")")
  {
    assert "" + ")" == ")";
    assert (o + (" " + ("&" + t))) + ")" == o + " &" + t + ")";
    assert " " + ("|" + (" " + ("(" + (o + " &" + t + ")")))) == " | (" + o + " &" + t + ")";
  }

  lemma ParityString(zero: string, one: string, two: string)
    requires zero == "" + ("Inf" + ("(" + Names.Decimal(0) + ")"))
    requires one == "" + ("Fin" + ("(" + Names.Decimal(1) + ")"))
    requires two == " " + ("Inf" + ("(" + Names.Decimal(2) + ")"))
    ensures zero + (" | (" + one + " &" + two + ")") == "Inf(0) | (Fin(1) & Inf(2))"
  {
    assert Names.Decimal(0) == "0" && Names.Decimal(1) == "1" && Names.Decimal(2) == "2";
    assert zero == "Inf(0)" && one == "Fin(1)" && two == " Inf(2)";
  }

  /** The usual text of parity min even with three colours, parentheses and all, is a text of its
      condition. */
  lemma ParityMinEvenText()
    ensures Acc.IsTextOf("Inf(0) | (Fin(1) & Inf(2))", Pri.MinTree(true, 0, 3))
    ensures IsConditionOf(Pri.Parity(true, true), 3, Pri.MinTree(true, 0, 3))
  {
    var zero := DigitSet("", false, 0);
    var one := DigitSet("", true, 1);
    var two := DigitSet(" ", false, 2);
    GroupedText(zero, one, two);
    ParityString(Acc.Flatten(zero), Acc.Flatten(one), Acc.Flatten(two));
    assert Pri.MinTree(true, 2, 3) == Acc.Inf(2);
    assert SameCondition(Pri.MinTree(true, 0, 3), Pri.MinTree(true, 0, 3));
  }

  // Who wins an infinite play, by weights and by the condition.

  /** On the play `mv` player `i` wins by the weights iff it wins by the condition. */
  ghost predicate ScoredAt(p: Problem, acc: Acc.Acc, s: State, mv: nat -> Move, i: int) {
    LegalPlay(p, s, mv) ==>
          (PairParity(StateWeights(p, s, mv), EdgeWeights(p, s, mv), i) <==> (i == 1) == PlayAccepted(p, acc, s, mv))
  }

  /** The weights decide every legal play as the condition does. */
  ghost predicate PlaysScored(p: Problem, acc: Acc.Acc) {
    forall s: State, mv: nat -> Move, i: int :: i == 0 || i == 1 ==> ScoredAt(p, acc, s, mv, i)
  }

  /** One recurring weight is the greatest. */
  lemma PairDominantExists(sw: nat -> int, ew: nat -> int, b: int) returns (top: int)
    requires forall t: nat :: 0 <= sw(t) <= b && -1 <= ew(t) <= b
    ensures PairDominates(sw, ew, top)
  {
    assert 0 <= sw(0) <= b;
    var w := Merge(sw, ew);
    forall k: nat ensures 0 <= w(k) <= b {
      CursorBounds(ew, k);
      assert 0 <= sw(Cursor(ew, k).0) <= b && -1 <= ew(Cursor(ew, k).0) <= b;
    }
    assert BoundedFrom(w, b, 0);
    DominantExists(w, b, 0);
    top :| Dominates(w, top);
    MergeDominates(sw, ew, top);
  }

  /** The colours and weights along a legal play of a parsed game. */
  lemma ParsedWeights(p: Problem, edgeColor: seq<seq<int>>, name: Pri.AccName, text: string, acc: Acc.Acc, s: State,
                      mv: nat -> Move)
    requires IsProblem(p) && IsParsed(p.game, edgeColor, name, text, acc) && LegalPlay(p, s, mv)
    ensures Pri.Weighted(Pri.EffectiveName(name, p.game.nColors, text), p.game.nColors, Base(acc),
                         StateColors(p, s, mv),
                         EdgeColors(p, s, mv), StateWeights(p, s, mv), EdgeWeights(p, s, mv))
    ensures forall t: nat ::
              && 0 <= StateWeights(p, s, mv)(t) <= p.game.nColors + 4
              && -1 <= EdgeWeights(p, s, mv)(t) <= p.game.nColors + 4
  {
    var eff, k, base := Pri.EffectiveName(name, p.game.nColors, text), p.game.nColors, Base(acc);
    var sc, ec, sw, ew := StateColors(p, s, mv), EdgeColors(p, s, mv), StateWeights(p, s, mv), EdgeWeights(p, s, mv);
    forall t: nat
      ensures -1 <= sc(t) < k && -1 <= ec(t) < k && 0 <= sw(t) <= k + 4 && -1 <= ew(t) <= k + 4
      ensures sw(t) == if sc(t) < 0 then base else Pri.Lift(eff, k, sc(t))
      ensures ew(t) == if ec(t) < 0 then -1 else Pri.Lift(eff, k, ec(t))
    {
      var x := StateAt(p, s, mv, t);
      assert Legal(p, x, mv(t));
      ParsedStateWeight(p.game, edgeColor, name, text, acc, x.q);
      ParsedEdgeWeight(p.game, edgeColor, name, text, acc, x.q, mv(t).j);
      assert edgeColor[x.q][mv(t).j] == ec(t);
    }
  }

  /** On a legal play of a parsed game the recurring weights decide the original acceptance condition. */
  lemma WeightsDecidePlay(p: Problem, edgeColor: seq<seq<int>>, name: Pri.AccName, text: string, acc: Acc.Acc,
                          s: State, mv: nat -> Move, i: int)
    requires IsProblem(p) && IsParsed(p.game, edgeColor, name, text, acc) && (i == 0 || i == 1)
    ensures ScoredAt(p, acc, s, mv, i)
  {
    if LegalPlay(p, s, mv) {
      var eff, k := Pri.EffectiveName(name, p.game.nColors, text), p.game.nColors;
      var sc, ec, sw, ew := StateColors(p, s, mv), EdgeColors(p, s, mv), StateWeights(p, s, mv), EdgeWeights(p, s, mv);
      ParsedWeights(p, edgeColor, name, text, acc, s, mv);
      var top := PairDominantExists(sw, ew, k + 4);
      Pri.WeightDecidesAcceptance(eff, k, acc, sc, ec, Base(acc), sw, ew, top);
      forall c: int | PairDominates(sw, ew, c) ensures c == top {
        PairDominantIsUnique(sw, ew, c, top);
      }
    }
  }

  lemma ParsedIsScored(p: Problem, edgeColor: seq<seq<int>>, name: Pri.AccName, text: string, acc: Acc.Acc)
    requires IsProblem(p) && IsParsed(p.game, edgeColor, name, text, acc)
    ensures PlaysScored(p, acc)
  {
    forall s: State, mv: nat -> Move, i: int | i == 0 || i == 1 ensures ScoredAt(p, acc, s, mv, i) {
      WeightsDecidePlay(p, edgeColor, name, text, acc, s, mv, i);
    }
  }

  lemma ParsedNonNegative(g: Game, edgeColor: seq<seq<int>>, name: Pri.AccName, text: string, acc: Acc.Acc)
    requires IsParsed(g, edgeColor, name, text, acc)
    ensures WeightsNonNegative(g)
  {
    forall q: nat | q < g.numStates ensures StateWeight(g, q) >= 0 {
      ParsedStateWeight(g, edgeColor, name, text, acc, q);
    }
  }

  // A header without an acc-name and without colours is the one case where the priorities are not
  // taken from a named condition.

  predicate StartsWithT(text: string) {
    Pri.FirstText(text, 0) < |text| && text[Pri.FirstText(text, 0)] == 't'
  }

  ghost predicate IsConstant(w: nat -> int, c: int) {
    forall t: nat :: w(t) == c
  }

  lemma ConstantParity(sw: nat -> int, ew: nat -> int, w: int)
    requires IsConstant(sw, w) && IsConstant(ew, -1) && w >= 0
    ensures PairParity(sw, ew, 1) <==> w % 2 == 1
    ensures PairParity(sw, ew, 0) <==> w % 2 == 0
  {
    forall n: nat ensures HitsFrom(sw, w, n) {
      assert sw(n) == w;
    }
    assert BoundedFrom(sw, w, 0) && BoundedFrom(ew, w, 0);
    assert PairDominates(sw, ew, w);
    forall c: int | PairDominates(sw, ew, c) ensures c == w {
      PairDominantIsUnique(sw, ew, c, w);
    }
  }

  ghost predicate IsUnnamedColourless(g: Game, edgeColor: seq<seq<int>>, text: string, acc: Acc.Acc) {
    IsHeader(g, edgeColor, Pri.Other, text, acc) && g.nColors == 0
  }

  ghost function ColourlessWeight(text: string, acc: Acc.Acc): int {
    if StartsWithT(text) then Base(acc) else 0
  }

  lemma ColourlessWeights(g: Game, edgeColor: seq<seq<int>>, text: string, acc: Acc.Acc, q: nat, j: nat)
    requires IsUnnamedColourless(g, edgeColor, text, acc) && q < g.numStates && j < |g.trans[q]|
    ensures g.stateColor[q] == -1 && g.trans[q][j].color == -1
    ensures StateWeight(g, q) == ColourlessWeight(text, acc) && EdgeWeight(g, q, j) == -1
  {
    Acc.TextReads(text, acc);
    assert edgeColor[q][j] == g.trans[q][j].color;
  }

  lemma ColourlessPlay(p: Problem, edgeColor: seq<seq<int>>, text: string, acc: Acc.Acc, s: State, mv: nat -> Move)
    requires IsProblem(p) && IsUnnamedColourless(p.game, edgeColor, text, acc) && LegalPlay(p, s, mv)
    ensures IsConstant(StateWeights(p, s, mv), ColourlessWeight(text, acc)) && IsConstant(EdgeWeights(p, s, mv), -1)
    ensures IsConstant(StateColors(p, s, mv), -1) && IsConstant(EdgeColors(p, s, mv), -1)
  {
    forall t: nat
      ensures StateWeights(p, s, mv)(t) == ColourlessWeight(text, acc) && EdgeWeights(p, s, mv)(t) == -1
      ensures StateColors(p, s, mv)(t) == -1 && EdgeColors(p, s, mv)(t) == -1
    {
      var x := StateAt(p, s, mv, t);
      assert Legal(p, x, mv(t));
      ColourlessWeights(p.game, edgeColor, text, acc, x.q, mv(t).j);
    }
  }

  lemma NothingSeen(acc: Acc.Acc, sc: nat -> int, ec: nat -> int)
    requires IsConstant(sc, -1) && IsConstant(ec, -1)
    ensures Pri.Accepts(acc, sc, ec) <==> Acc.Uncolored(acc)
  {
    forall c: nat ensures !Pri.Seen(sc, ec, c) {
      assert !HitsFrom(sc, c, 0) && !HitsFrom(ec, c, 0);
    }
    Acc.UncoloredHolds(acc, Pri.SeenColors(sc, ec));
  }

  /** On such a game the weights decide a play as the condition does exactly when the text starts with
      `t` or the condition is false: a true condition that is spelt differently is played as false. */
  lemma UnnamedColourless(p: Problem, edgeColor: seq<seq<int>>, text: string, acc: Acc.Acc, s: State, mv: nat -> Move,
                          i: int)
    requires IsProblem(p) && IsUnnamedColourless(p.game, edgeColor, text, acc) && LegalPlay(p, s, mv)
             && (i == 0 || i == 1)
    ensures ScoredAt(p, acc, s, mv, i) <==> StartsWithT(text) || !Acc.Uncolored(acc)
  {
    ColourlessPlay(p, edgeColor, text, acc, s, mv);
    NothingSeen(acc, StateColors(p, s, mv), EdgeColors(p, s, mv));
    ConstantParity(StateWeights(p, s, mv), EdgeWeights(p, s, mv), ColourlessWeight(text, acc));
  }

  lemma ColourlessIsScored(p: Problem, edgeColor: seq<seq<int>>, text: string, acc: Acc.Acc)
    requires IsProblem(p) && IsUnnamedColourless(p.game, edgeColor, text, acc)
    requires StartsWithT(text) || !Acc.Uncolored(acc)
    ensures PlaysScored(p, acc)
  {
    forall s: State, mv: nat -> Move, i: int | i == 0 || i == 1 ensures ScoredAt(p, acc, s, mv, i) {
      if LegalPlay(p, s, mv) {
        UnnamedColourless(p, edgeColor, text, acc, s, mv, i);
      }
    }
  }

  lemma ColourlessWeightsFit(g: Game, edgeColor: seq<seq<int>>, text: string, acc: Acc.Acc)
    requires IsUnnamedColourless(g, edgeColor, text, acc)
    ensures WeightsNonNegative(g) && !Unsupported(g)
  {
    Acc.TextReads(text, acc);
  }

  // The headers whose condition is read.

  /** The header's priorities say what its condition says: those of a known name score it, and without a
      name there are no colours and the condition is false. */
  ghost predicate IsRead(name: Pri.AccName, k: nat, text: string, acc: Acc.Acc) {
    var eff := Pri.EffectiveName(name, k, text);
    if eff == Pri.Other then k == 0 && !Acc.Uncolored(acc) else Pri.Scores(eff, k, acc)
  }

  lemma ReadIsScored(p: Problem, edgeColor: seq<seq<int>>, name: Pri.AccName, text: string, acc: Acc.Acc)
    requires IsProblem(p) && IsHeader(p.game, edgeColor, name, text, acc) && IsRead(name, p.game.nColors, text, acc)
    ensures PlaysScored(p, acc) && WeightsNonNegative(p.game) && !Unsupported(p.game)
  {
    if Pri.EffectiveName(name, p.game.nColors, text) == Pri.Other {
      ColourlessWeightsFit(p.game, edgeColor, text, acc);
      ColourlessIsScored(p, edgeColor, text, acc);
    } else {
      ParsedIsKnown(p.game, edgeColor, name, text, acc);
      ParsedNonNegative(p.game, edgeColor, name, text, acc);
      ParsedIsScored(p, edgeColor, name, text, acc);
    }
  }
}
