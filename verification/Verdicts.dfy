/** For which headers Algorithm D's verdict is who wins under the acceptance condition, in every game, and
    games on which it is not. */
module Verdicts {
  import opened Recurrence
  import opened Bits
  import opened StrategyGames
  import opened SynthGame
  import opened DataGame
  import opened ProductGame
  import opened ProductCorrect
  import Acc = Acceptance
  import Pri = Priorities
  import opened Headers
  import opened AlgorithmD
  import Options
  import Names

  /** Whatever verdict is given for `s`, it says who wins under `acc`. */
  ghost predicate IsRight(p: Problem, acc: Acc.Acc, s: State) {
    forall verdict: bool :: IsVerdict(p, s, verdict) ==> Decides(verdict, AcceptArena(p, acc), s)
  }

  /** A game with this header that Algorithm D takes, and one of its states. */
  ghost predicate IsInstance(p: Problem, edgeColor: seq<seq<int>>, s: State, name: Pri.AccName, k: nat, text: string,
                             acc: Acc.Acc)
  {
    && IsProblem(p) && IsState(p, s) && IsHeader(p.game, edgeColor, name, text, acc) && p.game.nColors == k
    && |p.game.aps| <= MAX_GAME_APS && AllLabels(p.game)
  }

  // Games in which the system goes round a ring of states.

  function Successor(q: nat, n: nat): nat {
    if q + 1 < n then q + 1 else 0
  }

  /** `n` system states with the given colours, each with one true edge to the next. */
  function RingGame(n: nat, colors: seq<int>, name: Pri.AccName, k: nat, text: string): Game
    requires |colors| == n
  {
    var eff, reading := Pri.EffectiveName(name, k, text), Acc.ReadWithoutColors(text);
    Game(n, 0, seq(n, _ => 1), colors,
         seq(n, q requires 0 <= q => [GameEdge(Options.Some(True), Successor(q, n), -1)]), [], [], k,
         seq(n, q requires 0 <= q < n => Pri.StatePriorityOf(eff, k, colors[q])), seq(n, _ => [-1]),
         eff != Pri.Other && reading.Value?, eff != Pri.Other && reading.Value? && reading.value, false)
  }

  /** The ring with one memory, one 3-type and no data. */
  function Ring(n: nat, colors: seq<int>, name: Pri.AccName, k: nat, text: string): Problem
    requires |colors| == n
  {
    Problem(RingGame(n, colors, name, k, text), 1, [Type3(0, 0)], [0], 0)
  }

  const START := State(0, 0)

  const ONLY_MOVE := SysMove(0, 0, 0, 0)

  lemma RingIsInstance(n: nat, colors: seq<int>, name: Pri.AccName, k: nat, text: string, acc: Acc.Acc)
    requires n > 0 && |colors| == n && (forall q :: 0 <= q < n ==> -1 <= colors[q] < k) && Acc.IsTextOf(text, acc)
    ensures IsInstance(Ring(n, colors, name, k, text), seq(n, _ => [-1]), START, name, k, text, acc)
  {
    hide Acc.IsTextOf, Acc.ReadWithoutColors;
  }

  lemma RingMove(n: nat, colors: seq<int>, name: Pri.AccName, k: nat, text: string, q: nat, m: Move)
    requires |colors| == n && q < n
    ensures var p := Ring(n, colors, name, k, text);
            && Owner(p, State(q, 0)) == 1 && (Legal(p, State(q, 0), m) <==> m == ONLY_MOVE)
            && Target(p, State(q, 0), ONLY_MOVE) == State(Successor(q, n), 0)
  {
    hide Acc.ReadWithoutColors;
    var p := Ring(n, colors, name, k, text);
    assert Pow2(0) == 1;
    assert p.t3[0].posM == 0 && p.t3[0].posY == 0 && p.typeA[0] == 0;
  }

  /** The state of the ring after `t` moves. */
  function Around(n: nat, t: nat): (q: nat)
    requires n > 0
    ensures q < n
  {
    if t == 0 then 0 else Successor(Around(n, t - 1), n)
  }

  lemma {:induction false} AroundOn(n: nat, t: nat, j: nat)
    requires n > 0 && Around(n, t) + j < n
    ensures Around(n, t + j) == Around(n, t) + j
  {
    if j > 0 {
      AroundOn(n, t, j - 1);
    }
  }

  /** Every state of the ring recurs. */
  lemma AroundHits(n: nat, q: nat, t: nat) returns (i: nat)
    requires q < n
    ensures t <= i && Around(n, i) == q
  {
    var rest := n - 1 - Around(n, t);
    AroundOn(n, t, rest);
    assert Around(n, t + rest + 1) == 0;
    AroundOn(n, t + rest + 1, q);
    i := t + rest + 1 + q;
  }

  lemma {:induction false} RingStateAt(n: nat, colors: seq<int>, name: Pri.AccName, k: nat, text: string,
                                       mv: nat -> Move, t: nat)
    requires n > 0 && |colors| == n && LegalPlay(Ring(n, colors, name, k, text), START, mv)
    ensures StateAt(Ring(n, colors, name, k, text), START, mv, t) == State(Around(n, t), 0) && mv(t) == ONLY_MOVE
  {
    hide Ring, Legal, Target, Owner;
    var p := Ring(n, colors, name, k, text);
    if t > 0 {
      RingStateAt(n, colors, name, k, text, mv, t - 1);
      RingMove(n, colors, name, k, text, Around(n, t - 1), ONLY_MOVE);
    }
    RingMove(n, colors, name, k, text, Around(n, t), mv(t));
    assert Legal(p, StateAt(p, START, mv, t), mv(t));
  }

  lemma {:induction false} RingStays(n: nat, colors: seq<int>, name: Pri.AccName, k: nat, text: string, v: Winner,
                                     i: int, sigma: Strategy<Move>, h: seq<Move>)
    requires n > 0 && |colors| == n
    requires ConsistentHistory(DataArena(Ring(n, colors, name, k, text), v), i, sigma, START, h)
    ensures After(DataArena(Ring(n, colors, name, k, text), v), START, h) == State(Around(n, |h|), 0)
    decreases |h|
  {
    if h != [] {
      var init, last := h[..|h| - 1], h[|h| - 1];
      RingStays(n, colors, name, k, text, v, i, sigma, init);
      RingMove(n, colors, name, k, text, Around(n, |init|), last);
      assert Legal(Ring(n, colors, name, k, text), State(Around(n, |init|), 0), last);
    }
  }

  /** A player who wins every infinite play of the ring wins the ring. */
  lemma RingWon(n: nat, colors: seq<int>, name: Pri.AccName, k: nat, text: string, v: Winner, i: int)
    requires n > 0 && |colors| == n
    requires forall mv: nat -> Move :: LegalPlay(Ring(n, colors, name, k, text), START, mv) ==> v(i, START, mv)
    ensures HasWinningStrategy(DataArena(Ring(n, colors, name, k, text), v), i, START)
  {
    var p := Ring(n, colors, name, k, text);
    var a, sigma := DataArena(p, v), (h: seq<Move>) => ONLY_MOVE;
    forall h: seq<Move> | ConsistentHistory(a, i, sigma, START, h) && a.owner(After(a, START, h)) == i
      ensures a.legal(After(a, START, h), sigma(h))
    {
      RingStays(n, colors, name, k, text, v, i, sigma, h);
      RingMove(n, colors, name, k, text, Around(n, |h|), ONLY_MOVE);
    }
    forall mv: nat -> Move | ConsistentPlay(a, i, sigma, START, mv) ensures a.won(i, START, mv) {
      ConsistentIsLegal(p, v, i, sigma, START, mv);
    }
    assert Wins(a, i, sigma, START);
  }

  /** If the ring is won by `i` under the condition and by the other player under the weights, a verdict is
      given, and it is wrong. */
  lemma RingMisjudged(n: nat, colors: seq<int>, name: Pri.AccName, k: nat, text: string, acc: Acc.Acc, i: int)
    requires n > 0 && |colors| == n && (i == 0 || i == 1)
    requires var p := Ring(n, colors, name, k, text);
             forall mv: nat -> Move :: LegalPlay(p, START, mv) ==>
               (i == 1) == PlayAccepted(p, acc, START, mv)
               && PairParity(StateWeights(p, START, mv), EdgeWeights(p, START, mv), 1 - i)
    ensures var p := Ring(n, colors, name, k, text);
            && HasWinningStrategy(AcceptArena(p, acc), i, START)
            && Decides(i == 0, WeightArena(p), START) && !Decides(i == 0, AcceptArena(p, acc), START)
  {
    var p := Ring(n, colors, name, k, text);
    var v, w := AcceptArena(p, acc).won, WeightArena(p).won;
    assert AcceptArena(p, acc) == DataArena(p, v) && WeightArena(p) == DataArena(p, w);
    RingWon(n, colors, name, k, text, v, i);
    RingWon(n, colors, name, k, text, w, 1 - i);
    NoDoubleWin(p, START);
  }

  // A name is known, and the condition is not the name's.

  /** State `q` has colour `q`, if `q` is seen. */
  function SeenColor(seen: nat -> bool, q: nat): int {
    if seen(q) then q else -1
  }

  lemma {:induction false} SameHolds(acc: Acc.Acc, a: nat -> bool, b: nat -> bool)
    requires forall c: nat :: a(c) == b(c)
    ensures Acc.Holds(acc, a) <==> Acc.Holds(acc, b)
  {
    match acc
    case Not(x) => SameHolds(x, a, b);
    case And(x, y) => SameHolds(x, a, b); SameHolds(y, a, b);
    case Or(x, y) => SameHolds(x, a, b); SameHolds(y, a, b);
    case _ =>
  }

  /** On the ring of the colours `seen` exactly these recur. */
  lemma RingSees(name: Pri.AccName, k: nat, text: string, seen: nat -> bool, mv: nat -> Move, c: nat)
    requires k > 0 && (forall y: nat :: seen(y) ==> y < k)
    requires LegalPlay(Ring(k, seq(k, q requires 0 <= q => SeenColor(seen, q)), name, k, text), START, mv)
    ensures var p := Ring(k, seq(k, q requires 0 <= q => SeenColor(seen, q)), name, k, text);
            Pri.Seen(StateColors(p, START, mv), EdgeColors(p, START, mv), c) <==> seen(c)
  {
    var colors := seq(k, q requires 0 <= q => SeenColor(seen, q));
    var p := Ring(k, colors, name, k, text);
    var sc, ec := StateColors(p, START, mv), EdgeColors(p, START, mv);
    forall t: nat ensures sc(t) == SeenColor(seen, Around(k, t)) && ec(t) == -1 {
      RingStateAt(k, colors, name, k, text, mv, t);
    }
    assert !HitsFrom(ec, c, 0);
    if seen(c) {
      forall t: nat ensures HitsFrom(sc, c, t) {
        var i := AroundHits(k, c, t);
        assert sc(i) == c;
      }
    } else {
      assert !HitsFrom(sc, c, 0);
    }
  }

  lemma RingWeights(name: Pri.AccName, k: nat, text: string, acc: Acc.Acc, seen: nat -> bool, x: nat, mv: nat -> Move)
    requires Pri.EffectiveName(name, k, text) != Pri.Other && Acc.IsTextOf(text, acc)
    requires Pri.IsGreatest(Pri.EffectiveName(name, k, text), k, seen, x)
    requires LegalPlay(Ring(k, seq(k, q requires 0 <= q => SeenColor(seen, q)), name, k, text), START, mv)
    ensures var p := Ring(k, seq(k, q requires 0 <= q => SeenColor(seen, q)), name, k, text);
            PairDominates(StateWeights(p, START, mv), EdgeWeights(p, START, mv),
                          Pri.Lift(Pri.EffectiveName(name, k, text), k, x))
  {
    var colors := seq(k, q requires 0 <= q => SeenColor(seen, q));
    var p, eff := Ring(k, colors, name, k, text), Pri.EffectiveName(name, k, text);
    var sw, ew, top := StateWeights(p, START, mv), EdgeWeights(p, START, mv), Pri.Lift(eff, k, x);
    Acc.TextReads(text, acc);
    Pri.LiftBounds(eff, k, x);
    forall t: nat
      ensures ew(t) == -1 && sw(t) <= top && (Around(k, t) == x ==> sw(t) == top)
    {
      RingStateAt(k, colors, name, k, text, mv, t);
      var q := Around(k, t);
      assert colors[q] == SeenColor(seen, q);
    }
    forall t: nat ensures HitsFrom(sw, top, t) {
      var i := AroundHits(k, x, t);
      assert sw(i) == top;
    }
    assert BoundedFrom(sw, top, 0) && BoundedFrom(ew, top, 0);
  }

  /** Where the priorities do not score the condition, the verdict on a ring of colours is wrong. */
  lemma UnscoredMisjudged(name: Pri.AccName, k: nat, text: string, acc: Acc.Acc, seen: nat -> bool, x: nat)
    requires Pri.EffectiveName(name, k, text) != Pri.Other && Acc.IsTextOf(text, acc)
    requires Pri.IsGreatest(Pri.EffectiveName(name, k, text), k, seen, x)
    requires Acc.Holds(acc, seen) != (Pri.Lift(Pri.EffectiveName(name, k, text), k, x) % 2 == 1)
    ensures var p := Ring(k, seq(k, q requires 0 <= q => SeenColor(seen, q)), name, k, text);
            IsInstance(p, seq(k, _ => [-1]), START, name, k, text, acc) && !IsRight(p, acc, START)
  {
    var colors := seq(k, q requires 0 <= q => SeenColor(seen, q));
    var p, i := Ring(k, colors, name, k, text), if Acc.Holds(acc, seen) then 1 else 0;
    RingIsInstance(k, colors, name, k, text, acc);
    forall mv: nat -> Move | LegalPlay(p, START, mv)
      ensures (i == 1) == PlayAccepted(p, acc, START, mv)
      ensures PairParity(StateWeights(p, START, mv), EdgeWeights(p, START, mv), 1 - i)
    {
      var sc, ec := StateColors(p, START, mv), EdgeColors(p, START, mv);
      forall c: nat ensures Pri.SeenColors(sc, ec)(c) == seen(c) {
        RingSees(name, k, text, seen, mv, c);
      }
      SameHolds(acc, Pri.SeenColors(sc, ec), seen);
      RingWeights(name, k, text, acc, seen, x, mv);
    }
    RingMisjudged(k, colors, name, k, text, acc, i);
    Acc.TextReads(text, acc);
    assert IsVerdict(p, START, i == 0);
  }

  // No name is known.

  /** One state of the environment, without moves. */
  function Stuck(name: Pri.AccName, k: nat, text: string, color: int, multi: bool): Problem {
    var eff, reading := Pri.EffectiveName(name, k, text), Acc.ReadWithoutColors(text);
    Problem(Game(1, 0, [0], [color], [[]], [], [], k, [Pri.StatePriorityOf(eff, k, color)], [[]],
                 eff != Pri.Other && reading.Value?, eff != Pri.Other && reading.Value? && reading.value, multi),
            1, [Type3(0, 0)], [0], 0)
  }

  /** The system wins there, whoever wins infinite plays. */
  lemma StuckWon(name: Pri.AccName, k: nat, text: string, color: int, multi: bool, v: Winner)
    ensures HasWinningStrategy(DataArena(Stuck(name, k, text, color, multi), v), 1, START)
  {
    var p := Stuck(name, k, text, color, multi);
    var a, sigma := DataArena(p, v), (h: seq<Move>) => ONLY_MOVE;
    forall h: seq<Move> | ConsistentHistory(a, 1, sigma, START, h) ensures After(a, START, h) == START {
      StuckStays(name, k, text, color, multi, v, sigma, h);
    }
    forall mv: nat -> Move ensures !ConsistentPlay(a, 1, sigma, START, mv) {
      assert Prefix(mv, 0) == [];
      NoMove(name, k, text, color, multi, mv(0));
      assert !Allowed(a, 1, sigma, START, Prefix(mv, 0), mv(0));
    }
    NoMoveOwner(name, k, text, color, multi);
    assert Wins(a, 1, sigma, START);
  }

  lemma NoMove(name: Pri.AccName, k: nat, text: string, color: int, multi: bool, m: Move)
    ensures !Legal(Stuck(name, k, text, color, multi), START, m)
  {
    hide Acc.ReadWithoutColors;
  }

  lemma NoMoveOwner(name: Pri.AccName, k: nat, text: string, color: int, multi: bool)
    ensures Owner(Stuck(name, k, text, color, multi), START) == 0
  {
    hide Acc.ReadWithoutColors;
  }

  lemma {:induction false} StuckStays(name: Pri.AccName, k: nat, text: string, color: int, multi: bool, v: Winner,
                                      sigma: Strategy<Move>, h: seq<Move>)
    ensures ConsistentHistory(DataArena(Stuck(name, k, text, color, multi), v), 1, sigma, START, h) ==> h == []
    decreases |h|
  {
    if h != [] {
      StuckStays(name, k, text, color, multi, v, sigma, h[..|h| - 1]);
      NoMove(name, k, text, color, multi, h[|h| - 1]);
    }
  }

  lemma UnknownMisjudged(name: Pri.AccName, k: nat, text: string, acc: Acc.Acc)
    requires Pri.EffectiveName(name, k, text) == Pri.Other && k > 0 && Acc.IsTextOf(text, acc)
    ensures var p := Stuck(name, k, text, -1, false);
            IsInstance(p, [[]], START, name, k, text, acc) && !IsRight(p, acc, START)
  {
    var p := Stuck(name, k, text, -1, false);
    StuckWon(name, k, text, -1, false, AcceptArena(p, acc).won);
    assert AcceptArena(p, acc) == DataArena(p, AcceptArena(p, acc).won);
    assert IsVerdict(p, START, false);
  }

  // Neither a name nor colours.

  /** With a true condition whose text does not start with `t`, the system wins the loop, and the verdict
      is the environment's. */
  lemma LoopMisjudged(text: string, acc: Acc.Acc)
    requires Acc.IsTextOf(text, acc) && !StartsWithT(text) && Acc.Uncolored(acc)
    ensures var p := Ring(1, [-1], Pri.Other, 0, text);
            && IsInstance(p, [[-1]], START, Pri.Other, 0, text, acc)
            && HasWinningStrategy(AcceptArena(p, acc), 1, START)
            && IsVerdict(p, START, false) && !IsRight(p, acc, START)
  {
    var p := Ring(1, [-1], Pri.Other, 0, text);
    assert seq(1, _ => [-1]) == [[-1]];
    RingIsInstance(1, [-1], Pri.Other, 0, text, acc);
    forall mv: nat -> Move | LegalPlay(p, START, mv)
      ensures (1 == 1) == PlayAccepted(p, acc, START, mv)
      ensures PairParity(StateWeights(p, START, mv), EdgeWeights(p, START, mv), 1 - 1)
    {
      ColourlessPlay(p, [[-1]], text, acc, START, mv);
      NothingSeen(acc, StateColors(p, START, mv), EdgeColors(p, START, mv));
      ConstantParity(StateWeights(p, START, mv), EdgeWeights(p, START, mv), 0);
    }
    RingMisjudged(1, [-1], Pri.Other, 0, text, acc, 1);
    assert !Unsupported(p.game);
  }

  lemma NotFalseText()
    ensures Acc.IsTextOf("!f", Acc.Not(Acc.F)) && !StartsWithT("!f")
  {
    Acc.ConditionHasText(Acc.Not(Acc.F));
    assert Acc.Flatten(Acc.Spell(Acc.Not(Acc.F))) == "!f";
  }

  /** `Acceptance: 0 !f` without a name: on the loop the system wins, and the verdict is the environment's. */
  lemma TrueConditionPlayedAsFalse()
    ensures var p, acc := Ring(1, [-1], Pri.Other, 0, "!f"), Acc.Not(Acc.F);
            && IsInstance(p, [[-1]], START, Pri.Other, 0, "!f", acc)
            && HasWinningStrategy(AcceptArena(p, acc), 1, START) && IsVerdict(p, START, false)
  {
    NotFalseText();
    LoopMisjudged("!f", Acc.Not(Acc.F));
  }

  // The exact condition.

  /** For any header: the verdict says who wins under the condition, in every game and from every state,
      exactly when the header is read. */
  lemma HeaderVerdict(name: Pri.AccName, k: nat, text: string, acc: Acc.Acc)
    requires Acc.IsTextOf(text, acc)
    ensures (forall p: Problem, edgeColor: seq<seq<int>>, s: State ::
               IsInstance(p, edgeColor, s, name, k, text, acc) ==> IsRight(p, acc, s))
            <==> IsRead(name, k, text, acc)
  {
    var eff := Pri.EffectiveName(name, k, text);
    if IsRead(name, k, text, acc) {
      forall p: Problem, edgeColor: seq<seq<int>>, s: State | IsInstance(p, edgeColor, s, name, k, text, acc)
        ensures IsRight(p, acc, s)
      {
        ReadIsScored(p, edgeColor, name, text, acc);
        ArenasAgree(p, acc, s);
      }
    } else if eff != Pri.Other {
      var seen: nat -> bool, x: nat :| Pri.IsGreatest(eff, k, seen, x)
        && Acc.Holds(acc, seen) != (Pri.Lift(eff, k, x) % 2 == 1);
      UnscoredMisjudged(name, k, text, acc, seen, x);
    } else if k > 0 {
      UnknownMisjudged(name, k, text, acc);
    } else {
      LoopMisjudged(text, acc);
    }
  }

  /** For a header that spells the condition of its name, or has no known one, and colours: exactly when
      the name is known. */
  lemma NamedVerdict(name: Pri.AccName, k: nat, text: string, acc: Acc.Acc)
    requires Acc.IsTextOf(text, acc) && k > 0 && (name == Pri.Other || IsConditionOf(name, k, acc))
    ensures (forall p: Problem, edgeColor: seq<seq<int>>, s: State ::
               IsInstance(p, edgeColor, s, name, k, text, acc) ==> IsRight(p, acc, s))
            <==> name != Pri.Other
  {
    HeaderVerdict(name, k, text, acc);
    if name != Pri.Other { ConditionScores(name, k, acc); }
  }

  /** For a header without a name and without colours: exactly when the text starts with `t` or the
      condition is false. */
  lemma UnnamedVerdict(text: string, acc: Acc.Acc)
    requires Acc.IsTextOf(text, acc)
    ensures (forall p: Problem, edgeColor: seq<seq<int>>, s: State ::
               IsInstance(p, edgeColor, s, Pri.Other, 0, text, acc) ==> IsRight(p, acc, s))
            <==> StartsWithT(text) || !Acc.Uncolored(acc)
  {
    HeaderVerdict(Pri.Other, 0, text, acc);
    assert Pri.Scores(Pri.All, 0, acc);
  }

  // The refused conditions.

  /** Without a known name, but with colours: where the condition holds for runs without colours, the
      system wins the uncoloured loop, and the verdict is the environment's. */
  lemma LoopRefused(name: Pri.AccName, k: nat, text: string, acc: Acc.Acc)
    requires Pri.EffectiveName(name, k, text) == Pri.Other && k > 0
    requires Acc.IsTextOf(text, acc) && Acc.Uncolored(acc)
    ensures var p := Ring(1, [-1], name, k, text);
            && IsInstance(p, [[-1]], START, name, k, text, acc)
            && HasWinningStrategy(AcceptArena(p, acc), 1, START)
            && IsVerdict(p, START, false) && !IsRight(p, acc, START)
  {
    hide Acc.IsTextOf;
    var p := Ring(1, [-1], name, k, text);
    assert seq(1, _ => [-1]) == [[-1]];
    RingIsInstance(1, [-1], name, k, text, acc);
    var v := AcceptArena(p, acc).won;
    assert AcceptArena(p, acc) == DataArena(p, v);
    forall mv: nat -> Move | LegalPlay(p, START, mv) ensures v(1, START, mv) {
      LoopUncolored(name, k, text, mv);
      NothingSeen(acc, StateColors(p, START, mv), EdgeColors(p, START, mv));
    }
    RingWon(1, [-1], name, k, text, v, 1);
    assert IsVerdict(p, START, false) && !Decides(false, AcceptArena(p, acc), START);
  }

  lemma LoopUncolored(name: Pri.AccName, k: nat, text: string, mv: nat -> Move)
    requires LegalPlay(Ring(1, [-1], name, k, text), START, mv)
    ensures var p := Ring(1, [-1], name, k, text);
            IsConstant(StateColors(p, START, mv), -1) && IsConstant(EdgeColors(p, START, mv), -1)
  {
    var p := Ring(1, [-1], name, k, text);
    forall t: nat ensures StateColors(p, START, mv)(t) == -1 && EdgeColors(p, START, mv)(t) == -1 {
      RingStateAt(1, [-1], name, k, text, mv, t);
    }
  }

  /** Streett: `Fin(0)|Inf(1)` under a name the solver does not know. */
  lemma StreettRefused()
    ensures var p, acc := Ring(1, [-1], Pri.Other, 2, "Fin(0)|Inf(1)"), Acc.Or(Acc.Fin(0), Acc.Inf(1));
            && IsInstance(p, [[-1]], START, Pri.Other, 2, "Fin(0)|Inf(1)", acc)
            && HasWinningStrategy(AcceptArena(p, acc), 1, START) && IsVerdict(p, START, false)
  {
    StreettText();
    LoopRefused(Pri.Other, 2, "Fin(0)|Inf(1)", Acc.Or(Acc.Fin(0), Acc.Inf(1)));
  }

  lemma EitherText(a: Acc.Spelling, b: Acc.Spelling)
    requires Acc.IsSpelling(a) && Acc.IsSpelling(b)
    ensures Acc.IsTextOf(Acc.Flatten(a) + ("" + ("|" + Acc.Flatten(b))), Acc.Or(Acc.Erase(a), Acc.Erase(b)))
  {
    ShowText(Acc.Disjunction(a, "", b), Acc.Flatten(a) + ("" + ("|" + Acc.Flatten(b))));
  }

  lemma StreettString(zero: string, one: string)
    requires zero == "" + (Acc.Keyword(true) + ("(" + Names.Decimal(0) + ")"))
    requires one == "" + (Acc.Keyword(false) + ("(" + Names.Decimal(1) + ")"))
    ensures zero + ("" + ("|" + one)) == "Fin(0)|Inf(1)"
  {
    assert Names.Decimal(0) == "0" && Names.Decimal(1) == "1";
    assert zero == "Fin(0)" && one == "Inf(1)";
  }

  lemma StreettText()
    ensures Acc.IsTextOf("Fin(0)|Inf(1)", Acc.Or(Acc.Fin(0), Acc.Inf(1)))
  {
    hide Acc.Flatten, Acc.IsTextOf;
    var zero := DigitSet("", true, 0);
    var one := DigitSet("", false, 1);
    EitherText(zero, one);
    StreettString(Acc.Flatten(zero), Acc.Flatten(one));
  }

  /** A header with marks of several colours is never read: with such a mark on a stuck state of the
      environment the system wins, whatever its condition makes of infinite plays, and the verdict is the
      environment's. */
  lemma MultiColouredRefused(name: Pri.AccName, k: nat, text: string, v: Winner)
    requires k >= 2
    ensures var p := Stuck(name, k, text, 0, true);
            && IsProblem(p) && HasPriorities(p.game, [[]], name, text) && p.game.multiColored && p.game.nColors == k
            && HasWinningStrategy(DataArena(p, v), 1, START)
            && IsVerdict(p, START, false) && !Decides(false, DataArena(p, v), START)
  {
    StuckWon(name, k, text, 0, true, v);
  }
}
