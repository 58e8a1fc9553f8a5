/** Algorithm D end to end: the verdict is who wins the data game under the weights of the product, and
    under the acceptance condition the game was given with where its header is read. */
module AlgorithmD {
  import opened StrategyGames
  import opened Zielonka
  import opened DeadEnds
  import opened DataGame
  import opened ProductGame
  import opened ProductCorrect
  import Acc = Acceptance
  import Pri = Priorities
  import opened Headers

  // Strategies carry over between arenas that differ in who wins infinite plays.

  type Winner = (int, State, nat -> Move) -> bool

  lemma {:induction false} SameAfter(p: Problem, v: Winner, w: Winner, s: State, h: seq<Move>)
    ensures After(DataArena(p, v), s, h) == After(DataArena(p, w), s, h)
    decreases |h|
  {
    if h != [] {
      SameAfter(p, v, w, s, h[..|h| - 1]);
    }
  }

  lemma {:induction false} SameHistory(p: Problem, v: Winner, w: Winner, i: int, sigma: Strategy<Move>, s: State,
                                       h: seq<Move>)
    requires ConsistentHistory(DataArena(p, v), i, sigma, s, h)
    ensures ConsistentHistory(DataArena(p, w), i, sigma, s, h)
    decreases |h|
  {
    if h != [] {
      SameHistory(p, v, w, i, sigma, s, h[..|h| - 1]);
      SameAfter(p, v, w, s, h[..|h| - 1]);
    }
  }

  lemma SamePlay(p: Problem, v: Winner, w: Winner, i: int, sigma: Strategy<Move>, s: State, mv: nat -> Move)
    requires ConsistentPlay(DataArena(p, v), i, sigma, s, mv)
    ensures ConsistentPlay(DataArena(p, w), i, sigma, s, mv)
  {
    forall t: nat ensures Allowed(DataArena(p, w), i, sigma, s, Prefix(mv, t), mv(t)) {
      assert Allowed(DataArena(p, v), i, sigma, s, Prefix(mv, t), mv(t));
      SameAfter(p, v, w, s, Prefix(mv, t));
    }
  }

  lemma {:induction false} StateOnPlay(p: Problem, v: Winner, s: State, mv: nat -> Move, t: nat)
    ensures Position(DataArena(p, v), s, mv, t) == StateAt(p, s, mv, t)
  {
    if t > 0 {
      StateOnPlay(p, v, s, mv, t - 1);
      PositionStep(DataArena(p, v), s, mv, t - 1);
    } else {
      PositionStep(DataArena(p, v), s, mv, 0);
    }
  }

  lemma ConsistentIsLegal(p: Problem, v: Winner, i: int, sigma: Strategy<Move>, s: State, mv: nat -> Move)
    requires ConsistentPlay(DataArena(p, v), i, sigma, s, mv)
    ensures LegalPlay(p, s, mv)
  {
    forall t: nat ensures Legal(p, StateAt(p, s, mv, t), mv(t)) {
      assert Allowed(DataArena(p, v), i, sigma, s, Prefix(mv, t), mv(t));
      StateOnPlay(p, v, s, mv, t);
    }
  }

  lemma StrategyCarriesOver(p: Problem, v: Winner, w: Winner, s: State, i: int)
    requires forall mv: nat -> Move :: LegalPlay(p, s, mv) && v(i, s, mv) ==> w(i, s, mv)
    requires HasWinningStrategy(DataArena(p, v), i, s)
    ensures HasWinningStrategy(DataArena(p, w), i, s)
  {
    var a, b := DataArena(p, v), DataArena(p, w);
    var sigma :| Wins(a, i, sigma, s);
    forall h: seq<Move> | ConsistentHistory(b, i, sigma, s, h) && b.owner(After(b, s, h)) == i
      ensures b.legal(After(b, s, h), sigma(h))
    {
      SameAfter(p, v, w, s, h);
      SameHistory(p, w, v, i, sigma, s, h);
    }
    forall mv: nat -> Move | ConsistentPlay(b, i, sigma, s, mv) ensures b.won(i, s, mv) {
      SamePlay(p, w, v, i, sigma, s, mv);
      ConsistentIsLegal(p, w, i, sigma, s, mv);
      assert a.won(i, s, mv);
    }
    assert Wins(b, i, sigma, s);
  }

  /** Either player wins the data game under the original acceptance condition exactly when it wins under
      the weights, if the weights decide every play as the condition does. */
  lemma ArenasAgree(p: Problem, acc: Acc.Acc, s: State)
    requires PlaysScored(p, acc)
    ensures HasWinningStrategy(AcceptArena(p, acc), 1, s) <==> HasWinningStrategy(WeightArena(p), 1, s)
    ensures HasWinningStrategy(AcceptArena(p, acc), 0, s) <==> HasWinningStrategy(WeightArena(p), 0, s)
  {
    WinnersAgree(p, acc, s, 1);
    WinnersAgree(p, acc, s, 0);
  }

  lemma WinnersAgree(p: Problem, acc: Acc.Acc, s: State, i: int)
    requires PlaysScored(p, acc) && (i == 0 || i == 1)
    ensures HasWinningStrategy(AcceptArena(p, acc), i, s) <==> HasWinningStrategy(WeightArena(p), i, s)
  {
    var v, w := AcceptArena(p, acc).won, WeightArena(p).won;
    assert AcceptArena(p, acc) == DataArena(p, v) && WeightArena(p) == DataArena(p, w);
    forall mv: nat -> Move | LegalPlay(p, s, mv) ensures v(i, s, mv) <==> w(i, s, mv) {
      assert ScoredAt(p, acc, s, mv, i);
    }
    if HasWinningStrategy(DataArena(p, v), i, s) { StrategyCarriesOver(p, v, w, s, i); }
    if HasWinningStrategy(DataArena(p, w), i, s) { StrategyCarriesOver(p, w, v, s, i); }
  }

  lemma ProductNonNegative(p: Problem, initRho: nat, pg: ParityGame, stubs: seq<Stub>,
                           stubMap: map<(nat, nat, nat), nat>)
    requires IsProblem(p) && IsProduct(p, initRho, pg, stubs, stubMap) && WeightsNonNegative(p.game)
    ensures NonNegativeOn(pg.priority, States(pg.nStates))
  {
    forall u | u in States(pg.nStates) ensures PriorityAt(pg.priority, u) >= 0 {
      if u < BaseCount(p) {
        var s := IdxSurjective(p, u);
        OwnerAgrees(p, initRho, pg, stubs, stubMap, s);
      } else {
        var i := u - BaseCount(p);
        assert StubOk(p, stubs, stubMap, i);
        assert StubsFilled(p, stubs, pg.player, pg.priority, |stubs|);
      }
    }
  }

  /** What Algorithm D answers for the state `s`: that the environment wins where the acceptance is not
      supported, and otherwise who wins under the weights. */
  ghost predicate IsVerdict(p: Problem, s: State, verdict: bool) {
    if Unsupported(p.game) then !verdict else Decides(verdict, WeightArena(p), s)
  }

  /** The verdict, with `game` in the place of ltlsynt's answer, for the initial state and the initial
      memory.  Where the header is read it says who wins the data game under the acceptance condition. */
  method SolveAlgorithmD(phiStar: string, p: Problem, initRho: nat) returns (r: Result<bool>)
    requires IsProblem(p) && (p.t1 > 0 ==> initRho < p.t1) && (p.game.numStates > 0 ==> p.game.init < p.game.numStates)
    ensures phiStar == "" || p.t1 == 0 || p.game.numStates == 0 ==> r == Ok(false)
    ensures phiStar != "" && p.t1 > 0 && p.game.numStates > 0 ==>
              && (r == Err(TooManyAps) <==> |p.game.aps| > MAX_GAME_APS)
              && (r == Err(NotALabel) <==> |p.game.aps| <= MAX_GAME_APS && !AllLabels(p.game))
              && (r.Ok? && (Unsupported(p.game) || WeightsNonNegative(p.game)) ==>
                    IsVerdict(p, State(p.game.init, initRho), r.value))
    ensures phiStar != "" && p.t1 > 0 && p.game.numStates > 0 && r.Ok? ==>
              forall edgeColor, name, text, acc ::
                IsHeader(p.game, edgeColor, name, text, acc) && IsRead(name, p.game.nColors, text, acc) ==>
                  Decides(r.value, AcceptArena(p, acc), State(p.game.init, initRho))
  {
    if phiStar == "" || p.t1 == 0 { return Ok(false); }
    if p.game.numStates == 0 { return Ok(false); }
    var pg;
    ghost var stubs, stubMap;
    pg, stubs, stubMap := BuildProductGame(p, initRho);
    if pg.Err? { return Err(pg.error); }
    var w1;
    ghost var s0, s1;
    w1, s0, s1 := WinPlayer1(pg.value);
    r := Ok(pg.value.init in w1);
    ghost var s := State(p.game.init, initRho);
    if !Unsupported(p.game) && WeightsNonNegative(p.game) {
      ProductNonNegative(p, initRho, pg.value, stubs, stubMap);
      IdxBound(p, s);
      ProductDecides(p, initRho, pg.value, stubs, stubMap, States(pg.value.nStates) - w1, w1, s0, s1, s);
    }
    forall edgeColor, name, text, acc
      | IsHeader(p.game, edgeColor, name, text, acc) && IsRead(name, p.game.nColors, text, acc)
      ensures Decides(r.value, AcceptArena(p, acc), s)
    {
      ReadIsScored(p, edgeColor, name, text, acc);
      ArenasAgree(p, acc, s);
    }
  }

  /** `verdict` says who wins from `s`: exactly one of the players does. */
  ghost predicate Decides(verdict: bool, a: Arena<State, Move>, s: State) {
    && (verdict <==> HasWinningStrategy(a, 1, s))
    && (!verdict <==> HasWinningStrategy(a, 0, s))
  }
}
