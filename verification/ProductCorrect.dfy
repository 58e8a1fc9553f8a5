/** The product parity game decides the data game: a player wins from a state of the data game
    exactly when its number lies in the player's region of the product. */
module ProductCorrect {
  import opened Recurrence
  import opened StrategyGames
  import opened Attractors
  import opened Zielonka
  import opened DeadEnds
  import opened DataGame
  import opened ProductGame

  // A play of the product runs through the states of a data play and, between two of them, through
  // the stub of the edge when the edge has a weight.

  /** Step `k` of the product play: the data step it belongs to, and whether it is at that step's stub. */
  ghost function Cursor(ew: nat -> int, k: nat): (nat, bool) {
    if k == 0 then (0, false)
    else
      var (t, atStub) := Cursor(ew, k - 1);
      if !atStub && ew(t) >= 0 then (t, true) else (t + 1, false)
  }

  ghost function Merge(sw: nat -> int, ew: nat -> int): nat -> int {
    (k: nat) => if Cursor(ew, k).1 then ew(Cursor(ew, k).0) else sw(Cursor(ew, k).0)
  }

  lemma {:induction false} CursorBounds(ew: nat -> int, k: nat)
    ensures var (t, atStub) := Cursor(ew, k); t <= k <= 2 * t + (if atStub then 1 else 0) && (atStub ==> ew(t) >= 0)
  {
    if k > 0 {
      CursorBounds(ew, k - 1);
    }
  }

  lemma {:induction false} CursorArrives(ew: nat -> int, t: nat) returns (k: nat)
    ensures k >= t && Cursor(ew, k) == (t, false)
    ensures ew(t) >= 0 ==> Cursor(ew, k + 1) == (t, true)
  {
    if t == 0 {
      k := 0;
    } else {
      k := CursorArrives(ew, t - 1);
      k := if ew(t - 1) >= 0 then k + 2 else k + 1;
    }
  }

  /** Projecting the stubs away keeps the greatest recurring weight. */
  lemma MergeDominates(sw: nat -> int, ew: nat -> int, c: int)
    requires Dominates(Merge(sw, ew), c) && forall t: nat :: sw(t) >= 0
    ensures PairDominates(sw, ew, c)
  {
    var w := Merge(sw, ew);
    var n: nat :| BoundedFrom(w, c, n);
    forall t: nat | n <= t ensures 0 <= sw(t) <= c && ew(t) <= c {
      var k := CursorArrives(ew, t);
      assert w(k) == sw(t) && w(k) <= c;
      if ew(t) >= 0 {
        assert w(k + 1) == ew(t) && w(k + 1) <= c;
      }
    }
    assert BoundedFrom(sw, c, n) && BoundedFrom(ew, c, n);
    MergeRecurs(sw, ew, c);
  }

  lemma MergeRecurs(sw: nat -> int, ew: nat -> int, c: int)
    requires Recurs(Merge(sw, ew), c)
    ensures Recurs(sw, c) || Recurs(ew, c)
  {
    if !Recurs(sw, c) {
      var i: nat :| !HitsFrom(sw, c, i);
      forall n: nat ensures HitsFrom(ew, c, n) {
        var far := 2 * (i + n) + 2;
        assert HitsFrom(Merge(sw, ew), c, far);
        var k: nat :| far <= k && Merge(sw, ew)(k) == c;
        CursorBounds(ew, k);
        var t := Cursor(ew, k).0;
        assert t >= i && t >= n && (sw(t) == c || ew(t) == c);
      }
    }
  }

  /** One data step inside a region: a step from its state `here` of weight `sw`, and, if its edge has a
      weight, one from its stub of that weight. */
  ghost predicate DataStepAt(plr: seq<int>, pri: seq<int>, succs: seq<seq<nat>>, w: set<nat>, i: int,
                             sigma: map<nat, nat>, here: nat -> nat, stub: nat -> nat, sw: nat -> int, ew: nat -> int,
                             t: nat) {
    && PriorityAt(pri, here(t)) == sw(t) && sw(t) >= 0
    && Step(plr, succs, w, i, sigma, here(t), if ew(t) >= 0 then stub(t) else here(t + 1))
    && (ew(t) >= 0 ==> PriorityAt(pri, stub(t)) == ew(t) && Step(plr, succs, w, i, sigma, stub(t), here(t + 1)))
  }

  ghost function Interleave(here: nat -> nat, stub: nat -> nat, ew: nat -> int): nat -> nat {
    (k: nat) => InterleaveAt(here, stub, ew, k)
  }

  ghost function InterleaveAt(here: nat -> nat, stub: nat -> nat, ew: nat -> int, k: nat): nat {
    if Cursor(ew, k).1 then stub(Cursor(ew, k).0) else here(Cursor(ew, k).0)
  }

  lemma InterleaveStep(plr: seq<int>, pri: seq<int>, succs: seq<seq<nat>>, w: set<nat>, i: int, sigma: map<nat, nat>,
                       here: nat -> nat, stub: nat -> nat, sw: nat -> int, ew: nat -> int, k: nat)
    requires DataStepAt(plr, pri, succs, w, i, sigma, here, stub, sw, ew, Cursor(ew, k).0)
    ensures StepAt(plr, succs, w, i, sigma, Interleave(here, stub, ew), k)
    ensures Prios(pri, Interleave(here, stub, ew))(k) == Merge(sw, ew)(k)
  {
    CursorBounds(ew, k);
    assert Cursor(ew, k + 1) ==
      if !Cursor(ew, k).1 && ew(Cursor(ew, k).0) >= 0 then (Cursor(ew, k).0, true) else (Cursor(ew, k).0 + 1, false);
  }

  /** A play that runs through a winning region, states and stubs interleaved, is won by the region's
      player in terms of the weights of the data play. */
  lemma InterleavedIsWon(plr: seq<int>, pri: seq<int>, succs: seq<seq<nat>>, v: set<nat>, w: set<nat>, i: int,
                         sigma: map<nat, nat>, here: nat -> nat, stub: nat -> nat, sw: nat -> int, ew: nat -> int)
    requires Region(plr, pri, succs, v, i, w, sigma)
    requires forall t: nat :: DataStepAt(plr, pri, succs, w, i, sigma, here, stub, sw, ew, t)
    ensures PairParity(sw, ew, i)
  {
    var play := Interleave(here, stub, ew);
    forall k: nat ensures StepAt(plr, succs, w, i, sigma, play, k) && Prios(pri, play)(k) == Merge(sw, ew)(k) {
      InterleaveStep(plr, pri, succs, w, i, sigma, here, stub, sw, ew, k);
    }
    assert Follows(plr, succs, w, i, sigma, play);
    SameParity(Prios(pri, play), Merge(sw, ew), i);
    var c: int :| Dominates(Merge(sw, ew), c) && c % 2 == i;
    forall t: nat ensures sw(t) >= 0 {
      assert DataStepAt(plr, pri, succs, w, i, sigma, here, stub, sw, ew, t);
    }
    MergeDominates(sw, ew, c);
  }

  /** The product, its stubs, and a winning region of it. */
  ghost predicate WonRegion(p: Problem, initRho: nat, pg: ParityGame, stubs: seq<Stub>,
                            stubMap: map<(nat, nat, nat), nat>, i: int, w: set<nat>, sigma: map<nat, nat>) {
    && IsProblem(p) && IsProduct(p, initRho, pg, stubs, stubMap) && (i == 0 || i == 1)
    && Region(pg.player, pg.priority, pg.succs, States(pg.nStates), i, w, sigma)
  }

  ghost predicate Picks(p: Problem, stubMap: map<(nat, nat, nat), nat>, sigma: map<nat, nat>, s: State, m: Move) {
    Legal(p, s, m) && Idx(p, s) in sigma && Node(p, stubMap, s, m) == sigma[Idx(p, s)]
  }

  /** A move of the data game that the positional strategy of the product stands for. */
  ghost function PickMove(p: Problem, stubMap: map<(nat, nat, nat), nat>, sigma: map<nat, nat>, s: State): Move {
    if m: Move :| Picks(p, stubMap, sigma, s, m) then m else EnvMove(0)
  }

  lemma OwnerAgrees(p: Problem, initRho: nat, pg: ParityGame, stubs: seq<Stub>, stubMap: map<(nat, nat, nat), nat>,
                    s: State)
    requires IsProblem(p) && IsProduct(p, initRho, pg, stubs, stubMap) && IsState(p, s)
    ensures Idx(p, s) < pg.nStates && pg.player[Idx(p, s)] == Owner(p, s)
    ensures PriorityAt(pg.priority, Idx(p, s)) == StateWeight(p.game, s.q)
  {
    assert StateFilled(p, pg.player, pg.priority, s);
  }

  /** From a state of the region whose owner wins it, the picked move is legal. */
  lemma PickIsLegal(p: Problem, initRho: nat, pg: ParityGame, stubs: seq<Stub>, stubMap: map<(nat, nat, nat), nat>,
                    i: int, w: set<nat>, sigma: map<nat, nat>, s: State)
    requires WonRegion(p, initRho, pg, stubs, stubMap, i, w, sigma)
    requires IsState(p, s) && Idx(p, s) in w && Owner(p, s) == i
    ensures Picks(p, stubMap, sigma, s, PickMove(p, stubMap, sigma, s))
  {
    OwnerAgrees(p, initRho, pg, stubs, stubMap, s);
    var x := sigma[Idx(p, s)];
    assert Edge(pg.succs, Idx(p, s), x);
    assert Justified(p, stubMap, s, x);
    var m: Move :| Legal(p, s, m) && x == Node(p, stubMap, s, m);
    assert Picks(p, stubMap, sigma, s, m);
  }

  /** A legal move out of the region, the picked one if the region's player moves, leads through the
      region. */
  lemma MoveStaysInside(p: Problem, initRho: nat, pg: ParityGame, stubs: seq<Stub>, stubMap: map<(nat, nat, nat), nat>,
                        i: int, w: set<nat>, sigma: map<nat, nat>, s: State, m: Move)
    requires WonRegion(p, initRho, pg, stubs, stubMap, i, w, sigma)
    requires IsState(p, s) && Idx(p, s) in w && Legal(p, s, m)
    requires Owner(p, s) == i ==> Picks(p, stubMap, sigma, s, m)
    ensures Step(pg.player, pg.succs, w, i, sigma, Idx(p, s), Node(p, stubMap, s, m)) && Node(p, stubMap, s, m) in w
  {
    OwnerAgrees(p, initRho, pg, stubs, stubMap, s);
    assert StateLinked(p, stubMap, pg.succs, s) && Linked(p, stubMap, pg.succs, s, m);
    NodeBound(p, stubs, stubMap, s, m);
  }

  lemma StubStaysInside(p: Problem, initRho: nat, pg: ParityGame, stubs: seq<Stub>, stubMap: map<(nat, nat, nat), nat>,
                        i: int, w: set<nat>, sigma: map<nat, nat>, s: State, m: Move)
    requires WonRegion(p, initRho, pg, stubs, stubMap, i, w, sigma)
    requires IsState(p, s) && Legal(p, s, m) && Coloured(p, s, m) && Node(p, stubMap, s, m) in w
    ensures Step(pg.player, pg.succs, w, i, sigma, Node(p, stubMap, s, m), Idx(p, Target(p, s, m)))
            && Idx(p, Target(p, s, m)) in w
    ensures PriorityAt(pg.priority, Node(p, stubMap, s, m)) == EdgeWeight(p.game, s.q, m.j)
  {
    assert Stubbed(p, stubMap, s, m);
    StubOfMove(p, stubs, stubMap, s, m);
    var id := Node(p, stubMap, s, m);
    var dest := Idx(p, Target(p, s, m));
    assert StateLinked(p, stubMap, pg.succs, s) && Linked(p, stubMap, pg.succs, s, m);
    assert Edge(pg.succs, id, dest) && pg.succs[id] == [dest];
    TargetIsState(p, s, m);
    IdxBound(p, Target(p, s, m));
    if i == 0 {
      assert Edge(pg.succs, id, sigma[id]);
    }
  }

  /** Both steps at once: from a state of the region the target of the move is in it again. */
  lemma TargetStaysInside(p: Problem, initRho: nat, pg: ParityGame, stubs: seq<Stub>,
                          stubMap: map<(nat, nat, nat), nat>, i: int, w: set<nat>, sigma: map<nat, nat>, s: State,
                          m: Move)
    requires WonRegion(p, initRho, pg, stubs, stubMap, i, w, sigma)
    requires IsState(p, s) && Idx(p, s) in w && Legal(p, s, m)
    requires Owner(p, s) == i ==> Picks(p, stubMap, sigma, s, m)
    ensures IsState(p, Target(p, s, m)) && Idx(p, Target(p, s, m)) in w
  {
    MoveStaysInside(p, initRho, pg, stubs, stubMap, i, w, sigma, s, m);
    TargetIsState(p, s, m);
    if Coloured(p, s, m) {
      StubStaysInside(p, initRho, pg, stubs, stubMap, i, w, sigma, s, m);
    }
  }

  // The strategy in the data game.

  ghost function DataStrategy(p: Problem, stubMap: map<(nat, nat, nat), nat>, sigma: map<nat, nat>,
                              s: State): Strategy<Move> {
    (h: seq<Move>) => PickMove(p, stubMap, sigma, After(WeightArena(p), s, h))
  }

  lemma {:induction false} HistoryInside(p: Problem, initRho: nat, pg: ParityGame, stubs: seq<Stub>,
                                         stubMap: map<(nat, nat, nat), nat>, i: int, w: set<nat>, sigma: map<nat, nat>,
                                         s: State, h: seq<Move>)
    requires WonRegion(p, initRho, pg, stubs, stubMap, i, w, sigma) && IsState(p, s) && Idx(p, s) in w
    requires ConsistentHistory(WeightArena(p), i, DataStrategy(p, stubMap, sigma, s), s, h)
    ensures IsState(p, After(WeightArena(p), s, h)) && Idx(p, After(WeightArena(p), s, h)) in w
    decreases |h|
  {
    if h != [] {
      var h' := h[..|h| - 1];
      HistoryInside(p, initRho, pg, stubs, stubMap, i, w, sigma, s, h');
      var x, m := After(WeightArena(p), s, h'), h[|h| - 1];
      assert Legal(p, x, m) && (Owner(p, x) == i ==> m == PickMove(p, stubMap, sigma, x));
      if Owner(p, x) == i {
        PickIsLegal(p, initRho, pg, stubs, stubMap, i, w, sigma, x);
      }
      TargetStaysInside(p, initRho, pg, stubs, stubMap, i, w, sigma, x, m);
    }
  }

  lemma {:induction false} PositionIsStateAt(p: Problem, s: State, mv: nat -> Move, t: nat)
    ensures Position(WeightArena(p), s, mv, t) == StateAt(p, s, mv, t)
  {
    if t > 0 {
      PositionIsStateAt(p, s, mv, t - 1);
      PositionStep(WeightArena(p), s, mv, t - 1);
    } else {
      PositionStep(WeightArena(p), s, mv, 0);
    }
  }

  /** At every step of a play that follows the strategy, the state is in the region and the move is
      legal, the picked one if the region's player moves. */
  lemma {:induction false} PlayInside(p: Problem, initRho: nat, pg: ParityGame, stubs: seq<Stub>,
                                      stubMap: map<(nat, nat, nat), nat>, i: int, w: set<nat>, sigma: map<nat, nat>,
                                      s: State, mv: nat -> Move, t: nat)
    requires WonRegion(p, initRho, pg, stubs, stubMap, i, w, sigma) && IsState(p, s) && Idx(p, s) in w
    requires ConsistentPlay(WeightArena(p), i, DataStrategy(p, stubMap, sigma, s), s, mv)
    ensures var x := StateAt(p, s, mv, t);
            && IsState(p, x) && Idx(p, x) in w && Legal(p, x, mv(t))
            && (Owner(p, x) == i ==> Picks(p, stubMap, sigma, x, mv(t)))
  {
    if t > 0 {
      PlayInside(p, initRho, pg, stubs, stubMap, i, w, sigma, s, mv, t - 1);
      TargetStaysInside(p, initRho, pg, stubs, stubMap, i, w, sigma, StateAt(p, s, mv, t - 1), mv(t - 1));
    }
    PositionIsStateAt(p, s, mv, t);
    assert Allowed(WeightArena(p), i, DataStrategy(p, stubMap, sigma, s), s, Prefix(mv, t), mv(t));
    var x := StateAt(p, s, mv, t);
    if Owner(p, x) == i {
      PickIsLegal(p, initRho, pg, stubs, stubMap, i, w, sigma, x);
    }
  }

  /** A legal move out of the region, in numbers: its weights, and the one or two steps it takes. */
  lemma MoveThrough(p: Problem, initRho: nat, pg: ParityGame, stubs: seq<Stub>, stubMap: map<(nat, nat, nat), nat>,
                    i: int, w: set<nat>, sigma: map<nat, nat>, s: State, m: Move)
    requires WonRegion(p, initRho, pg, stubs, stubMap, i, w, sigma)
    requires IsState(p, s) && Idx(p, s) in w && Legal(p, s, m)
    requires Owner(p, s) == i ==> Picks(p, stubMap, sigma, s, m)
    ensures var u, stub, dest := Idx(p, s), Node(p, stubMap, s, m), Idx(p, Target(p, s, m));
            var weight := EdgeWeight(p.game, s.q, m.j);
            && PriorityAt(pg.priority, u) == StateWeight(p.game, s.q)
            && Step(pg.player, pg.succs, w, i, sigma, u, if weight >= 0 then stub else dest)
            && (weight >= 0 ==>
                  PriorityAt(pg.priority, stub) == weight && Step(pg.player, pg.succs, w, i, sigma, stub, dest))
  {
    MoveStaysInside(p, initRho, pg, stubs, stubMap, i, w, sigma, s, m);
    OwnerAgrees(p, initRho, pg, stubs, stubMap, s);
    WeightOfColoured(p, s, m);
    if Coloured(p, s, m) {
      StubStaysInside(p, initRho, pg, stubs, stubMap, i, w, sigma, s, m);
    }
  }

  ghost function BaseNodes(p: Problem, s: State, mv: nat -> Move): nat -> nat {
    (t: nat) => Idx(p, StateAt(p, s, mv, t))
  }

  ghost function MoveNodes(p: Problem, stubMap: map<(nat, nat, nat), nat>, s: State, mv: nat -> Move): nat -> nat {
    (t: nat) => Node(p, stubMap, StateAt(p, s, mv, t), mv(t))
  }

  lemma DataStep(p: Problem, initRho: nat, pg: ParityGame, stubs: seq<Stub>, stubMap: map<(nat, nat, nat), nat>,
                 i: int, w: set<nat>, sigma: map<nat, nat>, s: State, mv: nat -> Move, t: nat)
    requires WonRegion(p, initRho, pg, stubs, stubMap, i, w, sigma) && IsState(p, s) && Idx(p, s) in w
    requires WeightsNonNegative(p.game)
    requires ConsistentPlay(WeightArena(p), i, DataStrategy(p, stubMap, sigma, s), s, mv)
    ensures DataStepAt(pg.player, pg.priority, pg.succs, w, i, sigma, BaseNodes(p, s, mv), MoveNodes(p, stubMap, s, mv),
                       StateWeights(p, s, mv), EdgeWeights(p, s, mv), t)
  {
    PlayInside(p, initRho, pg, stubs, stubMap, i, w, sigma, s, mv, t);
    MoveThrough(p, initRho, pg, stubs, stubMap, i, w, sigma, StateAt(p, s, mv, t), mv(t));
    assert StateAt(p, s, mv, t + 1) == Target(p, StateAt(p, s, mv, t), mv(t));
  }

  lemma WeightOfColoured(p: Problem, s: State, m: Move)
    requires IsProblem(p) && Legal(p, s, m)
    ensures Coloured(p, s, m) <==> EdgeWeight(p.game, s.q, m.j) >= 0
  {
  }

  /** The region's player wins the data game from every state of its region. */
  lemma RegionWinsData(p: Problem, initRho: nat, pg: ParityGame, stubs: seq<Stub>, stubMap: map<(nat, nat, nat), nat>,
                       i: int, w: set<nat>, sigma: map<nat, nat>, s: State)
    requires WonRegion(p, initRho, pg, stubs, stubMap, i, w, sigma) && IsState(p, s) && Idx(p, s) in w
    requires WeightsNonNegative(p.game)
    ensures Wins(WeightArena(p), i, DataStrategy(p, stubMap, sigma, s), s)
  {
    var a, strategy := WeightArena(p), DataStrategy(p, stubMap, sigma, s);
    forall h: seq<Move> | ConsistentHistory(a, i, strategy, s, h) && a.owner(After(a, s, h)) == i
      ensures a.legal(After(a, s, h), strategy(h))
    {
      HistoryInside(p, initRho, pg, stubs, stubMap, i, w, sigma, s, h);
      PickIsLegal(p, initRho, pg, stubs, stubMap, i, w, sigma, After(a, s, h));
    }
    forall mv: nat -> Move | ConsistentPlay(a, i, strategy, s, mv) ensures a.won(i, s, mv) {
      PlayIsWon(p, initRho, pg, stubs, stubMap, i, w, sigma, s, mv);
    }
  }

  lemma PlayIsWon(p: Problem, initRho: nat, pg: ParityGame, stubs: seq<Stub>, stubMap: map<(nat, nat, nat), nat>,
                  i: int, w: set<nat>, sigma: map<nat, nat>, s: State, mv: nat -> Move)
    requires WonRegion(p, initRho, pg, stubs, stubMap, i, w, sigma) && IsState(p, s) && Idx(p, s) in w
    requires WeightsNonNegative(p.game)
    requires ConsistentPlay(WeightArena(p), i, DataStrategy(p, stubMap, sigma, s), s, mv)
    ensures PairParity(StateWeights(p, s, mv), EdgeWeights(p, s, mv), i)
  {
    var here, stub := BaseNodes(p, s, mv), MoveNodes(p, stubMap, s, mv);
    var sw, ew := StateWeights(p, s, mv), EdgeWeights(p, s, mv);
    forall t: nat ensures DataStepAt(pg.player, pg.priority, pg.succs, w, i, sigma, here, stub, sw, ew, t) {
      DataStep(p, initRho, pg, stubs, stubMap, i, w, sigma, s, mv, t);
    }
    InterleavedIsWon(pg.player, pg.priority, pg.succs, States(pg.nStates), w, i, sigma, here, stub, sw, ew);
  }

  /** A solved product decides the data game from every state: each player wins exactly the states
      whose numbers lie in its region. */
  lemma ProductDecides(p: Problem, initRho: nat, pg: ParityGame, stubs: seq<Stub>, stubMap: map<(nat, nat, nat), nat>,
                       w0: set<nat>, w1: set<nat>, s0: map<nat, nat>, s1: map<nat, nat>, s: State)
    requires IsProblem(p) && IsProduct(p, initRho, pg, stubs, stubMap) && WeightsNonNegative(p.game)
    requires Solved(pg.player, pg.priority, pg.succs, States(pg.nStates), w0, w1, s0, s1)
    requires IsState(p, s)
    ensures Idx(p, s) in w1 <==> HasWinningStrategy(WeightArena(p), 1, s)
    ensures Idx(p, s) in w0 <==> HasWinningStrategy(WeightArena(p), 0, s)
  {
    OwnerAgrees(p, initRho, pg, stubs, stubMap, s);
    NoDoubleWin(p, s);
    if Idx(p, s) in w1 {
      RegionWinsData(p, initRho, pg, stubs, stubMap, 1, w1, s1, s);
    } else {
      RegionWinsData(p, initRho, pg, stubs, stubMap, 0, w0, s0, s);
    }
  }

  lemma NoDoubleWin(p: Problem, s: State)
    ensures !(HasWinningStrategy(WeightArena(p), 0, s) && HasWinningStrategy(WeightArena(p), 1, s))
  {
    var a := WeightArena(p);
    forall mv: nat -> Move ensures !(a.won(0, s, mv) && a.won(1, s, mv)) {
      var sw, ew := StateWeights(p, s, mv), EdgeWeights(p, s, mv);
      if PairParity(sw, ew, 0) && PairParity(sw, ew, 1) {
        var c: int :| PairDominates(sw, ew, c) && c % 2 == 0;
        var d: int :| PairDominates(sw, ew, d) && d % 2 == 1;
        PairDominantIsUnique(sw, ew, c, d);
      }
    }
    NotBothWin(a, s);
  }
}
