/** The product of the synthesis game with the memory types, as a parity game: base states
    q * T1 + rho, and an edge stub for every coloured move. */
module ProductGame {
  import opened Bits
  import opened SynthGame
  import opened DataGame
  import opened Attractors
  import opened DeadEnds

  const MAX_GAME_APS: nat := 30

  datatype BuildError = TooManyAps | NotALabel

  datatype Result<T> = Ok(value: T) | Err(error: BuildError)

  // State numbers.

  /** q * t, by repeated addition. */
  function Times(q: nat, t: nat): nat {
    if q == 0 then 0 else Times(q - 1, t) + t
  }

  lemma {:induction false} TimesIsProduct(q: nat, t: nat)
    ensures Times(q, t) == q * t
  {
    if q > 0 {
      TimesIsProduct(q - 1, t);
      assert q * t == (q - 1) * t + t;
    }
  }

  function Idx(p: Problem, s: State): nat {
    Times(s.q, p.t1) + s.rho
  }

  function BaseCount(p: Problem): nat {
    Times(p.game.numStates, p.t1)
  }

  /** The number of a base state. */
  lemma BaseStateNumber(p: Problem, s: State)
    ensures Idx(p, s) == s.q * p.t1 + s.rho && BaseCount(p) == p.game.numStates * p.t1
  {
    TimesIsProduct(s.q, p.t1);
    TimesIsProduct(p.game.numStates, p.t1);
  }

  lemma {:induction false} RowsDisjoint(t: nat, q: nat, r: nat, rho: nat)
    requires q < r && rho < t
    ensures Times(q, t) + rho < Times(r, t)
    decreases r
  {
    if q + 1 < r {
      RowsDisjoint(t, q, r - 1, rho);
    }
  }

  lemma IdxInjective(p: Problem, x: State, y: State)
    requires IsState(p, x) && IsState(p, y) && Idx(p, x) == Idx(p, y)
    ensures x == y
  {
    if x.q < y.q {
      RowsDisjoint(p.t1, x.q, y.q, x.rho);
    } else if y.q < x.q {
      RowsDisjoint(p.t1, y.q, x.q, y.rho);
    }
  }

  lemma IdxBound(p: Problem, s: State)
    requires IsState(p, s)
    ensures Idx(p, s) < BaseCount(p)
  {
    RowsDisjoint(p.t1, s.q, p.game.numStates, s.rho);
  }

  lemma {:induction false} RowOf(t: nat, n: nat, u: nat) returns (q: nat, rho: nat)
    requires u < Times(n, t)
    ensures q < n && rho < t && u == Times(q, t) + rho
  {
    if u >= Times(n - 1, t) {
      q, rho := n - 1, u - Times(n - 1, t);
    } else {
      q, rho := RowOf(t, n - 1, u);
    }
  }

  lemma IdxSurjective(p: Problem, u: nat) returns (s: State)
    requires u < BaseCount(p)
    ensures IsState(p, s) && Idx(p, s) == u
  {
    var q, rho := RowOf(p.t1, p.game.numStates, u);
    s := State(q, rho);
  }

  // Stubs.

  /** The intermediate state of a coloured move. */
  datatype Stub = Stub(q: nat, rho: nat, j: nat, nextQ: nat, nextRho: nat, priority: int)

  ghost predicate Coloured(p: Problem, s: State, m: Move) {
    s.q < |p.game.edgePriority| && m.j < |p.game.edgePriority[s.q]| && p.game.edgePriority[s.q][m.j] >= 0
  }

  function StubOf(p: Problem, s: State, m: Move): Stub
    requires s.q < |p.game.edgePriority| && m.j < |p.game.edgePriority[s.q]|
  {
    Stub(s.q, s.rho, m.j, Target(p, s, m).q, Target(p, s, m).rho, p.game.edgePriority[s.q][m.j])
  }

  function StubKey(p: Problem, stub: Stub): (nat, nat, nat) {
    (Idx(p, State(stub.q, stub.rho)), stub.j, stub.nextRho)
  }

  function KeyOf(p: Problem, s: State, m: Move): (nat, nat, nat) {
    (Idx(p, s), m.j, NextRho(s, m))
  }

  ghost predicate ComesFrom(p: Problem, stub: Stub, s: State, m: Move) {
    Legal(p, s, m) && Coloured(p, s, m) && stub == StubOf(p, s, m)
  }

  ghost predicate HasOrigin(p: Problem, stub: Stub) {
    exists s: State, m: Move :: ComesFrom(p, stub, s, m)
  }

  ghost predicate StubOk(p: Problem, stubs: seq<Stub>, stubMap: map<(nat, nat, nat), nat>, i: nat)
    requires i < |stubs|
  {
    HasOrigin(p, stubs[i]) && StubKey(p, stubs[i]) in stubMap && stubMap[StubKey(p, stubs[i])] == BaseCount(p) + i
  }

  ghost predicate KeyOk(p: Problem, stubs: seq<Stub>, stubMap: map<(nat, nat, nat), nat>, key: (nat, nat, nat))
    requires key in stubMap
  {
    BaseCount(p) <= stubMap[key] < BaseCount(p) + |stubs| && StubKey(p, stubs[stubMap[key] - BaseCount(p)]) == key
  }

  /** The stubs and the map from (state, edge, next memory) to stub states are inverse to each other,
      and every stub stands for a legal coloured move. */
  ghost predicate StubTable(p: Problem, stubs: seq<Stub>, stubMap: map<(nat, nat, nat), nat>) {
    && (forall i: nat :: i < |stubs| ==> StubOk(p, stubs, stubMap, i))
    && (forall key {:trigger KeyOk(p, stubs, stubMap, key)} :: key in stubMap ==> KeyOk(p, stubs, stubMap, key))
  }

  lemma KeyOfStub(p: Problem, s: State, m: Move)
    requires IsProblem(p) && Legal(p, s, m)
    ensures StubKey(p, StubOf(p, s, m)) == KeyOf(p, s, m)
  {
  }

  lemma SameKeySameStub(p: Problem, s: State, m: Move, x: State, n: Move)
    requires IsProblem(p) && Legal(p, s, m) && Legal(p, x, n) && KeyOf(p, s, m) == KeyOf(p, x, n)
    ensures StubOf(p, s, m) == StubOf(p, x, n)
  {
    IdxInjective(p, s, x);
  }

  /** The stub found under the key of a legal move is the stub of that move. */
  lemma StubOfMove(p: Problem, stubs: seq<Stub>, stubMap: map<(nat, nat, nat), nat>, s: State, m: Move)
    requires IsProblem(p) && StubTable(p, stubs, stubMap) && Legal(p, s, m) && KeyOf(p, s, m) in stubMap
    ensures BaseCount(p) <= stubMap[KeyOf(p, s, m)] < BaseCount(p) + |stubs|
    ensures stubs[stubMap[KeyOf(p, s, m)] - BaseCount(p)] == StubOf(p, s, m)
  {
    assert KeyOk(p, stubs, stubMap, KeyOf(p, s, m));
    var stub := stubs[stubMap[KeyOf(p, s, m)] - BaseCount(p)];
    assert StubOk(p, stubs, stubMap, stubMap[KeyOf(p, s, m)] - BaseCount(p));
    var x: State, n: Move :| ComesFrom(p, stub, x, n);
    KeyOfStub(p, x, n);
    SameKeySameStub(p, s, m, x, n);
  }

  /** The coloured move `m` of `s`, once legal, has its stub. */
  ghost predicate Stubbed(p: Problem, stubMap: map<(nat, nat, nat), nat>, s: State, m: Move) {
    Legal(p, s, m) && Coloured(p, s, m) ==> KeyOf(p, s, m) in stubMap
  }

  ghost predicate Complete(p: Problem, stubMap: map<(nat, nat, nat), nat>) {
    forall s: State, m: Move :: Stubbed(p, stubMap, s, m)
  }

  // The feasibility table.

  ghost predicate IsTable(p: Problem, table: seq<seq<seq<bool>>>) {
    && |table| == p.t1
    && (forall rho :: 0 <= rho < p.t1 ==> |table[rho]| == p.t1)
    && (forall rho, rp :: 0 <= rho < p.t1 && 0 <= rp < p.t1 ==> |table[rho][rp]| == Pow2(p.k))
    && (forall rho: nat, rp: nat, d: nat {:trigger table[rho][rp][d]} :: rho < p.t1 && rp < p.t1 && d < Pow2(p.k) ==>
          (table[rho][rp][d] <==> Feasible(p, rho, rp, d)))
  }

  ghost predicate FeasibleBelow(p: Problem, n: nat, rho: nat, rp: nat, d: nat) {
    exists t :: 0 <= t < |p.t3| && t < n && t < |p.typeA| && p.t3[t].posM == rho && p.t3[t].posY == rp
        && p.typeA[t] == d
  }

  method FeasibilityTable(p: Problem) returns (table: seq<seq<seq<bool>>>)
    requires IsProblem(p)
    ensures IsTable(p, table)
  {
    var aMax := Pow2(p.k);
    table := seq(p.t1, _ => seq(p.t1, _ => seq(aMax, _ => false)));
    for t := 0 to |p.t3|
      invariant |table| == p.t1
      invariant forall rho :: 0 <= rho < p.t1 ==> |table[rho]| == p.t1
      invariant forall rho, rp :: 0 <= rho < p.t1 && 0 <= rp < p.t1 ==> |table[rho][rp]| == aMax
      invariant forall rho: nat, rp: nat, d: nat {:trigger table[rho][rp][d]} :: rho < p.t1 && rp < p.t1 && d < aMax ==>
                  (table[rho][rp][d] <==> FeasibleBelow(p, t, rho, rp, d))
    {
      var pm, py, a := p.t3[t].posM, p.t3[t].posY, p.typeA[t];
      ghost var before := table;
      if !(pm < 0 || py < 0 || pm >= p.t1 || py >= p.t1 || a < 0 || a >= aMax) {
        table := table[pm := table[pm][py := table[pm][py][a := true]]];
      }
      forall rho: nat, rp: nat, d: nat | rho < p.t1 && rp < p.t1 && d < aMax
        ensures table[rho][rp][d] <==> FeasibleBelow(p, t + 1, rho, rp, d)
      {
        assert before[rho][rp][d] <==> FeasibleBelow(p, t, rho, rp, d);
        assert FeasibleBelow(p, t + 1, rho, rp, d) <==>
                 FeasibleBelow(p, t, rho, rp, d) || (pm == rho && py == rp && a == d);
      }
    }
    forall rho: nat, rp: nat, d: nat | rho < p.t1 && rp < p.t1 && d < aMax
      ensures table[rho][rp][d] <==> Feasible(p, rho, rp, d)
    {
      assert FeasibleBelow(p, |p.t3|, rho, rp, d) <==> Feasible(p, rho, rp, d);
    }
  }

  // Environment edges.

  method EnvEdgeReachable(p: Problem, table: seq<seq<seq<bool>>>, rho: nat, q: nat, j: nat) returns (reachable: bool)
    requires IsProblem(p) && IsTable(p, table) && rho < p.t1 && q < p.game.numStates && j < |p.game.trans[q]|
    ensures reachable <==> EnvEdge(p, rho, q, j)
  {
    var n := Pow2(|p.game.aps|);
    for a := 0 to n
      invariant forall b: nat, rp: nat {:trigger Holds(p, q, j, b), Feasible(p, rho, rp, DPattern(p.game, p.k, b))} ::
                  b < a && Holds(p, q, j, b) ==> !Feasible(p, rho, rp, DPattern(p.game, p.k, b))
    {
      var guard := p.game.trans[q][j].guard;
      if guard.Some? && Eval(guard.value, |p.game.aps|, a) {
        var d := DPatternFromAssignment(p.game, p.k, a);
        for rp := 0 to p.t1
          invariant forall r: nat :: r < rp ==> !Feasible(p, rho, r, d)
        {
          if table[rho][rp][d] {
            assert Holds(p, q, j, a) && Feasible(p, rho, rp, DPattern(p.game, p.k, a));
            return true;
          }
        }
      }
    }
    return false;
  }

  // The first scan: a stub for every coloured move.

  ghost predicate MoreKeys(before: map<(nat, nat, nat), nat>, after: map<(nat, nat, nat), nat>) {
    forall key :: key in before ==> key in after
  }

  lemma TableGrows(p: Problem, stubs: seq<Stub>, stubMap: map<(nat, nat, nat), nat>, stub: Stub)
    requires StubTable(p, stubs, stubMap) && HasOrigin(p, stub) && StubKey(p, stub) !in stubMap
    ensures StubTable(p, stubs + [stub], stubMap[StubKey(p, stub) := BaseCount(p) + |stubs|])
  {
    var stubs', stubMap' := stubs + [stub], stubMap[StubKey(p, stub) := BaseCount(p) + |stubs|];
    forall i: nat | i < |stubs'| ensures StubOk(p, stubs', stubMap', i) {
      if i < |stubs| {
        assert StubOk(p, stubs, stubMap, i);
      }
    }
    forall key | key in stubMap' ensures KeyOk(p, stubs', stubMap', key) {
      if key != StubKey(p, stub) {
        assert KeyOk(p, stubs, stubMap, key);
      }
    }
  }

  method AddStub(p: Problem, s: State, m: Move, stubs: seq<Stub>, stubMap: map<(nat, nat, nat), nat>)
    returns (stubs': seq<Stub>, stubMap': map<(nat, nat, nat), nat>)
    requires IsProblem(p) && StubTable(p, stubs, stubMap) && Legal(p, s, m) && Coloured(p, s, m)
    ensures StubTable(p, stubs', stubMap') && MoreKeys(stubMap, stubMap') && KeyOf(p, s, m) in stubMap'
  {
    stubs', stubMap' := stubs, stubMap;
    var key := KeyOf(p, s, m);
    if key !in stubMap {
      stubMap' := stubMap[key := BaseCount(p) + |stubs|];
      stubs' := stubs + [StubOf(p, s, m)];
      assert ComesFrom(p, StubOf(p, s, m), s, m);
      KeyOfStub(p, s, m);
      TableGrows(p, stubs, stubMap, StubOf(p, s, m));
    }
  }

  /** The stubs of the system's moves with one choice over one edge. */
  method ScanChoice(p: Problem, table: seq<seq<seq<bool>>>, s: State, j: nat, d: nat, a: nat,
                    stubs0: seq<Stub>, stubMap0: map<(nat, nat, nat), nat>)
    returns (stubs: seq<Stub>, stubMap: map<(nat, nat, nat), nat>)
    requires IsProblem(p) && IsTable(p, table) && StubTable(p, stubs0, stubMap0)
    requires IsState(p, s) && Owner(p, s) == 1 && j < |p.game.trans[s.q]| && p.game.edgePriority[s.q][j] >= 0
    requires IsChoice(p.game, p.k, d, a)
    ensures StubTable(p, stubs, stubMap) && MoreKeys(stubMap0, stubMap)
    ensures forall rp: nat :: Stubbed(p, stubMap, s, SysMove(d, a, j, rp))
  {
    stubs, stubMap := stubs0, stubMap0;
    var guard := p.game.trans[s.q][j].guard;
    if !(guard.Some? && Eval(guard.value, |p.game.aps|, a)) {
      return;
    }
    for rp := 0 to p.t1
      invariant StubTable(p, stubs, stubMap) && MoreKeys(stubMap0, stubMap)
      invariant forall r: nat :: r < rp ==> Stubbed(p, stubMap, s, SysMove(d, a, j, r))
    {
      if table[s.rho][rp][d] {
        stubs, stubMap := AddStub(p, s, SysMove(d, a, j, rp), stubs, stubMap);
      }
    }
  }

  ghost predicate ChoiceStubbed(p: Problem, stubMap: map<(nat, nat, nat), nat>, s: State, j: nat, d: nat, a: nat) {
    forall rp: nat :: Stubbed(p, stubMap, s, SysMove(d, a, j, rp))
  }

  /** The stubs of the system's moves over one edge. */
  method ScanSysEdge(p: Problem, table: seq<seq<seq<bool>>>, choices: seq<(nat, nat)>, s: State, j: nat,
                     stubs0: seq<Stub>, stubMap0: map<(nat, nat, nat), nat>)
    returns (stubs: seq<Stub>, stubMap: map<(nat, nat, nat), nat>)
    requires IsProblem(p) && IsTable(p, table) && StubTable(p, stubs0, stubMap0)
    requires forall d: nat, a: nat :: (d, a) in choices <==> IsChoice(p.game, p.k, d, a)
    requires IsState(p, s) && Owner(p, s) == 1 && j < |p.game.trans[s.q]| && p.game.edgePriority[s.q][j] >= 0
    ensures StubTable(p, stubs, stubMap) && MoreKeys(stubMap0, stubMap)
    ensures forall m: Move :: m.j == j ==> Stubbed(p, stubMap, s, m)
  {
    stubs, stubMap := stubs0, stubMap0;
    for c := 0 to |choices|
      invariant StubTable(p, stubs, stubMap) && MoreKeys(stubMap0, stubMap)
      invariant forall i :: 0 <= i < c ==> ChoiceStubbed(p, stubMap, s, j, choices[i].0, choices[i].1)
    {
      assert (choices[c].0, choices[c].1) in choices;
      stubs, stubMap := ScanChoice(p, table, s, j, choices[c].0, choices[c].1, stubs, stubMap);
    }
    forall m: Move | m.j == j ensures Stubbed(p, stubMap, s, m) {
      if Legal(p, s, m) {
        assert (m.d, m.a) in choices;
        var i :| 0 <= i < |choices| && choices[i] == (m.d, m.a);
        assert ChoiceStubbed(p, stubMap, s, j, choices[i].0, choices[i].1);
      }
    }
  }

  /** The stubs of the moves over one edge. */
  method ScanEdge(p: Problem, table: seq<seq<seq<bool>>>, choices: seq<(nat, nat)>, s: State, j: nat,
                  stubs0: seq<Stub>, stubMap0: map<(nat, nat, nat), nat>)
    returns (stubs: seq<Stub>, stubMap: map<(nat, nat, nat), nat>)
    requires IsProblem(p) && IsTable(p, table) && StubTable(p, stubs0, stubMap0)
    requires forall d: nat, a: nat :: (d, a) in choices <==> IsChoice(p.game, p.k, d, a)
    requires IsState(p, s) && j < |p.game.trans[s.q]|
    ensures StubTable(p, stubs, stubMap) && MoreKeys(stubMap0, stubMap)
    ensures forall m: Move :: m.j == j ==> Stubbed(p, stubMap, s, m)
  {
    stubs, stubMap := stubs0, stubMap0;
    if p.game.edgePriority[s.q][j] < 0 {
      return;
    }
    if p.game.player[s.q] != 1 {
      var reachable := EnvEdgeReachable(p, table, s.rho, s.q, j);
      if reachable {
        stubs, stubMap := AddStub(p, s, EnvMove(j), stubs, stubMap);
      }
      return;
    }
    stubs, stubMap := ScanSysEdge(p, table, choices, s, j, stubs, stubMap);
  }

  method ScanState(p: Problem, table: seq<seq<seq<bool>>>, choices: seq<(nat, nat)>, s: State,
                   stubs0: seq<Stub>, stubMap0: map<(nat, nat, nat), nat>)
    returns (stubs: seq<Stub>, stubMap: map<(nat, nat, nat), nat>)
    requires IsProblem(p) && IsTable(p, table) && StubTable(p, stubs0, stubMap0) && IsState(p, s)
    requires forall d: nat, a: nat :: (d, a) in choices <==> IsChoice(p.game, p.k, d, a)
    ensures StubTable(p, stubs, stubMap) && MoreKeys(stubMap0, stubMap)
    ensures forall m: Move :: Stubbed(p, stubMap, s, m)
  {
    stubs, stubMap := stubs0, stubMap0;
    for j := 0 to |p.game.trans[s.q]|
      invariant StubTable(p, stubs, stubMap) && MoreKeys(stubMap0, stubMap)
      invariant forall m: Move :: m.j < j ==> Stubbed(p, stubMap, s, m)
    {
      stubs, stubMap := ScanEdge(p, table, choices, s, j, stubs, stubMap);
    }
  }

  method NeedEdgeLayer(p: Problem) returns (need: bool)
    requires IsProblem(p)
    ensures !need ==> forall s: State, m: Move {:trigger Coloured(p, s, m)} :: !Coloured(p, s, m)
  {
    for q := 0 to p.game.numStates
      invariant forall s: State, m: Move {:trigger Coloured(p, s, m)} :: s.q < q ==> !Coloured(p, s, m)
    {
      for j := 0 to |p.game.edgePriority[q]|
        invariant forall i :: 0 <= i < j ==> p.game.edgePriority[q][i] < 0
      {
        if p.game.edgePriority[q][j] >= 0 { return true; }
      }
    }
    return false;
  }

  /** Every stub the second scan will look for exists. */
  method FirstScan(p: Problem, table: seq<seq<seq<bool>>>, choices: seq<(nat, nat)>)
    returns (stubs: seq<Stub>, stubMap: map<(nat, nat, nat), nat>)
    requires IsProblem(p) && IsTable(p, table)
    requires forall d: nat, a: nat :: (d, a) in choices <==> IsChoice(p.game, p.k, d, a)
    ensures StubTable(p, stubs, stubMap) && Complete(p, stubMap)
  {
    stubs, stubMap := [], map[];
    var need := NeedEdgeLayer(p);
    if !need {
      return;
    }
    for q := 0 to p.game.numStates
      invariant StubTable(p, stubs, stubMap)
      invariant forall s: State, m: Move :: s.q < q ==> Stubbed(p, stubMap, s, m)
    {
      for rho := 0 to p.t1
        invariant StubTable(p, stubs, stubMap)
        invariant forall s: State, m: Move :: s.q < q || (s.q == q && s.rho < rho) ==> Stubbed(p, stubMap, s, m)
      {
        ghost var before := stubMap;
        stubs, stubMap := ScanState(p, table, choices, State(q, rho), stubs, stubMap);
        forall s: State, m: Move | s.q < q || (s.q == q && s.rho <= rho) ensures Stubbed(p, stubMap, s, m) {
          assert s == State(q, rho) || Stubbed(p, before, s, m);
        }
      }
    }
  }

  // The second scan: transitions.

  /** The state a legal move leads to at once: its stub, or its target when it is not coloured. */
  ghost function Node(p: Problem, stubMap: map<(nat, nat, nat), nat>, s: State, m: Move): nat {
    if Coloured(p, s, m) && KeyOf(p, s, m) in stubMap then stubMap[KeyOf(p, s, m)] else Idx(p, Target(p, s, m))
  }

  ghost predicate Linked(p: Problem, stubMap: map<(nat, nat, nat), nat>, succs: seq<seq<nat>>, s: State, m: Move) {
    Legal(p, s, m) ==>
      && Edge(succs, Idx(p, s), Node(p, stubMap, s, m))
      && (Coloured(p, s, m) ==> Edge(succs, Node(p, stubMap, s, m), Idx(p, Target(p, s, m))))
  }

  ghost predicate Justified(p: Problem, stubMap: map<(nat, nat, nat), nat>, s: State, x: nat) {
    exists m: Move :: Legal(p, s, m) && x == Node(p, stubMap, s, m)
  }

  function StubTarget(p: Problem, stub: Stub): nat {
    Idx(p, State(stub.nextQ, stub.nextRho))
  }

  /** Base states lead only to nodes of their legal moves, stubs only to the target of theirs. */
  ghost predicate Sound(p: Problem, stubs: seq<Stub>, stubMap: map<(nat, nat, nat), nat>, succs: seq<seq<nat>>) {
    && |succs| == BaseCount(p) + |stubs|
    && (forall i :: 0 <= i < |stubs| ==>
          succs[BaseCount(p) + i] == [] || succs[BaseCount(p) + i] == [StubTarget(p, stubs[i])])
    && (forall s: State, x: nat {:trigger Edge(succs, Idx(p, s), x)} ::
          IsState(p, s) && Edge(succs, Idx(p, s), x) ==> Justified(p, stubMap, s, x))
  }

  ghost predicate Extends(before: seq<seq<nat>>, after: seq<seq<nat>>) {
    forall u: nat, x: nat {:trigger Edge(after, u, x)} {:trigger Edge(before, u, x)} :: Edge(before, u, x) ==>
          Edge(after, u, x)
  }

  /** Appends `x` to the successors of `u` unless it is there. */
  method AddSucc(succs: seq<seq<nat>>, u: nat, x: nat) returns (succs': seq<seq<nat>>)
    requires u < |succs|
    ensures |succs'| == |succs|
    ensures forall v: nat :: v < |succs| && v != u ==> succs'[v] == succs[v]
    ensures succs'[u] == if x in succs[u] then succs[u] else succs[u] + [x]
  {
    if x !in succs[u] { return succs[u := succs[u] + [x]]; } else { return succs; }
  }

  /** `succs` is sound and holds every edge of `before`. */
  ghost predicate Continues(p: Problem, stubs: seq<Stub>, stubMap: map<(nat, nat, nat), nat>, before: seq<seq<nat>>,
                            succs: seq<seq<nat>>) {
    Sound(p, stubs, stubMap, succs) && Extends(before, succs)
  }

  lemma SoundAddNode(p: Problem, stubs: seq<Stub>, stubMap: map<(nat, nat, nat), nat>, succs: seq<seq<nat>>,
                     succs': seq<seq<nat>>, s: State, m: Move)
    requires IsProblem(p) && StubTable(p, stubs, stubMap) && Sound(p, stubs, stubMap, succs) && Legal(p, s, m)
    requires |succs'| == |succs| && forall v: nat :: v < |succs| && v != Idx(p, s) ==> succs'[v] == succs[v]
    requires Idx(p, s) < |succs| && forall x :: x in succs'[Idx(p, s)] ==>
               x in succs[Idx(p, s)] || x == Node(p, stubMap, s, m)
    ensures Sound(p, stubs, stubMap, succs')
  {
    IdxBound(p, s);
    forall y: State, x: nat | IsState(p, y) && Edge(succs', Idx(p, y), x) ensures Justified(p, stubMap, y, x) {
      if Idx(p, y) == Idx(p, s) {
        IdxInjective(p, y, s);
        if !Edge(succs, Idx(p, y), x) {
          assert Legal(p, y, m) && x == Node(p, stubMap, y, m);
        }
      } else {
        assert Edge(succs, Idx(p, y), x);
      }
    }
  }

  lemma SoundAddStubTarget(p: Problem, stubs: seq<Stub>, stubMap: map<(nat, nat, nat), nat>, succs: seq<seq<nat>>,
                           succs': seq<seq<nat>>, i: nat)
    requires Sound(p, stubs, stubMap, succs) && i < |stubs|
    requires |succs'| == |succs| && forall v: nat :: v < |succs| && v != BaseCount(p) + i ==> succs'[v] == succs[v]
    requires succs'[BaseCount(p) + i] == [StubTarget(p, stubs[i])]
    ensures Sound(p, stubs, stubMap, succs')
  {
    forall y: State, x: nat | IsState(p, y) && Edge(succs', Idx(p, y), x) ensures Justified(p, stubMap, y, x) {
      IdxBound(p, y);
      assert Edge(succs, Idx(p, y), x);
    }
  }

  /** Adds the transition from `s` to the node `x` of its move `m`. */
  method AddNode(p: Problem, stubs: seq<Stub>, stubMap: map<(nat, nat, nat), nat>, s: State, ghost m: Move, x: nat,
                 succs0: seq<seq<nat>>)
    returns (succs: seq<seq<nat>>)
    requires IsProblem(p) && StubTable(p, stubs, stubMap) && Sound(p, stubs, stubMap, succs0)
    requires Legal(p, s, m) && x == Node(p, stubMap, s, m)
    ensures Continues(p, stubs, stubMap, succs0, succs) && Edge(succs, Idx(p, s), x)
  {
    IdxBound(p, s);
    succs := AddSucc(succs0, Idx(p, s), x);
    SoundAddNode(p, stubs, stubMap, succs0, succs, s, m);
  }

  /** Adds the transition from the i-th stub to its target. */
  method AddExit(p: Problem, stubs: seq<Stub>, stubMap: map<(nat, nat, nat), nat>, i: nat, succs0: seq<seq<nat>>)
    returns (succs: seq<seq<nat>>)
    requires Sound(p, stubs, stubMap, succs0) && i < |stubs|
    ensures Continues(p, stubs, stubMap, succs0, succs) && Edge(succs, BaseCount(p) + i, StubTarget(p, stubs[i]))
  {
    succs := AddSucc(succs0, BaseCount(p) + i, StubTarget(p, stubs[i]));
    SoundAddStubTarget(p, stubs, stubMap, succs0, succs, i);
  }

  /** Adds the transition of one legal move: through its stub if it has one, else direct. */
  method AddMove(p: Problem, stubs: seq<Stub>, stubMap: map<(nat, nat, nat), nat>, s: State, m: Move,
                 succs0: seq<seq<nat>>)
    returns (succs: seq<seq<nat>>)
    requires IsProblem(p) && StubTable(p, stubs, stubMap) && Complete(p, stubMap)
    requires Sound(p, stubs, stubMap, succs0) && Legal(p, s, m)
    ensures Continues(p, stubs, stubMap, succs0, succs) && Linked(p, stubMap, succs, s, m)
  {
    assert Stubbed(p, stubMap, s, m);
    if p.game.edgePriority[s.q][m.j] >= 0 && KeyOf(p, s, m) in stubMap {
      StubOfMove(p, stubs, stubMap, s, m);
      succs := AddNode(p, stubs, stubMap, s, m, stubMap[KeyOf(p, s, m)], succs0);
      succs := AddExit(p, stubs, stubMap, stubMap[KeyOf(p, s, m)] - BaseCount(p), succs);
    } else {
      succs := AddNode(p, stubs, stubMap, s, m, Idx(p, Target(p, s, m)), succs0);
    }
  }

  lemma LinkedGrows(p: Problem, stubMap: map<(nat, nat, nat), nat>, before: seq<seq<nat>>, after: seq<seq<nat>>,
                    s: State, m: Move)
    requires Extends(before, after) && Linked(p, stubMap, before, s, m)
    ensures Linked(p, stubMap, after, s, m)
  {
  }

  /** Links the system's moves with one choice over one edge. */
  method LinkEdge(p: Problem, table: seq<seq<seq<bool>>>, stubs: seq<Stub>, stubMap: map<(nat, nat, nat), nat>,
                  s: State, d: nat, a: nat, j: nat, succs0: seq<seq<nat>>) returns (succs: seq<seq<nat>>)
    requires IsProblem(p) && IsTable(p, table) && StubTable(p, stubs, stubMap) && Complete(p, stubMap)
    requires Sound(p, stubs, stubMap, succs0) && IsState(p, s) && Owner(p, s) == 1
    requires IsChoice(p.game, p.k, d, a) && j < |p.game.trans[s.q]|
    ensures Continues(p, stubs, stubMap, succs0, succs)
    ensures forall rp: nat :: Linked(p, stubMap, succs, s, SysMove(d, a, j, rp))
  {
    succs := succs0;
    var guard := p.game.trans[s.q][j].guard;
    if !(guard.Some? && Eval(guard.value, |p.game.aps|, a)) {
      return;
    }
    for rp := 0 to p.t1
      invariant Continues(p, stubs, stubMap, succs0, succs)
      invariant forall r: nat :: r < rp ==> Linked(p, stubMap, succs, s, SysMove(d, a, j, r))
    {
      if table[s.rho][rp][d] {
        ghost var before := succs;
        succs := AddMove(p, stubs, stubMap, s, SysMove(d, a, j, rp), succs);
        forall r: nat | r < rp ensures Linked(p, stubMap, succs, s, SysMove(d, a, j, r)) {
          LinkedGrows(p, stubMap, before, succs, s, SysMove(d, a, j, r));
        }
      }
    }
  }

  ghost predicate EdgeLinked(p: Problem, stubMap: map<(nat, nat, nat), nat>, succs: seq<seq<nat>>, s: State, d: nat,
                             a: nat, j: nat) {
    forall rp: nat :: Linked(p, stubMap, succs, s, SysMove(d, a, j, rp))
  }

  ghost predicate ChoiceLinked(p: Problem, stubMap: map<(nat, nat, nat), nat>, succs: seq<seq<nat>>, s: State, d: nat,
                               a: nat) {
    forall j: nat :: EdgeLinked(p, stubMap, succs, s, d, a, j)
  }

  lemma EdgeLinkedGrows(p: Problem, stubMap: map<(nat, nat, nat), nat>, before: seq<seq<nat>>, after: seq<seq<nat>>,
                        s: State, d: nat, a: nat, j: nat)
    requires Extends(before, after) && EdgeLinked(p, stubMap, before, s, d, a, j)
    ensures EdgeLinked(p, stubMap, after, s, d, a, j)
  {
    forall rp: nat ensures Linked(p, stubMap, after, s, SysMove(d, a, j, rp)) {
      LinkedGrows(p, stubMap, before, after, s, SysMove(d, a, j, rp));
    }
  }

  /** Links the system's moves with one choice. */
  method LinkChoice(p: Problem, table: seq<seq<seq<bool>>>, stubs: seq<Stub>, stubMap: map<(nat, nat, nat), nat>,
                    s: State, d: nat, a: nat, succs0: seq<seq<nat>>) returns (succs: seq<seq<nat>>)
    requires IsProblem(p) && IsTable(p, table) && StubTable(p, stubs, stubMap) && Complete(p, stubMap)
    requires Sound(p, stubs, stubMap, succs0) && IsState(p, s) && Owner(p, s) == 1 && IsChoice(p.game, p.k, d, a)
    ensures Continues(p, stubs, stubMap, succs0, succs) && ChoiceLinked(p, stubMap, succs, s, d, a)
  {
    succs := succs0;
    for j := 0 to |p.game.trans[s.q]|
      invariant Continues(p, stubs, stubMap, succs0, succs)
      invariant forall i: nat :: i < j ==> EdgeLinked(p, stubMap, succs, s, d, a, i)
    {
      ghost var before := succs;
      succs := LinkEdge(p, table, stubs, stubMap, s, d, a, j, succs);
      forall i: nat | i < j ensures EdgeLinked(p, stubMap, succs, s, d, a, i) {
        EdgeLinkedGrows(p, stubMap, before, succs, s, d, a, i);
      }
    }
    forall j: nat ensures EdgeLinked(p, stubMap, succs, s, d, a, j) {
      if j >= |p.game.trans[s.q]| {
        assert forall rp: nat :: !Legal(p, s, SysMove(d, a, j, rp));
      }
    }
  }

  lemma ChoiceLinkedGrows(p: Problem, stubMap: map<(nat, nat, nat), nat>, before: seq<seq<nat>>, after: seq<seq<nat>>,
                          s: State, d: nat, a: nat)
    requires Extends(before, after) && ChoiceLinked(p, stubMap, before, s, d, a)
    ensures ChoiceLinked(p, stubMap, after, s, d, a)
  {
    forall j: nat ensures EdgeLinked(p, stubMap, after, s, d, a, j) {
      EdgeLinkedGrows(p, stubMap, before, after, s, d, a, j);
    }
  }

  ghost predicate StateLinked(p: Problem, stubMap: map<(nat, nat, nat), nat>, succs: seq<seq<nat>>, s: State) {
    forall m: Move :: Linked(p, stubMap, succs, s, m)
  }

  /** Links every move of a system state. */
  method LinkSysState(p: Problem, table: seq<seq<seq<bool>>>, choices: seq<(nat, nat)>, stubs: seq<Stub>,
                      stubMap: map<(nat, nat, nat), nat>, s: State, succs0: seq<seq<nat>>)
    returns (succs: seq<seq<nat>>)
    requires IsProblem(p) && IsTable(p, table) && StubTable(p, stubs, stubMap) && Complete(p, stubMap)
    requires forall d: nat, a: nat :: (d, a) in choices <==> IsChoice(p.game, p.k, d, a)
    requires Sound(p, stubs, stubMap, succs0) && IsState(p, s) && Owner(p, s) == 1
    ensures Continues(p, stubs, stubMap, succs0, succs) && StateLinked(p, stubMap, succs, s)
  {
    succs := succs0;
    for c := 0 to |choices|
      invariant Continues(p, stubs, stubMap, succs0, succs)
      invariant forall i :: 0 <= i < c ==> ChoiceLinked(p, stubMap, succs, s, choices[i].0, choices[i].1)
    {
      ghost var before := succs;
      assert (choices[c].0, choices[c].1) in choices;
      succs := LinkChoice(p, table, stubs, stubMap, s, choices[c].0, choices[c].1, succs);
      forall i | 0 <= i < c ensures ChoiceLinked(p, stubMap, succs, s, choices[i].0, choices[i].1) {
        ChoiceLinkedGrows(p, stubMap, before, succs, s, choices[i].0, choices[i].1);
      }
    }
    forall m: Move ensures Linked(p, stubMap, succs, s, m) {
      if Legal(p, s, m) {
        assert (m.d, m.a) in choices;
        var i :| 0 <= i < |choices| && choices[i] == (m.d, m.a);
        assert ChoiceLinked(p, stubMap, succs, s, choices[i].0, choices[i].1);
        assert EdgeLinked(p, stubMap, succs, s, m.d, m.a, m.j);
      }
    }
  }

  /** Links every move of an environment state. */
  method LinkEnvState(p: Problem, table: seq<seq<seq<bool>>>, stubs: seq<Stub>, stubMap: map<(nat, nat, nat), nat>,
                      s: State, succs0: seq<seq<nat>>) returns (succs: seq<seq<nat>>)
    requires IsProblem(p) && IsTable(p, table) && StubTable(p, stubs, stubMap) && Complete(p, stubMap)
    requires Sound(p, stubs, stubMap, succs0) && IsState(p, s) && Owner(p, s) == 0
    ensures Continues(p, stubs, stubMap, succs0, succs) && StateLinked(p, stubMap, succs, s)
  {
    succs := succs0;
    for j := 0 to |p.game.trans[s.q]|
      invariant Continues(p, stubs, stubMap, succs0, succs)
      invariant forall i: nat :: i < j ==> Linked(p, stubMap, succs, s, EnvMove(i))
    {
      ghost var before := succs;
      var reachable := EnvEdgeReachable(p, table, s.rho, s.q, j);
      if reachable {
        succs := AddMove(p, stubs, stubMap, s, EnvMove(j), succs);
        forall i: nat | i < j ensures Linked(p, stubMap, succs, s, EnvMove(i)) {
          LinkedGrows(p, stubMap, before, succs, s, EnvMove(i));
        }
      }
    }
    forall m: Move ensures Linked(p, stubMap, succs, s, m) {
      if Legal(p, s, m) {
        assert m == EnvMove(m.j);
      }
    }
  }

  lemma StateLinkedGrows(p: Problem, stubMap: map<(nat, nat, nat), nat>, before: seq<seq<nat>>, after: seq<seq<nat>>,
                         s: State)
    requires Extends(before, after) && StateLinked(p, stubMap, before, s)
    ensures StateLinked(p, stubMap, after, s)
  {
    forall m: Move ensures Linked(p, stubMap, after, s, m) {
      LinkedGrows(p, stubMap, before, after, s, m);
    }
  }

  /** Links every state. */
  method SecondScan(p: Problem, table: seq<seq<seq<bool>>>, choices: seq<(nat, nat)>, stubs: seq<Stub>,
                    stubMap: map<(nat, nat, nat), nat>)
    returns (succs: seq<seq<nat>>)
    requires IsProblem(p) && IsTable(p, table) && StubTable(p, stubs, stubMap) && Complete(p, stubMap)
    requires forall d: nat, a: nat :: (d, a) in choices <==> IsChoice(p.game, p.k, d, a)
    ensures Sound(p, stubs, stubMap, succs)
    ensures forall s: State :: IsState(p, s) ==> StateLinked(p, stubMap, succs, s)
  {
    succs := seq(BaseCount(p) + |stubs|, _ => []);
    assert forall u: nat, x: nat :: !Edge(succs, u, x);
    for q := 0 to p.game.numStates
      invariant Sound(p, stubs, stubMap, succs)
      invariant forall s: State :: IsState(p, s) && s.q < q ==> StateLinked(p, stubMap, succs, s)
    {
      for rho := 0 to p.t1
        invariant Sound(p, stubs, stubMap, succs)
        invariant forall s: State :: IsState(p, s) && (s.q < q || (s.q == q && s.rho < rho)) ==>
                    StateLinked(p, stubMap, succs, s)
      {
        ghost var before := succs;
        if p.game.player[q] == 1 {
          succs := LinkSysState(p, table, choices, stubs, stubMap, State(q, rho), succs);
        } else {
          succs := LinkEnvState(p, table, stubs, stubMap, State(q, rho), succs);
        }
        forall s: State | IsState(p, s) && (s.q < q || (s.q == q && s.rho <= rho))
          ensures StateLinked(p, stubMap, succs, s) {
          if s != State(q, rho) {
            StateLinkedGrows(p, stubMap, before, succs, s);
          }
        }
      }
    }
  }

  // The product.

  ghost predicate StateFilled(p: Problem, player: seq<int>, priority: seq<int>, s: State)
    requires |player| == |priority|
  {
    Idx(p, s) < |player| && s.q < p.game.numStates && s.q < |p.game.player|
    && player[Idx(p, s)] == p.game.player[s.q] && priority[Idx(p, s)] == StateWeight(p.game, s.q)
  }

  function StubWeight(p: Problem, stub: Stub): int {
    if p.game.accKnown then stub.priority + 2 else stub.priority
  }

  /** The first `n` stubs belong to player 0 and carry their edge's priority. */
  ghost predicate StubsFilled(p: Problem, stubs: seq<Stub>, player: seq<int>, priority: seq<int>, n: nat)
    requires |player| == |priority| == BaseCount(p) + |stubs| && n <= |stubs|
  {
    forall u: nat :: BaseCount(p) <= u < BaseCount(p) + n ==>
          player[u] == 0 && priority[u] == StubWeight(p, stubs[u - BaseCount(p)])
  }

  /** Owners and priorities of the base states and the stubs. */
  method FillStates(p: Problem, stubs: seq<Stub>) returns (player: seq<int>, priority: seq<int>)
    requires IsProblem(p)
    ensures |player| == |priority| == BaseCount(p) + |stubs|
    ensures forall s: State :: IsState(p, s) ==> StateFilled(p, player, priority, s)
    ensures StubsFilled(p, stubs, player, priority, |stubs|)
    ensures forall u :: 0 <= u < |player| ==> player[u] == 0 || player[u] == 1
  {
    var n, base := BaseCount(p) + |stubs|, BaseCount(p);
    player, priority := seq(n, _ => 0), seq(n, _ => 0);
    for q := 0 to p.game.numStates
      invariant |player| == |priority| == n
      invariant forall u :: 0 <= u < n ==> player[u] == 0 || player[u] == 1
      invariant forall s: State :: IsState(p, s) && s.q < q ==> StateFilled(p, player, priority, s)
    {
      for rho := 0 to p.t1
        invariant |player| == |priority| == n
        invariant forall u :: 0 <= u < n ==> player[u] == 0 || player[u] == 1
        invariant forall s: State :: IsState(p, s) && (s.q < q || (s.q == q && s.rho < rho)) ==>
                    StateFilled(p, player, priority, s)
      {
        ghost var (player0, priority0) := (player, priority);
        var here := State(q, rho);
        IdxBound(p, here);
        player := player[Idx(p, here) := p.game.player[q]];
        priority := priority[Idx(p, here) := StateWeight(p.game, q)];
        forall s: State | IsState(p, s) && (s.q < q || (s.q == q && s.rho <= rho))
          ensures StateFilled(p, player, priority, s) {
          if s != here {
            assert StateFilled(p, player0, priority0, s);
            if Idx(p, s) == Idx(p, here) { IdxInjective(p, s, here); }
          }
        }
      }
    }
    for i := 0 to |stubs|
      invariant |player| == |priority| == n
      invariant forall u :: 0 <= u < n ==> player[u] == 0 || player[u] == 1
      invariant forall s: State :: IsState(p, s) ==> StateFilled(p, player, priority, s)
      invariant StubsFilled(p, stubs, player, priority, i)
    {
      ghost var (player0, priority0) := (player, priority);
      player := player[base + i := 0];
      priority := priority[base + i := StubWeight(p, stubs[i])];
      forall s: State | IsState(p, s) ensures StateFilled(p, player, priority, s) {
        assert StateFilled(p, player0, priority0, s);
        IdxBound(p, s);
      }
    }
  }

  /** `pg` is the product of the problem's game with its memory, with the given stubs. */
  ghost predicate IsProduct(p: Problem, initRho: nat, pg: ParityGame, stubs: seq<Stub>,
                            stubMap: map<(nat, nat, nat), nat>) {
    && StubTable(p, stubs, stubMap) && Complete(p, stubMap)
    && IsParityGame(pg) && pg.nStates == BaseCount(p) + |stubs| && pg.init == Idx(p, State(p.game.init, initRho))
    && Sound(p, stubs, stubMap, pg.succs)
    && (forall s: State :: IsState(p, s) ==> StateLinked(p, stubMap, pg.succs, s))
    && (forall s: State :: IsState(p, s) ==> StateFilled(p, pg.player, pg.priority, s))
    && StubsFilled(p, stubs, pg.player, pg.priority, |stubs|)
  }

  /** Every edge of a product leads to one of its states. */
  lemma SoundIsGraph(p: Problem, player: seq<int>, succs: seq<seq<nat>>, stubs: seq<Stub>,
                     stubMap: map<(nat, nat, nat), nat>)
    requires IsProblem(p) && StubTable(p, stubs, stubMap) && Sound(p, stubs, stubMap, succs)
    requires |player| == BaseCount(p) + |stubs| && forall u :: 0 <= u < |player| ==> player[u] == 0 || player[u] == 1
    ensures IsGraph(BaseCount(p) + |stubs|, player, succs)
  {
    forall u, k | 0 <= u < |succs| && 0 <= k < |succs[u]| ensures succs[u][k] < |succs| {
      var x := succs[u][k];
      assert Edge(succs, u, x);
      if u < BaseCount(p) {
        var s := IdxSurjective(p, u);
        assert Justified(p, stubMap, s, x);
        var m: Move :| Legal(p, s, m) && x == Node(p, stubMap, s, m);
        NodeBound(p, stubs, stubMap, s, m);
      } else {
        var i := u - BaseCount(p);
        assert StubOk(p, stubs, stubMap, i);
        StubTargetBound(p, stubs[i]);
      }
    }
  }

  lemma NodeBound(p: Problem, stubs: seq<Stub>, stubMap: map<(nat, nat, nat), nat>, s: State, m: Move)
    requires IsProblem(p) && StubTable(p, stubs, stubMap) && Legal(p, s, m)
    ensures Node(p, stubMap, s, m) < BaseCount(p) + |stubs|
  {
    if Coloured(p, s, m) && KeyOf(p, s, m) in stubMap {
      StubOfMove(p, stubs, stubMap, s, m);
    } else {
      TargetIsState(p, s, m);
      IdxBound(p, Target(p, s, m));
    }
  }

  lemma StubTargetBound(p: Problem, stub: Stub)
    requires IsProblem(p) && HasOrigin(p, stub)
    ensures StubTarget(p, stub) < BaseCount(p)
  {
    var s: State, m: Move :| ComesFrom(p, stub, s, m);
    TargetIsState(p, s, m);
    IdxBound(p, Target(p, s, m));
  }

  ghost predicate AllLabels(g: Game) {
    forall q, j :: 0 <= q < |g.trans| && 0 <= j < |g.trans[q]| ==> g.trans[q][j].guard.Some?
  }

  method ReadLabels(g: Game) returns (ok: bool)
    ensures ok <==> AllLabels(g)
  {
    for q := 0 to |g.trans|
      invariant forall r, j :: 0 <= r < q && 0 <= j < |g.trans[r]| ==> g.trans[r][j].guard.Some?
    {
      for j := 0 to |g.trans[q]|
        invariant forall i :: 0 <= i < j ==> g.trans[q][i].guard.Some?
      {
        if g.trans[q][j].guard.None? { return false; }
      }
    }
    return true;
  }

  /** Colours that are not priorities. */
  predicate Unsupported(g: Game) {
    g.multiColored || (!g.accKnown && g.nColors > 0)
  }

  const EMPTY_PRODUCT := ParityGame(0, 0, [], [], [])

  method BuildProductGame(p: Problem, initRho: nat)
    returns (r: Result<ParityGame>, ghost stubs: seq<Stub>, ghost stubMap: map<(nat, nat, nat), nat>)
    requires IsProblem(p) && initRho < p.t1
    ensures r == Err(TooManyAps) <==> |p.game.aps| > MAX_GAME_APS
    ensures r == Err(NotALabel) <==> |p.game.aps| <= MAX_GAME_APS && !AllLabels(p.game)
    ensures r.Ok? && Unsupported(p.game) ==> r.value == EMPTY_PRODUCT
    ensures r.Ok? && !Unsupported(p.game) ==> IsProduct(p, initRho, r.value, stubs, stubMap)
  {
    stubs, stubMap := [], map[];
    if |p.game.aps| > MAX_GAME_APS {
      r := Err(TooManyAps);
      return;
    }
    var labels := ReadLabels(p.game);
    if !labels {
      r := Err(NotALabel);
      return;
    }
    if Unsupported(p.game) {
      r := Ok(EMPTY_PRODUCT);
      return;
    }
    var table := FeasibilityTable(p);
    var choices, others := SysChoices(p.game, p.k);
    var stubList, stubTable := FirstScan(p, table, choices);
    var player, priority := FillStates(p, stubList);
    var succs := SecondScan(p, table, choices, stubList, stubTable);
    SoundIsGraph(p, player, succs, stubList, stubTable);
    r := Ok(ParityGame(BaseCount(p) + |stubList|, Idx(p, State(p.game.init, initRho)), player, priority, succs));
    stubs, stubMap := stubList, stubTable;
  }

  /** In a product every stub is entered from exactly one state and left to exactly one: the state and
      the target of the coloured move it stands for. */
  lemma StubsHaveOneWay(p: Problem, initRho: nat, pg: ParityGame, stubs: seq<Stub>, stubMap: map<(nat, nat, nat), nat>,
                        i: nat, id: nat)
    returns (s: State, m: Move)
    requires IsProblem(p) && IsProduct(p, initRho, pg, stubs, stubMap) && i < |stubs| && id == BaseCount(p) + i
    ensures ComesFrom(p, stubs[i], s, m)
    ensures forall u: nat :: Edge(pg.succs, u, id) <==> u == Idx(p, s)
    ensures pg.succs[id] == [Idx(p, Target(p, s, m))]
  {
    assert StubOk(p, stubs, stubMap, i);
    s, m :| ComesFrom(p, stubs[i], s, m);
    KeyOfStub(p, s, m);
    assert StateLinked(p, stubMap, pg.succs, s) && Linked(p, stubMap, pg.succs, s, m);
    assert Node(p, stubMap, s, m) == id;
    forall u: nat | Edge(pg.succs, u, id) ensures u == Idx(p, s) {
      OnlyOrigin(p, initRho, pg, stubs, stubMap, i, id, u, s);
    }
  }

  lemma OnlyOrigin(p: Problem, initRho: nat, pg: ParityGame, stubs: seq<Stub>, stubMap: map<(nat, nat, nat), nat>,
                   i: nat, id: nat, u: nat, s: State)
    requires IsProblem(p) && IsProduct(p, initRho, pg, stubs, stubMap) && i < |stubs| && id == BaseCount(p) + i
    requires stubs[i].q == s.q && stubs[i].rho == s.rho && Edge(pg.succs, u, id)
    ensures u == Idx(p, s)
  {
    if u < BaseCount(p) {
      var x := IdxSurjective(p, u);
      assert Justified(p, stubMap, x, id);
      var n: Move :| Legal(p, x, n) && id == Node(p, stubMap, x, n);
      if Coloured(p, x, n) && KeyOf(p, x, n) in stubMap {
        StubOfMove(p, stubs, stubMap, x, n);
      } else {
        TargetIsState(p, x, n);
        IdxBound(p, Target(p, x, n));
      }
    } else {
      assert StubOk(p, stubs, stubMap, u - BaseCount(p));
      StubTargetBound(p, stubs[u - BaseCount(p)]);
    }
  }
}
