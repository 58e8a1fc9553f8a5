/** The game over data that Algorithm D decides: a synthesis game played together with a memory of
    the 1-type of the previous output, under the feasibility of the enumerated 3-types. */
module DataGame {
  import opened Bits
  import opened SynthGame
  import opened StrategyGames
  import opened Recurrence

  /** The positions of the memory and of the new output in a 3-type. */
  datatype Type3 = Type3(posM: int, posY: int)

  datatype Problem = Problem(game: Game, t1: nat, t3: seq<Type3>, typeA: seq<int>, k: nat)

  ghost predicate IsProblem(p: Problem) {
    IsGame(p.game) && |p.typeA| == |p.t3|
  }

  /** From memory `rho` the data pattern `d` can be realised with an output of type `rp`. */
  ghost predicate Feasible(p: Problem, rho: nat, rp: nat, d: nat) {
    && rho < p.t1 && rp < p.t1 && d < Pow2(p.k)
    && exists t :: 0 <= t < |p.t3| && t < |p.typeA| && p.t3[t].posM == rho && p.t3[t].posY == rp && p.typeA[t] == d
  }

  datatype State = State(q: nat, rho: nat)

  /** The system picks a D-pattern, an assignment that carries it, an edge and the next memory; the
      environment picks an edge. */
  datatype Move = SysMove(d: nat, a: nat, j: nat, rp: nat) | EnvMove(j: nat)

  ghost predicate IsState(p: Problem, s: State) {
    s.q < p.game.numStates && s.rho < p.t1
  }

  ghost predicate Holds(p: Problem, q: nat, j: nat, a: nat)
    requires q < |p.game.trans| && j < |p.game.trans[q]|
  {
    p.game.trans[q][j].guard.Some? && Eval(p.game.trans[q][j].guard.value, |p.game.aps|, a)
  }

  /** Some assignment satisfies the edge's guard and carries data feasible from `rho`. */
  ghost predicate EnvEdge(p: Problem, rho: nat, q: nat, j: nat)
    requires q < |p.game.trans| && j < |p.game.trans[q]|
  {
    exists a: nat, rp: nat {:trigger Holds(p, q, j, a), Feasible(p, rho, rp, DPattern(p.game, p.k, a))} ::
      a < Pow2(|p.game.aps|) && Holds(p, q, j, a) && Feasible(p, rho, rp, DPattern(p.game, p.k, a))
  }

  ghost function Owner(p: Problem, s: State): int {
    if s.q < |p.game.player| && p.game.player[s.q] == 1 then 1 else 0
  }

  ghost predicate Legal(p: Problem, s: State, m: Move) {
    && IsState(p, s) && s.q < |p.game.trans| && m.j < |p.game.trans[s.q]|
    && match m
       case SysMove(d, a, j, rp) =>
         Owner(p, s) == 1 && IsChoice(p.game, p.k, d, a) && Holds(p, s.q, j, a) && Feasible(p, s.rho, rp, d)
       case EnvMove(j) =>
         Owner(p, s) == 0 && EnvEdge(p, s.rho, s.q, j)
  }

  function NextRho(s: State, m: Move): nat {
    match m case SysMove(_, _, _, rp) => rp case EnvMove(_) => s.rho
  }

  function Target(p: Problem, s: State, m: Move): State {
    if s.q < |p.game.trans| && m.j < |p.game.trans[s.q]|
    then State(p.game.trans[s.q][m.j].next, NextRho(s, m)) else s
  }

  lemma TargetIsState(p: Problem, s: State, m: Move)
    requires IsProblem(p) && Legal(p, s, m)
    ensures IsState(p, Target(p, s, m))
  {
  }

  // The weights the product builder gives to states and edges.

  function StateWeight(g: Game, q: nat): int {
    if q >= |g.statePriority| || q >= |g.stateColor| then 0
    else if !g.accKnown then g.statePriority[q]
    else if g.stateColor[q] < 0 then (if g.accAcceptsUncolored then 1 else 0)
    else g.statePriority[q] + 2
  }

  /** -1 for an edge without a priority. */
  function EdgeWeight(g: Game, q: nat, j: nat): int {
    if q >= |g.edgePriority| || j >= |g.edgePriority[q]| || g.edgePriority[q][j] < 0 then -1
    else if g.accKnown then g.edgePriority[q][j] + 2
    else g.edgePriority[q][j]
  }

  ghost predicate WeightsNonNegative(g: Game) {
    forall q: nat :: q < g.numStates ==> StateWeight(g, q) >= 0
  }

  /** The moves of the data game, won by `won`. */
  ghost function DataArena(p: Problem, won: (int, State, nat -> Move) -> bool): Arena<State, Move> {
    Arena((s: State) => Owner(p, s), (s: State, m: Move) => Legal(p, s, m), (s: State, m: Move) => Target(p, s, m), won)
  }

  /** The state of the play `mv` from `s` before its t-th move. */
  ghost function StateAt(p: Problem, s: State, mv: nat -> Move, t: nat): State {
    if t == 0 then s else Target(p, StateAt(p, s, mv, t - 1), mv(t - 1))
  }

  ghost function StateWeights(p: Problem, s: State, mv: nat -> Move): nat -> int {
    (t: nat) => StateWeight(p.game, StateAt(p, s, mv, t).q)
  }

  ghost function EdgeWeights(p: Problem, s: State, mv: nat -> Move): nat -> int {
    (t: nat) => EdgeWeight(p.game, StateAt(p, s, mv, t).q, mv(t).j)
  }

  /** The data game whose winner is read off the weights of states and edges: the parity of the
      greatest one that recurs. */
  ghost function WeightArena(p: Problem): Arena<State, Move> {
    DataArena(p, (i: int, s: State, mv: nat -> Move) => PairParity(StateWeights(p, s, mv), EdgeWeights(p, s, mv), i))
  }
}
