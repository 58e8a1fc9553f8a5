/** Zielonka's recursion on a parity game without dead ends: the solver, and positional winning
    strategies for both players on the regions it returns. */
module Zielonka {
  import opened Recurrence
  import opened Attractors

  // Plays and regions.

  function PriorityAt(pri: seq<int>, v: nat): int {
    if v < |pri| then pri[v] else 0
  }

  function Prios(pri: seq<int>, play: nat -> nat): nat -> int {
    (i: nat) => PriorityAt(pri, play(i))
  }

  function Tail(play: nat -> nat, k: nat): nat -> nat {
    (i: nat) => play(i + k)
  }

  lemma TailParity(pri: seq<int>, play: nat -> nat, k: nat, p: int)
    ensures ParityOf(Prios(pri, Tail(play, k)), p) <==> ParityOf(Prios(pri, play), p)
  {
    SuffixParity(Prios(pri, play), k, p);
    SameParity(Prios(pri, Tail(play, k)), Drop(Prios(pri, play), k), p);
  }

  /** A move from `u` in `w` to `x`, the one of `sigma` if `u` belongs to player `p`. */
  ghost predicate Step(plr: seq<int>, succs: seq<seq<nat>>, w: set<nat>, p: int, sigma: map<nat, nat>, u: nat, x: nat) {
    u in w && Edge(succs, u, x) && (u < |plr| && plr[u] == p ==> u in sigma && x == sigma[u])
  }

  ghost predicate StepAt(plr: seq<int>, succs: seq<seq<nat>>, w: set<nat>, p: int, sigma: map<nat, nat>,
                         play: nat -> nat, i: nat) {
    Step(plr, succs, w, p, sigma, play(i), play(i + 1))
  }

  /** An infinite play inside `w` in which player `p` follows `sigma`. */
  ghost predicate Follows(plr: seq<int>, succs: seq<seq<nat>>, w: set<nat>, p: int, sigma: map<nat, nat>,
                          play: nat -> nat) {
    forall i: nat :: StepAt(plr, succs, w, p, sigma, play, i)
  }

  ghost predicate StaysIn(plr: seq<int>, succs: seq<seq<nat>>, v: set<nat>, p: int, w: set<nat>, sigma: map<nat, nat>) {
    && w <= v
    && (forall u :: u in w ==> u < |plr|)
    && (forall u :: u in w && plr[u] == p ==> u in sigma && sigma[u] in w && Edge(succs, u, sigma[u]))
    && (forall u, x {:trigger Edge(succs, u, x)} :: u in w && plr[u] != p && x in v && Edge(succs, u, x) ==> x in w)
  }

  /** Player `p` wins the subgame `v` from every state of `w`: `sigma` keeps every play in `w`
      against every move of the opponent inside `v`, and every infinite play has p's parity. */
  ghost predicate Region(plr: seq<int>, pri: seq<int>, succs: seq<seq<nat>>, v: set<nat>, p: int, w: set<nat>,
                         sigma: map<nat, nat>) {
    && StaysIn(plr, succs, v, p, w, sigma)
    && forall play: nat -> nat :: Follows(plr, succs, w, p, sigma, play) ==> ParityOf(Prios(pri, play), p)
  }

  /** A play that follows a winning region's strategy from some step on is won. */
  lemma WonFrom(plr: seq<int>, pri: seq<int>, succs: seq<seq<nat>>, v: set<nat>, p: int, w: set<nat>,
                sigma: map<nat, nat>, play: nat -> nat, k: nat)
    requires Region(plr, pri, succs, v, p, w, sigma)
    requires forall i: nat :: k <= i ==> StepAt(plr, succs, w, p, sigma, play, i)
    ensures ParityOf(Prios(pri, play), p)
  {
    var rest := Tail(play, k);
    forall i: nat ensures StepAt(plr, succs, w, p, sigma, rest, i) {
      assert StepAt(plr, succs, w, p, sigma, play, i + k);
    }
    assert Follows(plr, succs, w, p, sigma, rest);
    TailParity(pri, play, k, p);
  }

  ghost predicate CanMove(succs: seq<seq<nat>>, v: set<nat>, u: nat) {
    exists x :: x in v && Edge(succs, u, x)
  }

  ghost predicate DeadEndFree(succs: seq<seq<nat>>, v: set<nat>) {
    forall u {:trigger CanMove(succs, v, u)} :: u in v ==> CanMove(succs, v, u)
  }

  ghost predicate NonNegativeOn(pri: seq<int>, v: set<nat>) {
    forall u :: u in v ==> PriorityAt(pri, u) >= 0
  }

  /** `v` is split into the region `wp` that `p` wins by `sp` and the region `wo` the opponent `o` wins by `so`. */
  ghost predicate SplitFor(plr: seq<int>, pri: seq<int>, succs: seq<seq<nat>>, v: set<nat>,
                           p: int, wp: set<nat>, sp: map<nat, nat>, o: int, wo: set<nat>, so: map<nat, nat>) {
    && wp + wo == v && wp !! wo
    && Region(plr, pri, succs, v, p, wp, sp)
    && Region(plr, pri, succs, v, o, wo, so)
  }

  ghost predicate Solved(plr: seq<int>, pri: seq<int>, succs: seq<seq<nat>>, v: set<nat>,
                         w0: set<nat>, w1: set<nat>, s0: map<nat, nat>, s1: map<nat, nat>) {
    SplitFor(plr, pri, succs, v, 0, w0, s0, 1, w1, s1)
  }

  // The subgame.

  /** `g` has exactly the edges between states of `v`. */
  ghost predicate IsSubgame(succs: seq<seq<nat>>, v: set<nat>, g: seq<seq<nat>>) {
    && |g| == |succs|
    && forall u, x {:trigger Edge(g, u, x)} :: Edge(g, u, x) <==> Edge(succs, u, x) && u in v && x in v
  }

  method FilterTo(s: seq<nat>, v: set<nat>) returns (r: seq<nat>)
    ensures forall x :: x in r <==> x in s && x in v
  {
    r := [];
    for k := 0 to |s|
      invariant forall x :: x in r <==> x in s[..k] && x in v
    {
      if s[k] in v { r := r + [s[k]]; }
    }
  }

  /** The subgame on `v`. */
  method RestrictTo(n: nat, succs: seq<seq<nat>>, v: set<nat>) returns (g: seq<seq<nat>>)
    requires |succs| == n
    ensures IsSubgame(succs, v, g)
  {
    g := seq(n, _ => []);
    for u := 0 to n
      invariant |g| == n
      invariant forall y: nat, x: nat {:trigger Edge(g, y, x)} :: y < u ==>
                  (Edge(g, y, x) <==> Edge(succs, y, x) && y in v && x in v)
      invariant forall y: nat :: u <= y < n ==> g[y] == []
    {
      ghost var before := g;
      if u in v {
        var kept := FilterTo(succs[u], v);
        g := g[u := kept];
      }
      forall y: nat, x: nat | y < u + 1 ensures Edge(g, y, x) <==> Edge(succs, y, x) && y in v && x in v {
        assert y < u ==> (Edge(before, y, x) <==> Edge(succs, y, x) && y in v && x in v);
      }
    }
  }

  lemma SubgameIsGraph(n: nat, plr: seq<int>, succs: seq<seq<nat>>, v: set<nat>, g: seq<seq<nat>>)
    requires IsGraph(n, plr, succs) && IsSubgame(succs, v, g)
    ensures IsGraph(n, plr, g)
  {
    forall u, k | 0 <= u < n && 0 <= k < |g[u]| ensures g[u][k] < n {
      assert Edge(g, u, g[u][k]);
    }
  }

  /** Removing an attractor takes away nobody's last move: a state left behind that could move in
      the subgame still can. */
  lemma MovesSurvive(p: int, n: nat, plr: seq<int>, succs: seq<seq<nat>>, v: set<nat>, g: seq<seq<nat>>, t: set<nat>,
                     a: set<nat>, u: nat)
    requires IsGraph(n, plr, succs) && IsSubgame(succs, v, g) && Within(n, v)
    requires IsAttractor(p, plr, g, t, a)
    requires u in v - a && CanMove(succs, v, u)
    ensures CanMove(succs, v - a, u)
  {
    var x :| x in v && Edge(succs, u, x);
    assert Edge(g, u, x);
    assert !Pulled(p, plr, g, a, u);
    if x in a {
      var y :| y in g[u] && y !in a;
      assert Edge(g, u, y);
    }
  }

  lemma ResidualDeadEndFree(p: int, n: nat, plr: seq<int>, succs: seq<seq<nat>>, v: set<nat>, g: seq<seq<nat>>,
                            t: set<nat>, a: set<nat>)
    requires IsGraph(n, plr, succs) && IsSubgame(succs, v, g) && Within(n, v) && DeadEndFree(succs, v)
    requires IsAttractor(p, plr, g, t, a)
    ensures DeadEndFree(succs, v - a)
  {
    forall u | u in v - a ensures CanMove(succs, v - a, u) {
      assert CanMove(succs, v, u);
      MovesSurvive(p, n, plr, succs, v, g, t, a, u);
    }
  }

  /** A state outside p's attractor leaves p no move into it. */
  lemma NoMoveInto(p: int, n: nat, plr: seq<int>, succs: seq<seq<nat>>, v: set<nat>, g: seq<seq<nat>>, t: set<nat>,
                   a: set<nat>, u: nat, x: nat)
    requires IsGraph(n, plr, succs) && IsSubgame(succs, v, g) && Within(n, v)
    requires IsAttractor(p, plr, g, t, a)
    requires u in v - a && plr[u] == p && x in v && Edge(succs, u, x)
    ensures x !in a
  {
    assert Edge(g, u, x);
    assert !Pulled(p, plr, g, a, u);
  }

  // The attractor strategy.

  ghost function Down(plr: seq<int>, g: seq<seq<nat>>, p: int, a: set<nat>, rank: map<nat, nat>, u: nat): (x: nat)
    requires u < |plr| && u < |g| && u in rank && rank.Keys == a
    requires RankedAt(p, plr, g, a, rank, u) && plr[u] == p
    ensures x in g[u] && x in a && rank[x] < rank[u]
  {
    var x :| x in g[u] && x in a && rank[x] < rank[u];
    x
  }

  /** Every step of the play from a state of `a` outside `t` goes down in rank. */
  ghost predicate Descends(t: set<nat>, a: set<nat>, rank: map<nat, nat>, play: nat -> nat, from: nat)
    requires rank.Keys == a
  {
    forall i: nat :: from <= i ==> GoesDown(t, a, rank, play, i)
  }

  ghost predicate GoesDown(t: set<nat>, a: set<nat>, rank: map<nat, nat>, play: nat -> nat, i: nat)
    requires rank.Keys == a
  {
    play(i) in a && play(i) !in t ==> play(i + 1) in a && rank[play(i + 1)] < rank[play(i)]
  }

  lemma {:induction false} DescendsReaches(t: set<nat>, a: set<nat>, rank: map<nat, nat>, play: nat -> nat, i: nat)
    returns (j: nat)
    requires rank.Keys == a && Descends(t, a, rank, play, i)
    requires play(i) in a
    ensures i <= j && play(j) in t
    decreases rank[play(i)]
  {
    if play(i) in t {
      j := i;
    } else {
      assert GoesDown(t, a, rank, play, i);
      j := DescendsReaches(t, a, rank, play, i + 1);
    }
  }

  // The strategy of the player who wins the whole subgame.

  ghost function AnySucc(succs: seq<seq<nat>>, v: set<nat>, u: nat): (x: nat)
    requires u in v && DeadEndFree(succs, v)
    ensures x in v && Edge(succs, u, x)
  {
    assert CanMove(succs, v, u);
    var x :| x in v && Edge(succs, u, x);
    x
  }

  /** Outside the attractor of the top states play as in the subgame, in it move towards the top
      states, and from a top state move anywhere. */
  ghost function TopStrategy(b: int, plr: seq<int>, succs: seq<seq<nat>>, v: set<nat>, g: seq<seq<nat>>, t: set<nat>,
                             a: set<nat>, rank: map<nat, nat>, sub: map<nat, nat>): map<nat, nat>
    requires |plr| == |succs| == |g| && Ranked(b, plr, g, t, a, rank) && DeadEndFree(succs, v)
    requires forall u :: u in v ==> u < |plr|
    requires forall u :: u in v && u !in a && plr[u] == b ==> u in sub
  {
    map u | u in v && plr[u] == b ::
      if u !in a then sub[u]
      else if u in t then AnySucc(succs, v, u)
      else Down(plr, g, b, a, rank, u)
  }

  lemma TopStays(b: int, n: nat, plr: seq<int>, succs: seq<seq<nat>>, v: set<nat>, g: seq<seq<nat>>, t: set<nat>,
                 a: set<nat>, rank: map<nat, nat>, sub: map<nat, nat>)
    requires IsGraph(n, plr, succs) && IsSubgame(succs, v, g) && Within(n, v) && DeadEndFree(succs, v)
    requires Ranked(b, plr, g, t, a, rank)
    requires StaysIn(plr, succs, v - a, b, v - a, sub)
    ensures StaysIn(plr, succs, v, b, v, TopStrategy(b, plr, succs, v, g, t, a, rank, sub))
  {
    var sigma := TopStrategy(b, plr, succs, v, g, t, a, rank, sub);
    forall u | u in v && plr[u] == b ensures u in sigma && sigma[u] in v && Edge(succs, u, sigma[u]) {
      if u in a && u !in t {
        assert RankedAt(b, plr, g, a, rank, u);
        assert Edge(g, u, sigma[u]);
      }
    }
  }

  lemma TopDescends(b: int, n: nat, plr: seq<int>, succs: seq<seq<nat>>, v: set<nat>, g: seq<seq<nat>>, t: set<nat>,
                    a: set<nat>, rank: map<nat, nat>, sub: map<nat, nat>, play: nat -> nat)
    requires IsGraph(n, plr, succs) && IsSubgame(succs, v, g) && Within(n, v) && DeadEndFree(succs, v)
    requires Ranked(b, plr, g, t, a, rank)
    requires StaysIn(plr, succs, v - a, b, v - a, sub)
    requires Follows(plr, succs, v, b, TopStrategy(b, plr, succs, v, g, t, a, rank, sub), play)
    ensures Descends(t, a, rank, play, 0)
  {
    var sigma := TopStrategy(b, plr, succs, v, g, t, a, rank, sub);
    forall i: nat ensures GoesDown(t, a, rank, play, i) {
      var u, x := play(i), play(i + 1);
      assert StepAt(plr, succs, v, b, sigma, play, i) && StepAt(plr, succs, v, b, sigma, play, i + 1);
      if u in a && u !in t {
        assert RankedAt(b, plr, g, a, rank, u);
        assert Edge(g, u, x);
      }
    }
  }

  ghost predicate VisitsFrom(s: set<nat>, play: nat -> nat, n: nat) {
    exists i: nat :: n <= i && play(i) in s
  }

  /** A play that sees the greatest priority again and again is won by its beneficiary. */
  lemma TopRecurs(c: int, pri: seq<int>, v: set<nat>, t: set<nat>, play: nat -> nat)
    requires forall u :: u in v ==> PriorityAt(pri, u) <= c
    requires forall u :: u in t ==> PriorityAt(pri, u) == c
    requires forall i: nat :: play(i) in v
    requires forall k: nat :: VisitsFrom(t, play, k)
    ensures ParityOf(Prios(pri, play), c % 2)
  {
    var w := Prios(pri, play);
    forall k: nat ensures HitsFrom(w, c, k) {
      assert VisitsFrom(t, play, k);
      var i: nat :| k <= i && play(i) in t;
      assert w(i) == c;
    }
    assert BoundedFrom(w, c, 0);
    assert Dominates(w, c);
  }

  /** A play that stops seeing the top states ends up in the first subgame. */
  lemma TopFades(b: int, n: nat, plr: seq<int>, pri: seq<int>, succs: seq<seq<nat>>, v: set<nat>, g: seq<seq<nat>>,
                 t: set<nat>, a: set<nat>, rank: map<nat, nat>, sub: map<nat, nat>, play: nat -> nat, k: nat)
    requires IsGraph(n, plr, succs) && IsSubgame(succs, v, g) && Within(n, v) && DeadEndFree(succs, v)
    requires Ranked(b, plr, g, t, a, rank)
    requires Region(plr, pri, succs, v - a, b, v - a, sub)
    requires Follows(plr, succs, v, b, TopStrategy(b, plr, succs, v, g, t, a, rank, sub), play)
    requires !VisitsFrom(t, play, k)
    ensures ParityOf(Prios(pri, play), b)
  {
    var sigma := TopStrategy(b, plr, succs, v, g, t, a, rank, sub);
    TopDescends(b, n, plr, succs, v, g, t, a, rank, sub, play);
    forall i: nat | k <= i ensures play(i) !in a {
      if play(i) in a {
        var j := DescendsReaches(t, a, rank, play, i);
        assert false;
      }
    }
    forall i: nat | k <= i ensures StepAt(plr, succs, v - a, b, sub, play, i) {
      assert StepAt(plr, succs, v, b, sigma, play, i) && StepAt(plr, succs, v, b, sigma, play, i + 1);
    }
    WonFrom(plr, pri, succs, v - a, b, v - a, sub, play, k);
  }

  /** If the beneficiary of the greatest priority wins all of the subgame without the attractor of
      the top states, it wins everywhere. */
  lemma BeneficiaryWinsAll(b: int, c: int, n: nat, plr: seq<int>, pri: seq<int>, succs: seq<seq<nat>>, v: set<nat>,
                           g: seq<seq<nat>>, t: set<nat>, a: set<nat>, rank: map<nat, nat>, sub: map<nat, nat>)
    requires IsGraph(n, plr, succs) && IsSubgame(succs, v, g) && Within(n, v) && DeadEndFree(succs, v)
    requires forall u :: u in v ==> PriorityAt(pri, u) <= c
    requires forall u :: u in t ==> PriorityAt(pri, u) == c
    requires b == c % 2 && Ranked(b, plr, g, t, a, rank)
    requires Region(plr, pri, succs, v - a, b, v - a, sub)
    ensures Region(plr, pri, succs, v, b, v, TopStrategy(b, plr, succs, v, g, t, a, rank, sub))
  {
    var sigma := TopStrategy(b, plr, succs, v, g, t, a, rank, sub);
    TopStays(b, n, plr, succs, v, g, t, a, rank, sub);
    forall play: nat -> nat | Follows(plr, succs, v, b, sigma, play) ensures ParityOf(Prios(pri, play), b) {
      if forall k: nat :: VisitsFrom(t, play, k) {
        forall i: nat ensures play(i) in v {
          assert StepAt(plr, succs, v, b, sigma, play, i);
        }
        TopRecurs(c, pri, v, t, play);
      } else {
        var k: nat :| !VisitsFrom(t, play, k);
        TopFades(b, n, plr, pri, succs, v, g, t, a, rank, sub, play, k);
      }
    }
  }

  // The strategies of the two players when the opponent keeps part of the subgame.

  /** In its attracted part the opponent moves towards the region it won in the first subgame, where
      it plays as there; elsewhere it plays as in the second subgame. */
  ghost function OpponentStrategy(l: int, plr: seq<int>, g: seq<seq<nat>>, wl: set<nat>, y: set<nat>,
                                  rank: map<nat, nat>, first: map<nat, nat>, l3: set<nat>,
                                  second: map<nat, nat>): map<nat, nat>
    requires |plr| == |g| && Ranked(l, plr, g, wl, y, rank)
    requires forall u :: u in y + l3 ==> u < |plr|
    requires wl <= y && (forall u :: u in wl ==> u < |plr|) && (forall u :: u in l3 ==> u < |plr|)
    requires forall u :: u in wl && plr[u] == l ==> u in first
    requires forall u :: u in l3 && plr[u] == l ==> u in second
  {
    map u | u in y + l3 && plr[u] == l ::
      if u in wl then first[u] else if u in y then Down(plr, g, l, y, rank, u) else second[u]
  }

  /** The situation after both recursive calls. */
  ghost predicate TwoCalls(l: int, b: int, n: nat, plr: seq<int>, pri: seq<int>, succs: seq<seq<nat>>, v: set<nat>,
                           g: seq<seq<nat>>, t: set<nat>, x: set<nat>, wl: set<nat>, y: set<nat>, rank: map<nat, nat>,
                           first: map<nat, nat>, l3: set<nat>, second: map<nat, nat>)
  {
    && IsGraph(n, plr, succs) && IsSubgame(succs, v, g) && Within(n, v) && (l == 0 || l == 1) && b == 1 - l
    && IsAttractor(b, plr, g, t, x)
    && Region(plr, pri, succs, v - x, l, wl, first)
    && IsAttractor(l, plr, g, wl, y) && y <= v
    && Ranked(l, plr, g, wl, y, rank)
    && Region(plr, pri, succs, v - y, l, l3, second)
  }

  lemma OpponentStays(l: int, b: int, n: nat, plr: seq<int>, pri: seq<int>, succs: seq<seq<nat>>, v: set<nat>,
                      g: seq<seq<nat>>, t: set<nat>, x: set<nat>, wl: set<nat>, y: set<nat>, rank: map<nat, nat>,
                      first: map<nat, nat>, l3: set<nat>, second: map<nat, nat>)
    requires TwoCalls(l, b, n, plr, pri, succs, v, g, t, x, wl, y, rank, first, l3, second)
    ensures StaysIn(plr, succs, v, l, y + l3, OpponentStrategy(l, plr, g, wl, y, rank, first, l3, second))
    ensures StaysIn(plr, succs, v, l, wl, first)
  {
    var sigma := OpponentStrategy(l, plr, g, wl, y, rank, first, l3, second);
    forall u, z | u in wl && plr[u] != l && z in v && Edge(succs, u, z) ensures z in wl {
      NoMoveInto(b, n, plr, succs, v, g, t, x, u, z);
    }
    forall u | u in y + l3 && plr[u] == l ensures u in sigma && sigma[u] in y + l3 && Edge(succs, u, sigma[u]) {
      if u in y && u !in wl {
        assert RankedAt(l, plr, g, y, rank, u);
        assert Edge(g, u, sigma[u]);
      }
    }
    forall u, z | u in y + l3 && plr[u] != l && z in v && Edge(succs, u, z) ensures z in y + l3 {
      assert Edge(g, u, z);
      if u in y && u !in wl {
        assert RankedAt(l, plr, g, y, rank, u);
      }
    }
  }

  /** A play in `v` that keeps to `sigma` while it is in `w`. */
  ghost predicate KeepsTo(plr: seq<int>, succs: seq<seq<nat>>, v: set<nat>, p: int, w: set<nat>, sigma: map<nat, nat>,
                          play: nat -> nat) {
    forall i: nat :: KeepsToAt(plr, succs, v, p, w, sigma, play, i)
  }

  ghost predicate KeepsToAt(plr: seq<int>, succs: seq<seq<nat>>, v: set<nat>, p: int, w: set<nat>,
                            sigma: map<nat, nat>, play: nat -> nat, i: nat) {
    play(i + 1) in v && (play(i) in w ==> StepAt(plr, succs, w, p, sigma, play, i))
  }

  /** A play that enters a region closed under its moves stays there. */
  lemma {:induction false} Trapped(plr: seq<int>, succs: seq<seq<nat>>, v: set<nat>, p: int, w: set<nat>,
                                   sigma: map<nat, nat>, play: nat -> nat, j: nat, i: nat)
    requires StaysIn(plr, succs, v, p, w, sigma) && KeepsTo(plr, succs, v, p, w, sigma, play)
    requires play(j) in w && j <= i
    ensures play(i) in w
    decreases i - j
  {
    if j < i {
      Trapped(plr, succs, v, p, w, sigma, play, j, i - 1);
      assert KeepsToAt(plr, succs, v, p, w, sigma, play, i - 1);
    }
  }

  lemma WonOnceEntered(plr: seq<int>, pri: seq<int>, succs: seq<seq<nat>>, v: set<nat>, inner: set<nat>, p: int,
                       w: set<nat>, sigma: map<nat, nat>, play: nat -> nat, j: nat)
    requires StaysIn(plr, succs, v, p, w, sigma) && Region(plr, pri, succs, inner, p, w, sigma)
    requires KeepsTo(plr, succs, v, p, w, sigma, play) && play(j) in w
    ensures ParityOf(Prios(pri, play), p)
  {
    forall i: nat | j <= i ensures StepAt(plr, succs, w, p, sigma, play, i) {
      Trapped(plr, succs, v, p, w, sigma, play, j, i);
      assert KeepsToAt(plr, succs, v, p, w, sigma, play, i);
    }
    WonFrom(plr, pri, succs, inner, p, w, sigma, play, j);
  }

  lemma OpponentRegion(l: int, b: int, n: nat, plr: seq<int>, pri: seq<int>, succs: seq<seq<nat>>, v: set<nat>,
                       g: seq<seq<nat>>, t: set<nat>, x: set<nat>, wl: set<nat>, y: set<nat>, rank: map<nat, nat>,
                       first: map<nat, nat>, l3: set<nat>, second: map<nat, nat>)
    requires TwoCalls(l, b, n, plr, pri, succs, v, g, t, x, wl, y, rank, first, l3, second)
    ensures Region(plr, pri, succs, v, l, y + l3, OpponentStrategy(l, plr, g, wl, y, rank, first, l3, second))
  {
    OpponentStays(l, b, n, plr, pri, succs, v, g, t, x, wl, y, rank, first, l3, second);
    var sigma := OpponentStrategy(l, plr, g, wl, y, rank, first, l3, second);
    forall play: nat -> nat | Follows(plr, succs, y + l3, l, sigma, play) ensures ParityOf(Prios(pri, play), l) {
      if VisitsFrom(y, play, 0) {
        OpponentEntersY(l, b, n, plr, pri, succs, v, g, t, x, wl, y, rank, first, l3, second, play);
      } else {
        forall i: nat ensures StepAt(plr, succs, l3, l, second, play, i) {
          assert StepAt(plr, succs, y + l3, l, sigma, play, i);
        }
        assert Follows(plr, succs, l3, l, second, play);
      }
    }
  }

  lemma OpponentDescends(l: int, b: int, n: nat, plr: seq<int>, pri: seq<int>, succs: seq<seq<nat>>, v: set<nat>,
                         g: seq<seq<nat>>, t: set<nat>, x: set<nat>, wl: set<nat>, y: set<nat>, rank: map<nat, nat>,
                         first: map<nat, nat>, l3: set<nat>, second: map<nat, nat>, play: nat -> nat)
    requires TwoCalls(l, b, n, plr, pri, succs, v, g, t, x, wl, y, rank, first, l3, second)
    requires Follows(plr, succs, y + l3, l, OpponentStrategy(l, plr, g, wl, y, rank, first, l3, second), play)
    ensures Descends(wl, y, rank, play, 0)
  {
    var sigma := OpponentStrategy(l, plr, g, wl, y, rank, first, l3, second);
    forall i: nat ensures GoesDown(wl, y, rank, play, i) {
      var u, z := play(i), play(i + 1);
      assert StepAt(plr, succs, y + l3, l, sigma, play, i) && StepAt(plr, succs, y + l3, l, sigma, play, i + 1);
      if u in y && u !in wl {
        assert RankedAt(l, plr, g, y, rank, u);
        assert Edge(g, u, z);
      }
    }
  }

  lemma OpponentEntersY(l: int, b: int, n: nat, plr: seq<int>, pri: seq<int>, succs: seq<seq<nat>>, v: set<nat>,
                        g: seq<seq<nat>>, t: set<nat>, x: set<nat>, wl: set<nat>, y: set<nat>, rank: map<nat, nat>,
                        first: map<nat, nat>, l3: set<nat>, second: map<nat, nat>, play: nat -> nat)
    requires TwoCalls(l, b, n, plr, pri, succs, v, g, t, x, wl, y, rank, first, l3, second)
    requires Follows(plr, succs, y + l3, l, OpponentStrategy(l, plr, g, wl, y, rank, first, l3, second), play)
    requires VisitsFrom(y, play, 0)
    ensures ParityOf(Prios(pri, play), l)
  {
    var sigma := OpponentStrategy(l, plr, g, wl, y, rank, first, l3, second);
    OpponentStays(l, b, n, plr, pri, succs, v, g, t, x, wl, y, rank, first, l3, second);
    OpponentDescends(l, b, n, plr, pri, succs, v, g, t, x, wl, y, rank, first, l3, second, play);
    var i: nat :| play(i) in y;
    var j := DescendsReaches(wl, y, rank, play, i);
    forall k: nat ensures KeepsToAt(plr, succs, v, l, wl, first, play, k) {
      assert StepAt(plr, succs, y + l3, l, sigma, play, k) && StepAt(plr, succs, y + l3, l, sigma, play, k + 1);
    }
    assert KeepsTo(plr, succs, v, l, wl, first, play);
    WonOnceEntered(plr, pri, succs, v, v - x, l, wl, first, play, j);
  }

  /** The beneficiary keeps its share of the second subgame. */
  lemma BeneficiaryKeeps(l: int, b: int, n: nat, plr: seq<int>, pri: seq<int>, succs: seq<seq<nat>>, v: set<nat>,
                         g: seq<seq<nat>>, t: set<nat>, y: set<nat>, b3: set<nat>, sigma: map<nat, nat>)
    requires IsGraph(n, plr, succs) && IsSubgame(succs, v, g) && Within(n, v) && (l == 0 || l == 1) && b == 1 - l
    requires IsAttractor(l, plr, g, t, y)
    requires Region(plr, pri, succs, v - y, b, b3, sigma)
    ensures Region(plr, pri, succs, v, b, b3, sigma)
  {
    forall u, z | u in b3 && plr[u] != b && z in v && Edge(succs, u, z) ensures z in b3 {
      NoMoveInto(l, n, plr, succs, v, g, t, y, u, z);
    }
  }

  // The solver.

  method GreatestPriority(pri: seq<int>, v: set<nat>, n: nat) returns (c: int)
    requires |pri| == n && Within(n, v)
    ensures c >= -1 && forall u :: u in v ==> pri[u] <= c
    ensures c >= 0 ==> exists u :: u in v && pri[u] == c
  {
    c := -1;
    for u := 0 to n
      invariant c >= -1 && forall x :: x in v && x < u ==> pri[x] <= c
      invariant c >= 0 ==> exists x :: x in v && pri[x] == c
    {
      if u in v && pri[u] > c { c := pri[u]; }
    }
  }

  lemma EmptyRegion(plr: seq<int>, pri: seq<int>, succs: seq<seq<nat>>, v: set<nat>, p: int, w: set<nat>,
                    sigma: map<nat, nat>)
    requires w == {}
    ensures Region(plr, pri, succs, v, p, w, sigma)
  {
    forall play: nat -> nat ensures !Follows(plr, succs, w, p, sigma, play) {
      assert !StepAt(plr, succs, w, p, sigma, play, 0);
    }
  }

  /** The opponent won nothing in the first subgame. */
  lemma AllWon(b: int, o: int, c: int, n: nat, plr: seq<int>, pri: seq<int>, succs: seq<seq<nat>>, v: set<nat>,
               g: seq<seq<nat>>, t: set<nat>, x: set<nat>, rank: map<nat, nat>, wb: set<nat>, sb: map<nat, nat>,
               wo: set<nat>, so: map<nat, nat>)
    returns (sigma: map<nat, nat>)
    requires IsGraph(n, plr, succs) && IsSubgame(succs, v, g) && Within(n, v) && DeadEndFree(succs, v)
    requires forall u :: u in v ==> PriorityAt(pri, u) <= c
    requires forall u :: u in t ==> PriorityAt(pri, u) == c
    requires b == c % 2 && Ranked(b, plr, g, t, x, rank)
    requires SplitFor(plr, pri, succs, v - x, b, wb, sb, o, wo, so) && wo == {}
    ensures SplitFor(plr, pri, succs, v, b, v, sigma, o, wo, so)
  {
    assert wb == v - x;
    sigma := TopStrategy(b, plr, succs, v, g, t, x, rank, sb);
    BeneficiaryWinsAll(b, c, n, plr, pri, succs, v, g, t, x, rank, sb);
    EmptyRegion(plr, pri, succs, v, o, wo, so);
  }

  /** The opponent `l` keeps its region `wl`, attracts `y` to it, and the rest is solved again. */
  lemma OpponentShares(l: int, b: int, n: nat, plr: seq<int>, pri: seq<int>, succs: seq<seq<nat>>, v: set<nat>,
                       g: seq<seq<nat>>, t: set<nat>, x: set<nat>, wl: set<nat>, y: set<nat>, rank: map<nat, nat>,
                       first: map<nat, nat>, l3: set<nat>, second: map<nat, nat>, b3: set<nat>, sb: map<nat, nat>)
    returns (sigma: map<nat, nat>)
    requires SplitFor(plr, pri, succs, v - y, l, l3, second, b, b3, sb)
    requires TwoCalls(l, b, n, plr, pri, succs, v, g, t, x, wl, y, rank, first, l3, second)
    ensures SplitFor(plr, pri, succs, v, l, y + l3, sigma, b, b3, sb)
  {
    OpponentRegion(l, b, n, plr, pri, succs, v, g, t, x, wl, y, rank, first, l3, second);
    BeneficiaryKeeps(l, b, n, plr, pri, succs, v, g, wl, y, b3, sb);
    sigma := OpponentStrategy(l, plr, g, wl, y, rank, first, l3, second);
  }

  /** Attractors inside a subgame stay inside it. */
  lemma AttractorInside(p: int, n: nat, plr: seq<int>, succs: seq<seq<nat>>, v: set<nat>, g: seq<seq<nat>>,
                        t: set<nat>, a: set<nat>)
    requires IsGraph(n, plr, succs) && IsSubgame(succs, v, g) && t <= v
    requires IsAttractor(p, plr, g, t, a)
    ensures a <= v
  {
    forall u: nat | u < n && Pulled(p, plr, g, v, u) ensures u in v {
      assert g[u] != [];
      assert Edge(g, u, g[u][0]);
    }
    assert IsClosed(p, plr, g, v);
  }

  /** The attractor of `t` in the subgame `v`, whose edges are `g`. */
  method AttractorIn(p: int, t: set<nat>, v: set<nat>, n: nat, plr: seq<int>, succs: seq<seq<nat>>, g: seq<seq<nat>>)
    returns (a: set<nat>, ghost rank: map<nat, nat>)
    requires IsGraph(n, plr, succs) && IsSubgame(succs, v, g) && Within(n, v) && DeadEndFree(succs, v) && t <= v
    ensures t <= a <= v && DeadEndFree(succs, v - a)
    ensures IsAttractor(p, plr, g, t, a) && Ranked(p, plr, g, t, a, rank)
  {
    SubgameIsGraph(n, plr, succs, v, g);
    a, rank := Attractor(p, t, n, plr, g);
    AttractorInside(p, n, plr, succs, v, g, t, a);
    ResidualDeadEndFree(p, n, plr, succs, v, g, t, a);
  }

  /** The result of the recursion when the opponent of the beneficiary `b` won nothing below. */
  lemma FirstCase(b: int, c: int, n: nat, plr: seq<int>, pri: seq<int>, succs: seq<seq<nat>>, v: set<nat>,
                  g: seq<seq<nat>>, t: set<nat>, x: set<nat>, rank: map<nat, nat>, w0: set<nat>, w1: set<nat>,
                  s0: map<nat, nat>, s1: map<nat, nat>)
    returns (s0': map<nat, nat>, s1': map<nat, nat>)
    requires IsGraph(n, plr, succs) && IsSubgame(succs, v, g) && Within(n, v) && DeadEndFree(succs, v)
    requires forall u :: u in v ==> PriorityAt(pri, u) <= c
    requires forall u :: u in t ==> PriorityAt(pri, u) == c
    requires b == c % 2 && Ranked(b, plr, g, t, x, rank)
    requires Solved(plr, pri, succs, v - x, w0, w1, s0, s1) && (if b == 0 then w1 else w0) == {}
    ensures Solved(plr, pri, succs, v, if b == 1 then w0 else v, if b == 1 then v else w1, s0', s1')
  {
    s0', s1' := s0, s1;
    if b == 0 {
      s0' := AllWon(0, 1, c, n, plr, pri, succs, v, g, t, x, rank, w0, s0, w1, s1);
    } else {
      s1' := AllWon(1, 0, c, n, plr, pri, succs, v, g, t, x, rank, w1, s1, w0, s0);
    }
  }

  /** The result of the recursion when the opponent `l` keeps a region. */
  lemma SecondCase(l: int, b: int, n: nat, plr: seq<int>, pri: seq<int>, succs: seq<seq<nat>>, v: set<nat>,
                   g: seq<seq<nat>>, t: set<nat>, x: set<nat>, w0p: set<nat>, w1p: set<nat>, s0p: map<nat, nat>,
                   s1p: map<nat, nat>, wl: set<nat>, y: set<nat>, rank: map<nat, nat>, w0: set<nat>, w1: set<nat>,
                   s0: map<nat, nat>, s1: map<nat, nat>)
    returns (s0': map<nat, nat>, s1': map<nat, nat>)
    requires IsGraph(n, plr, succs) && IsSubgame(succs, v, g) && Within(n, v) && (l == 0 || l == 1) && b == 1 - l
    requires IsAttractor(b, plr, g, t, x)
    requires Solved(plr, pri, succs, v - x, w0p, w1p, s0p, s1p) && wl == if l == 0 then w0p else w1p
    requires IsAttractor(l, plr, g, wl, y) && Ranked(l, plr, g, wl, y, rank) && y <= v
    requires Solved(plr, pri, succs, v - y, w0, w1, s0, s1)
    ensures Solved(plr, pri, succs, v, if b == 1 then y + wl + w0 else w0, if b == 1 then w1 else y + wl + w1, s0', s1')
  {
    assert y + wl == y;
    s0', s1' := s0, s1;
    if l == 0 {
      s0' := OpponentShares(0, 1, n, plr, pri, succs, v, g, t, x, w0p, y, rank, s0p, w0, s0, w1, s1);
    } else {
      s1' := OpponentShares(1, 0, n, plr, pri, succs, v, g, t, x, w1p, y, rank, s1p, w1, s1, w0, s0);
    }
  }

  /** Zielonka's recursion on the subgame `v`: the states won by player 0 and by player 1.  With
      non-negative priorities the two sets partition `v`, and each player has a positional strategy
      that wins its set. */
  method Solve(v: set<nat>, n: nat, plr: seq<int>, pri: seq<int>, succs: seq<seq<nat>>)
    returns (w0: set<nat>, w1: set<nat>, ghost s0: map<nat, nat>, ghost s1: map<nat, nat>)
    requires IsGraph(n, plr, succs) && |pri| == n && Within(n, v) && DeadEndFree(succs, v)
    ensures w0 <= v && w1 <= v
    ensures NonNegativeOn(pri, v) ==> Solved(plr, pri, succs, v, w0, w1, s0, s1)
    decreases v
  {
    s0, s1 := map[], map[];
    if v == {} {
      w0, w1 := {}, {};
      EmptyRegion(plr, pri, succs, v, 0, w0, s0);
      EmptyRegion(plr, pri, succs, v, 1, w1, s1);
      return;
    }
    var succsV := RestrictTo(n, succs, v);
    var cMax := GreatestPriority(pri, v, n);
    if cMax < 0 {
      w0, w1 := {}, {};
      return;
    }
    var top := set u | u in v && pri[u] == cMax;
    var beneficiary := cMax % 2;
    var x, rankX := AttractorIn(beneficiary, top, v, n, plr, succs, succsV);
    var w0p, w1p, s0p, s1p := Solve(v - x, n, plr, pri, succs);
    var wl := if beneficiary == 0 then w1p else w0p;
    if wl == {} {
      if NonNegativeOn(pri, v) {
        s0, s1 := FirstCase(beneficiary, cMax, n, plr, pri, succs, v, succsV, top, x, rankX, w0p, w1p, s0p, s1p);
      }
      w0, w1 := if beneficiary == 1 then w0p else v, if beneficiary == 1 then v else w1p;
      return;
    }
    var l := 1 - beneficiary;
    var y, rankY := AttractorIn(l, wl, v, n, plr, succs, succsV);
    var w0pp, w1pp, s0pp, s1pp := Solve(v - y, n, plr, pri, succs);
    if NonNegativeOn(pri, v) {
      s0, s1 := SecondCase(l, beneficiary, n, plr, pri, succs, v, succsV, top, x, w0p, w1p, s0p, s1p, wl, y, rankY,
                           w0pp, w1pp, s0pp, s1pp);
    }
    var opponent := y + wl;
    w0 := if beneficiary == 1 then opponent + w0pp else w0pp;
    w1 := if beneficiary == 1 then w1pp else opponent + w1pp;
  }
}
