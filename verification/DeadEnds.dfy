/** Parity games with dead ends: the player who cannot move loses.  Dead ends and their attractors
    are removed first, then Zielonka's recursion solves the rest. */
module DeadEnds {
  import opened Recurrence
  import opened StrategyGames
  import opened Attractors
  import opened Zielonka

  datatype ParityGame = ParityGame(nStates: nat, init: nat, player: seq<int>, priority: seq<int>, succs: seq<seq<nat>>)

  ghost predicate IsParityGame(g: ParityGame) {
    IsGraph(g.nStates, g.player, g.succs) && |g.priority| == g.nStates
  }

  function States(n: nat): (v: set<nat>)
    ensures forall s: nat :: s in v <==> s < n
  {
    if n == 0 then {} else States(n - 1) + {n - 1}
  }

  // The game as an arena: a move names the next state.

  function Visited(s: nat, mv: nat -> nat): nat -> nat {
    (i: nat) => if i == 0 then s else mv(i - 1)
  }

  /** Greatest recurring priority odd: player 1 wins; even: player 0 wins. */
  ghost function ParityArena(g: ParityGame): Arena<nat, nat> {
    Arena(
      (u: nat) => if u < |g.player| && g.player[u] == 1 then 1 else 0,
      (u: nat, x: nat) => Edge(g.succs, u, x),
      (u: nat, x: nat) => x,
      (p: int, s: nat, mv: nat -> nat) => ParityOf(Prios(g.priority, Visited(s, mv)), p))
  }

  ghost function Positional(g: ParityGame, s: nat, sigma: map<nat, nat>): Strategy<nat> {
    (h: seq<nat>) => var u := After(ParityArena(g), s, h); if u in sigma then sigma[u] else 0
  }

  lemma PositionIsVisited(g: ParityGame, s: nat, mv: nat -> nat, t: nat)
    ensures Position(ParityArena(g), s, mv, t) == Visited(s, mv)(t)
  {
    PositionStep(ParityArena(g), s, mv, if t == 0 then 0 else t - 1);
  }

  lemma {:induction false} HistoryStays(g: ParityGame, p: int, w: set<nat>, sigma: map<nat, nat>, s: nat, h: seq<nat>)
    requires IsParityGame(g) && (p == 0 || p == 1)
    requires StaysIn(g.player, g.succs, States(g.nStates), p, w, sigma) && s in w
    requires ConsistentHistory(ParityArena(g), p, Positional(g, s, sigma), s, h)
    ensures After(ParityArena(g), s, h) in w
    decreases |h|
  {
    if h != [] {
      var h' := h[..|h| - 1];
      HistoryStays(g, p, w, sigma, s, h');
      var u := After(ParityArena(g), s, h');
      assert Edge(g.succs, u, h[|h| - 1]);
      assert h[|h| - 1] in States(g.nStates);
    }
  }

  lemma {:induction false} PlayStays(g: ParityGame, p: int, w: set<nat>, sigma: map<nat, nat>, s: nat, mv: nat -> nat,
                                     t: nat)
    requires IsParityGame(g) && (p == 0 || p == 1)
    requires StaysIn(g.player, g.succs, States(g.nStates), p, w, sigma) && s in w
    requires ConsistentPlay(ParityArena(g), p, Positional(g, s, sigma), s, mv)
    ensures Visited(s, mv)(t) in w && StepAt(g.player, g.succs, w, p, sigma, Visited(s, mv), t)
  {
    var a := ParityArena(g);
    if t > 0 {
      PlayStays(g, p, w, sigma, s, mv, t - 1);
    }
    PositionIsVisited(g, s, mv, t);
    assert Allowed(a, p, Positional(g, s, sigma), s, Prefix(mv, t), mv(t));
    var u := Visited(s, mv)(t);
    if t > 0 {
      var b := Visited(s, mv)(t - 1);
      assert StepAt(g.player, g.succs, w, p, sigma, Visited(s, mv), t - 1);
      assert Edge(g.succs, b, u) && u in States(g.nStates);
    }
    assert Visited(s, mv)(t + 1) == mv(t);
  }

  /** A winning region of the whole game is won from each of its states by its positional strategy. */
  lemma RegionWins(g: ParityGame, p: int, w: set<nat>, sigma: map<nat, nat>, s: nat)
    requires IsParityGame(g) && (p == 0 || p == 1)
    requires Region(g.player, g.priority, g.succs, States(g.nStates), p, w, sigma) && s in w
    ensures Wins(ParityArena(g), p, Positional(g, s, sigma), s)
  {
    var a := ParityArena(g);
    var strategy := Positional(g, s, sigma);
    forall h: seq<nat> | ConsistentHistory(a, p, strategy, s, h) && a.owner(After(a, s, h)) == p
      ensures a.legal(After(a, s, h), strategy(h))
    {
      HistoryStays(g, p, w, sigma, s, h);
    }
    forall mv: nat -> nat | ConsistentPlay(a, p, strategy, s, mv) ensures a.won(p, s, mv) {
      forall t: nat ensures StepAt(g.player, g.succs, w, p, sigma, Visited(s, mv), t) {
        PlayStays(g, p, w, sigma, s, mv, t);
      }
      assert Follows(g.player, g.succs, w, p, sigma, Visited(s, mv));
    }
  }

  lemma NobodyWinsTwice(g: ParityGame, s: nat)
    ensures !(HasWinningStrategy(ParityArena(g), 0, s) && HasWinningStrategy(ParityArena(g), 1, s))
  {
    var a := ParityArena(g);
    forall mv: nat -> nat ensures !(a.won(0, s, mv) && a.won(1, s, mv)) {
      OnlyOneParity(Prios(g.priority, Visited(s, mv)));
    }
    NotBothWin(a, s);
  }

  /** Determinacy: a solved game is won, from each state, by the owner of the region the state lies
      in, and by nobody else, whatever strategies the players may use. */
  lemma Determined(g: ParityGame, w0: set<nat>, w1: set<nat>, s0: map<nat, nat>, s1: map<nat, nat>, s: nat)
    requires IsParityGame(g) && s < g.nStates
    requires Solved(g.player, g.priority, g.succs, States(g.nStates), w0, w1, s0, s1)
    ensures s in w1 <==> HasWinningStrategy(ParityArena(g), 1, s)
    ensures s in w0 <==> HasWinningStrategy(ParityArena(g), 0, s)
  {
    NobodyWinsTwice(g, s);
    if s in w1 {
      RegionWins(g, 1, w1, s1, s);
    } else {
      RegionWins(g, 0, w0, s0, s);
    }
  }

  // The naive closure used for dead ends.

  method SomeInto(s: seq<nat>, v: set<nat>, target: set<nat>) returns (add: bool)
    ensures add <==> exists x :: x in s && x in v && x in target
  {
    add := false;
    for k := 0 to |s|
      invariant forall x :: x in s[..k] ==> !(x in v && x in target)
    {
      if s[k] in v && s[k] in target { return true; }
    }
  }

  method OnlyInto(s: seq<nat>, v: set<nat>, target: set<nat>) returns (add: bool)
    ensures add <==> (exists x :: x in s && x in v) && forall x :: x in s && x in v ==> x in target
  {
    var any := false;
    for k := 0 to |s|
      invariant any <==> exists x :: x in s[..k] && x in v
      invariant forall x :: x in s[..k] && x in v ==> x in target
    {
      assert s[..k + 1] == s[..k] + [s[k]];
      if s[k] in v {
        any := true;
        if s[k] !in target { return false; }
      }
    }
    assert s[..|s|] == s;
    add := any;
  }

  lemma PulledInside(p: int, plr: seq<int>, succs: seq<seq<nat>>, v: set<nat>, g: seq<seq<nat>>, target: set<nat>,
                     u: nat)
    requires |plr| == |succs| && IsSubgame(succs, v, g) && u < |plr| && u in v
    ensures Pulled(p, plr, g, target, u) <==>
      if plr[u] == p then exists x :: x in succs[u] && x in v && x in target
      else (exists x :: x in succs[u] && x in v) && forall x :: x in succs[u] && x in v ==> x in target
  {
    assert forall x: nat :: x in g[u] <==> x in succs[u] && x in v by {
      forall x: nat ensures x in g[u] <==> x in succs[u] && x in v {
        assert Edge(g, u, x) <==> Edge(succs, u, x) && u in v && x in v;
      }
    }
    if plr[u] != p && g[u] != [] {
      assert g[u][0] in g[u];
    }
  }

  /** Whether the naive loop adds `u` to `target`: the two rules on the edges inside `v`. */
  method Attracted(p: int, n: nat, plr: seq<int>, succs: seq<seq<nat>>, v: set<nat>, ghost g: seq<seq<nat>>,
                   target: set<nat>, u: nat)
    returns (add: bool)
    requires IsGraph(n, plr, succs) && IsSubgame(succs, v, g) && u < n && u in v
    ensures add == Pulled(p, plr, g, target, u)
  {
    PulledInside(p, plr, succs, v, g, target, u);
    if plr[u] == p {
      add := SomeInto(succs[u], v, target);
    } else {
      add := OnlyInto(succs[u], v, target);
    }
  }

  /** No state of `v` below `k` is left to add. */
  ghost predicate SettledBelow(p: int, plr: seq<int>, g: seq<seq<nat>>, v: set<nat>, target: set<nat>, k: nat)
    requires |plr| == |g| >= k
  {
    forall x: nat {:trigger Pulled(p, plr, g, target, x)} :: x < k && x in v && x !in target ==>
          !Pulled(p, plr, g, target, x)
  }

  /** `target`, ranked, has grown from `target0` within `v`. */
  ghost predicate Grown(p: int, plr: seq<int>, g: seq<seq<nat>>, t: set<nat>, v: set<nat>, target0: set<nat>,
                        target: set<nat>, rank: map<nat, nat>)
    requires |plr| == |g|
  {
    target0 <= target <= v && Ranked(p, plr, g, t, target, rank)
  }

  lemma GrowBy(p: int, plr: seq<int>, g: seq<seq<nat>>, t: set<nat>, v: set<nat>, target0: set<nat>, target: set<nat>,
               rank: map<nat, nat>, u: nat)
    returns (rank': map<nat, nat>)
    requires |plr| == |g| && Grown(p, plr, g, t, v, target0, target, rank)
    requires u < |plr| && u in v && u !in target && Pulled(p, plr, g, target, u)
    ensures Grown(p, plr, g, t, v, target0, target + {u}, rank')
  {
    rank' := AddRanked(p, plr, g, t, target, rank, u);
  }

  /** Visits `u` in a sweep. */
  method Visit(p: int, ghost t: set<nat>, v: set<nat>, n: nat, plr: seq<int>, succs: seq<seq<nat>>,
               ghost g: seq<seq<nat>>, ghost target0: set<nat>, target: set<nat>, ghost rank: map<nat, nat>, u: nat)
    returns (target': set<nat>, add: bool, ghost rank': map<nat, nat>)
    requires IsGraph(n, plr, succs) && IsSubgame(succs, v, g) && u < n
    requires Grown(p, plr, g, t, v, target0, target, rank)
    ensures Grown(p, plr, g, t, v, target0, target', rank')
    ensures if add then u !in target && u in target'
            else target' == target && (u in v && u !in target ==> !Pulled(p, plr, g, target, u))
  {
    target', add, rank' := target, false, rank;
    if u in v && u !in target {
      add := Attracted(p, n, plr, succs, v, g, target, u);
      if add {
        rank' := GrowBy(p, plr, g, t, v, target0, target, rank, u);
        target' := target + {u};
      }
    }
  }

  /** One sweep over `v`. */
  method Sweep(p: int, ghost t: set<nat>, v: set<nat>, n: nat, plr: seq<int>, succs: seq<seq<nat>>,
               ghost g: seq<seq<nat>>, target0: set<nat>, ghost rank0: map<nat, nat>)
    returns (target: set<nat>, changed: bool, ghost rank: map<nat, nat>, ghost added: nat)
    requires IsGraph(n, plr, succs) && IsSubgame(succs, v, g)
    requires Grown(p, plr, g, t, v, target0, target0, rank0)
    ensures Grown(p, plr, g, t, v, target0, target, rank)
    ensures changed ==> added in target && added !in target0
    ensures !changed ==> target == target0 && SettledBelow(p, plr, g, v, target, n)
  {
    target, changed, rank, added := target0, false, rank0, 0;
    for u := 0 to n
      invariant Grown(p, plr, g, t, v, target0, target, rank)
      invariant changed ==> added in target && added !in target0
      invariant !changed ==> target == target0 && SettledBelow(p, plr, g, v, target, u)
    {
      var add;
      target, add, rank := Visit(p, t, v, n, plr, succs, g, target0, target, rank, u);
      if add {
        changed, added := true, u;
      }
    }
  }

  lemma SettledIsClosed(p: int, n: nat, plr: seq<int>, succs: seq<seq<nat>>, v: set<nat>, g: seq<seq<nat>>,
                        target: set<nat>)
    requires IsGraph(n, plr, succs) && IsSubgame(succs, v, g) && SettledBelow(p, plr, g, v, target, n)
    ensures IsClosed(p, plr, g, target)
  {
    forall u: nat | u < n && Pulled(p, plr, g, target, u) ensures u in target {
      assert g[u] != [];
      assert Edge(g, u, g[u][0]);
    }
  }

  ghost function Kept(s: seq<nat>, v: set<nat>): (r: seq<nat>)
    ensures forall x :: x in r <==> x in s && x in v
  {
    if s == [] then [] else Kept(s[..|s| - 1], v) + if s[|s| - 1] in v then [s[|s| - 1]] else []
  }

  lemma SubgameExists(succs: seq<seq<nat>>, v: set<nat>) returns (g: seq<seq<nat>>)
    ensures IsSubgame(succs, v, g)
  {
    g := seq(|succs|, u requires 0 <= u < |succs| => if u in v then Kept(succs[u], v) else []);
  }

  /** The attractor of `t` for player `p` within `v`, by sweeping over `v` until nothing is added. */
  method ClosureAttractor(p: int, t: set<nat>, v: set<nat>, n: nat, plr: seq<int>, succs: seq<seq<nat>>,
                          ghost g: seq<seq<nat>>)
    returns (target: set<nat>, ghost rank: map<nat, nat>)
    requires IsGraph(n, plr, succs) && IsSubgame(succs, v, g) && t <= v
    ensures IsAttractor(p, plr, g, t, target) && t <= target <= v
    ensures Ranked(p, plr, g, t, target, rank)
  {
    target := t;
    rank := map u | u in t :: 0;
    var changed := true;
    while changed
      invariant t <= target <= v && Ranked(p, plr, g, t, target, rank)
      invariant !changed ==> SettledBelow(p, plr, g, v, target, n)
      decreases v - target, changed
    {
      ghost var before := target;
      assert Grown(p, plr, g, t, v, target, target, rank);
      ghost var added;
      target, changed, rank, added := Sweep(p, t, v, n, plr, succs, g, target, rank);
      assert changed ==> added in v - before && added !in v - target;
    }
    SettledIsClosed(p, n, plr, succs, v, g, target);
    RankedIsAttractor(p, plr, g, t, target, rank);
  }

  lemma SubgamesPullAlike(p: int, plr: seq<int>, succs: seq<seq<nat>>, v: set<nat>, g: seq<seq<nat>>, h: seq<seq<nat>>,
                          s: set<nat>, u: nat)
    requires |plr| == |succs| && IsSubgame(succs, v, g) && IsSubgame(succs, v, h) && u < |plr|
    requires Pulled(p, plr, g, s, u)
    ensures Pulled(p, plr, h, s, u)
  {
    assert forall x: nat :: x in g[u] <==> x in h[u] by {
      forall x: nat ensures x in g[u] <==> x in h[u] {
        assert Edge(g, u, x) <==> Edge(h, u, x);
      }
    }
    if g[u] != [] {
      assert g[u][0] in h[u];
    }
  }

  /** The worklist attractor, on the restricted successor lists `g`, and the naive closure, on any
      lists `h` with the edges of the same subgame, compute the same set. */
  lemma WorklistAgreesWithClosure(p: int, plr: seq<int>, succs: seq<seq<nat>>, v: set<nat>, g: seq<seq<nat>>,
                                  h: seq<seq<nat>>, t: set<nat>, a: set<nat>, b: set<nat>)
    requires |plr| == |succs| && IsSubgame(succs, v, g) && IsSubgame(succs, v, h)
    requires IsAttractor(p, plr, g, t, a) && IsAttractor(p, plr, h, t, b)
    ensures a == b
  {
    forall s: set<nat> ensures IsClosed(p, plr, g, s) <==> IsClosed(p, plr, h, s) {
      forall u: nat | u < |plr| ensures Pulled(p, plr, g, s, u) <==> Pulled(p, plr, h, s, u) {
        if Pulled(p, plr, g, s, u) { SubgamesPullAlike(p, plr, succs, v, g, h, s, u); }
        if Pulled(p, plr, h, s, u) { SubgamesPullAlike(p, plr, succs, v, h, g, s, u); }
      }
    }
    assert a <= b && b <= a;
  }

  // What the removed states are worth.

  /** From every state of `rank` player `p`, playing `sigma`, drives the play down in rank whatever
      the opponent does, until the opponent cannot move. */
  ghost predicate Forced(plr: seq<int>, succs: seq<seq<nat>>, p: int, rank: map<nat, nat>, sigma: map<nat, nat>) {
    && (forall u :: u in rank ==> u < |plr|)
    && (forall u :: u in rank && plr[u] == p ==>
          u in sigma && sigma[u] in rank && Edge(succs, u, sigma[u]) && rank[sigma[u]] < rank[u])
    && (forall u, x {:trigger Edge(succs, u, x)} :: u in rank && plr[u] != p && Edge(succs, u, x) ==>
          x in rank && rank[x] < rank[u])
  }

  /** Player `p` has no move from `v` into the states removed as won by `p`. */
  ghost predicate CutOff(plr: seq<int>, succs: seq<seq<nat>>, v: set<nat>, p: int, rank: map<nat, nat>) {
    forall u, x {:trigger Edge(succs, u, x)} :: u in v && u < |plr| && plr[u] == p && Edge(succs, u, x) ==> x !in rank
  }

  /** The ranks after the attractor `a` of the dead ends `d` is removed: above all earlier ones. */
  ghost function LayerRank(d: set<nat>, a: set<nat>, rankA: map<nat, nat>, rp: map<nat, nat>, base: nat): map<nat, nat>
    requires rankA.Keys == a
  {
    map u | u in rp.Keys + a :: if u !in a then rp[u] else if u in d then base else base + 1 + rankA[u]
  }

  ghost function LayerStrategy(p: int, plr: seq<int>, g: seq<seq<nat>>, d: set<nat>, a: set<nat>, rankA: map<nat, nat>,
                               sp: map<nat, nat>): map<nat, nat>
    requires |plr| == |g| && Ranked(p, plr, g, d, a, rankA)
  {
    map u | u in sp.Keys + a ::
      if u in a && u !in d && plr[u] == p then Down(plr, g, p, a, rankA, u) else if u in sp then sp[u] else 0
  }

  /** `d` are dead ends of `o` in `v` and `a` is p's attractor of them; `rp` and `ro` rank the states
      removed before as won by `p` and by `o`. */
  ghost predicate NextLayer(p: int, o: int, n: nat, plr: seq<int>, succs: seq<seq<nat>>, v: set<nat>, g: seq<seq<nat>>,
                            d: set<nat>, a: set<nat>, rankA: map<nat, nat>, rp: map<nat, nat>, sp: map<nat, nat>,
                            ro: map<nat, nat>) {
    && IsGraph(n, plr, succs) && IsSubgame(succs, v, g) && p != o && Within(n, v)
    && v !! rp.Keys && v + rp.Keys + ro.Keys == States(n)
    && Forced(plr, succs, p, rp, sp) && CutOff(plr, succs, v, p, rp) && CutOff(plr, succs, v, o, ro)
    && (forall u :: u in v && plr[u] != p ==> plr[u] == o)
    && d <= a <= v && (forall u :: u in d ==> plr[u] == o && !CanMove(succs, v, u))
    && IsAttractor(p, plr, g, d, a) && Ranked(p, plr, g, d, a, rankA)
  }

  lemma LayerOwnMove(p: int, o: int, n: nat, plr: seq<int>, succs: seq<seq<nat>>, v: set<nat>, g: seq<seq<nat>>,
                     d: set<nat>, a: set<nat>, rankA: map<nat, nat>, rp: map<nat, nat>, sp: map<nat, nat>,
                     ro: map<nat, nat>, u: nat)
    requires NextLayer(p, o, n, plr, succs, v, g, d, a, rankA, rp, sp, ro)
    requires u in rp.Keys + a && plr[u] == p
    ensures var rp', sp' := LayerRank(d, a, rankA, rp, TopRank(rp)), LayerStrategy(p, plr, g, d, a, rankA, sp);
            u in sp' && sp'[u] in rp' && Edge(succs, u, sp'[u]) && rp'[sp'[u]] < rp'[u]
  {
    if u in a {
      assert RankedAt(p, plr, g, a, rankA, u);
      assert Edge(g, u, Down(plr, g, p, a, rankA, u));
    }
  }

  lemma LayerOtherMove(p: int, o: int, n: nat, plr: seq<int>, succs: seq<seq<nat>>, v: set<nat>, g: seq<seq<nat>>,
                       d: set<nat>, a: set<nat>, rankA: map<nat, nat>, rp: map<nat, nat>, sp: map<nat, nat>,
                       ro: map<nat, nat>, u: nat, x: nat)
    requires NextLayer(p, o, n, plr, succs, v, g, d, a, rankA, rp, sp, ro)
    requires u in rp.Keys + a && plr[u] != p && Edge(succs, u, x)
    ensures var rp' := LayerRank(d, a, rankA, rp, TopRank(rp)); x in rp' && rp'[x] < rp'[u]
  {
    assert x in States(n);
    if u in a {
      assert x !in ro;
      if x in v {
        assert CanMove(succs, v, u) && Edge(g, u, x);
        assert RankedAt(p, plr, g, a, rankA, u);
      }
    }
  }

  lemma LayerCutOff(p: int, o: int, n: nat, plr: seq<int>, succs: seq<seq<nat>>, v: set<nat>, g: seq<seq<nat>>,
                    d: set<nat>, a: set<nat>, rankA: map<nat, nat>, rp: map<nat, nat>, sp: map<nat, nat>,
                    ro: map<nat, nat>)
    requires NextLayer(p, o, n, plr, succs, v, g, d, a, rankA, rp, sp, ro)
    ensures CutOff(plr, succs, v - a, p, LayerRank(d, a, rankA, rp, TopRank(rp)))
  {
    forall u, x | u in v - a && plr[u] == p && Edge(succs, u, x) ensures x !in rp.Keys + a {
      if x in a {
        NoMoveInto(p, n, plr, succs, v, g, d, a, u, x);
      }
    }
  }

  /** Dead ends of the opponent `o`, and the attractor of them, are won by `p`. */
  lemma RemoveLayer(p: int, o: int, n: nat, plr: seq<int>, succs: seq<seq<nat>>, v: set<nat>, g: seq<seq<nat>>,
                    d: set<nat>, a: set<nat>, rankA: map<nat, nat>, rp: map<nat, nat>, sp: map<nat, nat>,
                    ro: map<nat, nat>)
    returns (rp': map<nat, nat>, sp': map<nat, nat>)
    requires NextLayer(p, o, n, plr, succs, v, g, d, a, rankA, rp, sp, ro)
    ensures rp'.Keys == rp.Keys + a
    ensures Forced(plr, succs, p, rp', sp') && CutOff(plr, succs, v - a, p, rp')
  {
    rp', sp' := LayerRank(d, a, rankA, rp, TopRank(rp)), LayerStrategy(p, plr, g, d, a, rankA, sp);
    LayerCutOff(p, o, n, plr, succs, v, g, d, a, rankA, rp, sp, ro);
    forall u | u in rp' && plr[u] == p
      ensures u in sp' && sp'[u] in rp' && Edge(succs, u, sp'[u]) && rp'[sp'[u]] < rp'[u]
    {
      LayerOwnMove(p, o, n, plr, succs, v, g, d, a, rankA, rp, sp, ro, u);
    }
    forall u, x | u in rp' && plr[u] != p && Edge(succs, u, x) ensures x in rp' && rp'[x] < rp'[u] {
      LayerOtherMove(p, o, n, plr, succs, v, g, d, a, rankA, rp, sp, ro, u, x);
    }
  }

  ghost function JoinStrategy(w: set<nat>, sigma: map<nat, nat>, sp: map<nat, nat>): map<nat, nat> {
    map u | u in sigma.Keys + sp.Keys :: if u in w && u in sigma then sigma[u] else if u in sp then sp[u] else 0
  }

  lemma {:induction false} NoInfiniteDescent(plr: seq<int>, succs: seq<seq<nat>>, p: int, rank: map<nat, nat>,
                                             sp: map<nat, nat>, w: set<nat>, sigma: map<nat, nat>, play: nat -> nat,
                                             i: nat)
    requires Forced(plr, succs, p, rank, sp)
    requires Follows(plr, succs, w, p, sigma, play) && forall u :: u in rank && u in sigma && plr[u] == p ==>
               u in sp && sigma[u] == sp[u]
    ensures play(i) !in rank
    decreases if play(i) in rank then rank[play(i)] + 1 else 0
  {
    if play(i) in rank {
      assert StepAt(plr, succs, w, p, sigma, play, i);
      NoInfiniteDescent(plr, succs, p, rank, sp, w, sigma, play, i + 1);
    }
  }

  /** The region `w` of the residual game and the removed states of the same player are together a
      winning region of the whole game. */
  lemma JoinRegions(p: int, o: int, n: nat, plr: seq<int>, pri: seq<int>, succs: seq<seq<nat>>, v: set<nat>,
                    w: set<nat>, sigma: map<nat, nat>, rp: map<nat, nat>, sp: map<nat, nat>, ro: map<nat, nat>)
    requires IsGraph(n, plr, succs) && p != o && (p == 0 || p == 1) && (o == 0 || o == 1)
    requires v !! rp.Keys && v + rp.Keys + ro.Keys == States(n)
    requires Forced(plr, succs, p, rp, sp) && CutOff(plr, succs, v, o, ro)
    requires Region(plr, pri, succs, v, p, w, sigma)
    ensures Region(plr, pri, succs, States(n), p, w + rp.Keys, JoinStrategy(w, sigma, sp))
  {
    var joined := JoinStrategy(w, sigma, sp);
    forall u, x | u in w + rp.Keys && plr[u] != p && x in States(n) && Edge(succs, u, x) ensures x in w + rp.Keys {
    }
    assert StaysIn(plr, succs, States(n), p, w + rp.Keys, joined);
    forall play: nat -> nat | Follows(plr, succs, w + rp.Keys, p, joined, play) ensures ParityOf(Prios(pri, play), p) {
      forall i: nat ensures StepAt(plr, succs, w, p, sigma, play, i) {
        NoInfiniteDescent(plr, succs, p, rp, sp, w + rp.Keys, joined, play, i);
        assert StepAt(plr, succs, w + rp.Keys, p, joined, play, i);
      }
      assert Follows(plr, succs, w, p, sigma, play);
    }
  }

  // The solver.

  method StuckStates(v: set<nat>, n: nat, plr: seq<int>, succs: seq<seq<nat>>) returns (dSys: set<nat>, dEnv: set<nat>)
    requires IsGraph(n, plr, succs) && Within(n, v)
    ensures forall u: nat :: u in dSys <==> u in v && !CanMove(succs, v, u) && plr[u] == 1
    ensures forall u: nat :: u in dEnv <==> u in v && !CanMove(succs, v, u) && plr[u] == 0
  {
    dSys, dEnv := {}, {};
    for u := 0 to n
      invariant forall x: nat :: x in dSys <==> x < u && x in v && !CanMove(succs, v, x) && plr[x] == 1
      invariant forall x: nat :: x in dEnv <==> x < u && x in v && !CanMove(succs, v, x) && plr[x] != 1
    {
      if u in v {
        var any := SomeInto(succs[u], v, v);
        assert any <==> CanMove(succs, v, u) by {
          if any {
            var x :| x in succs[u] && x in v;
            assert Edge(succs, u, x);
          }
        }
        if !any {
          if plr[u] == 1 { dSys := dSys + {u}; } else { dEnv := dEnv + {u}; }
        }
      }
    }
  }

  /** `v`, `k0` and `k1` split the states. */
  ghost predicate Partition(n: nat, v: set<nat>, k0: set<nat>, k1: set<nat>) {
    v !! k0 && v !! k1 && k0 !! k1 && v + k0 + k1 == States(n)
  }

  lemma MovePart(n: nat, v: set<nat>, a: set<nat>, k0: set<nat>, k1: set<nat>)
    requires Partition(n, v, k0, k1) && a <= v
    ensures Partition(n, v - a, k0 + a, k1) && Partition(n, v - a, k1, k0 + a)
  {
    assert v - a + (k0 + a) + k1 == v + k0 + k1;
    assert v - a + k1 + (k0 + a) == v + k0 + k1;
  }

  /** The removed layers: `r0` won by player 0, `r1` by player 1, `v` still to be decided. */
  ghost predicate Layers(n: nat, plr: seq<int>, succs: seq<seq<nat>>, v: set<nat>,
                         r0: map<nat, nat>, s0: map<nat, nat>, r1: map<nat, nat>, s1: map<nat, nat>) {
    && Partition(n, v, r0.Keys, r1.Keys)
    && Forced(plr, succs, 0, r0, s0) && CutOff(plr, succs, v, 0, r0)
    && Forced(plr, succs, 1, r1, s1) && CutOff(plr, succs, v, 1, r1)
  }

  lemma FinalSplit(n: nat, plr: seq<int>, pri: seq<int>, succs: seq<seq<nat>>, v: set<nat>,
                   r0: map<nat, nat>, s0: map<nat, nat>, r1: map<nat, nat>, s1: map<nat, nat>,
                   w0: set<nat>, w1: set<nat>, t0: map<nat, nat>, t1: map<nat, nat>)
    requires IsGraph(n, plr, succs) && Layers(n, plr, succs, v, r0, s0, r1, s1)
    requires Solved(plr, pri, succs, v, w0, w1, t0, t1)
    ensures Solved(plr, pri, succs, States(n), w0 + r0.Keys, w1 + r1.Keys, JoinStrategy(w0, t0, s0),
                   JoinStrategy(w1, t1, s1))
  {
    assert v + r1.Keys + r0.Keys == States(n);
    JoinRegions(0, 1, n, plr, pri, succs, v, w0, t0, r0, s0, r1);
    JoinRegions(1, 0, n, plr, pri, succs, v, w1, t1, r1, s1, r0);
  }

  /** Every state of `v` that player `p` owns has a move inside `v`. */
  ghost predicate OwnerMoves(plr: seq<int>, succs: seq<seq<nat>>, v: set<nat>, p: int) {
    forall u {:trigger CanMove(succs, v, u)} :: u in v && u < |plr| && plr[u] == p ==> CanMove(succs, v, u)
  }

  /** Removes p's attractor of the dead ends `d` of `o` from `v`: nobody new is stuck. */
  method RemoveDeadEnds(p: int, o: int, d: set<nat>, v: set<nat>, n: nat, plr: seq<int>, succs: seq<seq<nat>>,
                        ghost rp: map<nat, nat>, ghost sp: map<nat, nat>, ghost ro: map<nat, nat>)
    returns (a: set<nat>, ghost rp': map<nat, nat>, ghost sp': map<nat, nat>)
    requires IsGraph(n, plr, succs) && Within(n, v) && ((p == 0 && o == 1) || (p == 1 && o == 0))
    requires v !! rp.Keys && v + rp.Keys + ro.Keys == States(n)
    requires Forced(plr, succs, p, rp, sp) && CutOff(plr, succs, v, p, rp) && CutOff(plr, succs, v, o, ro)
    requires forall u: nat :: u in d <==> u in v && plr[u] == o && !CanMove(succs, v, u)
    ensures d <= a <= v && rp'.Keys == rp.Keys + a
    ensures Forced(plr, succs, p, rp', sp') && CutOff(plr, succs, v - a, p, rp')
    ensures OwnerMoves(plr, succs, v - a, o) && (OwnerMoves(plr, succs, v, p) ==> OwnerMoves(plr, succs, v - a, p))
  {
    ghost var rankA;
    ghost var g := SubgameExists(succs, v);
    a, rankA := ClosureAttractor(p, d, v, n, plr, succs, g);
    assert NextLayer(p, o, n, plr, succs, v, g, d, a, rankA, rp, sp, ro);
    rp', sp' := RemoveLayer(p, o, n, plr, succs, v, g, d, a, rankA, rp, sp, ro);
    forall u | u in v - a && CanMove(succs, v, u) ensures CanMove(succs, v - a, u) {
      MovesSurvive(p, n, plr, succs, v, g, d, a, u);
    }
    forall u | u in v - a && plr[u] == o ensures CanMove(succs, v - a, u) {
      assert u !in d;
    }
  }

  /** The system's dead ends `d`, not empty, and what the environment can force into them go. */
  method RemoveSystemDeadEnds(d: set<nat>, v: set<nat>, n: nat, plr: seq<int>, succs: seq<seq<nat>>,
                              ghost r0: map<nat, nat>, ghost s0: map<nat, nat>, ghost r1: map<nat, nat>,
                              ghost s1: map<nat, nat>)
    returns (v': set<nat>, ghost r0': map<nat, nat>, ghost s0': map<nat, nat>)
    requires IsGraph(n, plr, succs) && Within(n, v) && Layers(n, plr, succs, v, r0, s0, r1, s1)
    requires d != {} && forall u: nat :: u in d <==> u in v && plr[u] == 1 && !CanMove(succs, v, u)
    ensures v' < v && Layers(n, plr, succs, v', r0', s0', r1, s1)
    ensures OwnerMoves(plr, succs, v', 1) && (OwnerMoves(plr, succs, v, 0) ==> OwnerMoves(plr, succs, v', 0))
  {
    ghost var u :| u in d;
    var a;
    a, r0', s0' := RemoveDeadEnds(0, 1, d, v, n, plr, succs, r0, s0, r1);
    assert u in a;
    v' := v - a;
    MovePart(n, v, a, r0.Keys, r1.Keys);
  }

  /** The environment's dead ends `d`, not empty, and what the system can force into them go to `w1acc`. */
  method RemoveEnvironmentDeadEnds(d: set<nat>, v: set<nat>, n: nat, plr: seq<int>, succs: seq<seq<nat>>,
                                   w1acc: set<nat>, ghost r0: map<nat, nat>, ghost s0: map<nat, nat>,
                                   ghost r1: map<nat, nat>, ghost s1: map<nat, nat>)
    returns (v': set<nat>, w1acc': set<nat>, ghost r1': map<nat, nat>, ghost s1': map<nat, nat>)
    requires IsGraph(n, plr, succs) && Within(n, v) && Layers(n, plr, succs, v, r0, s0, r1, s1) && w1acc == r1.Keys
    requires d != {} && forall u: nat :: u in d <==> u in v && plr[u] == 0 && !CanMove(succs, v, u)
    ensures v' < v && Layers(n, plr, succs, v', r0, s0, r1', s1') && w1acc' == r1'.Keys
    ensures OwnerMoves(plr, succs, v', 0) && (OwnerMoves(plr, succs, v, 1) ==> OwnerMoves(plr, succs, v', 1))
  {
    ghost var u :| u in d;
    assert v + r1.Keys + r0.Keys == v + r0.Keys + r1.Keys;
    assert Partition(n, v, r1.Keys, r0.Keys);
    var a;
    a, r1', s1' := RemoveDeadEnds(1, 0, d, v, n, plr, succs, r1, s1, r0);
    assert u in a;
    v', w1acc' := v - a, w1acc + a;
    MovePart(n, v, a, r1.Keys, r0.Keys);
  }

  method AllStates(n: nat) returns (v: set<nat>)
    ensures v == States(n)
  {
    v := {};
    for s := 0 to n
      invariant v == States(s)
    {
      v := v + {s};
    }
  }

  lemma NoneStuck(n: nat, plr: seq<int>, succs: seq<seq<nat>>, v: set<nat>, p: int, d: set<nat>)
    requires IsGraph(n, plr, succs) && Within(n, v) && OwnerMoves(plr, succs, v, p)
    requires forall u :: u in d ==> u in v && plr[u] == p && !CanMove(succs, v, u)
    ensures d == {}
  {
  }

  lemma AllCanMove(n: nat, plr: seq<int>, succs: seq<seq<nat>>, v: set<nat>, dSys: set<nat>, dEnv: set<nat>)
    requires IsGraph(n, plr, succs) && Within(n, v) && dSys == {} && dEnv == {}
    requires forall u: nat :: u in dSys <==> u in v && !CanMove(succs, v, u) && plr[u] == 1
    requires forall u: nat :: u in dEnv <==> u in v && !CanMove(succs, v, u) && plr[u] == 0
    ensures DeadEndFree(succs, v)
  {
  }

  lemma NothingRemoved(n: nat, plr: seq<int>, succs: seq<seq<nat>>)
    ensures Layers(n, plr, succs, States(n), map[], map[], map[], map[])
  {
  }

  lemma LayersWithin(n: nat, plr: seq<int>, succs: seq<seq<nat>>, v: set<nat>,
                     r0: map<nat, nat>, s0: map<nat, nat>, r1: map<nat, nat>, s1: map<nat, nat>)
    requires Layers(n, plr, succs, v, r0, s0, r1, s1)
    ensures Within(n, v)
  {
    assert v <= States(n);
  }

  /** Removes dead ends until none is left.  `lost0` and `lost1` count the removals of dead ends of the
      environment and of the system: at most one each. */
  method StripDeadEnds(n: nat, plr: seq<int>, succs: seq<seq<nat>>)
    returns (v: set<nat>, w1acc: set<nat>, ghost r0: map<nat, nat>, ghost s0: map<nat, nat>,
             ghost r1: map<nat, nat>, ghost s1: map<nat, nat>, ghost lost0: nat, ghost lost1: nat)
    requires IsGraph(n, plr, succs)
    ensures Layers(n, plr, succs, v, r0, s0, r1, s1) && w1acc == r1.Keys
    ensures DeadEndFree(succs, v) && lost0 <= 1 && lost1 <= 1
  {
    hide Layers, OwnerMoves, Within, DeadEndFree;
    v := AllStates(n);
    w1acc, r0, s0, r1, s1, lost0, lost1 := {}, map[], map[], map[], map[], 0, 0;
    NothingRemoved(n, plr, succs);
    while true
      invariant Layers(n, plr, succs, v, r0, s0, r1, s1) && w1acc == r1.Keys
      invariant lost0 == 0 || (lost0 == 1 && OwnerMoves(plr, succs, v, 0))
      invariant lost1 == 0 || (lost1 == 1 && OwnerMoves(plr, succs, v, 1))
      decreases v
    {
      LayersWithin(n, plr, succs, v, r0, s0, r1, s1);
      var dSys, dEnv := StuckStates(v, n, plr, succs);
      if lost1 == 1 { NoneStuck(n, plr, succs, v, 1, dSys); }
      if lost0 == 1 { NoneStuck(n, plr, succs, v, 0, dEnv); }
      if dSys == {} && dEnv == {} {
        AllCanMove(n, plr, succs, v, dSys, dEnv);
        break;
      }
      if dSys != {} {
        v, r0, s0 := RemoveSystemDeadEnds(dSys, v, n, plr, succs, r0, s0, r1, s1);
        lost1 := lost1 + 1;
        continue;
      }
      v, w1acc, r1, s1 := RemoveEnvironmentDeadEnds(dEnv, v, n, plr, succs, w1acc, r0, s0, r1, s1);
      lost0 := lost0 + 1;
    }
  }

  /** The states player 1 wins.  With non-negative priorities these are exactly the states from which
      player 1 has a winning strategy; player 0 wins from every other, and `s0`, `s1` are positional
      winning strategies. */
  method WinPlayer1(g: ParityGame) returns (w1: set<nat>, ghost s0: map<nat, nat>, ghost s1: map<nat, nat>)
    requires IsParityGame(g)
    ensures w1 <= States(g.nStates)
    ensures NonNegativeOn(g.priority, States(g.nStates)) ==>
              forall s: nat :: s < g.nStates ==>
                && (s in w1 <==> HasWinningStrategy(ParityArena(g), 1, s))
                && (s !in w1 <==> HasWinningStrategy(ParityArena(g), 0, s))
    ensures NonNegativeOn(g.priority, States(g.nStates)) ==>
              Solved(g.player, g.priority, g.succs, States(g.nStates), States(g.nStates) - w1, w1, s0, s1)
  {
    var v, w1acc;
    ghost var r0, t0, r1, t1, lost0, lost1;
    v, w1acc, r0, t0, r1, t1, lost0, lost1 := StripDeadEnds(g.nStates, g.player, g.succs);
    var w0, w1v;
    ghost var z0, z1;
    w0, w1v, z0, z1 := Solve(v, g.nStates, g.player, g.priority, g.succs);
    w1 := w1v + w1acc;
    s0, s1 := JoinStrategy(w0, z0, t0), JoinStrategy(w1v, z1, t1);
    if NonNegativeOn(g.priority, States(g.nStates)) {
      FinalSplit(g.nStates, g.player, g.priority, g.succs, v, r0, t0, r1, t1, w0, w1v, z0, z1);
      assert w0 + r0.Keys == States(g.nStates) - w1;
      forall s: nat | s < g.nStates
        ensures (s in w1 <==> HasWinningStrategy(ParityArena(g), 1, s))
                && (s !in w1 <==> HasWinningStrategy(ParityArena(g), 0, s))
      {
        Determined(g, States(g.nStates) - w1, w1, s0, s1, s);
      }
    }
  }
}
