/** Attractors on a finite two-player graph: the worklist computation with degree counters, the
    naive closure loop used for dead ends, and the least closed set both compute. */
module Attractors {

  /** A graph with an owner (0 or 1) for every state. */
  ghost predicate IsGraph(n: nat, plr: seq<int>, succs: seq<seq<nat>>) {
    && |plr| == n && |succs| == n
    && (forall u :: 0 <= u < n ==> plr[u] == 0 || plr[u] == 1)
    && (forall u, k :: 0 <= u < n && 0 <= k < |succs[u]| ==> succs[u][k] < n)
  }

  ghost predicate Within(n: nat, s: set<nat>) {
    forall u :: u in s ==> u < n
  }

  ghost predicate Edge(succs: seq<seq<nat>>, u: nat, v: nat) {
    u < |succs| && v in succs[u]
  }

  /** One application of the two attractor rules: `p` can move into `s`, or its opponent can move
      and only into `s`. */
  ghost predicate Pulled(p: int, plr: seq<int>, succs: seq<seq<nat>>, s: set<nat>, u: nat)
    requires u < |plr| && u < |succs|
  {
    if plr[u] == p then exists v :: v in succs[u] && v in s
    else succs[u] != [] && forall v :: v in succs[u] ==> v in s
  }

  ghost predicate IsClosed(p: int, plr: seq<int>, succs: seq<seq<nat>>, s: set<nat>)
    requires |plr| == |succs|
  {
    forall u: nat :: u < |plr| && Pulled(p, plr, succs, s, u) ==> u in s
  }

  /** `a` is the least set that holds `t` and is closed under the attractor rules. */
  ghost predicate IsAttractor(p: int, plr: seq<int>, succs: seq<seq<nat>>, t: set<nat>, a: set<nat>)
    requires |plr| == |succs|
  {
    && t <= a && IsClosed(p, plr, succs, a)
    && forall s: set<nat> :: t <= s && IsClosed(p, plr, succs, s) ==> a <= s
  }

  lemma AttractorIsUnique(p: int, plr: seq<int>, succs: seq<seq<nat>>, t: set<nat>, a: set<nat>, b: set<nat>)
    requires |plr| == |succs|
    requires IsAttractor(p, plr, succs, t, a) && IsAttractor(p, plr, succs, t, b)
    ensures a == b
  {
    assert a <= b && b <= a;
  }

  // Ranks: every attracted state is pulled in by states of smaller rank.

  ghost predicate RankedAt(p: int, plr: seq<int>, succs: seq<seq<nat>>, a: set<nat>, rank: map<nat, nat>, u: nat)
    requires u < |plr| && u < |succs| && u in rank && rank.Keys == a
  {
    if plr[u] == p then exists v :: v in succs[u] && v in a && rank[v] < rank[u]
    else succs[u] != [] && forall v :: v in succs[u] ==> v in a && rank[v] < rank[u]
  }

  ghost predicate Ranked(p: int, plr: seq<int>, succs: seq<seq<nat>>, t: set<nat>, a: set<nat>, rank: map<nat, nat>)
    requires |plr| == |succs|
  {
    && rank.Keys == a
    && (forall u :: u in a && u !in t ==> u < |plr|)
    && forall u {:trigger RankedAt(p, plr, succs, a, rank, u)} :: u in a && u !in t ==>
         RankedAt(p, plr, succs, a, rank, u)
  }

  lemma {:induction false} RankedInside(p: int, plr: seq<int>, succs: seq<seq<nat>>, t: set<nat>, a: set<nat>,
                                        rank: map<nat, nat>, s: set<nat>, u: nat)
    requires |plr| == |succs| && Ranked(p, plr, succs, t, a, rank)
    requires t <= s && IsClosed(p, plr, succs, s)
    requires u in a
    ensures u in s
    decreases rank[u]
  {
    if u !in t {
      assert RankedAt(p, plr, succs, a, rank, u);
      forall v | v in succs[u] && v in a && rank[v] < rank[u] ensures v in s {
        RankedInside(p, plr, succs, t, a, rank, s, v);
      }
      assert Pulled(p, plr, succs, s, u);
    }
  }

  /** A ranked closed superset of the target is the attractor. */
  lemma RankedIsAttractor(p: int, plr: seq<int>, succs: seq<seq<nat>>, t: set<nat>, a: set<nat>, rank: map<nat, nat>)
    requires |plr| == |succs| && Ranked(p, plr, succs, t, a, rank)
    requires t <= a && IsClosed(p, plr, succs, a)
    ensures IsAttractor(p, plr, succs, t, a)
  {
    forall s: set<nat> | t <= s && IsClosed(p, plr, succs, s) ensures a <= s {
      forall u | u in a ensures u in s {
        RankedInside(p, plr, succs, t, a, rank, s, u);
      }
    }
  }

  /** Adding a pulled state above every rank keeps a ranking. */
  lemma RankAbove(p: int, plr: seq<int>, succs: seq<seq<nat>>, t: set<nat>, a: set<nat>, rank: map<nat, nat>, u: nat,
                  k: nat)
    requires |plr| == |succs| && Ranked(p, plr, succs, t, a, rank)
    requires u < |plr| && u !in a && Pulled(p, plr, succs, a, u)
    requires forall v :: v in a ==> rank[v] < k
    ensures Ranked(p, plr, succs, t, a + {u}, rank[u := k])
  {
    var a' := a + {u};
    var rank' := rank[u := k];
    forall x | x in a' && x !in t ensures x < |plr| && RankedAt(p, plr, succs, a', rank', x) {
      if x != u {
        assert RankedAt(p, plr, succs, a, rank, x);
        if plr[x] == p {
          var v :| v in succs[x] && v in a && rank[v] < rank[x];
          assert v in a' && rank'[v] < rank'[x];
        }
      } else if plr[u] == p {
        var v :| v in succs[u] && v in a;
        assert v in a' && rank'[v] < rank'[u];
      }
    }
  }

  ghost function TopRank(rank: map<nat, nat>): (top: nat)
    ensures forall v :: v in rank ==> rank[v] < top
    decreases rank.Keys
  {
    if rank.Keys == {} then 0
    else
      var x :| x in rank;
      var rest := TopRank(rank - {x});
      assert forall v :: v in rank && v != x ==> v in rank - {x} && rank[v] == (rank - {x})[v];
      if rank[x] < rest then rest else rank[x] + 1
  }

  /** A ranking extends to a newly pulled state. */
  lemma AddRanked(p: int, plr: seq<int>, succs: seq<seq<nat>>, t: set<nat>, a: set<nat>, rank: map<nat, nat>, u: nat)
    returns (rank': map<nat, nat>)
    requires |plr| == |succs| && Ranked(p, plr, succs, t, a, rank)
    requires u < |plr| && u !in a && Pulled(p, plr, succs, a, u)
    ensures Ranked(p, plr, succs, t, a + {u}, rank')
  {
    var top := TopRank(rank);
    RankAbove(p, plr, succs, t, a, rank, u, top);
    rank' := rank[u := top];
  }

  // The worklist attractor.

  /** The occurrences in `s` of states outside `done`. */
  ghost function CountOutside(s: seq<nat>, done: set<nat>): nat {
    if s == [] then 0 else CountOutside(s[..|s| - 1], done) + if s[|s| - 1] in done then 0 else 1
  }

  lemma {:induction false} CountOutsideZero(s: seq<nat>, done: set<nat>)
    ensures CountOutside(s, done) == 0 <==> forall v :: v in s ==> v in done
  {
    if s != [] {
      var h := s[..|s| - 1];
      CountOutsideZero(h, done);
      assert s == h + [s[|s| - 1]];
    }
  }

  lemma {:induction false} CountOutsideAdd(s: seq<nat>, done: set<nat>, v: nat)
    requires v !in done
    ensures CountOutside(s, done) == CountOutside(s, done + {v}) + multiset(s)[v]
  {
    if s != [] {
      var h := s[..|s| - 1];
      CountOutsideAdd(h, done, v);
      assert s == h + [s[|s| - 1]];
    }
  }

  lemma {:induction false} CountOutsideNone(s: seq<nat>)
    ensures CountOutside(s, {}) == |s|
  {
    if s != [] {
      CountOutsideNone(s[..|s| - 1]);
    }
  }

  /** Adds `u` to the predecessor list of each of its successors `su`, once per edge. */
  method AddPredecessor(n: nat, u: nat, su: seq<nat>, preds0: seq<seq<nat>>) returns (preds: seq<seq<nat>>)
    requires |preds0| == n && forall k :: 0 <= k < |su| ==> su[k] < n
    ensures |preds| == n
    ensures forall v: nat, x: nat :: v < n ==>
              multiset(preds[v])[x] == multiset(preds0[v])[x] + if x == u then multiset(su)[v] else 0
  {
    preds := preds0;
    for k := 0 to |su|
      invariant |preds| == n
      invariant forall v: nat, x: nat :: v < n ==>
                  multiset(preds[v])[x] == multiset(preds0[v])[x] + if x == u then multiset(su[..k])[v] else 0
    {
      var v := su[k];
      assert su[..k + 1] == su[..k] + [v];
      preds := preds[v := preds[v] + [u]];
    }
    assert su[..|su|] == su;
  }

  /** The predecessor lists of a graph, with the multiplicity of every edge. */
  method Predecessors(n: nat, succs: seq<seq<nat>>) returns (preds: seq<seq<nat>>)
    requires |succs| == n && forall u, k :: 0 <= u < n && 0 <= k < |succs[u]| ==> succs[u][k] < n
    ensures |preds| == n
    ensures forall u: nat, v: nat :: u < n && v < n ==> multiset(preds[v])[u] == multiset(succs[u])[v]
    ensures forall v: nat, u: nat :: v < n && u in preds[v] ==> u < n
  {
    preds := seq(n, _ => []);
    for u := 0 to n
      invariant |preds| == n
      invariant forall v: nat, x: nat :: v < n && x < u ==> multiset(preds[v])[x] == multiset(succs[x])[v]
      invariant forall v: nat, x: nat :: v < n && u <= x ==> multiset(preds[v])[x] == 0
    {
      preds := AddPredecessor(n, u, succs[u], preds);
    }
    forall v: nat, u: nat | v < n && u in preds[v] ensures u < n {
      assert multiset(preds[v])[u] > 0;
    }
  }

  /** The state of the worklist between two pops: `done` has been popped, `attr - done` waits. */
  ghost predicate WorklistState(p: int, plr: seq<int>, succs: seq<seq<nat>>, deg: seq<nat>, attr: set<nat>,
                                done: set<nat>)
    requires |plr| == |succs| == |deg|
  {
    && done <= attr
    && forall u: nat :: u < |plr| && u !in attr ==>
         if plr[u] == p then forall v :: v in succs[u] ==> v !in done
         else deg[u] == CountOutside(succs[u], done) && (deg[u] == 0 ==> succs[u] == [])
  }

  /** The worklist state while `v` is being popped and `rest` of its predecessors remain. */
  ghost predicate PopState(p: int, plr: seq<int>, succs: seq<seq<nat>>, deg: seq<nat>, attr: set<nat>, done: set<nat>,
                           v: nat, rest: seq<nat>)
    requires |plr| == |succs| == |deg|
  {
    && done <= attr && v in attr && v !in done
    && forall u: nat :: u < |plr| && u !in attr ==>
         if plr[u] == p then (forall x :: x in succs[u] ==> x !in done) && (v in succs[u] ==> u in rest)
         else && deg[u] == CountOutside(succs[u], done + {v}) + multiset(rest)[u]
              && (deg[u] == 0 ==> succs[u] == [])
  }

  lemma StartPop(p: int, plr: seq<int>, succs: seq<seq<nat>>, deg: seq<nat>, attr: set<nat>, done: set<nat>,
                 v: nat, preds: seq<nat>)
    requires |plr| == |succs| == |deg| && WorklistState(p, plr, succs, deg, attr, done)
    requires v in attr && v !in done
    requires forall u: nat :: u < |plr| ==> multiset(preds)[u] == multiset(succs[u])[v]
    ensures PopState(p, plr, succs, deg, attr, done, v, preds)
  {
    forall u: nat | u < |plr| && u !in attr
      ensures if plr[u] == p then v in succs[u] ==> u in preds
              else deg[u] == CountOutside(succs[u], done + {v}) + multiset(preds)[u]
    {
      CountOutsideAdd(succs[u], done, v);
      assert v in succs[u] <==> multiset(succs[u])[v] > 0;
      assert u in preds <==> multiset(preds)[u] > 0;
    }
  }

  lemma EndPop(p: int, plr: seq<int>, succs: seq<seq<nat>>, deg: seq<nat>, attr: set<nat>, done: set<nat>, v: nat)
    requires |plr| == |succs| == |deg| && PopState(p, plr, succs, deg, attr, done, v, [])
    ensures WorklistState(p, plr, succs, deg, attr, done + {v})
  {
  }

  /** With nothing left to pop, the attracted set is closed. */
  lemma EmptyWorklistClosed(p: int, plr: seq<int>, succs: seq<seq<nat>>, deg: seq<nat>, attr: set<nat>)
    requires |plr| == |succs| == |deg| && WorklistState(p, plr, succs, deg, attr, attr)
    ensures IsClosed(p, plr, succs, attr)
  {
    forall u: nat | u < |plr| && Pulled(p, plr, succs, attr, u) ensures u in attr {
      CountOutsideZero(succs[u], attr);
    }
  }

  /** One predecessor `u` of the popped state `v` is visited.  Returns whether it is attracted. */
  method VisitPredecessor(p: int, plr: seq<int>, succs: seq<seq<nat>>, deg: array<nat>, attr: set<nat>,
                          ghost done: set<nat>, v: nat, u: nat, ghost rest: seq<nat>) returns (pulled: bool)
    requires |plr| == |succs| == deg.Length && u < |plr| && v in succs[u]
    requires PopState(p, plr, succs, deg[..], attr, done, v, [u] + rest)
    modifies deg
    ensures pulled ==> u !in attr && Pulled(p, plr, succs, attr, u)
    ensures PopState(p, plr, succs, deg[..], if pulled then attr + {u} else attr, done, v, rest)
  {
    assert multiset([u] + rest) == multiset{u} + multiset(rest);
    pulled := false;
    if u in attr {
      return;
    }
    if plr[u] == p {
      pulled := true;
    } else {
      deg[u] := deg[u] - 1;
      CountOutsideZero(succs[u], done + {v});
      pulled := deg[u] == 0;
    }
  }

  ghost predicate NoRepeats(q: seq<nat>) {
    forall i, j :: 0 <= i < j < |q| ==> q[i] != q[j]
  }

  /** Pops `v`: visits every predecessor of `v` and queues those it attracts. */
  method Pop(p: int, ghost t: set<nat>, n: nat, plr: seq<int>, succs: seq<seq<nat>>, deg: array<nat>, v: nat,
             preds: seq<nat>, ghost done: set<nat>, attr0: set<nat>, queue0: seq<nat>, ghost rank0: map<nat, nat>)
    returns (attr: set<nat>, queue: seq<nat>, ghost rank: map<nat, nat>)
    requires IsGraph(n, plr, succs) && deg.Length == n && Within(n, attr0) && t <= attr0
    requires forall u: nat :: u < n ==> multiset(preds)[u] == multiset(succs[u])[v]
    requires forall u: nat :: u in preds ==> u < n
    requires WorklistState(p, plr, succs, deg[..], attr0, done) && v in attr0 && v !in done
    requires NoRepeats(queue0) && forall x :: x in queue0 <==> x in attr0 && x !in done && x != v
    requires Ranked(p, plr, succs, t, attr0, rank0)
    modifies deg
    ensures t <= attr && Within(n, attr)
    ensures WorklistState(p, plr, succs, deg[..], attr, done + {v})
    ensures NoRepeats(queue) && forall x :: x in queue <==> x in attr && x !in done + {v}
    ensures Ranked(p, plr, succs, t, attr, rank)
  {
    attr, queue, rank := attr0, queue0, rank0;
    StartPop(p, plr, succs, deg[..], attr, done, v, preds);
    for k := 0 to |preds|
      invariant attr0 <= attr && Within(n, attr)
      invariant NoRepeats(queue) && forall x :: x in queue <==> x in attr && x !in done && x != v
      invariant PopState(p, plr, succs, deg[..], attr, done, v, preds[k..])
      invariant Ranked(p, plr, succs, t, attr, rank)
    {
      var u := preds[k];
      assert u in preds && multiset(succs[u])[v] > 0;
      assert preds[k..] == [u] + preds[k + 1..];
      var pulled := VisitPredecessor(p, plr, succs, deg, attr, done, v, u, preds[k + 1..]);
      if pulled {
        rank := AddRanked(p, plr, succs, t, attr, rank, u);
        attr := attr + {u};
        queue := queue + [u];
      }
    }
    EndPop(p, plr, succs, deg[..], attr, done, v);
  }

  /** The attractor of `t` for player `p`, by a worklist over predecessor lists with a counter of
      the successors not yet processed.  `rank` orders the states by the time they were added. */
  method Attractor(p: int, t: set<nat>, n: nat, plr: seq<int>, succs: seq<seq<nat>>)
    returns (attr: set<nat>, ghost rank: map<nat, nat>)
    requires IsGraph(n, plr, succs) && Within(n, t)
    ensures IsAttractor(p, plr, succs, t, attr)
    ensures Within(n, attr)
    ensures Ranked(p, plr, succs, t, attr, rank)
  {
    var preds := Predecessors(n, succs);
    var deg := new nat[n](u requires 0 <= u < n => |succs[u]|);
    attr := t;
    rank := map u | u in t :: 0;
    ghost var done: set<nat> := {};
    var queue: seq<nat> := [];
    for u := 0 to n
      invariant NoRepeats(queue) && forall v :: v in queue <==> v in t && v < u
    {
      if u in t { queue := queue + [u]; }
    }
    forall u: nat | u < n ensures deg[u] == CountOutside(succs[u], {}) {
      CountOutsideNone(succs[u]);
    }
    while queue != []
      invariant t <= attr && Within(n, attr)
      invariant NoRepeats(queue) && forall v :: v in queue <==> v in attr && v !in done
      invariant WorklistState(p, plr, succs, deg[..], attr, done)
      invariant Ranked(p, plr, succs, t, attr, rank)
      decreases set u: nat | u < n && u !in done
    {
      var v := queue[|queue| - 1];
      assert v in queue && v < n;
      ghost var rest := queue[..|queue| - 1];
      assert queue == rest + [v];
      assert v !in rest;
      attr, queue, rank := Pop(p, t, n, plr, succs, deg, v, preds[v], done, attr, queue[..|queue| - 1], rank);
      ghost var was := set u: nat | u < n && u !in done;
      done := done + {v};
      assert v in was;
    }
    assert done == attr;
    EmptyWorklistClosed(p, plr, succs, deg[..], attr);
    RankedIsAttractor(p, plr, succs, t, attr, rank);
  }
}
