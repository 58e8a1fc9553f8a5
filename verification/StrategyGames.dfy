/** Turn-based games of infinite duration between player 0 (the environment) and player 1 (the
    system).  A play is a start position and the moves made from it.  A player who cannot move
    loses; the winner of an infinite play is fixed by `won`.  Strategies read the whole history. */
module StrategyGames {

  datatype Arena<!P, !M> = Arena(
    owner: P -> int,
    legal: (P, M) -> bool,
    target: (P, M) -> P,
    won: (int, P, nat -> M) -> bool)

  type Strategy<!M> = seq<M> -> M

  /** The position reached from `s` by the moves `h`. */
  ghost function After<P, M>(a: Arena<P, M>, s: P, h: seq<M>): P {
    if h == [] then s else a.target(After(a, s, h[..|h| - 1]), h[|h| - 1])
  }

  ghost function Prefix<M>(mv: nat -> M, n: nat): (h: seq<M>)
    ensures |h| == n && forall i :: 0 <= i < n ==> h[i] == mv(i)
  {
    seq(n, i requires 0 <= i => mv(i))
  }

  /** The position of the play `mv` from `s` before its `t`-th move. */
  ghost function Position<P, M>(a: Arena<P, M>, s: P, mv: nat -> M, t: nat): P {
    After(a, s, Prefix(mv, t))
  }

  ghost predicate Allowed<P, M>(a: Arena<P, M>, p: int, sigma: Strategy<M>, s: P, h: seq<M>, m: M) {
    a.legal(After(a, s, h), m) && (a.owner(After(a, s, h)) == p ==> m == sigma(h))
  }

  ghost predicate ConsistentHistory<P, M>(a: Arena<P, M>, p: int, sigma: Strategy<M>, s: P, h: seq<M>) {
    h != [] ==>
      && ConsistentHistory(a, p, sigma, s, h[..|h| - 1])
      && Allowed(a, p, sigma, s, h[..|h| - 1], h[|h| - 1])
  }

  ghost predicate ConsistentPlay<P, M>(a: Arena<P, M>, p: int, sigma: Strategy<M>, s: P, mv: nat -> M) {
    forall t: nat :: Allowed(a, p, sigma, s, Prefix(mv, t), mv(t))
  }

  /** Following `sigma` from `s`, player `p` can always move when it is its turn, and wins every
      infinite play. */
  ghost predicate Wins<P(!new), M(!new)>(a: Arena<P, M>, p: int, sigma: Strategy<M>, s: P) {
    && (forall h: seq<M> :: ConsistentHistory(a, p, sigma, s, h) && a.owner(After(a, s, h)) == p
          ==> a.legal(After(a, s, h), sigma(h)))
    && (forall mv: nat -> M :: ConsistentPlay(a, p, sigma, s, mv) ==> a.won(p, s, mv))
  }

  ghost predicate HasWinningStrategy<P(!new), M(!new)>(a: Arena<P, M>, p: int, s: P) {
    exists sigma: Strategy<M> :: Wins(a, p, sigma, s)
  }

  lemma PositionStep<P, M>(a: Arena<P, M>, s: P, mv: nat -> M, t: nat)
    ensures Position(a, s, mv, 0) == s
    ensures Position(a, s, mv, t + 1) == a.target(Position(a, s, mv, t), mv(t))
  {
    assert Prefix(mv, t + 1)[..t] == Prefix(mv, t);
  }

  // The play in which both players follow their strategies.

  ghost function Duel<P, M>(a: Arena<P, M>, s: P, s0: Strategy<M>, s1: Strategy<M>, k: nat): (h: seq<M>)
    ensures |h| == k
  {
    if k == 0 then []
    else
      var h := Duel(a, s, s0, s1, k - 1);
      h + [if a.owner(After(a, s, h)) == 0 then s0(h) else s1(h)]
  }

  ghost function DuelPlay<P, M>(a: Arena<P, M>, s: P, s0: Strategy<M>, s1: Strategy<M>): nat -> M {
    (t: nat) => Duel(a, s, s0, s1, t + 1)[t]
  }

  lemma {:induction false} DuelStable<P, M>(a: Arena<P, M>, s: P, s0: Strategy<M>, s1: Strategy<M>, i: nat, k: nat)
    requires i < k
    ensures Duel(a, s, s0, s1, k)[i] == DuelPlay(a, s, s0, s1)(i)
  {
    if i + 1 < k {
      DuelStable(a, s, s0, s1, i, k - 1);
    }
  }

  lemma DuelPrefix<P, M>(a: Arena<P, M>, s: P, s0: Strategy<M>, s1: Strategy<M>, k: nat)
    ensures Prefix(DuelPlay(a, s, s0, s1), k) == Duel(a, s, s0, s1, k)
  {
    forall i | 0 <= i < k
      ensures Prefix(DuelPlay(a, s, s0, s1), k)[i] == Duel(a, s, s0, s1, k)[i]
    {
      DuelStable(a, s, s0, s1, i, k);
    }
  }

  lemma {:induction false} DuelConsistent<P(!new), M(!new)>(a: Arena<P, M>, s: P, s0: Strategy<M>, s1: Strategy<M>,
                                                            k: nat)
    requires forall v :: a.owner(v) == 0 || a.owner(v) == 1
    requires Wins(a, 0, s0, s) && Wins(a, 1, s1, s)
    ensures ConsistentHistory(a, 0, s0, s, Duel(a, s, s0, s1, k))
    ensures ConsistentHistory(a, 1, s1, s, Duel(a, s, s0, s1, k))
  {
    if k > 0 {
      DuelConsistent(a, s, s0, s1, k - 1);
      var h := Duel(a, s, s0, s1, k - 1);
      assert Duel(a, s, s0, s1, k)[..k - 1] == h;
    }
  }

  lemma DuelAllowed<P(!new), M(!new)>(a: Arena<P, M>, s: P, s0: Strategy<M>, s1: Strategy<M>, t: nat)
    requires forall v :: a.owner(v) == 0 || a.owner(v) == 1
    requires Wins(a, 0, s0, s) && Wins(a, 1, s1, s)
    ensures var mv := DuelPlay(a, s, s0, s1);
            Allowed(a, 0, s0, s, Prefix(mv, t), mv(t)) && Allowed(a, 1, s1, s, Prefix(mv, t), mv(t))
  {
    DuelPrefix(a, s, s0, s1, t);
    DuelConsistent(a, s, s0, s1, t);
    DuelStable(a, s, s0, s1, t, t + 1);
  }

  /** The two players cannot both win from the same position. */
  lemma NotBothWin<P(!new), M(!new)>(a: Arena<P, M>, s: P)
    requires forall v :: a.owner(v) == 0 || a.owner(v) == 1
    requires forall mv: nat -> M :: !(a.won(0, s, mv) && a.won(1, s, mv))
    ensures !(HasWinningStrategy(a, 0, s) && HasWinningStrategy(a, 1, s))
  {
    if HasWinningStrategy(a, 0, s) && HasWinningStrategy(a, 1, s) {
      var s0 :| Wins(a, 0, s0, s);
      var s1 :| Wins(a, 1, s1, s);
      var mv := DuelPlay(a, s, s0, s1);
      assert ConsistentPlay(a, 0, s0, s, mv) && ConsistentPlay(a, 1, s1, s, mv) by {
        forall t: nat
          ensures Allowed(a, 0, s0, s, Prefix(mv, t), mv(t)) && Allowed(a, 1, s1, s, Prefix(mv, t), mv(t))
        {
          DuelAllowed(a, s, s0, s1, t);
        }
      }
    }
  }
}
