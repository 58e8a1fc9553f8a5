/** What an infinite sequence of numbers does in the limit: which values recur, and which
    recurring value is the greatest.  Parity conditions are statements about the latter. */
module Recurrence {

  ghost predicate HitsFrom(w: nat -> int, c: int, n: nat) {
    exists i: nat :: n <= i && w(i) == c
  }

  /** `c` occurs infinitely often. */
  ghost predicate Recurs(w: nat -> int, c: int) {
    forall n: nat :: HitsFrom(w, c, n)
  }

  ghost predicate BoundedFrom(w: nat -> int, c: int, n: nat) {
    forall i: nat :: n <= i ==> w(i) <= c
  }

  /** `c` is the greatest value that occurs infinitely often. */
  ghost predicate Dominates(w: nat -> int, c: int) {
    Recurs(w, c) && exists n: nat :: BoundedFrom(w, c, n)
  }

  /** The greatest recurring value has the parity of player `p`. */
  ghost predicate ParityOf(w: nat -> int, p: int) {
    exists c: int :: Dominates(w, c) && c % 2 == p
  }

  lemma DominantIsUnique(w: nat -> int, c: int, d: int)
    requires Dominates(w, c) && Dominates(w, d)
    ensures c == d
  {
    var m: nat :| BoundedFrom(w, c, m);
    var n: nat :| BoundedFrom(w, d, n);
    assert HitsFrom(w, c, n) && HitsFrom(w, d, m);
  }

  lemma OnlyOneParity(w: nat -> int)
    ensures !(ParityOf(w, 0) && ParityOf(w, 1))
  {
    if ParityOf(w, 0) && ParityOf(w, 1) {
      var c: int :| Dominates(w, c) && c % 2 == 0;
      var d: int :| Dominates(w, d) && d % 2 == 1;
      DominantIsUnique(w, c, d);
    }
  }

  /** A bounded sequence of naturals has a greatest recurring value. */
  lemma {:induction false} DominantExists(w: nat -> int, b: int, n: nat)
    requires b >= -1
    requires BoundedFrom(w, b, n) && forall i: nat :: w(i) >= 0
    ensures exists c: int :: Dominates(w, c)
    decreases b + 1
  {
    assert 0 <= w(n) <= b;
    if Recurs(w, b) {
      assert Dominates(w, b);
    } else {
      var m: nat :| !HitsFrom(w, b, m);
      var k := if m < n then n else m;
      assert BoundedFrom(w, b - 1, k);
      DominantExists(w, b - 1, k);
    }
  }

  function Drop(w: nat -> int, k: nat): nat -> int {
    (i: nat) => w(i + k)
  }

  lemma DropShifts(w: nat -> int, k: nat, c: int, n: nat)
    ensures HitsFrom(Drop(w, k), c, n) <==> HitsFrom(w, c, n + k)
    ensures BoundedFrom(Drop(w, k), c, n) <==> BoundedFrom(w, c, n + k)
  {
    var v := Drop(w, k);
    if HitsFrom(v, c, n) {
      var i: nat :| n <= i && v(i) == c;
      assert w(i + k) == c;
    }
    if HitsFrom(w, c, n + k) {
      var i: nat :| n + k <= i && w(i) == c;
      assert v(i - k) == c;
    }
    if BoundedFrom(v, c, n) {
      forall i: nat | n + k <= i ensures w(i) <= c {
        assert v(i - k) <= c;
      }
    }
    if BoundedFrom(w, c, n + k) {
      forall i: nat | n <= i ensures v(i) <= c {
        assert w(i + k) <= c;
      }
    }
  }

  /** Dropping a finite prefix does not change the greatest recurring value. */
  lemma SuffixDominates(w: nat -> int, k: nat, c: int)
    ensures Dominates(Drop(w, k), c) <==> Dominates(w, c)
  {
    var v := Drop(w, k);
    if Dominates(v, c) {
      forall n: nat ensures HitsFrom(w, c, n) {
        DropShifts(w, k, c, n);
        assert HitsFrom(v, c, n);
        assert HitsFrom(w, c, n + k);
      }
      var n: nat :| BoundedFrom(v, c, n);
      DropShifts(w, k, c, n);
    }
    if Dominates(w, c) {
      forall n: nat ensures HitsFrom(v, c, n) {
        DropShifts(w, k, c, n);
      }
      var n: nat :| BoundedFrom(w, c, n);
      DropShifts(w, k, c, n);
      assert BoundedFrom(w, c, n + k);
    }
  }

  lemma SuffixParity(w: nat -> int, k: nat, p: int)
    ensures ParityOf(Drop(w, k), p) <==> ParityOf(w, p)
  {
    forall c: int { SuffixDominates(w, k, c); }
  }

  /** Sequences with the same values have the same greatest recurring value. */
  lemma SameParity(v: nat -> int, w: nat -> int, p: int)
    requires forall i: nat :: v(i) == w(i)
    ensures ParityOf(v, p) <==> ParityOf(w, p)
  {
    if ParityOf(v, p) {
      var c: int :| Dominates(v, c) && c % 2 == p;
      SameDominant(v, w, c);
    }
    if ParityOf(w, p) {
      var c: int :| Dominates(w, c) && c % 2 == p;
      SameDominant(w, v, c);
    }
  }

  lemma SameDominant(v: nat -> int, w: nat -> int, c: int)
    requires forall i: nat :: v(i) == w(i)
    requires Dominates(v, c)
    ensures Dominates(w, c)
  {
    forall n: nat ensures HitsFrom(w, c, n) {
      assert HitsFrom(v, c, n);
      var i: nat :| n <= i && v(i) == c;
      assert w(i) == c;
    }
    var n: nat :| BoundedFrom(v, c, n);
    assert BoundedFrom(w, c, n);
  }

  // Two sequences side by side: the weights of the states and of the edges of a play.

  ghost predicate PairDominates(sw: nat -> int, ew: nat -> int, c: int) {
    && (Recurs(sw, c) || Recurs(ew, c))
    && exists n: nat :: BoundedFrom(sw, c, n) && BoundedFrom(ew, c, n)
  }

  /** The greatest value that recurs in either sequence has parity `p`. */
  ghost predicate PairParity(sw: nat -> int, ew: nat -> int, p: int) {
    exists c: int :: PairDominates(sw, ew, c) && c % 2 == p
  }

  lemma PairDominantIsUnique(sw: nat -> int, ew: nat -> int, c: int, d: int)
    requires PairDominates(sw, ew, c) && PairDominates(sw, ew, d)
    ensures c == d
  {
    var m: nat :| BoundedFrom(sw, c, m) && BoundedFrom(ew, c, m);
    var n: nat :| BoundedFrom(sw, d, n) && BoundedFrom(ew, d, n);
    assert HitsFrom(sw, c, n) || HitsFrom(ew, c, n);
    assert HitsFrom(sw, d, m) || HitsFrom(ew, d, m);
  }
}
