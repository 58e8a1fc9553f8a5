/** The bookkeeping outputs of the bit game: histories of streams and copies of their values at fixed
    steps, and the constraints that tie them to the streams. */
module Bookkeeping {
  import opened Names
  import opened Ltl

  type Key = (string, nat)

  function HistoryName(name: string, k: nat): string {
    "__h_" + name + "_" + Decimal(k)
  }

  function FixedName(name: string, k: nat): string {
    "__f_" + name + "_" + Decimal(k)
  }

  lemma {:induction false} NumberedInjective(a: string, i: nat, b: string, j: nat)
    requires a + "_" + Decimal(i) == b + "_" + Decimal(j)
    ensures a == b && i == j
  {
    var s, d, e := a + "_" + Decimal(i), Decimal(i), Decimal(j);
    assert |s| == |a| + 1 + |d| == |b| + 1 + |e|;
    assert s[|a|] == '_' && s[|b|] == '_';
    assert |a| == |b|;
    assert a == s[..|a|] == (b + "_" + e)[..|b|] == b;
    assert d == s[|a| + 1..] == (b + "_" + e)[|b| + 1..] == e;
    DecimalValue(i);
    DecimalValue(j);
  }

  /** No two bookkeeping outputs share a name. */
  lemma NamesInjective(a: Key, b: Key)
    ensures HistoryName(a.0, a.1) == HistoryName(b.0, b.1) ==> a == b
    ensures FixedName(a.0, a.1) == FixedName(b.0, b.1) ==> a == b
    ensures HistoryName(a.0, a.1) != FixedName(b.0, b.1)
  {
    var x, y := a.0 + "_" + Decimal(a.1), b.0 + "_" + Decimal(b.1);
    assert HistoryName(a.0, a.1)[4..] == x && HistoryName(b.0, b.1)[4..] == y;
    assert FixedName(a.0, a.1)[4..] == x && FixedName(b.0, b.1)[4..] == y;
    assert HistoryName(a.0, a.1)[2] == 'h' && FixedName(b.0, b.1)[2] == 'f';
    if x == y {
      NumberedInjective(a.0, a.1, b.0, b.1);
    }
  }

  /** The proposition one step less back than the history output `key`. */
  function PreviousName(key: Key): string {
    if key.1 <= 1 then key.0 else HistoryName(key.0, key.1 - 1)
  }

  // The tying constraints on a word.

  ghost predicate TiedAt(w: Word, key: Key, u: nat) {
    w(u, PreviousName(key)) == w(u + 1, HistoryName(key.0, key.1))
  }

  ghost predicate HistoryTied(w: Word, key: Key) {
    forall u: nat :: TiedAt(w, key, u)
  }

  ghost predicate FrozenAt(w: Word, key: Key, u: nat) {
    w(u, FixedName(key.0, key.1)) == w(u + 1, FixedName(key.0, key.1))
  }

  ghost predicate FixedTied(w: Word, key: Key) {
    w(key.1, FixedName(key.0, key.1)) == w(key.1, key.0) && forall u: nat :: FrozenAt(w, key, u)
  }

  /** Every history output but the first of a stream has the one before it. */
  ghost predicate Closed(history: set<Key>) {
    forall key :: key in history ==> key.1 >= 1 && (key.1 > 1 ==> (key.0, (key.1 - 1) as nat) in history)
  }

  ghost predicate Tied(w: Word, history: set<Key>, fixedAt: set<Key>) {
    (forall key :: key in history ==> HistoryTied(w, key)) && (forall key :: key in fixedAt ==> FixedTied(w, key))
  }

  /** The values of the streams before step 0: `pre(j, x)` is x at step -j. */
  type Past = (nat, string) -> bool

  ghost function StreamAt(s: Word, pre: Past, name: string, back: nat, t: nat): bool {
    if t >= back then s(t - back, name) else pre(back - t, name)
  }

  /** The past that the history outputs hold at step 0. */
  ghost function PastOf(w: Word): Past {
    (j: nat, name: string) => w(0, HistoryName(name, j))
  }

  /** On a tied word the history output `k` back is the stream `k` steps ago, and before step `k` the
      past the outputs held at step 0. */
  lemma {:induction false} HistoryHolds(w: Word, history: set<Key>, fixedAt: set<Key>, key: Key, t: nat)
    requires Tied(w, history, fixedAt) && Closed(history) && key in history
    ensures w(t, HistoryName(key.0, key.1)) == StreamAt(w, PastOf(w), key.0, key.1, t)
    decreases t
  {
    if t > 0 {
      var last := t - 1;
      assert HistoryTied(w, key) && TiedAt(w, key, last);
      if key.1 > 1 {
        HistoryHolds(w, history, fixedAt, (key.0, (key.1 - 1) as nat), last);
      }
    }
  }

  /** On a tied word the output of a fixed position holds the stream's value there at every step. */
  lemma {:induction false} FixedHolds(w: Word, key: Key, t: nat)
    requires FixedTied(w, key)
    ensures w(t, FixedName(key.0, key.1)) == w(key.1, key.0)
    decreases if t < key.1 then key.1 - t else t - key.1
  {
    if t < key.1 {
      assert FrozenAt(w, key, t);
      FixedHolds(w, key, t + 1);
    } else if t > key.1 {
      var last := t - 1;
      assert FrozenAt(w, key, last);
      FixedHolds(w, key, last);
    }
  }

  // Extending a word of the streams.

  ghost predicate IsHistoryName(history: set<Key>, n: string) {
    exists key :: key in history && HistoryName(key.0, key.1) == n
  }

  ghost predicate IsFixedName(fixedAt: set<Key>, n: string) {
    exists key :: key in fixedAt && FixedName(key.0, key.1) == n
  }

  ghost predicate IsBookkeeping(history: set<Key>, fixedAt: set<Key>, n: string) {
    IsHistoryName(history, n) || IsFixedName(fixedAt, n)
  }

  ghost function Extension(s: Word, pre: Past, history: set<Key>, fixedAt: set<Key>): Word {
    (u: nat, n: string) => ExtendedValue(s, pre, history, fixedAt, u, n)
  }

  ghost function ExtendedValue(s: Word, pre: Past, history: set<Key>, fixedAt: set<Key>, u: nat, n: string): bool {
    if IsHistoryName(history, n) then
      var key :| key in history && HistoryName(key.0, key.1) == n;
      StreamAt(s, pre, key.0, key.1, u)
    else if IsFixedName(fixedAt, n) then
      var key :| key in fixedAt && FixedName(key.0, key.1) == n;
      s(key.1, key.0)
    else s(u, n)
  }

  lemma ExtendedHistory(s: Word, pre: Past, history: set<Key>, fixedAt: set<Key>, key: Key, u: nat)
    requires key in history
    ensures ExtendedValue(s, pre, history, fixedAt, u, HistoryName(key.0, key.1)) == StreamAt(s, pre, key.0, key.1, u)
  {
    var n := HistoryName(key.0, key.1);
    forall other: Key | HistoryName(other.0, other.1) == n ensures other == key {
      NamesInjective(key, other);
    }
  }

  lemma ExtendedFixed(s: Word, pre: Past, history: set<Key>, fixedAt: set<Key>, key: Key, u: nat)
    requires key in fixedAt
    ensures ExtendedValue(s, pre, history, fixedAt, u, FixedName(key.0, key.1)) == s(key.1, key.0)
  {
    var n := FixedName(key.0, key.1);
    forall other: Key ensures HistoryName(other.0, other.1) != n
        && (FixedName(other.0, other.1) == n ==> other == key) {
      NamesInjective(other, key);
    }
  }

  /** No stream with a bookkeeping output is named like one. */
  ghost predicate Distinct(history: set<Key>, fixedAt: set<Key>) {
    forall key :: key in history || key in fixedAt ==> !IsBookkeeping(history, fixedAt, key.0)
  }

  /** One step back, the output copies the stream. */
  lemma FirstStepBack(s: Word, pre: Past, history: set<Key>, fixedAt: set<Key>, key: Key, u: nat)
    requires Distinct(history, fixedAt) && key in history && key.1 == 1
    ensures ExtendedValue(s, pre, history, fixedAt, u, key.0) ==
              ExtendedValue(s, pre, history, fixedAt, u + 1, HistoryName(key.0, key.1))
  {
    ExtendedHistory(s, pre, history, fixedAt, key, u + 1);
    assert !IsBookkeeping(history, fixedAt, key.0);
  }

  /** Further back, it copies the output before it. */
  lemma FurtherBack(s: Word, pre: Past, history: set<Key>, fixedAt: set<Key>, key: Key, last: Key, u: nat)
    requires last in history && key in history && key.0 == last.0 && key.1 == last.1 + 1
    ensures ExtendedValue(s, pre, history, fixedAt, u, HistoryName(last.0, last.1)) ==
              ExtendedValue(s, pre, history, fixedAt, u + 1, HistoryName(key.0, key.1))
  {
    ExtendedHistory(s, pre, history, fixedAt, key, u + 1);
    ExtendedHistory(s, pre, history, fixedAt, last, u);
  }

  lemma ExtensionOfHistory(s: Word, pre: Past, history: set<Key>, fixedAt: set<Key>, key: Key, u: nat)
    requires Closed(history) && Distinct(history, fixedAt) && key in history
    ensures TiedAt(Extension(s, pre, history, fixedAt), key, u)
  {
    hide ExtendedValue, HistoryName, Distinct;
    if key.1 > 1 {
      FurtherBack(s, pre, history, fixedAt, key, (key.0, (key.1 - 1) as nat), u);
    } else {
      FirstStepBack(s, pre, history, fixedAt, key, u);
    }
  }

  lemma ExtensionOfFixed(s: Word, pre: Past, history: set<Key>, fixedAt: set<Key>, key: Key)
    requires Distinct(history, fixedAt) && key in fixedAt
    ensures FixedTied(Extension(s, pre, history, fixedAt), key)
  {
    var w := Extension(s, pre, history, fixedAt);
    ExtendedFixed(s, pre, history, fixedAt, key, key.1);
    assert !IsBookkeeping(history, fixedAt, key.0);
    forall u: nat ensures FrozenAt(w, key, u) {
      ExtendedFixed(s, pre, history, fixedAt, key, u);
      ExtendedFixed(s, pre, history, fixedAt, key, u + 1);
    }
  }

  /** `w` carries the streams of `s`, and its history outputs hold the past `pre` at step 0. */
  ghost predicate Carries(w: Word, s: Word, pre: Past, history: set<Key>, fixedAt: set<Key>) {
    && (forall u: nat, n: string :: !IsBookkeeping(history, fixedAt, n) ==> w(u, n) == s(u, n))
    && (forall key :: key in history ==> w(0, HistoryName(key.0, key.1)) == pre(key.1, key.0))
  }

  /** Every word of the streams, with any past, extends to a tied word that carries both. */
  lemma ExtensionTied(s: Word, pre: Past, history: set<Key>, fixedAt: set<Key>)
    requires Closed(history) && Distinct(history, fixedAt)
    ensures Tied(Extension(s, pre, history, fixedAt), history, fixedAt)
    ensures Carries(Extension(s, pre, history, fixedAt), s, pre, history, fixedAt)
  {
    var w := Extension(s, pre, history, fixedAt);
    forall key | key in history ensures HistoryTied(w, key) {
      forall u: nat ensures TiedAt(w, key, u) {
        ExtensionOfHistory(s, pre, history, fixedAt, key, u);
      }
    }
    forall key | key in history ensures w(0, HistoryName(key.0, key.1)) == pre(key.1, key.0) {
      ExtendedHistory(s, pre, history, fixedAt, key, 0);
    }
    forall key | key in fixedAt ensures FixedTied(w, key) {
      ExtensionOfFixed(s, pre, history, fixedAt, key);
    }
  }
}
