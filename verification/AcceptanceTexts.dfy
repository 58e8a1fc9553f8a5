/** Which texts the reader of acceptance conditions takes. */
module AcceptanceTexts {
  import opened Acceptance

  /** What is skipped is blank. */
  lemma {:induction false} SkipWsBlank(s: string, i: nat)
    requires i <= |s|
    ensures AllSpace(s[i..SkipWs(s, i)])
    decreases |s| - i
  {
    var j := SkipWs(s, i);
    if i < |s| && IsSpace(s[i]) {
      SkipWsBlank(s, i + 1);
      assert s[i..j] == [s[i]] + s[i + 1..j];
    } else {
      assert s[i..j] == "";
    }
  }

  lemma {:induction false} FindCloseFirst(s: string, i: nat)
    requires i <= |s|
    ensures ')' !in s[i..FindClose(s, i)] && (FindClose(s, i) < |s| ==> s[FindClose(s, i)] == ')')
    decreases |s| - i
  {
    var j := FindClose(s, i);
    if i < |s| && s[i] != ')' {
      FindCloseFirst(s, i + 1);
      assert s[i..j] == [s[i]] + s[i + 1..j];
    } else {
      assert s[i..j] == "";
    }
  }

  lemma SliceJoin(s: string, i: nat, j: nat, k: nat)
    requires i <= j <= k <= |s|
    ensures s[i..j] + s[j..k] == s[i..k]
  {
  }

  lemma OneChar(s: string, i: nat)
    requires i < |s|
    ensures s[i..i + 1] == [s[i]]
  {
  }

  /** `c` spells the text from `i` to `e`, where a reading of value `v` ends. */
  ghost predicate SpellsPart(c: Spelling, s: string, i: nat, e: nat, v: bool) {
    i <= e <= |s| && IsReadable(c) && Flatten(c) == s[i..e] && Worth(c) == v
  }

  /** What is read as an operand is spelt by one. */
  lemma {:induction false} PrimSpelt(s: string, i: nat) returns (c: Spelling)
    requires i <= |s| && !Prim(s, i).failed
    ensures Level(c) == 2 && SpellsPart(c, s, i, Prim(s, i).next, Prim(s, i).value)
    decreases |s| - i, 1
  {
    hide Conj, Disj, ConjTail, DisjTail, FindClose, Flatten, Worth, IsReadable;
    var j := SkipWs(s, i);
    SkipWsBlank(s, i);
    if s[j] == '(' {
      var body, e := DisjSpelt(s, j + 1);
      c := GroupSpelt(s, i, j, body, e);
    } else if s[j] == '!' {
      var arg := PrimSpelt(s, j + 1);
      c := NegationSpelt(s, i, j, arg);
    } else if s[j] == 't' || s[j] == 'f' {
      c := ConstantSpelt(s, i, j);
    } else {
      c := KeywordSpelt(s, i, j);
    }
  }

  lemma ConstantSpelt(s: string, i: nat, j: nat) returns (c: Spelling)
    requires i <= |s| && j == SkipWs(s, i) && j < |s| && AllSpace(s[i..j]) && (s[j] == 't' || s[j] == 'f')
    ensures Level(c) == 2 && SpellsPart(c, s, i, Prim(s, i).next, Prim(s, i).value)
  {
    hide Conj, Disj, ConjTail, DisjTail, FindClose;
    c := Constant(s[i..j], s[j] == 't');
    OneChar(s, j);
    SliceJoin(s, i, j, j + 1);
  }

  lemma NegationSpelt(s: string, i: nat, j: nat, arg: Spelling) returns (c: Spelling)
    requires i <= |s| && j == SkipWs(s, i) && j < |s| && AllSpace(s[i..j]) && s[j] == '!' && Level(arg) == 2
    requires SpellsPart(arg, s, j + 1, Prim(s, j + 1).next, Prim(s, j + 1).value)
    ensures Level(c) == 2 && SpellsPart(c, s, i, Prim(s, i).next, Prim(s, i).value)
  {
    hide Prim, SkipWs;
    PrimOfNegation(s, i, j);
    c := Negation(s[i..j], arg);
    NegationText(s, i, j, Prim(s, j + 1).next);
  }

  lemma PrimOfNegation(s: string, i: nat, j: nat)
    requires i <= |s| && j == SkipWs(s, i) && j < |s| && s[j] == '!'
    ensures var r := Prim(s, j + 1); Prim(s, i) == Reading(!r.value, r.next, r.failed)
  {
    hide Conj, Disj, ConjTail, DisjTail, FindClose;
  }

  lemma NegationText(s: string, i: nat, j: nat, e: nat)
    requires i <= j < e <= |s| && s[j] == '!'
    ensures s[i..j] + ("!" + s[j + 1..e]) == s[i..e]
  {
    OneChar(s, j);
    SliceJoin(s, j, j + 1, e);
    SliceJoin(s, i, j, e);
  }

  lemma KeywordSpelt(s: string, i: nat, j: nat) returns (c: Spelling)
    requires i <= |s| && j == SkipWs(s, i) && !Prim(s, i).failed && j < |s| && AllSpace(s[i..j])
    requires s[j] != '(' && s[j] != '!' && s[j] != 't' && s[j] != 'f'
    ensures Level(c) == 2 && SpellsPart(c, s, i, Prim(s, i).next, Prim(s, i).value)
  {
    hide Conj, Disj, ConjTail, DisjTail, FindClose;
    var close := FindClose(s, j + 3);
    FindCloseFirst(s, j + 3);
    c := Skipped(s[i..j], s[j] == 'F', s[j + 3..close]);
    KeywordText(s, i, j, close);
  }

  lemma KeywordText(s: string, i: nat, j: nat, close: nat)
    requires i <= j && j + 3 <= close < |s| && s[close] == ')' && (StartsWith(s, j, "Inf") || StartsWith(s, j, "Fin"))
    ensures s[i..j] + (Keyword(s[j] == 'F') + (s[j + 3..close] + ")")) == s[i..close + 1]
  {
    assert s[j] == s[j..j + 3][0];
    assert s[j..j + 3] == Keyword(s[j] == 'F');
    OneChar(s, close);
    SliceJoin(s, j + 3, close, close + 1);
    SliceJoin(s, j, j + 3, close + 1);
    SliceJoin(s, i, j, close + 1);
  }

  lemma GroupSpelt(s: string, i: nat, j: nat, body: Spelling, e: nat) returns (c: Spelling)
    requires i <= |s| && j == SkipWs(s, i) && j < |s| && !Prim(s, i).failed && AllSpace(s[i..j]) && s[j] == '('
    requires SpellsPart(body, s, j + 1, e, Disj(s, j + 1).value) && SkipWs(s, e) == Disj(s, j + 1).next
    ensures Level(c) == 2 && SpellsPart(c, s, i, Prim(s, i).next, Prim(s, i).value)
  {
    hide Prim, Disj, SkipWs;
    var k := SkipWs(s, Disj(s, j + 1).next);
    PrimOfGroup(s, i, j, k);
    SkipWsStops(s, e);
    SkipWsBlank(s, e);
    c := Group(s[i..j], body, s[e..k]);
    GroupText(s, i, j, e, k);
  }

  lemma PrimOfGroup(s: string, i: nat, j: nat, k: nat)
    requires i <= |s| && j == SkipWs(s, i) && j < |s| && !Prim(s, i).failed && s[j] == '('
    requires k == SkipWs(s, Disj(s, j + 1).next)
    ensures k < |s| && s[k] == ')' && Prim(s, i) == Reading(Disj(s, j + 1).value, k + 1, false)
  {
    hide Conj, Disj, ConjTail, DisjTail, FindClose;
  }

  lemma GroupText(s: string, i: nat, j: nat, e: nat, k: nat)
    requires i <= j < e <= k < |s| && s[j] == '(' && s[k] == ')'
    ensures s[i..j] + ("(" + (s[j + 1..e] + (s[e..k] + ")"))) == s[i..k + 1]
  {
    OneChar(s, j);
    OneChar(s, k);
    SliceJoin(s, e, k, k + 1);
    SliceJoin(s, j + 1, e, k + 1);
    SliceJoin(s, j, j + 1, k + 1);
    SliceJoin(s, i, j, k + 1);
  }

  lemma InfixText(s: string, i: nat, e: nat, o: nat, f: nat)
    requires i <= e <= o < f <= |s|
    ensures s[i..e] + (s[e..o] + ([s[o]] + s[o + 1..f])) == s[i..f]
  {
    OneChar(s, o);
    SliceJoin(s, o, o + 1, f);
    SliceJoin(s, e, o, f);
    SliceJoin(s, i, e, f);
  }

  /** What is read as a conjunction is spelt by one, up to the blanks after it. */
  lemma {:induction false} ConjSpelt(s: string, i: nat) returns (c: Spelling, e: nat)
    requires i <= |s| && !Conj(s, i).failed
    ensures Level(c) >= 1 && SpellsPart(c, s, i, e, Conj(s, i).value) && SkipWs(s, e) == Conj(s, i).next
    decreases |s| - i, 2
  {
    hide Prim, ConjTail, Disj, DisjTail, Flatten, Worth, IsReadable;
    var r := Prim(s, i);
    TailFails(s, SkipWs(s, r.next), r.value);
    var first := PrimSpelt(s, i);
    c, e := ConjTailSpelt(s, i, first, r.next, SkipWs(s, r.next));
  }

  lemma TailFails(s: string, i: nat, v: bool)
    requires i <= |s|
    ensures ConjTail(s, i, v, true).failed && DisjTail(s, i, v, true).failed
  {
  }

  lemma {:induction false} ConjTailSpelt(s: string, i: nat, left: Spelling, e0: nat, o: nat)
    returns (c: Spelling, e: nat)
    requires Level(left) >= 1 && SpellsPart(left, s, i, e0, Worth(left)) && o == SkipWs(s, e0)
    requires !ConjTail(s, o, Worth(left), false).failed
    ensures var r := ConjTail(s, o, Worth(left), false);
            Level(c) >= 1 && SpellsPart(c, s, i, e, r.value) && SkipWs(s, e) == r.next
    decreases |s| - o, 1
  {
    hide Prim, Conj, Disj, DisjTail;
    c, e := left, e0;
    if o < |s| && s[o] == '&' {
      var r := Prim(s, o + 1);
      TailFails(s, SkipWs(s, r.next), r.value && Worth(left));
      var right := PrimSpelt(s, o + 1);
      SkipWsBlank(s, e0);
      InfixText(s, i, e0, o, r.next);
      c, e := ConjTailSpelt(s, i, Conjunction(left, s[e0..o], right), r.next, SkipWs(s, r.next));
    } else {
      SkipWsStops(s, e0);
    }
  }

  lemma {:induction false} DisjSpelt(s: string, i: nat) returns (c: Spelling, e: nat)
    requires i <= |s| && !Disj(s, i).failed
    ensures SpellsPart(c, s, i, e, Disj(s, i).value) && SkipWs(s, e) == Disj(s, i).next
    decreases |s| - i, 4
  {
    hide Prim, ConjTail, Conj, DisjTail, Flatten, Worth, IsReadable;
    var r := Conj(s, i);
    TailFails(s, SkipWs(s, r.next), r.value);
    var first, e0 := ConjSpelt(s, i);
    SkipWsStops(s, e0);
    c, e := DisjTailSpelt(s, i, first, e0, r.next);
  }

  lemma {:induction false} DisjTailSpelt(s: string, i: nat, left: Spelling, e0: nat, o: nat)
    returns (c: Spelling, e: nat)
    requires SpellsPart(left, s, i, e0, Worth(left)) && o == SkipWs(s, e0)
    requires !DisjTail(s, o, Worth(left), false).failed
    ensures var r := DisjTail(s, o, Worth(left), false); SpellsPart(c, s, i, e, r.value) && SkipWs(s, e) == r.next
    decreases |s| - o, 3
  {
    hide Prim, Conj, Disj, ConjTail;
    c, e := left, e0;
    if o < |s| && s[o] == '|' {
      var r := Conj(s, o + 1);
      TailFails(s, SkipWs(s, r.next), r.value || Worth(left));
      var right, f := ConjSpelt(s, o + 1);
      SkipWsBlank(s, e0);
      SkipWsStops(s, f);
      InfixText(s, i, e0, o, f);
      c, e := DisjTailSpelt(s, i, Disjunction(left, s[e0..o], right), f, SkipWs(s, r.next));
    } else {
      SkipWsStops(s, e0);
    }
  }

  /** `text` is readable, with the value `v`. */
  ghost predicate IsReadableAs(text: string, v: bool) {
    exists c: Spelling, after: string :: IsReadableText(c, after, text, v)
  }

  ghost predicate IsReadableText(c: Spelling, after: string, text: string, v: bool) {
    IsReadable(c) && AllSpace(after) && text == Flatten(c) + after && Worth(c) == v
  }

  /** The reader gives the value `v` exactly to the texts that are readable with the value `v`. */
  lemma ReadIffReadable(text: string, v: bool)
    ensures ReadWithoutColors(text) == Value(v) <==> IsReadableAs(text, v)
  {
    if ReadWithoutColors(text) == Value(v) {
      var c, e := DisjSpelt(text, 0);
      SkipWsStops(text, e);
      SkipWsBlank(text, e);
      assert IsReadableText(c, text[e..], text, v);
    }
    if c, after :| IsReadableText(c, after, text, v) {
      ReadableReads(c, after, text);
    }
  }
}
