/** Acceptance conditions in HOA syntax, and the reader that asks whether a condition holds for a run
    that sees no colour infinitely often. */
module Acceptance {
  import opened Names

  datatype Acc = T | F | Inf(color: nat) | Fin(color: nat) | Not(arg: Acc) | And(left: Acc, right: Acc)
      | Or(left: Acc, right: Acc)

  /** The condition on a run whose recurring colours are `seen`. */
  ghost predicate Holds(acc: Acc, seen: nat -> bool) {
    match acc
    case T => true
    case F => false
    case Inf(n) => seen(n)
    case Fin(n) => !seen(n)
    case Not(x) => !Holds(x, seen)
    case And(x, y) => Holds(x, seen) && Holds(y, seen)
    case Or(x, y) => Holds(x, seen) || Holds(y, seen)
  }

  /** The condition with every Inf false and every Fin true. */
  predicate Uncolored(acc: Acc) {
    match acc
    case T => true
    case F => false
    case Inf(_) => false
    case Fin(_) => true
    case Not(x) => !Uncolored(x)
    case And(x, y) => Uncolored(x) && Uncolored(y)
    case Or(x, y) => Uncolored(x) || Uncolored(y)
  }

  lemma {:induction false} UncoloredHolds(acc: Acc, seen: nat -> bool)
    requires forall n: nat :: !seen(n)
    ensures Holds(acc, seen) <==> Uncolored(acc)
  {
    match acc
    case Not(x) => UncoloredHolds(x, seen);
    case And(x, y) => UncoloredHolds(x, seen); UncoloredHolds(y, seen);
    case Or(x, y) => UncoloredHolds(x, seen); UncoloredHolds(y, seen);
    case _ =>
  }

  // The grammar the reader follows.

  /** std::isspace */
  predicate IsSpace(c: char) {
    c == ' ' || c == '\t' || c == '\n' || c == '\U{0B}' || c == '\U{0C}' || c == '\r'
  }

  function SkipWs(s: string, i: nat): (j: nat)
    requires i <= |s|
    ensures i <= j <= |s|
    decreases |s| - i
  {
    if i < |s| && IsSpace(s[i]) then SkipWs(s, i + 1) else i
  }

  /** The value read, the index after it, and whether the text is not a condition. */
  datatype Reading = Reading(value: bool, next: nat, failed: bool)

  /** The index of the first ')' from `i` on, |s| for none. */
  function FindClose(s: string, i: nat): (j: nat)
    requires i <= |s|
    ensures i <= j <= |s|
    decreases |s| - i
  {
    if i < |s| && s[i] != ')' then FindClose(s, i + 1) else i
  }

  predicate StartsWith(s: string, i: nat, kw: string) {
    i + |kw| <= |s| && s[i..i + |kw|] == kw
  }

  function Prim(s: string, i: nat): (r: Reading)
    requires i <= |s|
    ensures i <= r.next <= |s|
    decreases |s| - i, 0
  {
    var j := SkipWs(s, i);
    if j >= |s| then Reading(false, j, true)
    else if s[j] == '(' then
      var r := Disj(s, j + 1);
      var k := SkipWs(s, r.next);
      if k < |s| && s[k] == ')' then Reading(r.value, k + 1, r.failed) else Reading(r.value, k, true)
    else if s[j] == '!' then
      var r := Prim(s, j + 1);
      Reading(!r.value, r.next, r.failed)
    else if s[j] == 't' then Reading(true, j + 1, false)
    else if s[j] == 'f' then Reading(false, j + 1, false)
    else if StartsWith(s, j, "Inf") || StartsWith(s, j, "Fin") then
      var close := FindClose(s, j + 3);
      if close == |s| then Reading(false, j + 3, true) else Reading(s[j] == 'F', close + 1, false)
    else Reading(false, j, true)
  }

  function ConjTail(s: string, i: nat, v: bool, failed: bool): (r: Reading)
    requires i <= |s|
    ensures i <= r.next <= |s|
    decreases |s| - i, 1
  {
    if !failed && i < |s| && s[i] == '&' then
      var r := Prim(s, i + 1);
      ConjTail(s, SkipWs(s, r.next), r.value && v, r.failed)
    else Reading(v, i, failed)
  }

  function Conj(s: string, i: nat): (r: Reading)
    requires i <= |s|
    ensures i <= r.next <= |s|
    decreases |s| - i, 2
  {
    var r := Prim(s, i);
    ConjTail(s, SkipWs(s, r.next), r.value, r.failed)
  }

  function DisjTail(s: string, i: nat, v: bool, failed: bool): (r: Reading)
    requires i <= |s|
    ensures i <= r.next <= |s|
    decreases |s| - i, 3
  {
    if !failed && i < |s| && s[i] == '|' then
      var r := Conj(s, i + 1);
      DisjTail(s, SkipWs(s, r.next), r.value || v, r.failed)
    else Reading(v, i, failed)
  }

  function Disj(s: string, i: nat): (r: Reading)
    requires i <= |s|
    ensures i <= r.next <= |s|
    decreases |s| - i, 4
  {
    var r := Conj(s, i);
    DisjTail(s, SkipWs(s, r.next), r.value, r.failed)
  }

  datatype Verdict = NotACondition | Value(value: bool)

  function ReadWithoutColors(s: string): Verdict {
    var r := Disj(s, 0);
    if r.failed || SkipWs(s, r.next) != |s| then NotACondition else Value(r.value)
  }

  lemma ConjTailStep(s: string, i: nat, v: bool)
    requires i < |s| && s[i] == '&'
    ensures var r := Prim(s, i + 1); ConjTail(s, i, v, false) == ConjTail(s, SkipWs(s, r.next), r.value && v, r.failed)
  {
  }

  lemma DisjTailStep(s: string, i: nat, v: bool)
    requires i < |s| && s[i] == '|'
    ensures var r := Conj(s, i + 1); DisjTail(s, i, v, false) == DisjTail(s, SkipWs(s, r.next), r.value || v, r.failed)
  {
  }

  /** The reader: a cursor over the text and a failure flag. */
  class Reader {
    const cond: string
    var i: nat
    var failed: bool

    constructor (cond: string)
      ensures this.cond == cond && i == 0 && !failed
    {
      this.cond := cond;
      i, failed := 0, false;
    }

    method Ws()
      requires i <= |cond|
      modifies this
      ensures i == SkipWs(cond, old(i)) && failed == old(failed)
    {
      while i < |cond| && IsSpace(cond[i])
        invariant old(i) <= i <= |cond| && failed == old(failed)
        invariant SkipWs(cond, i) == SkipWs(cond, old(i))
      {
        i := i + 1;
      }
    }

    method ReadPrim() returns (v: bool)
      requires i <= |cond| && !failed
      modifies this
      ensures Reading(v, i, failed) == Prim(cond, old(i))
      decreases |cond| - i, 0
    {
      Ws();
      if i >= |cond| {
        failed := true;
        return false;
      }
      if cond[i] == '(' {
        i := i + 1;
        v := ReadDisj();
        Ws();
        if i < |cond| && cond[i] == ')' { i := i + 1; } else { failed := true; }
        return v;
      }
      if cond[i] == '!' {
        i := i + 1;
        v := ReadPrim();
        return !v;
      }
      if cond[i] == 't' { i := i + 1; return true; }
      if cond[i] == 'f' { i := i + 1; return false; }
      if StartsWith(cond, i, "Inf") || StartsWith(cond, i, "Fin") {
        var isFin := cond[i] == 'F';
        assert |"Inf"| == |"Fin"| == 3;
        i := i + 3;
        var close := FindClose(cond, i);
        if close == |cond| {
          failed := true;
          return false;
        }
        i := close + 1;
        return isFin;
      }
      failed := true;
      return false;
    }

    /** One turn of the loop over '&'. */
    method ConjStep(v: bool) returns (v': bool)
      requires i < |cond| && !failed && cond[i] == '&'
      modifies this
      ensures old(i) < i <= |cond|
      ensures ConjTail(cond, i, v', failed) == ConjTail(cond, old(i), v, false)
      decreases |cond| - i, 1
    {
      ConjTailStep(cond, i, v);
      i := i + 1;
      var w := ReadPrim();
      v' := w && v;
      Ws();
    }

    method ReadConj() returns (v: bool)
      requires i <= |cond| && !failed
      modifies this
      ensures Reading(v, i, failed) == Conj(cond, old(i))
      decreases |cond| - i, 2
    {
      ghost var goal := Conj(cond, i);
      ghost var start := i;
      v := ReadPrim();
      Ws();
      while !failed && i < |cond| && cond[i] == '&'
        invariant start <= i <= |cond|
        invariant ConjTail(cond, i, v, failed) == goal
        decreases |cond| - i
      {
        v := ConjStep(v);
      }
    }

    /** One turn of the loop over '|'. */
    method DisjStep(v: bool) returns (v': bool)
      requires i < |cond| && !failed && cond[i] == '|'
      modifies this
      ensures old(i) < i <= |cond|
      ensures DisjTail(cond, i, v', failed) == DisjTail(cond, old(i), v, false)
      decreases |cond| - i, 3
    {
      DisjTailStep(cond, i, v);
      i := i + 1;
      var w := ReadConj();
      v' := w || v;
      Ws();
    }

    method ReadDisj() returns (v: bool)
      requires i <= |cond| && !failed
      modifies this
      ensures Reading(v, i, failed) == Disj(cond, old(i))
      decreases |cond| - i, 4
    {
      ghost var goal := Disj(cond, i);
      ghost var start := i;
      v := ReadConj();
      Ws();
      while !failed && i < |cond| && cond[i] == '|'
        invariant start <= i <= |cond|
        invariant DisjTail(cond, i, v, failed) == goal
        decreases |cond| - i
      {
        v := DisjStep(v);
      }
    }
  }

  method AcceptanceWithoutColors(cond: string) returns (r: Verdict)
    ensures r == ReadWithoutColors(cond)
  {
    var reader := new Reader(cond);
    var v := reader.ReadDisj();
    reader.Ws();
    if reader.failed || reader.i != |cond| { return NotACondition; }
    return Value(v);
  }

  // Texts of conditions.

  predicate AllSpace(sp: string) {
    forall k :: 0 <= k < |sp| ==> IsSpace(sp[k])
  }

  predicate AllDigits(s: string) {
    forall k :: 0 <= k < |s| ==> IsDigit(s[k])
  }

  /** A condition as it is written: blanks wherever they may stand, and parentheses, needed or not.  The
      reader also takes anything but ')' between `Inf` or `Fin` and the next ')'. */
  datatype Spelling =
    | Constant(lead: string, value: bool)
    | ColorSet(lead: string, fin: bool, gap: string, open: string, digits: string, close: string)
    | Skipped(lead: string, fin: bool, skipped: string)
    | Negation(lead: string, arg: Spelling)
    | Group(lead: string, body: Spelling, close: string)
    | Conjunction(left: Spelling, gap: string, right: Spelling)
    | Disjunction(left: Spelling, gap: string, right: Spelling)

  /** 0 a disjunction, 1 a conjunction, 2 an operand. */
  function Level(c: Spelling): nat {
    if c.Disjunction? then 0 else if c.Conjunction? then 1 else 2
  }

  /** Blanks are blanks, colours are numerals, and no operator has an operand that binds less. */
  predicate IsReadable(c: Spelling) {
    match c
    case Constant(lead, _) => AllSpace(lead)
    case ColorSet(lead, _, gap, open, digits, close) =>
      AllSpace(lead) && AllSpace(gap) && AllSpace(open) && digits != "" && AllDigits(digits) && AllSpace(close)
    case Skipped(lead, _, skipped) => AllSpace(lead) && ')' !in skipped
    case Negation(lead, arg) => AllSpace(lead) && IsReadable(arg) && Level(arg) == 2
    case Group(lead, body, close) => AllSpace(lead) && IsReadable(body) && AllSpace(close)
    case Conjunction(left, gap, right) =>
      IsReadable(left) && AllSpace(gap) && IsReadable(right) && Level(left) >= 1 && Level(right) >= 1
    case Disjunction(left, gap, right) => IsReadable(left) && AllSpace(gap) && IsReadable(right)
  }

  /** Every colour is spelt. */
  predicate IsPlain(c: Spelling) {
    match c
    case Skipped(_, _, _) => false
    case Negation(_, arg) => IsPlain(arg)
    case Group(_, body, _) => IsPlain(body)
    case Conjunction(left, _, right) => IsPlain(left) && IsPlain(right)
    case Disjunction(left, _, right) => IsPlain(left) && IsPlain(right)
    case _ => true
  }

  predicate IsSpelling(c: Spelling) {
    IsReadable(c) && IsPlain(c)
  }

  function Keyword(fin: bool): string {
    if fin then "Fin" else "Inf"
  }

  /** The text of a spelling. */
  function Flatten(c: Spelling): string {
    match c
    case Constant(lead, value) => lead + if value then "t" else "f"
    case ColorSet(lead, fin, gap, open, digits, close) =>
      lead + (Keyword(fin) + (gap + "(" + open + digits + close + ")"))
    case Skipped(lead, fin, skipped) => lead + (Keyword(fin) + (skipped + ")"))
    case Negation(lead, arg) => lead + ("!" + Flatten(arg))
    case Group(lead, body, close) => lead + ("(" + (Flatten(body) + (close + ")")))
    case Conjunction(left, gap, right) => Flatten(left) + (gap + ("&" + Flatten(right)))
    case Disjunction(left, gap, right) => Flatten(left) + (gap + ("|" + Flatten(right)))
  }

  /** The condition a spelling spells. */
  function Erase(c: Spelling): Acc
    requires IsSpelling(c)
  {
    match c
    case Constant(_, value) => if value then T else F
    case ColorSet(_, fin, _, _, digits, _) => if fin then Fin(Names.Value(digits)) else Inf(Names.Value(digits))
    case Negation(_, arg) => Not(Erase(arg))
    case Group(_, body, _) => Erase(body)
    case Conjunction(left, _, right) => And(Erase(left), Erase(right))
    case Disjunction(left, _, right) => Or(Erase(left), Erase(right))
  }

  function Enclose(c: Spelling, level: nat): Spelling {
    if Level(c) < level then Group("", c, "") else c
  }

  /** The spelling with the fewest parentheses and no blanks. */
  function Spell(acc: Acc): Spelling {
    match acc
    case T => Constant("", true)
    case F => Constant("", false)
    case Inf(n) => ColorSet("", false, "", "", Decimal(n), "")
    case Fin(n) => ColorSet("", true, "", "", Decimal(n), "")
    case Not(x) => Negation("", Enclose(Spell(x), 2))
    case And(x, y) => Conjunction(Enclose(Spell(x), 1), "", Enclose(Spell(y), 1))
    case Or(x, y) => Disjunction(Spell(x), "", Spell(y))
  }

  /** Every condition has a spelling. */
  lemma {:induction false} SpellSpells(acc: Acc)
    ensures IsSpelling(Spell(acc)) && Erase(Spell(acc)) == acc
  {
    match acc
    case Inf(n) => DecimalValue(n);
    case Fin(n) => DecimalValue(n);
    case Not(x) => SpellSpells(x);
    case And(x, y) => SpellSpells(x); SpellSpells(y);
    case Or(x, y) => SpellSpells(x); SpellSpells(y);
    case _ =>
  }

  ghost predicate Occurs(s: string, i: nat, t: string) {
    i + |t| <= |s| && forall k :: 0 <= k < |t| ==> s[i + k] == t[k]
  }

  lemma OccursParts(s: string, i: nat, a: string, b: string)
    requires Occurs(s, i, a + b)
    ensures Occurs(s, i, a) && Occurs(s, i + |a|, b)
  {
    forall k | 0 <= k < |a| ensures s[i + k] == a[k] {
      assert (a + b)[k] == a[k];
    }
    forall k | 0 <= k < |b| ensures s[i + |a| + k] == b[k] {
      assert (a + b)[|a| + k] == b[k];
    }
  }

  lemma OccursAt(s: string, i: nat, t: string, k: nat)
    requires Occurs(s, i, t) && k < |t|
    ensures s[i + k] == t[k]
  {
  }

  /** Blanks, then a character that is none, or the end. */
  lemma {:induction false} SkipOver(s: string, i: nat, sp: string)
    requires Occurs(s, i, sp) && AllSpace(sp) && (i + |sp| < |s| ==> !IsSpace(s[i + |sp|]))
    ensures SkipWs(s, i) == i + |sp|
    decreases |sp|
  {
    if sp != "" {
      assert s[i + 0] == sp[0];
      forall k | 0 <= k < |sp[1..]| ensures s[i + 1 + k] == sp[1..][k] {
        assert s[i + (k + 1)] == sp[k + 1];
      }
      SkipOver(s, i + 1, sp[1..]);
    }
  }

  lemma {:induction false} SkipWsStops(s: string, i: nat)
    requires i <= |s|
    ensures SkipWs(s, i) < |s| ==> !IsSpace(s[SkipWs(s, i)])
    ensures SkipWs(s, SkipWs(s, i)) == SkipWs(s, i)
    decreases |s| - i
  {
    if i < |s| && IsSpace(s[i]) {
      SkipWsStops(s, i + 1);
    }
  }

  /** The first ')' after a text that has none. */
  lemma {:induction false} ClosesAt(s: string, i: nat, end: nat)
    requires i <= end < |s| && s[end] == ')' && forall k :: i <= k < end ==> s[k] != ')'
    ensures FindClose(s, i) == end
    decreases end - i
  {
    if i < end {
      ClosesAt(s, i + 1, end);
    }
  }

  lemma {:induction false} ConjTailAcc(s: string, i: nat, v: bool, failed: bool)
    requires i <= |s|
    ensures var r := ConjTail(s, i, true, failed); ConjTail(s, i, v, failed) == Reading(r.value && v, r.next, r.failed)
    decreases |s| - i
  {
    if !failed && i < |s| && s[i] == '&' {
      var r := Prim(s, i + 1);
      ConjTailStep(s, i, v);
      ConjTailStep(s, i, true);
      ConjTailAcc(s, SkipWs(s, r.next), r.value && v, r.failed);
      ConjTailAcc(s, SkipWs(s, r.next), r.value && true, r.failed);
    }
  }

  /** After '&' the rest of a conjunction is read like a conjunction of its own. */
  lemma ConjTailJoins(s: string, i: nat, v: bool)
    requires i < |s| && s[i] == '&'
    ensures var r := Conj(s, i + 1); ConjTail(s, i, v, false) == Reading(r.value && v, r.next, r.failed)
  {
    var r := Prim(s, i + 1);
    ConjTailStep(s, i, v);
    ConjTailAcc(s, SkipWs(s, r.next), r.value && v, r.failed);
    ConjTailAcc(s, SkipWs(s, r.next), r.value, r.failed);
  }

  lemma {:induction false} DisjTailAcc(s: string, i: nat, v: bool, failed: bool)
    requires i <= |s|
    ensures var r := DisjTail(s, i, false, failed); DisjTail(s, i, v, failed) == Reading(r.value || v, r.next, r.failed)
    decreases |s| - i
  {
    if !failed && i < |s| && s[i] == '|' {
      var r := Conj(s, i + 1);
      DisjTailStep(s, i, v);
      DisjTailStep(s, i, false);
      DisjTailAcc(s, SkipWs(s, r.next), r.value || v, r.failed);
      DisjTailAcc(s, SkipWs(s, r.next), r.value || false, r.failed);
    }
  }

  lemma DisjTailJoins(s: string, i: nat, v: bool)
    requires i < |s| && s[i] == '|'
    ensures var r := Disj(s, i + 1); DisjTail(s, i, v, false) == Reading(r.value || v, r.next, r.failed)
  {
    var r := Conj(s, i + 1);
    DisjTailStep(s, i, v);
    DisjTailAcc(s, SkipWs(s, r.next), r.value || v, r.failed);
    DisjTailAcc(s, SkipWs(s, r.next), r.value, r.failed);
  }

  /** Where a token lies after its leading blanks, and that the reader gets there. */
  lemma TokenAt(s: string, i: nat, lead: string, token: string)
    requires Occurs(s, i, lead + token) && AllSpace(lead) && token != "" && !IsSpace(token[0])
    ensures Occurs(s, i + |lead|, token) && i + |lead| < |s| && s[i + |lead|] == token[0]
    ensures SkipWs(s, i) == i + |lead| && SkipWs(s, i + |lead|) == i + |lead|
  {
    OccursParts(s, i, lead, token);
    OccursAt(s, i + |lead|, token, 0);
    SkipOver(s, i, lead);
    SkipOver(s, i + |lead|, "");
  }

  lemma ConstantReads(s: string, i: nat, c: Spelling)
    requires IsReadable(c) && c.Constant? && Occurs(s, i, Flatten(c))
    ensures Prim(s, i) == Reading(Worth(c), i + |Flatten(c)|, false)
  {
    TokenAt(s, i, c.lead, if c.value then "t" else "f");
  }

  /** Between the keyword and the next ')' stands nothing that closes it. */
  lemma KeywordReads(s: string, i: nat, lead: string, fin: bool, body: string)
    requires Occurs(s, i, lead + (Keyword(fin) + (body + ")"))) && AllSpace(lead) && ')' !in body
    ensures Prim(s, i) == Reading(fin, i + |lead + (Keyword(fin) + (body + ")"))|, false)
  {
    var kw, at := Keyword(fin), i + |lead|;
    var end := at + 3 + |body|;
    assert (kw + (body + ")"))[0] == kw[0] && |kw| == 3;
    TokenAt(s, i, lead, kw + (body + ")"));
    OccursParts(s, at, kw, body + ")");
    OccursParts(s, at + 3, body, ")");
    OccursAt(s, end, ")", 0);
    forall k | at + 3 <= k < end ensures s[k] != ')' {
      assert s[at + 3 + (k - at - 3)] == body[k - at - 3];
    }
    ClosesAt(s, at + 3, end);
    assert s[at..at + 3] == kw;
    assert StartsWith(s, at, kw);
  }

  lemma NoClose(gap: string, open: string, digits: string, close: string)
    requires AllSpace(gap) && AllSpace(open) && AllDigits(digits) && AllSpace(close)
    ensures ')' !in gap + "(" + open + digits + close
  {
    assert ')' !in gap && ')' !in "(" && ')' !in open && ')' !in digits && ')' !in close;
  }

  lemma ColorSetReads(s: string, i: nat, c: Spelling)
    requires IsReadable(c) && c.ColorSet? && Occurs(s, i, Flatten(c))
    ensures Prim(s, i) == Reading(Worth(c), i + |Flatten(c)|, false)
  {
    NoClose(c.gap, c.open, c.digits, c.close);
    KeywordReads(s, i, c.lead, c.fin, c.gap + "(" + c.open + c.digits + c.close);
  }

  lemma SkippedReads(s: string, i: nat, c: Spelling)
    requires IsReadable(c) && c.Skipped? && Occurs(s, i, Flatten(c))
    ensures Prim(s, i) == Reading(Worth(c), i + |Flatten(c)|, false)
  {
    KeywordReads(s, i, c.lead, c.fin, c.skipped);
  }

  /** Where the parts of `left gap op right` lie. */
  lemma InfixParts(s: string, i: nat, left: string, gap: string, op: string, right: string)
    requires Occurs(s, i, left + (gap + (op + right))) && AllSpace(gap) && |op| == 1 && !IsSpace(op[0])
    ensures var o := i + |left| + |gap|;
            && Occurs(s, i, left) && o < |s| && s[o] == op[0] && Occurs(s, o + 1, right)
            && SkipWs(s, i + |left|) == o && SkipWs(s, o) == o
  {
    OccursParts(s, i, left, gap + (op + right));
    assert (op + right)[0] == op[0];
    TokenAt(s, i + |left|, gap, op + right);
    OccursParts(s, i + |left| + |gap|, op, right);
  }

  lemma NegationReads(s: string, i: nat, lead: string, inner: string, v: bool)
    requires Occurs(s, i, lead + ("!" + inner)) && AllSpace(lead)
    requires Prim(s, i + |lead| + 1) == Reading(v, i + |lead| + 1 + |inner|, false)
    ensures Prim(s, i) == Reading(!v, i + |lead + ("!" + inner)|, false)
  {
    assert ("!" + inner)[0] == '!';
    TokenAt(s, i, lead, "!" + inner);
  }

  /** Where the parts of a group lie. */
  lemma GroupParts(s: string, i: nat, lead: string, inner: string, close: string)
    requires Occurs(s, i, lead + ("(" + (inner + (close + ")")))) && AllSpace(lead) && AllSpace(close)
    ensures var at, e := i + |lead|, i + |lead| + 1 + |inner| + |close|;
            && at < e < |s| && SkipWs(s, i) == at && s[at] == '(' && Occurs(s, at + 1, inner)
            && SkipWs(s, at + 1 + |inner|) == e && SkipWs(s, e) == e && s[e] == ')'
  {
    var rest := inner + (close + ")");
    assert ("(" + rest)[0] == '(';
    TokenAt(s, i, lead, "(" + rest);
    OccursParts(s, i + |lead|, "(", rest);
    OccursParts(s, i + |lead| + 1, inner, close + ")");
    TokenAt(s, i + |lead| + 1 + |inner|, close, ")");
  }

  lemma GroupReads(s: string, i: nat, lead: string, inner: string, close: string, v: bool)
    requires Occurs(s, i, lead + ("(" + (inner + (close + ")")))) && AllSpace(lead) && AllSpace(close)
    requires i + |lead| + 1 + |inner| <= |s|
    requires Disj(s, i + |lead| + 1) == DisjTail(s, SkipWs(s, i + |lead| + 1 + |inner|), v, false)
    ensures Prim(s, i) == Reading(v, i + |lead + ("(" + (inner + (close + ")")))|, false)
  {
    GroupParts(s, i, lead, inner, close);
    var e := i + |lead| + 1 + |inner| + |close|;
    assert DisjTail(s, e, v, false) == Reading(v, e, false);
  }

  /** A conjunction of value `v` up to the '&' at `o`, and one of value `w` after it. */
  lemma AndReads(s: string, i: nat, o: nat, e: nat, v: bool, w: bool)
    requires i <= |s| && o < |s| && s[o] == '&' && e <= |s|
    requires Conj(s, i) == ConjTail(s, o, v, false) && Conj(s, o + 1) == ConjTail(s, e, w, false)
    ensures Conj(s, i) == ConjTail(s, e, v && w, false)
  {
    ConjTailJoins(s, o, v);
    ConjTailAcc(s, e, w, false);
    ConjTailAcc(s, e, v && w, false);
  }

  lemma OrReads(s: string, i: nat, o: nat, e: nat, v: bool, w: bool)
    requires i <= |s| && o < |s| && s[o] == '|' && e <= |s|
    requires Disj(s, i) == DisjTail(s, o, v, false) && Disj(s, o + 1) == DisjTail(s, e, w, false)
    ensures Disj(s, i) == DisjTail(s, e, v || w, false)
  {
    DisjTailJoins(s, o, v);
    DisjTailAcc(s, e, w, false);
    DisjTailAcc(s, e, v || w, false);
  }

  lemma OneOperand(s: string, i: nat, end: nat, v: bool)
    requires i <= |s| && Prim(s, i) == Reading(v, end, false)
    ensures Conj(s, i) == ConjTail(s, SkipWs(s, end), v, false)
  {
  }

  /** A conjunction that no '&' follows is a disjunction of one. */
  lemma OneConjunction(s: string, i: nat, end: nat, v: bool)
    requires i <= |s| && end <= |s| && Conj(s, i) == ConjTail(s, SkipWs(s, end), v, false)
    requires SkipWs(s, end) < |s| ==> s[SkipWs(s, end)] != '&'
    ensures Disj(s, i) == DisjTail(s, SkipWs(s, end), v, false)
  {
    SkipWsStops(s, end);
    assert ConjTail(s, SkipWs(s, end), v, false) == Reading(v, SkipWs(s, end), false);
  }

  // The value of a spelling, and the three ways it is read.

  /** The value without recurring colours. */
  function Worth(c: Spelling): bool {
    match c
    case Constant(_, value) => value
    case ColorSet(_, fin, _, _, _, _) => fin
    case Skipped(_, fin, _) => fin
    case Negation(_, arg) => !Worth(arg)
    case Group(_, body, _) => Worth(body)
    case Conjunction(left, _, right) => Worth(left) && Worth(right)
    case Disjunction(left, _, right) => Worth(left) || Worth(right)
  }

  lemma {:induction false} WorthIsUncolored(c: Spelling)
    requires IsSpelling(c)
    ensures Worth(c) == Uncolored(Erase(c))
    decreases c
  {
    match c
    case Negation(_, arg) => WorthIsUncolored(arg);
    case Group(_, body, _) => WorthIsUncolored(body);
    case Conjunction(left, _, right) => WorthIsUncolored(left); WorthIsUncolored(right);
    case Disjunction(left, _, right) => WorthIsUncolored(left); WorthIsUncolored(right);
    case _ =>
  }

  /** An operand is read to its end. */
  lemma {:induction false} PrimReads(s: string, i: nat, c: Spelling)
    requires IsReadable(c) && Level(c) == 2 && Occurs(s, i, Flatten(c))
    ensures Prim(s, i) == Reading(Worth(c), i + |Flatten(c)|, false)
    decreases c, 1
  {
    match c
    case Constant(_, _) => ConstantReads(s, i, c);
    case ColorSet(_, _, _, _, _, _) => ColorSetReads(s, i, c);
    case Skipped(_, _, _) => SkippedReads(s, i, c);
    case Negation(lead, arg) => ReadNegation(s, i, c);
    case Group(lead, body, close) => ReadGroup(s, i, c);
  }

  lemma {:induction false} ReadNegation(s: string, i: nat, c: Spelling)
    requires IsReadable(c) && c.Negation? && Occurs(s, i, Flatten(c))
    ensures Prim(s, i) == Reading(Worth(c), i + |Flatten(c)|, false)
    decreases c, 0
  {
    hide Prim, Conj, Disj, ConjTail, DisjTail;
    var inner := Flatten(c.arg);
    OccursParts(s, i, c.lead, "!" + inner);
    OccursParts(s, i + |c.lead|, "!", inner);
    PrimReads(s, i + |c.lead| + 1, c.arg);
    NegationReads(s, i, c.lead, inner, Worth(c.arg));
  }

  lemma {:induction false} ReadGroup(s: string, i: nat, c: Spelling)
    requires IsReadable(c) && c.Group? && Occurs(s, i, Flatten(c))
    ensures Prim(s, i) == Reading(Worth(c), i + |Flatten(c)|, false)
    decreases c, 0
  {
    hide Prim, Conj, Disj, ConjTail, DisjTail;
    var inner := Flatten(c.body);
    GroupParts(s, i, c.lead, inner, c.close);
    DisjReads(s, i + |c.lead| + 1, c.body, i + |c.lead| + 1 + |inner| + |c.close|);
    GroupReads(s, i, c.lead, inner, c.close, Worth(c.body));
  }

  /** The operator of an infix spelling, and where its text ends. */
  lemma OperatorAt(s: string, i: nat, c: Spelling) returns (o: nat)
    requires IsReadable(c) && (c.Conjunction? || c.Disjunction?) && Occurs(s, i, Flatten(c))
    ensures o < |s| && s[o] == (if c.Conjunction? then '&' else '|')
    ensures Occurs(s, i, Flatten(c.left)) && SkipWs(s, i + |Flatten(c.left)|) == o
    ensures Occurs(s, o + 1, Flatten(c.right)) && o + 1 + |Flatten(c.right)| == i + |Flatten(c)|
  {
    var left, right, op := Flatten(c.left), Flatten(c.right), if c.Conjunction? then "&" else "|";
    o := i + |left| + |c.gap|;
    assert Flatten(c) == left + (c.gap + (op + right));
    InfixParts(s, i, left, c.gap, op, right);
  }

  /** After a conjunction the reader stands in its loop over '&' with the conjunction's value. */
  lemma {:induction false} ConjReads(s: string, i: nat, c: Spelling, e: nat)
    requires IsReadable(c) && Level(c) >= 1 && Occurs(s, i, Flatten(c)) && e == SkipWs(s, i + |Flatten(c)|)
    ensures Conj(s, i) == ConjTail(s, e, Worth(c), false)
    decreases c, 2
  {
    hide Prim, Conj, Disj, ConjTail, DisjTail;
    if c.Conjunction? {
      ReadConjunction(s, i, c, e);
    } else {
      PrimReads(s, i, c);
      OneOperand(s, i, i + |Flatten(c)|, Worth(c));
    }
  }

  lemma {:induction false} ReadConjunction(s: string, i: nat, c: Spelling, e: nat)
    requires IsReadable(c) && c.Conjunction? && Occurs(s, i, Flatten(c)) && e == SkipWs(s, i + |Flatten(c)|)
    ensures Conj(s, i) == ConjTail(s, e, Worth(c), false)
    decreases c, 1
  {
    hide Prim, Conj, Disj, ConjTail, DisjTail;
    var o := OperatorAt(s, i, c);
    var v, w := Worth(c.left), Worth(c.right);
    assert Worth(c) == (v && w);
    ConjReads(s, i, c.left, o);
    ConjReads(s, o + 1, c.right, e);
    AndReads(s, i, o, e, v, w);
  }

  /** After a disjunction the reader stands in its loop over '|' with the disjunction's value. */
  lemma {:induction false} DisjReads(s: string, i: nat, c: Spelling, e: nat)
    requires IsReadable(c) && Occurs(s, i, Flatten(c)) && e == SkipWs(s, i + |Flatten(c)|) && (e < |s| ==> s[e] != '&')
    ensures Disj(s, i) == DisjTail(s, e, Worth(c), false)
    decreases c, 3
  {
    hide Prim, Conj, Disj, ConjTail, DisjTail;
    if c.Disjunction? {
      ReadDisjunction(s, i, c, e);
    } else {
      ConjReads(s, i, c, e);
      OneConjunction(s, i, i + |Flatten(c)|, Worth(c));
    }
  }

  lemma {:induction false} ReadDisjunction(s: string, i: nat, c: Spelling, e: nat)
    requires IsReadable(c) && c.Disjunction? && Occurs(s, i, Flatten(c))
    requires e == SkipWs(s, i + |Flatten(c)|) && (e < |s| ==> s[e] != '&')
    ensures Disj(s, i) == DisjTail(s, e, Worth(c), false)
    decreases c, 1
  {
    hide Prim, Conj, Disj, ConjTail, DisjTail;
    var o := OperatorAt(s, i, c);
    var v, w := Worth(c.left), Worth(c.right);
    assert Worth(c) == (v || w);
    DisjReads(s, i, c.left, o);
    DisjReads(s, o + 1, c.right, e);
    OrReads(s, i, o, e, v, w);
  }

  /** `text` is the condition `acc` in HOA syntax. */
  ghost predicate IsTextOf(text: string, acc: Acc) {
    exists c: Spelling, after: string :: Spells(c, after, text, acc)
  }

  ghost predicate Spells(c: Spelling, after: string, text: string, acc: Acc) {
    IsSpelling(c) && AllSpace(after) && text == Flatten(c) + after && Erase(c) == acc
  }

  /** Every readable text is read to its end, as its value. */
  lemma ReadableReads(c: Spelling, after: string, text: string)
    requires IsReadable(c) && AllSpace(after) && text == Flatten(c) + after
    ensures ReadWithoutColors(text) == Value(Worth(c))
  {
    assert Occurs(text, 0, Flatten(c)) && Occurs(text, |Flatten(c)|, after);
    SkipOver(text, |Flatten(c)|, after);
    DisjReads(text, 0, c, |text|);
  }

  /** Every text of a condition is read as the condition's value for a run that sees no colour
      infinitely often. */
  lemma TextReads(text: string, acc: Acc)
    requires IsTextOf(text, acc)
    ensures ReadWithoutColors(text) == Value(Uncolored(acc))
  {
    var c, after :| Spells(c, after, text, acc);
    WorthIsUncolored(c);
    ReadableReads(c, after, text);
  }

  /** Every condition has a text. */
  lemma ConditionHasText(acc: Acc)
    ensures IsTextOf(Flatten(Spell(acc)), acc)
  {
    SpellSpells(acc);
    assert Spells(Spell(acc), "", Flatten(Spell(acc)), acc);
  }
}
