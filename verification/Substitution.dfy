/** Replacing propositions by formulas: one at a time, as the bit game rewrites its skeleton, and all
    at once. */
module Substitution {
  import opened Ltl

  /** The propositions of a formula. */
  function Props(f: Formula): set<string> {
    match f
    case True => {}
    case False => {}
    case Prop(n) => {n}
    case Not(g) => Props(g)
    case Join(_, g, h) => Props(g) + Props(h)
    case Next(g) => Props(g)
    case Globally(g) => Props(g)
    case Until(g, h) => Props(g) + Props(h)
  }

  function Size(f: Formula): (n: nat)
    ensures n >= 1
  {
    match f
    case True => 1
    case False => 1
    case Prop(_) => 1
    case Not(g) => 1 + Size(g)
    case Join(_, g, h) => 1 + Size(g) + Size(h)
    case Next(g) => 1 + Size(g)
    case Globally(g) => 1 + Size(g)
    case Until(g, h) => 1 + Size(g) + Size(h)
  }

  /** `f` with each proposition replaced by its formula in `m`. */
  function Apply(f: Formula, m: map<string, Formula>): Formula {
    match f
    case True => True
    case False => False
    case Prop(n) => if n in m then m[n] else f
    case Not(g) => Not(Apply(g, m))
    case Join(op, g, h) => Join(op, Apply(g, m), Apply(h, m))
    case Next(g) => Next(Apply(g, m))
    case Globally(g) => Globally(Apply(g, m))
    case Until(g, h) => Until(Apply(g, m), Apply(h, m))
  }

  /** A replacement: a proposition and its formula. */
  datatype Rule = Rule(prop: string, formula: Formula)

  function Replace(f: Formula, rule: Rule): Formula {
    Apply(f, map[rule.prop := rule.formula])
  }

  /** The rules one after the other, each on the result of the ones before. */
  function ReplaceEach(f: Formula, rules: seq<Rule>): Formula
    decreases |rules|
  {
    if rules == [] then f else ReplaceEach(Replace(f, rules[0]), rules[1..])
  }

  /** The rules as one map; the first rule of a proposition counts. */
  function AtOnce(rules: seq<Rule>): map<string, Formula> {
    if rules == [] then map[] else AtOnce(rules[1..])[rules[0].prop := rules[0].formula]
  }

  // Meaning.

  /** The word in which the replaced propositions have the values of their formulas. */
  ghost function Reading(w: Word, m: map<string, Formula>): Word {
    (u: nat, n: string) => if n in m then Sat(m[n], w, u) else w(u, n)
  }

  lemma {:induction false} ApplyMeans(f: Formula, m: map<string, Formula>, w: Word, t: nat)
    ensures Sat(Apply(f, m), w, t) <==> Sat(f, Reading(w, m), t)
    decreases f
  {
    match f
    case True =>
    case False =>
    case Prop(n) =>
    case Not(g) => ApplyMeans(g, m, w, t);
    case Join(_, g, h) => ApplyMeans(g, m, w, t); ApplyMeans(h, m, w, t);
    case Next(g) => ApplyMeans(g, m, w, t + 1);
    case Globally(g) =>
      forall u: nat ensures Sat(Apply(g, m), w, u) <==> Sat(g, Reading(w, m), u) {
        ApplyMeans(g, m, w, u);
      }
      GloballyMeans(g, m, w, t);
    case Until(g, h) =>
      forall u: nat
        ensures Sat(Apply(g, m), w, u) <==> Sat(g, Reading(w, m), u)
        ensures Sat(Apply(h, m), w, u) <==> Sat(h, Reading(w, m), u)
      {
        ApplyMeans(g, m, w, u);
        ApplyMeans(h, m, w, u);
      }
      UntilMeans(g, h, m, w, t);
  }

  lemma GloballyMeans(g: Formula, m: map<string, Formula>, w: Word, t: nat)
    requires forall u: nat :: Sat(Apply(g, m), w, u) <==> Sat(g, Reading(w, m), u)
    ensures Sat(Globally(Apply(g, m)), w, t) <==> Sat(Globally(g), Reading(w, m), t)
  {
    GloballyIsAlways(Apply(g, m), w, t);
    GloballyIsAlways(g, Reading(w, m), t);
  }

  lemma UntilMeans(g: Formula, h: Formula, m: map<string, Formula>, w: Word, t: nat)
    requires forall u: nat :: Sat(Apply(g, m), w, u) <==> Sat(g, Reading(w, m), u)
    requires forall u: nat :: Sat(Apply(h, m), w, u) <==> Sat(h, Reading(w, m), u)
    ensures Sat(Until(Apply(g, m), Apply(h, m)), w, t) <==> Sat(Until(g, h), Reading(w, m), t)
  {
    var p, q, p', q' := Meaning(Apply(g, m), w), Meaning(Apply(h, m), w), Meaning(g, Reading(w, m)),
        Meaning(h, Reading(w, m));
    forall u: nat ensures p(u) == p'(u) && q(u) == q'(u) {
      assert Sat(Apply(g, m), w, u) <==> Sat(g, Reading(w, m), u);
      assert Sat(Apply(h, m), w, u) <==> Sat(h, Reading(w, m), u);
    }
    forall u: nat ensures HoldsUntil(p, q, t, u) <==> HoldsUntil(p', q', t, u) {
      SameUntil(p, q, p', q', t, u);
    }
  }

  lemma SameUntil(p: nat -> bool, q: nat -> bool, p': nat -> bool, q': nat -> bool, t: nat, u: nat)
    requires forall v: nat :: p(v) == p'(v) && q(v) == q'(v)
    ensures HoldsUntil(p, q, t, u) <==> HoldsUntil(p', q', t, u)
  {
  }

  ghost predicate AgreeOn(v: Word, w: Word, n: string) {
    forall u: nat :: v(u, n) == w(u, n)
  }

  /** A formula reads its own propositions only. */
  lemma {:induction false} ReadsOnlyProps(f: Formula, v: Word, w: Word, t: nat)
    requires forall n :: n in Props(f) ==> AgreeOn(v, w, n)
    ensures Sat(f, v, t) <==> Sat(f, w, t)
    decreases f
  {
    match f
    case Prop(n) => assert AgreeOn(v, w, n);
    case Not(g) => ReadsOnlyProps(g, v, w, t);
    case Join(_, g, h) => ReadsOnlyProps(g, v, w, t); ReadsOnlyProps(h, v, w, t);
    case Next(g) => ReadsOnlyProps(g, v, w, t + 1);
    case Globally(g) =>
      forall u: nat ensures Sat(g, v, u) <==> Sat(g, w, u) {
        ReadsOnlyProps(g, v, w, u);
      }
      GloballyIsAlways(g, v, t);
      GloballyIsAlways(g, w, t);
    case Until(g, h) =>
      forall u: nat ensures Meaning(g, v)(u) == Meaning(g, w)(u) && Meaning(h, v)(u) == Meaning(h, w)(u) {
        ReadsOnlyProps(g, v, w, u);
        ReadsOnlyProps(h, v, w, u);
      }
      forall u: nat ensures HoldsUntil(Meaning(g, v), Meaning(h, v), t, u) <==>
            HoldsUntil(Meaning(g, w), Meaning(h, w), t, u) {
        SameUntil(Meaning(g, v), Meaning(h, v), Meaning(g, w), Meaning(h, w), t, u);
      }
    case _ =>
  }

  // When one at a time is all at once.

  /** The formula of no rule reads a proposition that a later rule replaces. */
  ghost predicate NoCapture(rules: seq<Rule>) {
    forall i, j :: 0 <= i < j < |rules| && IsFirst(rules, i) ==> rules[j].prop !in Props(rules[i].formula)
  }

  ghost predicate IsFirst(rules: seq<Rule>, i: nat)
    requires i < |rules|
  {
    forall j :: 0 <= j < i ==> rules[j].prop != rules[i].prop
  }

  lemma {:induction false} Untouched(f: Formula, rule: Rule)
    requires rule.prop !in Props(f)
    ensures Replace(f, rule) == f
  {
    match f
    case Not(g) => Untouched(g, rule);
    case Join(_, g, h) => Untouched(g, rule); Untouched(h, rule);
    case Next(g) => Untouched(g, rule);
    case Globally(g) => Untouched(g, rule);
    case Until(g, h) => Untouched(g, rule); Untouched(h, rule);
    case _ =>
  }

  lemma {:induction false} NeverShrinks(f: Formula, rule: Rule)
    ensures Size(Replace(f, rule)) >= Size(f)
  {
    match f
    case Not(g) => NeverShrinks(g, rule);
    case Join(_, g, h) => NeverShrinks(g, rule); NeverShrinks(h, rule);
    case Next(g) => NeverShrinks(g, rule);
    case Globally(g) => NeverShrinks(g, rule);
    case Until(g, h) => NeverShrinks(g, rule); NeverShrinks(h, rule);
    case _ =>
  }

  lemma {:induction false} Grows(f: Formula, rule: Rule)
    requires rule.prop in Props(f) && Size(rule.formula) > 1
    ensures Size(Replace(f, rule)) > Size(f)
    decreases Size(f)
  {
    match f
    case Prop(_) =>
    case Not(g) => Grows(g, rule);
    case Next(g) => Grows(g, rule);
    case Globally(g) => Grows(g, rule);
    case Join(_, g, h) => OneGrows(g, h, rule);
    case Until(g, h) => OneGrows(g, h, rule);
  }

  lemma {:induction false} OneGrows(g: Formula, h: Formula, rule: Rule)
    requires (rule.prop in Props(g) || rule.prop in Props(h)) && Size(rule.formula) > 1
    ensures Size(Replace(g, rule)) + Size(Replace(h, rule)) > Size(g) + Size(h)
    decreases Size(g) + Size(h), 1
  {
    NeverShrinks(g, rule);
    NeverShrinks(h, rule);
    if rule.prop in Props(g) { Grows(g, rule); } else { Grows(h, rule); }
  }

  lemma {:induction false} ReplaceEachGrows(f: Formula, rules: seq<Rule>)
    requires forall i :: 0 <= i < |rules| ==> Size(rules[i].formula) > 1
    ensures Size(ReplaceEach(f, rules)) >= Size(f)
    ensures (exists j :: 0 <= j < |rules| && rules[j].prop in Props(f)) ==> Size(ReplaceEach(f, rules)) > Size(f)
    decreases |rules|
  {
    if rules != [] {
      NeverShrinks(f, rules[0]);
      ReplaceEachGrows(Replace(f, rules[0]), rules[1..]);
      if rules[0].prop in Props(f) {
        Grows(f, rules[0]);
      } else {
        Untouched(f, rules[0]);
        if j :| 0 <= j < |rules| && rules[j].prop in Props(f) {
          assert rules[1..][j - 1] == rules[j];
        }
      }
    }
  }

  lemma {:induction false} ReplaceEachUntouched(f: Formula, rules: seq<Rule>)
    requires forall j :: 0 <= j < |rules| ==> rules[j].prop !in Props(f)
    ensures ReplaceEach(f, rules) == f
    decreases |rules|
  {
    if rules != [] {
      Untouched(f, rules[0]);
      ReplaceEachUntouched(f, rules[1..]);
    }
  }

  /** The rule of a proposition is its first one, and the rules after it rewrite its formula. */
  lemma {:induction false} FirstRule(rules: seq<Rule>, i: nat)
    requires i < |rules| && IsFirst(rules, i)
    ensures rules[i].prop in AtOnce(rules) && AtOnce(rules)[rules[i].prop] == rules[i].formula
    ensures ReplaceEach(Prop(rules[i].prop), rules) == ReplaceEach(rules[i].formula, rules[i + 1..])
    decreases |rules|
  {
    if i > 0 {
      var tail := rules[1..];
      assert tail[i - 1] == rules[i] && tail[i..] == rules[i + 1..];
      assert rules[0].prop != rules[i].prop;
      assert IsFirst(tail, i - 1) by {
        forall j | 0 <= j < i - 1 ensures tail[j].prop != tail[i - 1].prop {
          assert tail[j] == rules[j + 1];
        }
      }
      FirstRule(tail, i - 1);
    }
  }

  lemma {:induction false} NoRule(rules: seq<Rule>, n: string)
    requires forall j :: 0 <= j < |rules| ==> rules[j].prop != n
    ensures n !in AtOnce(rules)
    decreases |rules|
  {
    if rules != [] {
      NoRule(rules[1..], n);
    }
  }

  lemma {:induction false} FindRule(rules: seq<Rule>, n: string) returns (i: nat)
    ensures i <= |rules|
    ensures forall j :: 0 <= j < i ==> rules[j].prop != n
    ensures i < |rules| ==> rules[i].prop == n
    decreases |rules|
  {
    if rules == [] || rules[0].prop == n {
      i := 0;
    } else {
      i := FindRule(rules[1..], n);
      forall j | 0 <= j < i + 1 ensures rules[j].prop != n {
        if j > 0 { assert rules[j] == rules[1..][j - 1]; }
      }
      i := i + 1;
    }
  }

  /** Rewriting goes through every operator. */
  lemma {:induction false} ReplaceEachDistributes(f: Formula, rules: seq<Rule>)
    ensures match f
            case True => ReplaceEach(f, rules) == f
            case False => ReplaceEach(f, rules) == f
            case Prop(_) => true
            case Not(g) => ReplaceEach(f, rules) == Not(ReplaceEach(g, rules))
            case Join(op, g, h) => ReplaceEach(f, rules) == Join(op, ReplaceEach(g, rules), ReplaceEach(h, rules))
            case Next(g) => ReplaceEach(f, rules) == Next(ReplaceEach(g, rules))
            case Globally(g) => ReplaceEach(f, rules) == Globally(ReplaceEach(g, rules))
            case Until(g, h) => ReplaceEach(f, rules) == Until(ReplaceEach(g, rules), ReplaceEach(h, rules))
    decreases |rules|
  {
    if rules != [] {
      ReplaceEachDistributes(Replace(f, rules[0]), rules[1..]);
    }
  }

  lemma {:induction false} SequentialIsAtOnce(f: Formula, rules: seq<Rule>)
    requires NoCapture(rules)
    ensures ReplaceEach(f, rules) == Apply(f, AtOnce(rules))
    decreases f
  {
    ReplaceEachDistributes(f, rules);
    match f
    case Prop(n) =>
      var i := FindRule(rules, n);
      if i < |rules| {
        FirstRule(rules, i);
        ReplaceEachUntouched(rules[i].formula, rules[i + 1..]);
      } else {
        NoRule(rules, n);
        ReplaceEachUntouched(f, rules);
      }
    case Not(g) => SequentialIsAtOnce(g, rules);
    case Join(_, g, h) => SequentialIsAtOnce(g, rules); SequentialIsAtOnce(h, rules);
    case Next(g) => SequentialIsAtOnce(g, rules);
    case Globally(g) => SequentialIsAtOnce(g, rules);
    case Until(g, h) => SequentialIsAtOnce(g, rules); SequentialIsAtOnce(h, rules);
    case _ =>
  }

  /** Rewriting rule by rule is rewriting all at once, on every formula, exactly when no rule's formula
      reads a proposition that a later rule replaces. */
  lemma SequentialIffNoCapture(rules: seq<Rule>)
    requires forall i :: 0 <= i < |rules| ==> Size(rules[i].formula) > 1
    ensures (forall f: Formula :: ReplaceEach(f, rules) == Apply(f, AtOnce(rules))) <==> NoCapture(rules)
  {
    if NoCapture(rules) {
      forall f: Formula ensures ReplaceEach(f, rules) == Apply(f, AtOnce(rules)) {
        SequentialIsAtOnce(f, rules);
      }
    } else {
      var i, j :| 0 <= i < j < |rules| && IsFirst(rules, i) && rules[j].prop in Props(rules[i].formula);
      FirstRule(rules, i);
      var later := rules[i + 1..];
      assert later[j - i - 1] == rules[j];
      ReplaceEachGrows(rules[i].formula, later);
      var f := Prop(rules[i].prop);
      assert ReplaceEach(f, rules) != Apply(f, AtOnce(rules));
    }
  }

  lemma {:induction false} ReplaceEachAppend(f: Formula, rules: seq<Rule>, last: Rule)
    ensures ReplaceEach(f, rules + [last]) == Replace(ReplaceEach(f, rules), last)
    decreases |rules|
  {
    if rules != [] {
      assert (rules + [last])[1..] == rules[1..] + [last];
      ReplaceEachAppend(Replace(f, rules[0]), rules[1..], last);
    } else {
      assert (rules + [last])[1..] == [];
    }
  }

  // What one at a time means, captured or not.

  /** The formula each replaced proposition ends as. */
  function AfterAll(rules: seq<Rule>): map<string, Formula> {
    map n | n in AtOnce(rules) :: ReplaceEach(Prop(n), rules)
  }

  lemma {:induction false} SequentialIsAfterAll(f: Formula, rules: seq<Rule>)
    ensures ReplaceEach(f, rules) == Apply(f, AfterAll(rules))
    decreases f
  {
    ReplaceEachDistributes(f, rules);
    match f
    case Prop(n) =>
      var i := FindRule(rules, n);
      if i < |rules| {
        FirstRule(rules, i);
      } else {
        NoRule(rules, n);
        ReplaceEachUntouched(f, rules);
      }
    case Not(g) => SequentialIsAfterAll(g, rules);
    case Join(_, g, h) => SequentialIsAfterAll(g, rules); SequentialIsAfterAll(h, rules);
    case Next(g) => SequentialIsAfterAll(g, rules);
    case Globally(g) => SequentialIsAfterAll(g, rules);
    case Until(g, h) => SequentialIsAfterAll(g, rules); SequentialIsAfterAll(h, rules);
    case _ =>
  }

  /** No temporal operator. */
  predicate IsPropositional(f: Formula) {
    match f
    case Not(g) => IsPropositional(g)
    case Join(_, g, h) => IsPropositional(g) && IsPropositional(h)
    case Next(_) => false
    case Globally(_) => false
    case Until(_, _) => false
    case _ => true
  }

  /** The word that has the same values at every step. */
  ghost function Still(values: string -> bool): Word {
    (u: nat, n: string) => values(n)
  }

  /** A formula without temporal operators depends on the values at its step. */
  lemma {:induction false} PropositionalMeans(f: Formula, w: Word, t: nat, values: string -> bool)
    requires IsPropositional(f) && forall n :: n in Props(f) ==> w(t, n) == values(n)
    ensures Sat(f, w, t) <==> Sat(f, Still(values), 0)
    decreases f
  {
    match f
    case Not(g) => PropositionalMeans(g, w, t, values);
    case Join(_, g, h) => PropositionalMeans(g, w, t, values); PropositionalMeans(h, w, t, values);
    case _ =>
  }

  lemma {:induction false} ApplyPropositional(f: Formula, m: map<string, Formula>)
    requires IsPropositional(f) && forall n :: n in m ==> IsPropositional(m[n])
    ensures IsPropositional(Apply(f, m))
    decreases f
  {
    match f
    case Not(g) => ApplyPropositional(g, m);
    case Join(_, g, h) => ApplyPropositional(g, m); ApplyPropositional(h, m);
    case _ =>
  }

  lemma {:induction false} ReplaceEachPropositional(f: Formula, rules: seq<Rule>)
    requires IsPropositional(f) && forall j :: 0 <= j < |rules| ==> IsPropositional(rules[j].formula)
    ensures IsPropositional(ReplaceEach(f, rules))
    decreases |rules|
  {
    if rules != [] {
      ApplyPropositional(f, map[rules[0].prop := rules[0].formula]);
      ReplaceEachPropositional(Replace(f, rules[0]), rules[1..]);
    }
  }

  lemma {:induction false} ApplyReads(f: Formula, m: map<string, Formula>, allowed: string -> bool)
    requires forall n :: n in Props(f) && n !in m ==> allowed(n)
    requires forall k, n :: k in m && n in Props(m[k]) ==> allowed(n)
    ensures forall n :: n in Props(Apply(f, m)) ==> allowed(n)
    decreases f
  {
    match f
    case Not(g) => ApplyReads(g, m, allowed);
    case Join(_, g, h) => ApplyReads(g, m, allowed); ApplyReads(h, m, allowed);
    case Next(g) => ApplyReads(g, m, allowed);
    case Globally(g) => ApplyReads(g, m, allowed);
    case Until(g, h) => ApplyReads(g, m, allowed); ApplyReads(h, m, allowed);
    case _ =>
  }

  /** Rewriting brings in nothing but what the rules' formulas read. */
  lemma {:induction false} ReplaceEachReads(f: Formula, rules: seq<Rule>, allowed: string -> bool)
    requires forall n :: n in Props(f) ==> allowed(n)
    requires forall j, n :: 0 <= j < |rules| && n in Props(rules[j].formula) ==> allowed(n)
    ensures forall n :: n in Props(ReplaceEach(f, rules)) ==> allowed(n)
    decreases |rules|
  {
    if rules != [] {
      ApplyReads(f, map[rules[0].prop := rules[0].formula], allowed);
      ReplaceEachReads(Replace(f, rules[0]), rules[1..], allowed);
    }
  }

  /** The rules after a rule do not change the value of its formula, whatever the propositions are. */
  ghost predicate Harmless(rules: seq<Rule>) {
    forall n: string, values: string -> bool :: n in AtOnce(rules) ==> Unharmed(rules, n, values)
  }

  ghost predicate Unharmed(rules: seq<Rule>, n: string, values: string -> bool)
    requires n in AtOnce(rules)
  {
    Sat(AfterAll(rules)[n], Still(values), 0) <==> Sat(AtOnce(rules)[n], Still(values), 0)
  }

  lemma NoCaptureIsHarmless(rules: seq<Rule>)
    requires NoCapture(rules)
    ensures Harmless(rules)
  {
    forall n: string, values: string -> bool | n in AtOnce(rules) ensures Unharmed(rules, n, values) {
      SequentialIsAtOnce(Prop(n), rules);
    }
  }

  /** Where nothing is harmed, rewriting rule by rule reads every proposition at the value of its formula. */
  lemma HarmlessMeans(f: Formula, rules: seq<Rule>, w: Word, t: nat)
    requires Harmless(rules) && forall j :: 0 <= j < |rules| ==> IsPropositional(rules[j].formula)
    ensures Sat(ReplaceEach(f, rules), w, t) <==> Sat(f, Reading(w, AtOnce(rules)), t)
  {
    var late, first := AfterAll(rules), AtOnce(rules);
    SequentialIsAfterAll(f, rules);
    ApplyMeans(f, late, w, t);
    forall n ensures AgreeOn(Reading(w, late), Reading(w, first), n) {
      forall u: nat ensures Reading(w, late)(u, n) == Reading(w, first)(u, n) {
        if n in first {
          var values := (x: string) => w(u, x);
          RuleIsPropositional(rules, n);
          PropositionalMeans(late[n], w, u, values);
          PropositionalMeans(first[n], w, u, values);
          assert Unharmed(rules, n, values);
        }
      }
    }
    ReadsOnlyProps(f, Reading(w, late), Reading(w, first), t);
  }

  lemma RuleIsPropositional(rules: seq<Rule>, n: string)
    requires n in AtOnce(rules) && forall j :: 0 <= j < |rules| ==> IsPropositional(rules[j].formula)
    ensures IsPropositional(AfterAll(rules)[n]) && IsPropositional(AtOnce(rules)[n])
  {
    var i := RuleOf(rules, n);
    ReplaceEachPropositional(Prop(n), rules);
  }

  /** The first rule of a replaced proposition. */
  lemma RuleOf(rules: seq<Rule>, n: string) returns (i: nat)
    requires n in AtOnce(rules)
    ensures i < |rules| && rules[i].prop == n && IsFirst(rules, i) && AtOnce(rules)[n] == rules[i].formula
    ensures AfterAll(rules)[n] == ReplaceEach(rules[i].formula, rules[i + 1..])
  {
    i := FindRule(rules, n);
    if i == |rules| {
      NoRule(rules, n);
    } else {
      FirstRule(rules, i);
    }
  }
}
