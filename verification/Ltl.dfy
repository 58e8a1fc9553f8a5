/** Linear temporal logic over named propositions, read on infinite words. */
module Ltl {
  import opened Options

  datatype Connective = Conjunction | Disjunction | Implication | Equivalence | Difference

  datatype Formula =
    | True | False | Prop(name: string) | Not(arg: Formula) | Join(op: Connective, left: Formula, right: Formula)
    | Next(arg: Formula) | Globally(arg: Formula) | Until(left: Formula, right: Formula)

  function And(f: Formula, g: Formula): Formula { Join(Conjunction, f, g) }

  function Or(f: Formula, g: Formula): Formula { Join(Disjunction, f, g) }

  function Implies(f: Formula, g: Formula): Formula { Join(Implication, f, g) }

  function Iff(f: Formula, g: Formula): Formula { Join(Equivalence, f, g) }

  predicate Connect(op: Connective, a: bool, b: bool) {
    match op
    case Conjunction => a && b
    case Disjunction => a || b
    case Implication => a ==> b
    case Equivalence => a == b
    case Difference => a != b
  }

  /** The value of each proposition at each step. */
  type Word = (nat, string) -> bool

  ghost predicate Sat(f: Formula, w: Word, t: nat)
    decreases f, 0
  {
    match f
    case True => true
    case False => false
    case Prop(n) => w(t, n)
    case Not(g) => !Sat(g, w, t)
    case Join(op, g, h) => Connect(op, Sat(g, w, t), Sat(h, w, t))
    case Next(g) => Sat(g, w, t + 1)
    case Globally(g) => forall u: nat :: t <= u ==> Sat(g, w, u)
    case Until(g, h) => exists u: nat :: HoldsUntil(Meaning(g, w), Meaning(h, w), t, u)
  }

  /** The steps at which a formula holds. */
  ghost function Meaning(f: Formula, w: Word): nat -> bool
    decreases f, 1
  {
    (t: nat) => Sat(f, w, t)
  }

  /** `q` holds at `u`, and `p` at every step from `t` until then. */
  ghost predicate HoldsUntil(p: nat -> bool, q: nat -> bool, t: nat, u: nat) {
    t <= u && q(u) && forall v: nat :: t <= v < u ==> p(v)
  }

  ghost predicate AlwaysSat(f: Formula, w: Word, t: nat) {
    forall u: nat :: t <= u ==> Sat(f, w, u)
  }

  lemma GloballyIsAlways(f: Formula, w: Word, t: nat)
    ensures Sat(Globally(f), w, t) <==> AlwaysSat(f, w, t)
  {
  }

  // Conjunctions and disjunctions under construction; None is the empty one.

  function Conjoin(acc: Option<Formula>, clause: Formula): Option<Formula> {
    Some(if acc.None? then clause else And(acc.value, clause))
  }

  function Disjoin(acc: Option<Formula>, clause: Formula): Option<Formula> {
    Some(if acc.None? then clause else Or(acc.value, clause))
  }

  ghost predicate SatAll(acc: Option<Formula>, w: Word, t: nat) {
    acc.Some? ==> Sat(acc.value, w, t)
  }

  ghost predicate SatAny(acc: Option<Formula>, w: Word, t: nat) {
    acc.Some? && Sat(acc.value, w, t)
  }
}
