/** The bit game of the AIGER export: atoms over one-bit streams become Boolean formulas over bits,
    reads of the past and of fixed steps become bookkeeping outputs, and the skeleton is rewritten. */
module BitGame {
  import opened Options
  import opened Ltl
  import opened Substitution
  import opened Bookkeeping

  datatype Operator = BitAnd | BitOr | BitXor | BitAdd | BitSub

  /** A term over one-bit streams; OtherTerm is any other shape. */
  datatype Term =
    | One | Zero | Constant(value: int) | Read(stream: string, back: nat, input: bool)
    | ReadAt(stream: string, step: nat, input: bool)
    | Complement(arg: Term) | Parens(arg: Term) | Operation(op: Operator, left: Term, right: Term) | OtherTerm

  datatype Comparison = Eq | Neq | Lt | NotGteq | Lteq | NotGt | Gt | NotLteq | Gteq | NotLt | OtherComparison

  /** A comparison of two terms; NoComparison has not two operands. */
  datatype Atom = Atom(comparison: Comparison, left: Term, right: Term) | NoComparison

  // What a term and an atom mean: arithmetic modulo 2 on the values of the streams.

  function Operate(op: Operator, x: nat, y: nat): (r: nat)
    requires x <= 1 && y <= 1
    ensures r <= 1
  {
    match op
    case BitAnd => if x < y then x else y
    case BitOr => if x < y then y else x
    case BitXor => if x == y then 0 else 1
    case BitAdd => (x + y) % 2
    case BitSub => (x - y) % 2
  }

  function BitOf(b: bool): nat {
    if b then 1 else 0
  }

  ghost function TermValue(n: Term, s: Word, pre: Past, t: nat): (r: nat)
    ensures r <= 1
  {
    match n
    case One => 1
    case Zero => 0
    case Constant(v) => BitOf(v == 1)
    case Read(x, back, _) => BitOf(StreamAt(s, pre, x, back, t))
    case ReadAt(x, step, _) => BitOf(s(step, x))
    case Complement(a) => 1 - TermValue(a, s, pre, t)
    case Parens(a) => TermValue(a, s, pre, t)
    case Operation(op, a, b) => Operate(op, TermValue(a, s, pre, t), TermValue(b, s, pre, t))
    case OtherTerm => 0
  }

  predicate Compares(c: Comparison, x: nat, y: nat) {
    match c
    case Eq => x == y
    case Neq => x != y
    case Lt => x < y
    case NotGteq => !(x >= y)
    case Lteq => x <= y
    case NotGt => !(x > y)
    case Gt => x > y
    case NotLteq => !(x <= y)
    case Gteq => x >= y
    case NotLt => !(x < y)
    case OtherComparison => false
  }

  ghost predicate AtomHolds(atom: Atom, s: Word, pre: Past, t: nat) {
    atom.Atom? && Compares(atom.comparison, TermValue(atom.left, s, pre, t), TermValue(atom.right, s, pre, t))
  }

  // The translation.

  function OperatorConnective(op: Operator): Connective {
    match op
    case BitAnd => Conjunction
    case BitOr => Disjunction
    case _ => Difference
  }

  function CombinedFormula(op: Operator, f: Option<Formula>, g: Option<Formula>): Option<Formula> {
    if f.Some? && g.Some? then Some(Join(OperatorConnective(op), f.value, g.value)) else None
  }

  /** None is the error that the export does not take the term. */
  function TermFormula(n: Term): Option<Formula> {
    match n
    case One => Some(True)
    case Zero => Some(False)
    case Constant(v) => if v == 0 then Some(False) else if v == 1 then Some(True) else None
    case Read(x, back, _) => Some(Prop(if back == 0 then x else HistoryName(x, back)))
    case ReadAt(x, step, input) => if input && step > 0 then None else Some(Prop(FixedName(x, step)))
    case Complement(a) => (match TermFormula(a) case Some(f) => Some(Not(f)) case None => None)
    case Parens(a) => TermFormula(a)
    case Operation(op, a, b) => CombinedFormula(op, TermFormula(a), TermFormula(b))
    case OtherTerm => None
  }

  function ComparisonFormula(c: Comparison, x: Formula, y: Formula): Option<Formula> {
    match c
    case Eq => Some(Iff(x, y))
    case Neq => Some(Not(Iff(x, y)))
    case Lt => Some(And(Not(x), y))
    case NotGteq => Some(And(Not(x), y))
    case Lteq => Some(Or(Not(x), y))
    case NotGt => Some(Or(Not(x), y))
    case Gt => Some(And(x, Not(y)))
    case NotLteq => Some(And(x, Not(y)))
    case Gteq => Some(Or(x, Not(y)))
    case NotLt => Some(Or(x, Not(y)))
    case OtherComparison => None
  }

  function AtomFormula(atom: Atom): (r: Option<Formula>)
    ensures r.Some? ==> Size(r.value) > 1
  {
    if atom.Atom? && TermFormula(atom.left).Some? && TermFormula(atom.right).Some?
    then ComparisonFormula(atom.comparison, TermFormula(atom.left).value, TermFormula(atom.right).value) else None
  }

  /** A stream that is read, or a bookkeeping output needed for it. */
  datatype Need = Input(stream: string) | Output(stream: string) | History(key: Key) | Frozen(key: Key)

  function HistoryNeeds(name: string, back: nat): set<Need> {
    if back == 0 then {} else HistoryNeeds(name, back - 1) + {History((name, back))}
  }

  function StreamNeed(name: string, input: bool): Need {
    if input then Input(name) else Output(name)
  }

  function TermNeeds(n: Term): set<Need> {
    match n
    case Read(x, back, input) => {StreamNeed(x, input)} + HistoryNeeds(x, back)
    case ReadAt(x, step, input) => {StreamNeed(x, input)} + {Frozen((x, step))}
    case Complement(a) => TermNeeds(a)
    case Parens(a) => TermNeeds(a)
    case Operation(_, a, b) => TermNeeds(a) + TermNeeds(b)
    case _ => {}
  }

  function AtomNeeds(atom: Atom): set<Need> {
    if atom.Atom? then TermNeeds(atom.left) + TermNeeds(atom.right) else {}
  }

  ghost predicate HasStreams(needs: set<Need>, inputs: set<string>, outputs: set<string>) {
    (forall x :: Input(x) in needs <==> x in inputs) && (forall x :: Output(x) in needs <==> x in outputs)
  }

  ghost predicate HasHistory(needs: set<Need>, history: map<Key, string>) {
    && (forall key :: History(key) in needs <==> key in history)
    && Closed(history.Keys)
    && (forall key :: key in history ==> history[key] == HistoryName(key.0, key.1))
  }

  ghost predicate HasFixed(needs: set<Need>, fixedAt: map<Key, string>) {
    && (forall key :: Frozen(key) in needs <==> key in fixedAt)
    && (forall key :: key in fixedAt ==> fixedAt[key] == FixedName(key.0, key.1))
  }

  /** A need of one kind leaves the other kinds alone. */
  lemma StreamAdded(needs: set<Need>, inputs: set<string>, outputs: set<string>, name: string)
    requires HasStreams(needs, inputs, outputs)
    ensures HasStreams(needs + {Input(name)}, inputs + {name}, outputs)
    ensures HasStreams(needs + {Output(name)}, inputs, outputs + {name})
  {
  }

  lemma OtherStreams(needs: set<Need>, inputs: set<string>, outputs: set<string>, need: Need)
    requires HasStreams(needs, inputs, outputs) && (need.History? || need.Frozen?)
    ensures HasStreams(needs + {need}, inputs, outputs)
  {
  }

  lemma OtherHistory(needs: set<Need>, history: map<Key, string>, need: Need)
    requires HasHistory(needs, history) && !need.History?
    ensures HasHistory(needs + {need}, history)
  {
    hide Closed, HistoryName;
  }

  lemma OtherFixed(needs: set<Need>, fixedAt: map<Key, string>, need: Need)
    requires HasFixed(needs, fixedAt) && !need.Frozen?
    ensures HasFixed(needs + {need}, fixedAt)
  {
    hide FixedName;
  }

  /** One more history output keeps the histories closed. */
  lemma ClosedGrows(history: set<Key>, key: Key)
    requires Closed(history) && key.1 >= 1 && (key.1 > 1 ==> (key.0, (key.1 - 1) as nat) in history)
    ensures Closed(history + {key})
  {
  }

  lemma HistoryAdded(needs: set<Need>, history: map<Key, string>, key: Key)
    requires HasHistory(needs, history)
    requires key.1 >= 1 && (key.1 > 1 ==> (key.0, (key.1 - 1) as nat) in history)
    ensures HasHistory(needs + {History(key)}, history[key := HistoryName(key.0, key.1)])
  {
    hide Closed, HistoryName;
    ClosedGrows(history.Keys, key);
    assert history[key := HistoryName(key.0, key.1)].Keys == history.Keys + {key};
  }

  lemma HistoryKept(needs: set<Need>, history: map<Key, string>, key: Key)
    requires HasHistory(needs, history) && key in history
    ensures HasHistory(needs + {History(key)}, history)
  {
    hide Closed, HistoryName;
  }

  lemma FixedAdded(needs: set<Need>, fixedAt: map<Key, string>, key: Key)
    requires HasFixed(needs, fixedAt)
    ensures HasFixed(needs + {Frozen(key)}, fixedAt[key := FixedName(key.0, key.1)])
    ensures key in fixedAt ==> fixedAt[key := FixedName(key.0, key.1)] == fixedAt
  {
    hide FixedName;
  }

  /** The table of what the atoms translated so far need. */
  class BitTable {
    var inputs: set<string>
    var outputs: set<string>
    var history: map<Key, string>
    var fixedAt: map<Key, string>
    ghost var needs: set<Need>

    ghost predicate Valid()
      reads this
    {
      HasStreams(needs, inputs, outputs) && HasHistory(needs, history) && HasFixed(needs, fixedAt)
    }

    constructor ()
      ensures Valid() && needs == {}
    {
      inputs, outputs, history, fixedAt, needs := {}, {}, map[], map[], {};
    }

    method Mention(name: string, input: bool)
      requires Valid()
      modifies this
      ensures Valid() && needs == old(needs) + {StreamNeed(name, input)} && history == old(history)
              && fixedAt == old(fixedAt)
    {
      hide HasStreams, HasHistory, HasFixed;
      StreamAdded(needs, inputs, outputs, name);
      OtherHistory(needs, history, StreamNeed(name, input));
      OtherFixed(needs, fixedAt, StreamNeed(name, input));
      needs := needs + {StreamNeed(name, input)};
      if input { inputs := inputs + {name}; } else { outputs := outputs + {name}; }
    }

    /** Adds the history output of stream `name` `k` steps back, unless it is there. */
    method Remember(name: string, k: nat)
      requires Valid() && k >= 1 && (k > 1 ==> (name, (k - 1) as nat) in history)
      modifies this
      ensures Valid() && needs == old(needs) + {History((name, k))} && (name, k) in history
    {
      hide HasStreams, HasFixed, Closed, HistoryName;
      if (name, k) in history {
        HistoryKept(needs, history, (name, k));
      } else {
        HistoryAdded(needs, history, (name, k));
      }
      OtherStreams(needs, inputs, outputs, History((name, k)));
      OtherFixed(needs, fixedAt, History((name, k)));
      if (name, k) !in history {
        history := history[(name, k) := HistoryName(name, k)];
      }
      needs := needs + {History((name, k))};
    }

    /** The bit that stream `name` had `back` steps ago. */
    method At(name: string, back: nat, input: bool) returns (bit: string)
      requires Valid()
      modifies this
      ensures Valid() && needs == old(needs) + {StreamNeed(name, input)} + HistoryNeeds(name, back)
      ensures bit == if back == 0 then name else HistoryName(name, back)
    {
      hide HasStreams, HasFixed, Closed, HistoryName;
      Mention(name, input);
      if back == 0 { return name; }
      ghost var before := needs;
      for k := 1 to back + 1
        invariant Valid() && needs == before + HistoryNeeds(name, k - 1)
        invariant k > 1 ==> (name, k - 1) in history
      {
        Remember(name, k);
      }
      bit := history[(name, back)];
    }

    /** The bit that stream `name` has at step `k`. */
    method AtStep(name: string, k: nat, input: bool) returns (bit: string)
      requires Valid()
      modifies this
      ensures Valid() && needs == old(needs) + {StreamNeed(name, input)} + {Frozen((name, k))}
      ensures bit == FixedName(name, k)
    {
      Mention(name, input);
      hide HasStreams, HasHistory, FixedName;
      FixedAdded(needs, fixedAt, (name, k));
      OtherStreams(needs, inputs, outputs, Frozen((name, k)));
      OtherHistory(needs, history, Frozen((name, k)));
      if (name, k) !in fixedAt {
        fixedAt := fixedAt[(name, k) := FixedName(name, k)];
      }
      needs := needs + {Frozen((name, k))};
      bit := fixedAt[(name, k)];
    }

    method BitTerm(n: Term) returns (r: Option<Formula>)
      requires Valid()
      modifies this
      ensures Valid() && r == TermFormula(n)
      ensures r.Some? ==> needs == old(needs) + TermNeeds(n)
      decreases n, 1
    {
      hide HasStreams, HasHistory, HasFixed, HistoryName, FixedName, HistoryNeeds;
      match n {
        case One => return Some(True);
        case Zero => return Some(False);
        case Constant(v) =>
          if v == 0 { return Some(False); }
          if v == 1 { return Some(True); }
          return None;
        case Read(x, back, input) =>
          var bit := At(x, back, input);
          return Some(Prop(bit));
        case ReadAt(x, step, input) =>
          if input && step > 0 { return None; }
          var bit := AtStep(x, step, input);
          return Some(Prop(bit));
        case Complement(a) =>
          var f := BitTerm(a);
          if f.None? { return None; }
          return Some(Not(f.value));
        case Parens(a) =>
          r := BitTerm(a);
        case Operation(op, a, b) =>
          r := BitOperation(op, a, b);
        case OtherTerm => return None;
      }
    }

    method BitOperation(op: Operator, a: Term, b: Term) returns (r: Option<Formula>)
      requires Valid()
      modifies this
      ensures Valid() && r == CombinedFormula(op, TermFormula(a), TermFormula(b))
      ensures r.Some? ==> needs == old(needs) + TermNeeds(a) + TermNeeds(b)
      decreases Operation(op, a, b), 0
    {
      hide HasStreams, HasHistory, HasFixed;
      var f := BitTerm(a);
      if f.None? { return None; }
      var g := BitTerm(b);
      if g.None? { return None; }
      r := Some(Join(OperatorConnective(op), f.value, g.value));
    }

    method BitAtom(atom: Atom) returns (r: Option<Formula>)
      requires Valid()
      modifies this
      ensures Valid() && r == AtomFormula(atom)
      ensures r.Some? ==> needs == old(needs) + AtomNeeds(atom)
    {
      if atom.NoComparison? { return None; }
      var x := BitTerm(atom.left);
      if x.None? { return None; }
      var y := BitTerm(atom.right);
      if y.None? { return None; }
      r := ComparisonFormula(atom.comparison, x.value, y.value);
    }
  }

  // The translation is exact on tied words.

  ghost predicate Covers(history: set<Key>, fixedAt: set<Key>, needs: set<Need>) {
    forall need :: need in needs ==> (need.History? ==> need.key in history) && (need.Frozen? ==> need.key in fixedAt)
  }

  lemma OperatorMeans(op: Operator, x: nat, y: nat)
    requires x <= 1 && y <= 1
    ensures Connect(OperatorConnective(op), x == 1, y == 1) <==> Operate(op, x, y) == 1
  {
  }

  lemma {:induction false} TermMeans(n: Term, history: set<Key>, fixedAt: set<Key>, w: Word, t: nat)
    requires TermFormula(n).Some? && Covers(history, fixedAt, TermNeeds(n))
    requires Tied(w, history, fixedAt) && Closed(history)
    ensures Sat(TermFormula(n).value, w, t) <==> TermValue(n, w, PastOf(w), t) == 1
    decreases n
  {
    match n
    case Read(x, back, _) =>
      if back > 0 {
        assert History((x, back)) in TermNeeds(n);
        HistoryHolds(w, history, fixedAt, (x, back), t);
      }
    case ReadAt(x, step, _) =>
      assert Frozen((x, step)) in TermNeeds(n);
      FixedHolds(w, (x, step), t);
    case Complement(a) => TermMeans(a, history, fixedAt, w, t);
    case Parens(a) => TermMeans(a, history, fixedAt, w, t);
    case Operation(op, a, b) =>
      TermMeans(a, history, fixedAt, w, t);
      TermMeans(b, history, fixedAt, w, t);
      OperatorMeans(op, TermValue(a, w, PastOf(w), t), TermValue(b, w, PastOf(w), t));
    case _ =>
  }

  lemma ComparisonMeans(c: Comparison, f: Formula, g: Formula, w: Word, t: nat, x: nat, y: nat)
    requires x <= 1 && y <= 1 && (Sat(f, w, t) <==> x == 1) && (Sat(g, w, t) <==> y == 1)
    requires ComparisonFormula(c, f, g).Some?
    ensures Sat(ComparisonFormula(c, f, g).value, w, t) <==> Compares(c, x, y)
  {
    assert (Sat(Not(f), w, t) <==> x == 0) && (Sat(Not(g), w, t) <==> y == 0);
    assert Sat(Iff(f, g), w, t) <==> x == y;
    match c
    case Lt => assert x < y <==> x == 0 && y == 1;
    case NotGteq => assert x < y <==> x == 0 && y == 1;
    case Gt => assert x > y <==> x == 1 && y == 0;
    case NotLteq => assert x > y <==> x == 1 && y == 0;
    case _ =>
  }

  /** On a tied word the formula of an atom holds at exactly the steps at which the atom holds on the
      streams. */
  lemma AtomMeans(atom: Atom, history: set<Key>, fixedAt: set<Key>, w: Word, t: nat)
    requires AtomFormula(atom).Some? && Covers(history, fixedAt, AtomNeeds(atom))
    requires Tied(w, history, fixedAt) && Closed(history)
    ensures Sat(AtomFormula(atom).value, w, t) <==> AtomHolds(atom, w, PastOf(w), t)
  {
    TermMeans(atom.left, history, fixedAt, w, t);
    TermMeans(atom.right, history, fixedAt, w, t);
    ComparisonMeans(atom.comparison, TermFormula(atom.left).value, TermFormula(atom.right).value, w, t,
                    TermValue(atom.left, w, PastOf(w), t), TermValue(atom.right, w, PastOf(w), t));
  }
}
