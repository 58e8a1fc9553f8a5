/** The game handed to ltlsynt, and what it decides: a word of the streams, with any past, extends to a
    word of the game iff the skeleton holds on it with every atom read on the streams. */
module AigerExport {
  import opened Options
  import opened Ltl
  import opened Substitution
  import opened Bookkeeping
  import opened BitGame
  import opened AigerGame

  ghost function StreamNames(streams: seq<(string, bool)>, input: bool): set<string> {
    set i | 0 <= i < |streams| && streams[i].1 == input :: streams[i].0
  }

  /** The propositions the game's player reads. */
  ghost predicate IsInput(needs: set<Need>, streams: seq<(string, bool)>, x: string) {
    Input(x) in needs || x in StreamNames(streams, true)
  }

  /** The propositions the controller drives: streams, bookkeeping outputs, and the skeleton's outputs
      that are no atom. */
  ghost predicate IsOutput(needs: set<Need>, atomProps: set<string>, outputProps: seq<string>,
                           streams: seq<(string, bool)>, x: string) {
    || Output(x) in needs || x in StreamNames(streams, false)
    || IsBookkeeping(HistoryOf(needs), FrozenOf(needs), x)
    || (x in outputProps && x !in atomProps)
  }

  method Outputs(table: BitTable, atomProps: set<string>, outputProps: seq<string>) returns (outs: set<string>)
    requires table.Valid()
    ensures forall x :: x in outs <==> IsOutput(table.needs, atomProps, outputProps, [], x)
  {
    outs := table.outputs + table.history.Values + table.fixedAt.Values;
    ghost var base := outs;
    for i := 0 to |outputProps|
      invariant forall x :: x in outs <==> x in base || (x in outputProps[..i] && x !in atomProps)
    {
      if outputProps[i] !in atomProps { outs := outs + {outputProps[i]}; }
      assert outputProps[..i + 1] == outputProps[..i] + [outputProps[i]];
    }
    assert outputProps[..|outputProps|] == outputProps;
    forall x ensures x in base <==>
          Output(x) in table.needs || IsBookkeeping(HistoryOf(table.needs), FrozenOf(table.needs), x) {
      TableNames(table, x);
    }
  }

  lemma TableNames(table: BitTable, x: string)
    requires table.Valid()
    ensures x in table.history.Values <==> IsHistoryName(HistoryOf(table.needs), x)
    ensures x in table.fixedAt.Values <==> IsFixedName(FrozenOf(table.needs), x)
  {
    TableKeys(table);
    if x in table.history.Values {
      var key :| key in table.history && table.history[key] == x;
      assert HistoryName(key.0, key.1) == x;
    }
    if x in table.fixedAt.Values {
      var key :| key in table.fixedAt && table.fixedAt[key] == x;
      assert FixedName(key.0, key.1) == x;
    }
  }

  lemma TableKeys(table: BitTable)
    requires table.Valid()
    ensures HistoryOf(table.needs) == table.history.Keys && FrozenOf(table.needs) == table.fixedAt.Keys
  {
    forall key: Key ensures key in HistoryOf(table.needs) <==> key in table.history.Keys {
      assert History(key) in table.needs <==> key in table.history;
    }
    forall key: Key ensures key in FrozenOf(table.needs) <==> key in table.fixedAt.Keys {
      assert Frozen(key) in table.needs <==> key in table.fixedAt;
    }
  }

  /** Every stream of the formula joins the inputs or the outputs, whether an atom reads it or not. */
  method AddStreams(ins0: set<string>, outs0: set<string>, streams: seq<(string, bool)>)
    returns (ins: set<string>, outs: set<string>, driven: set<string>)
    ensures ins == ins0 + StreamNames(streams, true) && outs == outs0 + StreamNames(streams, false)
    ensures driven == StreamNames(streams, false)
  {
    ins, outs, driven := ins0, outs0, {};
    for i := 0 to |streams|
      invariant ins == ins0 + StreamNames(streams[..i], true)
      invariant outs == outs0 + StreamNames(streams[..i], false) && driven == StreamNames(streams[..i], false)
    {
      StreamNamesStep(streams, i, true);
      StreamNamesStep(streams, i, false);
      var (name, input) := streams[i];
      if !input {
        outs, driven := outs + {name}, driven + {name};
      } else if name !in ins {
        ins := ins + {name};
      }
    }
    assert streams[..|streams|] == streams;
  }

  lemma StreamNamesStep(streams: seq<(string, bool)>, i: nat, input: bool)
    requires i < |streams|
    ensures StreamNames(streams[..i + 1], input) ==
              StreamNames(streams[..i], input) + (if streams[i].1 == input then {streams[i].0} else {})
  {
    var before, after := streams[..i], streams[..i + 1];
    assert after == before + [streams[i]];
    forall x ensures x in StreamNames(after, input) <==>
          x in StreamNames(before, input) || (streams[i].1 == input && x == streams[i].0) {
      if x in StreamNames(before, input) {
        var j :| 0 <= j < i && before[j].1 == input && before[j].0 == x;
        assert after[j] == before[j];
      }
      if streams[i].1 == input && x == streams[i].0 {
        assert after[i] == streams[i];
      }
    }
  }

  /** The words of the game: the rewritten skeleton and the tying constraints. */
  ghost predicate InGame(skel: Formula, atoms: seq<NamedAtom>, w: Word)
    requires AllTaken(atoms)
  {
    var needs := NeedsOfAll(atoms);
    Sat(ReplaceEach(skel, RulesOf(atoms)), w, 0) && Tied(w, HistoryOf(needs), FrozenOf(needs))
  }

  method TieAll(f: Formula, table: BitTable) returns (tied: Formula)
    requires table.Valid()
    ensures forall w: Word :: Sat(tied, w, 0) <==>
              Sat(f, w, 0) && Tied(w, HistoryOf(table.needs), FrozenOf(table.needs))
  {
    var past := TieHistory(f, table.history);
    tied := TieFixed(past, table.fixedAt);
    TableKeys(table);
    forall w: Word ensures Sat(tied, w, 0) <==> Sat(f, w, 0) && Tied(w, HistoryOf(table.needs), FrozenOf(table.needs)) {
      assert Sat(tied, w, 0) <==> Sat(past, w, 0) && AllFixedTied(w, table.fixedAt.Keys);
      assert Sat(past, w, 0) <==> Sat(f, w, 0) && AllHistoryTied(w, table.history.Keys);
    }
  }

  method AllIn(names: seq<string>, props: set<string>) returns (ok: bool)
    ensures ok <==> forall i :: 0 <= i < |names| ==> names[i] in props
  {
    for i := 0 to |names|
      invariant forall j :: 0 <= j < i ==> names[j] in props
    {
      if names[i] !in props { return false; }
    }
    ok := true;
  }

  /** The game of a skeleton.  It is refused when an atom is no comparison of bits, reads an input at a
      fixed step after step 0, or leaves an input of the skeleton that is no atom. */
  method BitGameOf(skel: Formula, atoms: seq<NamedAtom>, inputProps: seq<string>, outputProps: seq<string>,
                   streams: seq<(string, bool)>)
    returns (r: Option<Game>)
    ensures r.Some? <==> AllTaken(atoms) && forall i :: 0 <= i < |inputProps| ==> inputProps[i] in PropsOfAll(atoms)
    ensures r.Some? ==> forall w: Word :: Sat(r.value.formula, w, 0) <==> InGame(skel, atoms, w)
    ensures r.Some? ==> forall x :: x in r.value.ins <==> IsInput(NeedsOfAll(atoms), streams, x)
    ensures r.Some? ==> forall x :: x in r.value.outs <==>
              IsOutput(NeedsOfAll(atoms), PropsOfAll(atoms), outputProps, streams, x)
    ensures r.Some? ==> r.value.streams == StreamNames(streams, false)
  {
    var table := new BitTable();
    var rewritten, props := RewriteSkeleton(skel, atoms, table);
    if rewritten.None? { return None; }
    var known := AllIn(inputProps, props);
    if !known { return None; }
    var formula := TieAll(rewritten.value, table);
    var outs0 := Outputs(table, props, outputProps);
    var ins, outs, driven := AddStreams(table.inputs, outs0, streams);
    r := Some(Game(formula, ins, outs, driven));
  }

  // What the game decides.

  /** The atom a proposition of the skeleton stands for. */
  ghost function AtomFor(atoms: seq<NamedAtom>, n: string): Option<Atom> {
    if atoms == [] then None else if atoms[0].1 == n then Some(atoms[0].0) else AtomFor(atoms[1..], n)
  }

  /** The word of the skeleton: every atom has the value it has on the streams. */
  ghost function AtomWord(atoms: seq<NamedAtom>, s: Word, pre: Past): Word {
    (u: nat, n: string) => if AtomFor(atoms, n).Some? then AtomHolds(AtomFor(atoms, n).value, s, pre, u) else s(u, n)
  }

  ghost predicate IsRuleOf(rule: Rule, atom: NamedAtom) {
    AtomFormula(atom.0) == Some(rule.formula) && rule.prop == atom.1
  }

  lemma {:induction false} AtomOfRule(atoms: seq<NamedAtom>, rules: seq<Rule>, n: string)
    requires |rules| == |atoms| && forall j :: 0 <= j < |atoms| ==> IsRuleOf(rules[j], atoms[j])
    ensures n in AtOnce(rules) <==> AtomFor(atoms, n).Some?
    ensures n in AtOnce(rules) ==> AtomFormula(AtomFor(atoms, n).value) == Some(AtOnce(rules)[n])
    ensures n in AtOnce(rules) ==> exists j :: 0 <= j < |atoms| && atoms[j].0 == AtomFor(atoms, n).value
    decreases |atoms|
  {
    if atoms != [] {
      assert IsRuleOf(rules[0], atoms[0]);
      forall j | 0 <= j < |atoms| - 1 ensures IsRuleOf(rules[1..][j], atoms[1..][j]) {
        assert IsRuleOf(rules[j + 1], atoms[j + 1]);
      }
      AtomOfRule(atoms[1..], rules[1..], n);
      if n in AtOnce(rules) && atoms[0].1 != n {
        var j :| 0 <= j < |atoms| - 1 && atoms[1..][j].0 == AtomFor(atoms[1..], n).value;
        assert atoms[j + 1].0 == AtomFor(atoms, n).value;
      }
    }
  }

  lemma {:induction false} NeedsOfOne(atoms: seq<NamedAtom>, i: nat)
    requires i < |atoms|
    ensures AtomNeeds(atoms[i].0) <= NeedsOfAll(atoms)
    decreases |atoms|
  {
    if i < |atoms| - 1 {
      NeedsOfOne(atoms[..|atoms| - 1], i);
    }
  }

  // Needs come with the stream they are about, and histories without gaps.

  ghost predicate WellFormed(needs: set<Need>) {
    forall need :: need in needs ==> WellFormedNeed(needs, need)
  }

  ghost predicate WellFormedNeed(needs: set<Need>, need: Need) {
    need.History? || need.Frozen? ==>
      && (Input(need.key.0) in needs || Output(need.key.0) in needs)
      && (need.History? ==>
            need.key.1 >= 1 && (need.key.1 > 1 ==> History((need.key.0, (need.key.1 - 1) as nat)) in needs))
  }

  lemma {:induction false} HistoryNeedsMember(name: string, back: nat, need: Need)
    ensures need in HistoryNeeds(name, back) <==> need.History? && need.key.0 == name && 1 <= need.key.1 <= back
  {
    if back > 0 {
      HistoryNeedsMember(name, back - 1, need);
    }
  }

  lemma {:induction false} TermNeedsWellFormed(n: Term)
    ensures WellFormed(TermNeeds(n))
  {
    match n
    case Read(x, back, input) =>
      forall need | need in TermNeeds(n) ensures WellFormedNeed(TermNeeds(n), need) {
        HistoryNeedsMember(x, back, need);
        if need.History? && need.key.1 > 1 {
          HistoryNeedsMember(x, back, History((x, (need.key.1 - 1) as nat)));
        }
      }
    case Complement(a) => TermNeedsWellFormed(a);
    case Parens(a) => TermNeedsWellFormed(a);
    case Operation(_, a, b) =>
      TermNeedsWellFormed(a);
      TermNeedsWellFormed(b);
      UnionWellFormed(TermNeeds(a), TermNeeds(b));
    case _ =>
  }

  lemma UnionWellFormed(a: set<Need>, b: set<Need>)
    requires WellFormed(a) && WellFormed(b)
    ensures WellFormed(a + b)
  {
    forall need | need in a + b ensures WellFormedNeed(a + b, need) {
      assert need in a ==> WellFormedNeed(a, need);
      assert need in b ==> WellFormedNeed(b, need);
    }
  }

  lemma {:induction false} AllNeedsWellFormed(atoms: seq<NamedAtom>)
    ensures WellFormed(NeedsOfAll(atoms))
    decreases |atoms|
  {
    if atoms != [] {
      var atom := atoms[|atoms| - 1].0;
      AllNeedsWellFormed(atoms[..|atoms| - 1]);
      if atom.Atom? {
        TermNeedsWellFormed(atom.left);
        TermNeedsWellFormed(atom.right);
        UnionWellFormed(TermNeeds(atom.left), TermNeeds(atom.right));
      }
      UnionWellFormed(NeedsOfAll(atoms[..|atoms| - 1]), AtomNeeds(atom));
    }
  }

  lemma WellFormedIsClosed(needs: set<Need>)
    requires WellFormed(needs)
    ensures Closed(HistoryOf(needs))
    ensures forall key :: key in HistoryOf(needs) || key in FrozenOf(needs) ==>
              Input(key.0) in needs || Output(key.0) in needs
  {
    forall key | key in HistoryOf(needs)
      ensures key.1 >= 1 && (key.1 > 1 ==> (key.0, (key.1 - 1) as nat) in HistoryOf(needs))
              && (Input(key.0) in needs || Output(key.0) in needs)
    {
      assert WellFormedNeed(needs, History(key));
    }
    forall key | key in FrozenOf(needs) ensures Input(key.0) in needs || Output(key.0) in needs {
      assert WellFormedNeed(needs, Frozen(key));
    }
  }

  lemma {:induction false} RulesArePropositional(atoms: seq<NamedAtom>)
    requires AllTaken(atoms)
    ensures forall j :: 0 <= j < |atoms| ==> IsPropositional(RulesOf(atoms)[j].formula)
  {
    forall j | 0 <= j < |atoms| ensures IsPropositional(RulesOf(atoms)[j].formula) {
      AtomIsPropositional(atoms[j].0);
    }
  }

  lemma {:induction false} AtomIsPropositional(atom: Atom)
    requires AtomFormula(atom).Some?
    ensures IsPropositional(AtomFormula(atom).value)
  {
    hide TermFormula;
    TermIsPropositional(atom.left);
    TermIsPropositional(atom.right);
  }

  lemma {:induction false} TermIsPropositional(n: Term)
    requires TermFormula(n).Some?
    ensures IsPropositional(TermFormula(n).value)
  {
    match n
    case Complement(a) => TermIsPropositional(a);
    case Parens(a) => TermIsPropositional(a);
    case Operation(_, a, b) => TermIsPropositional(a); TermIsPropositional(b);
    case _ =>
  }

  /** On a tied word the rewritten skeleton reads every atom as it is on the word's own streams. */
  lemma TiedGame(skel: Formula, atoms: seq<NamedAtom>, w: Word)
    requires AllTaken(atoms) && Harmless(RulesOf(atoms))
    requires Tied(w, HistoryOf(NeedsOfAll(atoms)), FrozenOf(NeedsOfAll(atoms)))
    ensures InGame(skel, atoms, w) <==> Sat(skel, AtomWord(atoms, w, PastOf(w)), 0)
  {
    var rules := RulesOf(atoms);
    RulesArePropositional(atoms);
    HarmlessMeans(skel, rules, w, 0);
    forall n ensures AgreeOn(Reading(w, AtOnce(rules)), AtomWord(atoms, w, PastOf(w)), n) {
      forall u: nat ensures Reading(w, AtOnce(rules))(u, n) == AtomWord(atoms, w, PastOf(w))(u, n) {
        RuleReadsAtom(atoms, rules, w, n, u);
      }
    }
    ReadsOnlyProps(skel, Reading(w, AtOnce(rules)), AtomWord(atoms, w, PastOf(w)), 0);
  }

  lemma RuleReadsAtom(atoms: seq<NamedAtom>, rules: seq<Rule>, w: Word, n: string, u: nat)
    requires AllTaken(atoms) && rules == RulesOf(atoms)
    requires Tied(w, HistoryOf(NeedsOfAll(atoms)), FrozenOf(NeedsOfAll(atoms)))
    ensures Reading(w, AtOnce(rules))(u, n) == AtomWord(atoms, w, PastOf(w))(u, n)
  {
    forall j | 0 <= j < |atoms| ensures IsRuleOf(rules[j], atoms[j]) {}
    AtomOfRule(atoms, rules, n);
    if n in AtOnce(rules) {
      var needs, atom := NeedsOfAll(atoms), AtomFor(atoms, n).value;
      var j :| 0 <= j < |atoms| && atoms[j].0 == atom;
      NeedsOfOne(atoms, j);
      AllNeedsWellFormed(atoms);
      WellFormedIsClosed(needs);
      CoversPart(needs, AtomNeeds(atom));
      AtomMeans(atom, HistoryOf(needs), FrozenOf(needs), w, u);
    }
  }

  lemma CoversPart(needs: set<Need>, part: set<Need>)
    requires part <= needs
    ensures Covers(HistoryOf(needs), FrozenOf(needs), part)
  {
    forall need | need in part
      ensures (need.History? ==> need.key in HistoryOf(needs)) && (need.Frozen? ==> need.key in FrozenOf(needs))
    {
      assert need in needs;
    }
  }

  /** No stream the atoms read is named like a bookkeeping output. */
  ghost predicate ClearStreams(atoms: seq<NamedAtom>) {
    var needs := NeedsOfAll(atoms);
    forall x :: Input(x) in needs || Output(x) in needs ==> !IsBookkeeping(HistoryOf(needs), FrozenOf(needs), x)
  }

  /** Nor is any proposition of the skeleton that is no atom. */
  ghost predicate ClearProps(skel: Formula, atoms: seq<NamedAtom>) {
    var needs := NeedsOfAll(atoms);
    forall x :: x in Props(skel) && AtomFor(atoms, x).None? ==> !IsBookkeeping(HistoryOf(needs), FrozenOf(needs), x)
  }

  ghost predicate ClearNames(skel: Formula, atoms: seq<NamedAtom>) {
    ClearStreams(atoms) && ClearProps(skel, atoms)
  }

  /** The streams that `part` reads have the values of `s` in `w`, and the pasts it needs are those of `pre`. */
  ghost predicate SameReads(part: set<Need>, w: Word, s: Word, pre: Past) {
    && (forall x, u: nat :: Input(x) in part || Output(x) in part ==> w(u, x) == s(u, x))
    && (forall key :: History(key) in part ==> PastOf(w)(key.1, key.0) == pre(key.1, key.0))
  }

  lemma {:induction false} SameTerm(n: Term, w: Word, s: Word, pre: Past, t: nat)
    requires SameReads(TermNeeds(n), w, s, pre)
    ensures TermValue(n, w, PastOf(w), t) == TermValue(n, s, pre, t)
    decreases n
  {
    match n
    case Read(x, back, input) =>
      assert StreamNeed(x, input) in TermNeeds(n);
      if t < back {
        HistoryNeedsMember(x, back, History((x, back - t)));
        assert History((x, back - t)) in TermNeeds(n);
      }
    case ReadAt(x, step, input) => assert StreamNeed(x, input) in TermNeeds(n);
    case Complement(a) => SameTerm(a, w, s, pre, t);
    case Parens(a) => SameTerm(a, w, s, pre, t);
    case Operation(_, a, b) => SameTerm(a, w, s, pre, t); SameTerm(b, w, s, pre, t);
    case _ =>
  }

  lemma SameAtomWord(skel: Formula, atoms: seq<NamedAtom>, w: Word, s: Word, pre: Past, n: string)
    requires AllTaken(atoms) && ClearNames(skel, atoms) && n in Props(skel)
    requires Carries(w, s, pre, HistoryOf(NeedsOfAll(atoms)), FrozenOf(NeedsOfAll(atoms)))
    ensures AgreeOn(AtomWord(atoms, w, PastOf(w)), AtomWord(atoms, s, pre), n)
  {
    var needs := NeedsOfAll(atoms);
    if AtomFor(atoms, n).Some? {
      var atom := AtomFor(atoms, n).value;
      forall j | 0 <= j < |atoms| ensures IsRuleOf(RulesOf(atoms)[j], atoms[j]) {}
      AtomOfRule(atoms, RulesOf(atoms), n);
      var j :| 0 <= j < |atoms| && atoms[j].0 == atom;
      NeedsOfOne(atoms, j);
      if atom.Atom? {
        NeedsRead(needs, TermNeeds(atom.left), w, s, pre);
        NeedsRead(needs, TermNeeds(atom.right), w, s, pre);
      }
      forall u: nat ensures AtomHolds(atom, w, PastOf(w), u) == AtomHolds(atom, s, pre, u) {
        if atom.Atom? {
          SameTerm(atom.left, w, s, pre, u);
          SameTerm(atom.right, w, s, pre, u);
        }
      }
    }
  }

  lemma NeedsRead(needs: set<Need>, part: set<Need>, w: Word, s: Word, pre: Past)
    requires part <= needs && Carries(w, s, pre, HistoryOf(needs), FrozenOf(needs))
    requires forall x :: Input(x) in needs || Output(x) in needs ==>
               !IsBookkeeping(HistoryOf(needs), FrozenOf(needs), x)
    ensures SameReads(part, w, s, pre)
  {
    forall key | History(key) in part ensures PastOf(w)(key.1, key.0) == pre(key.1, key.0) {
      assert key in HistoryOf(needs);
    }
  }

  /** Every tied word that carries the streams `s` and the past `pre` is in the game iff the skeleton
      holds on `s` and `pre`, each atom read on the streams. */
  lemma CarriedGame(skel: Formula, atoms: seq<NamedAtom>, w: Word, s: Word, pre: Past)
    requires AllTaken(atoms) && Harmless(RulesOf(atoms)) && ClearNames(skel, atoms)
    requires Tied(w, HistoryOf(NeedsOfAll(atoms)), FrozenOf(NeedsOfAll(atoms)))
    requires Carries(w, s, pre, HistoryOf(NeedsOfAll(atoms)), FrozenOf(NeedsOfAll(atoms)))
    ensures InGame(skel, atoms, w) <==> Sat(skel, AtomWord(atoms, s, pre), 0)
  {
    TiedGame(skel, atoms, w);
    forall n | n in Props(skel) ensures AgreeOn(AtomWord(atoms, w, PastOf(w)), AtomWord(atoms, s, pre), n) {
      SameAtomWord(skel, atoms, w, s, pre, n);
    }
    ReadsOnlyProps(skel, AtomWord(atoms, w, PastOf(w)), AtomWord(atoms, s, pre), 0);
  }

  /** Some word of the game carries the streams and the past iff the skeleton holds on them. */
  ghost predicate Decided(skel: Formula, atoms: seq<NamedAtom>, s: Word, pre: Past)
    requires AllTaken(atoms)
  {
    (exists w: Word ::
       Carries(w, s, pre, HistoryOf(NeedsOfAll(atoms)), FrozenOf(NeedsOfAll(atoms))) && InGame(skel, atoms, w))
    <==> Sat(skel, AtomWord(atoms, s, pre), 0)
  }

  /** The bit game preserves meaning. */
  lemma GameDecides(skel: Formula, atoms: seq<NamedAtom>, s: Word, pre: Past)
    requires AllTaken(atoms) && Harmless(RulesOf(atoms)) && ClearNames(skel, atoms)
    ensures Decided(skel, atoms, s, pre)
  {
    var history, fixedAt := HistoryOf(NeedsOfAll(atoms)), FrozenOf(NeedsOfAll(atoms));
    AllNeedsWellFormed(atoms);
    WellFormedIsClosed(NeedsOfAll(atoms));
    if w: Word :| Carries(w, s, pre, history, fixedAt) && InGame(skel, atoms, w) {
      CarriedGame(skel, atoms, w, s, pre);
    }
    if Sat(skel, AtomWord(atoms, s, pre), 0) {
      var w := Extension(s, pre, history, fixedAt);
      ExtensionTied(s, pre, history, fixedAt);
      CarriedGame(skel, atoms, w, s, pre);
    }
  }
}
