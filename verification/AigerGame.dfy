/** The assembly of the bit game: the rewritten skeleton with the constraints that tie its bookkeeping
    outputs, and what the game decides about the streams. */
module AigerGame {
  import opened Options
  import opened Ltl
  import opened Substitution
  import opened Bookkeeping
  import opened BitGame

  /** An atom and the proposition that stands for it in the skeleton. */
  type NamedAtom = (Atom, string)

  datatype Game = Game(formula: Formula, ins: set<string>, outs: set<string>, streams: set<string>)

  ghost predicate AllTaken(atoms: seq<NamedAtom>) {
    forall i :: 0 <= i < |atoms| ==> AtomFormula(atoms[i].0).Some?
  }

  ghost function RulesOf(atoms: seq<NamedAtom>): (rules: seq<Rule>)
    requires AllTaken(atoms)
    ensures |rules| == |atoms|
    ensures forall i :: 0 <= i < |atoms| ==> rules[i] == Rule(atoms[i].1, AtomFormula(atoms[i].0).value)
  {
    if atoms == [] then []
    else
      var last := atoms[|atoms| - 1];
      RulesOf(atoms[..|atoms| - 1]) + [Rule(last.1, AtomFormula(last.0).value)]
  }

  ghost function NeedsOfAll(atoms: seq<NamedAtom>): set<Need> {
    if atoms == [] then {} else NeedsOfAll(atoms[..|atoms| - 1]) + AtomNeeds(atoms[|atoms| - 1].0)
  }

  ghost function PropsOfAll(atoms: seq<NamedAtom>): set<string> {
    if atoms == [] then {} else PropsOfAll(atoms[..|atoms| - 1]) + {atoms[|atoms| - 1].1}
  }

  ghost function HistoryOf(needs: set<Need>): set<Key> {
    set need | need in needs && need.History? :: need.key
  }

  ghost function FrozenOf(needs: set<Need>): set<Key> {
    set need | need in needs && need.Frozen? :: need.key
  }

  /** The skeleton with the first atoms replaced in turn, and what these atoms need. */
  ghost predicate Rewritten(skel: Formula, atoms: seq<NamedAtom>, f: Formula, needs: set<Need>, props: set<string>) {
    AllTaken(atoms) && f == ReplaceEach(skel, RulesOf(atoms)) && needs == NeedsOfAll(atoms)
        && props == PropsOfAll(atoms)
  }

  lemma NextRewritten(skel: Formula, atoms: seq<NamedAtom>, i: nat, f: Formula, needs: set<Need>, props: set<string>,
                      g: Formula)
    requires i < |atoms| && Rewritten(skel, atoms[..i], f, needs, props) && AtomFormula(atoms[i].0) == Some(g)
    ensures Rewritten(skel, atoms[..i + 1], Replace(f, Rule(atoms[i].1, g)), needs + AtomNeeds(atoms[i].0),
                      props + {atoms[i].1})
  {
    hide Replace, ReplaceEach, AtomFormula, AtomNeeds;
    var done, more := atoms[..i], atoms[..i + 1];
    assert more[..i] == done && more[i] == atoms[i];
    forall j | 0 <= j < |more| ensures AtomFormula(more[j].0).Some? {
      assert j < i ==> more[j] == done[j];
    }
    assert RulesOf(more) == RulesOf(done) + [Rule(atoms[i].1, g)];
    ReplaceEachAppend(skel, RulesOf(done), Rule(atoms[i].1, g));
  }

  /** Rewrites the skeleton atom by atom. */
  method RewriteSkeleton(skel: Formula, atoms: seq<NamedAtom>, table: BitTable)
    returns (r: Option<Formula>, props: set<string>)
    requires table.Valid() && table.needs == {}
    modifies table
    ensures table.Valid()
    ensures r.Some? <==> AllTaken(atoms)
    ensures r.Some? ==>
              && r.value == ReplaceEach(skel, RulesOf(atoms))
              && table.needs == NeedsOfAll(atoms) && props == PropsOfAll(atoms)
  {
    r, props := None, {};
    var f := skel;
    assert Rewritten(skel, atoms[..0], f, {}, {});
    hide Rewritten, AtomFormula, HasStreams, HasHistory, HasFixed;
    for i := 0 to |atoms|
      invariant table.Valid() && Rewritten(skel, atoms[..i], f, table.needs, props)
    {
      ghost var needs := table.needs;
      var g := table.BitAtom(atoms[i].0);
      if g.None? { return; }
      NextRewritten(skel, atoms, i, f, needs, props, g.value);
      f, props := Replace(f, Rule(atoms[i].1, g.value)), props + {atoms[i].1};
    }
    assert atoms[..|atoms|] == atoms;
    r := Some(f);
    RewrittenAll(skel, atoms, f, table.needs, props);
  }

  lemma RewrittenAll(skel: Formula, atoms: seq<NamedAtom>, f: Formula, needs: set<Need>, props: set<string>)
    requires Rewritten(skel, atoms, f, needs, props)
    ensures AllTaken(atoms) && f == ReplaceEach(skel, RulesOf(atoms)) && needs == NeedsOfAll(atoms)
            && props == PropsOfAll(atoms)
  {
  }

  // The tying constraints as formulas.

  function NextTimes(f: Formula, k: nat): Formula {
    if k == 0 then f else Next(NextTimes(f, k - 1))
  }

  lemma {:induction false} NextTimesMeans(f: Formula, k: nat, w: Word, t: nat)
    ensures Sat(NextTimes(f, k), w, t) <==> Sat(f, w, t + k)
    decreases k
  {
    if k > 0 {
      NextTimesMeans(f, k - 1, w, t + 1);
    }
  }

  function HistoryTie(key: Key): Formula {
    Globally(Iff(Prop(PreviousName(key)), Next(Prop(HistoryName(key.0, key.1)))))
  }

  lemma HistoryTieMeans(key: Key, w: Word)
    ensures Sat(HistoryTie(key), w, 0) <==> HistoryTied(w, key)
  {
    var clause := Iff(Prop(PreviousName(key)), Next(Prop(HistoryName(key.0, key.1))));
    GloballyIsAlways(clause, w, 0);
    forall u: nat ensures Sat(clause, w, u) <==> TiedAt(w, key, u) {
      assert Sat(Next(Prop(HistoryName(key.0, key.1))), w, u) <==> w(u + 1, HistoryName(key.0, key.1));
    }
  }

  /** The copy has the stream's value at its step, and never changes. */
  function FixedTie(key: Key): (Formula, Formula) {
    var copy := Prop(FixedName(key.0, key.1));
    (NextTimes(Iff(copy, Prop(key.0)), key.1), Globally(Iff(copy, Next(copy))))
  }

  lemma FixedTieMeans(key: Key, w: Word)
    ensures Sat(FixedTie(key).0, w, 0) && Sat(FixedTie(key).1, w, 0) <==> FixedTied(w, key)
  {
    var copy := Prop(FixedName(key.0, key.1));
    NextTimesMeans(Iff(copy, Prop(key.0)), key.1, w, 0);
    assert Sat(Iff(copy, Prop(key.0)), w, key.1) <==> w(key.1, FixedName(key.0, key.1)) == w(key.1, key.0);
    GloballyIsAlways(Iff(copy, Next(copy)), w, 0);
    forall u: nat ensures Sat(Iff(copy, Next(copy)), w, u) <==> FrozenAt(w, key, u) {
      assert Sat(Next(copy), w, u) <==> w(u + 1, FixedName(key.0, key.1));
    }
  }

  ghost predicate AllHistoryTied(w: Word, keys: set<Key>) {
    forall key :: key in keys ==> HistoryTied(w, key)
  }

  ghost predicate AllFixedTied(w: Word, keys: set<Key>) {
    forall key :: key in keys ==> FixedTied(w, key)
  }

  lemma AddHistoryTie(skel: Formula, f: Formula, done: set<Key>, key: Key)
    requires forall w: Word :: Sat(f, w, 0) <==> Sat(skel, w, 0) && AllHistoryTied(w, done)
    ensures forall w: Word :: Sat(And(f, HistoryTie(key)), w, 0) <==> Sat(skel, w, 0) && AllHistoryTied(w, done + {key})
  {
    hide HistoryTied, HistoryTie;
    forall w: Word ensures Sat(And(f, HistoryTie(key)), w, 0) <==> Sat(skel, w, 0) && AllHistoryTied(w, done + {key}) {
      HistoryTieMeans(key, w);
      assert AllHistoryTied(w, done + {key}) <==> AllHistoryTied(w, done) && HistoryTied(w, key);
    }
  }

  lemma AddFixedTie(skel: Formula, f: Formula, done: set<Key>, key: Key)
    requires forall w: Word :: Sat(f, w, 0) <==> Sat(skel, w, 0) && AllFixedTied(w, done)
    ensures forall w: Word ::
              Sat(And(And(f, FixedTie(key).0), FixedTie(key).1), w, 0) <==>
                    Sat(skel, w, 0) && AllFixedTied(w, done + {key})
  {
    var first, both := And(f, FixedTie(key).0), And(And(f, FixedTie(key).0), FixedTie(key).1);
    forall w: Word ensures Sat(both, w, 0) <==> Sat(skel, w, 0) && AllFixedTied(w, done + {key}) {
      FixedTieMeans(key, w);
      assert Sat(both, w, 0) <==> Sat(first, w, 0) && Sat(FixedTie(key).1, w, 0);
      assert AllFixedTied(w, done + {key}) <==> AllFixedTied(w, done) && FixedTied(w, key);
    }
  }

  method TieHistory(skel: Formula, history: map<Key, string>) returns (f: Formula)
    requires Closed(history.Keys) && forall key :: key in history ==> history[key] == HistoryName(key.0, key.1)
    ensures forall w: Word :: Sat(f, w, 0) <==> Sat(skel, w, 0) && AllHistoryTied(w, history.Keys)
  {
    f := skel;
    var todo, done: set<Key> := history.Keys, {};
    while todo != {}
      invariant todo + done == history.Keys
      invariant forall w: Word :: Sat(f, w, 0) <==> Sat(skel, w, 0) && AllHistoryTied(w, done)
      decreases todo
    {
      var key :| key in todo;
      var previous := if key.1 == 1 then key.0 else history[(key.0, key.1 - 1)];
      assert previous == PreviousName(key);
      AddHistoryTie(skel, f, done, key);
      f := And(f, Globally(Iff(Prop(previous), Next(Prop(history[key])))));
      todo, done := todo - {key}, done + {key};
    }
    assert done == history.Keys;
  }

  method TieFixed(skel: Formula, fixedAt: map<Key, string>) returns (f: Formula)
    requires forall key :: key in fixedAt ==> fixedAt[key] == FixedName(key.0, key.1)
    ensures forall w: Word :: Sat(f, w, 0) <==> Sat(skel, w, 0) && AllFixedTied(w, fixedAt.Keys)
  {
    f := skel;
    var todo, done: set<Key> := fixedAt.Keys, {};
    while todo != {}
      invariant todo + done == fixedAt.Keys
      invariant forall w: Word :: Sat(f, w, 0) <==> Sat(skel, w, 0) && AllFixedTied(w, done)
      decreases todo
    {
      var key :| key in todo;
      var copy := Prop(fixedAt[key]);
      var atK := Iff(copy, Prop(key.0));
      for j := 0 to key.1
        invariant atK == NextTimes(Iff(copy, Prop(key.0)), j)
      {
        atK := Next(atK);
      }
      AddFixedTie(skel, f, done, key);
      f := And(And(f, atK), Globally(Iff(copy, Next(copy))));
      todo, done := todo - {key}, done + {key};
    }
    assert done == fixedAt.Keys;
  }
}
