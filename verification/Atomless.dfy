/** The per-coordinate decode of a step whose constraints are disequalities over an atomless algebra. */
module Atomless {

  type Variable = string

  /** The atoms' language: the free variables of an atom, substitution of values for variables, and
      truth under a valuation. */
  datatype Theory<!A, !D> = Theory(free: A -> set<Variable>, replace: (A, map<Variable, D>) -> A,
                                   holds: (A, Variable -> D) -> bool)

  ghost predicate Agrees<D(!new)>(v: Variable -> D, values: map<Variable, D>) {
    forall x :: x in values ==> v(x) == values[x]
  }

  ghost predicate IsTheory<A(!new), D(!new)>(th: Theory<A, D>) {
    && (forall a: A, values: map<Variable, D> :: th.free(th.replace(a, values)) <= th.free(a) - values.Keys)
    && (forall a: A, values: map<Variable, D>, v: Variable -> D :: Agrees(v, values) ==>
        th.holds(th.replace(a, values), v) == th.holds(a, v))
  }

  /** The atom holds whatever the variables that are not decided are. */
  ghost predicate Satisfied<A(!new), D(!new)>(th: Theory<A, D>, a: A, values: map<Variable, D>) {
    forall v: Variable -> D :: Agrees(v, values) ==> th.holds(a, v)
  }

  /** The answer to a system in one variable: an error, no solution, or values for variables. */
  datatype Answer<D> = Error | Unsatisfiable | Values(values: map<Variable, D>)

  /** The solver of systems in one variable; it sees the elements the run knows. */
  type Solver<!A, !D> = (set<D>, seq<A>, Variable) -> Answer<D>

  ghost predicate InOneVariable<A(!new), D(!new)>(th: Theory<A, D>, sys: seq<A>, x: Variable) {
    forall i :: 0 <= i < |sys| ==> th.free(sys[i]) <= {x}
  }

  /** Values for a system satisfy it; a variable the values leave out may take any value. */
  ghost predicate SoundSolver<A(!new), D(!new)>(th: Theory<A, D>, solver: Solver<A, D>) {
    forall known: set<D>, sys: seq<A>, x: Variable, v: Variable -> D,
        i: nat {:trigger th.holds(sys[i], v), solver(known, sys, x)} ::
      i < |sys| && InOneVariable(th, sys, x) && solver(known, sys, x).Values?
      && (x in solver(known, sys, x).values ==> v(x) == solver(known, sys, x).values[x])
      ==> th.holds(sys[i], v)
  }

  /** The solver has no solution for the system, or leaves out its variable though an atom names it. */
  ghost predicate Refuses<A(!new), D(!new)>(th: Theory<A, D>, answer: Answer<D>, sys: seq<A>, x: Variable) {
    || answer == Unsatisfiable
    || (answer.Values? && x !in answer.values && HasNames(th, sys))
  }

  /** The elements the run knows. */
  class Ledger<D(==)> {
    var known: set<D>

    constructor ()
      ensures known == {}
    {
      known := {};
    }

    method Commit(values: set<D>)
      modifies this
      ensures known == old(known) + values
    {
      known := known + values;
    }
  }

  datatype Outcome<D> = Failed | Rejected | Decided(values: map<Variable, D>)

  function Range(coords: seq<Variable>): (s: set<Variable>)
    ensures forall x :: x in s <==> x in coords
  {
    set x | x in coords
  }

  ghost predicate NoRepeats(coords: seq<Variable>) {
    forall i, j :: 0 <= i < j < |coords| ==> coords[i] != coords[j]
  }

  /** A system of the coordinate `x`: atoms with the decided values substituted, which name at most `x`. */
  ghost predicate IsSystem<A(!new), D(!new)>(th: Theory<A, D>, atoms: seq<A>, values: map<Variable, D>, x: Variable,
                                             sys: seq<A>) {
    InOneVariable(th, sys, x) && forall k :: 0 <= k < |sys| ==> IsSubstituted(th, atoms, values, sys[k])
  }

  ghost predicate IsSubstituted<A(!new), D(!new)>(th: Theory<A, D>, atoms: seq<A>, values: map<Variable, D>, g: A) {
    exists i :: 0 <= i < |atoms| && g == th.replace(atoms[i], values)
  }

  /** Once the values are substituted, the atom names at most `x`. */
  ghost predicate NamesAtMost<A(!new), D(!new)>(th: Theory<A, D>, a: A, values: map<Variable, D>, x: Variable) {
    th.free(th.replace(a, values)) <= {x}
  }

  /** The first `n` atoms, those not used yet that name at most `x`, with the values substituted. */
  ghost function Collected<A(!new), D(!new)>(th: Theory<A, D>, atoms: seq<A>, values: map<Variable, D>, x: Variable,
                                             used: seq<bool>, n: nat): seq<A>
    requires n <= |atoms| == |used|
  {
    if n == 0 then []
    else
      Collected(th, atoms, values, x, used, n - 1)
      + if !used[n - 1] && NamesAtMost(th, atoms[n - 1], values, x) then [th.replace(atoms[n - 1], values)] else []
  }

  /** The atoms not used yet that name at most `x` once the values are substituted go into its system. */
  ghost predicate IsCollected<A(!new), D(!new)>(th: Theory<A, D>, atoms: seq<A>, values: map<Variable, D>, x: Variable,
                                         before: seq<bool>, after: seq<bool>, sys: seq<A>, n: nat)
    requires |before| == |after| == |atoms| && n <= |atoms|
  {
    && IsSystem(th, atoms, values, x, sys) && sys == Collected(th, atoms, values, x, before, n)
    && (forall i :: 0 <= i < |atoms| ==> after[i] == (before[i] || (i < n && NamesAtMost(th, atoms[i], values, x))))
    && (forall i :: 0 <= i < n && after[i] && !before[i] ==> th.replace(atoms[i], values) in sys)
  }

  lemma SystemGrows<A(!new), D(!new)>(th: Theory<A, D>, atoms: seq<A>, values: map<Variable, D>, x: Variable,
                                      sys: seq<A>, i: nat)
    requires IsSystem(th, atoms, values, x, sys) && i < |atoms| && NamesAtMost(th, atoms[i], values, x)
    ensures var more := sys + [th.replace(atoms[i], values)];
            && IsSystem(th, atoms, values, x, more)
            && (HasNames(th, more) <==> HasNames(th, sys) || th.free(th.replace(atoms[i], values)) != {})
  {
    var g := th.replace(atoms[i], values);
    var more := sys + [g];
    assert IsSubstituted(th, atoms, values, g);
    assert more[|sys|] == g && forall j :: 0 <= j < |sys| ==> more[j] == sys[j];
    if j :| 0 <= j < |sys| && th.free(sys[j]) != {} { assert th.free(more[j]) != {}; }
  }

  lemma NoSystem<A(!new), D(!new)>(th: Theory<A, D>, atoms: seq<A>, values: map<Variable, D>, x: Variable)
    ensures IsSystem(th, atoms, values, x, []) && !HasNames(th, [])
  {
  }

  /** Some atom of the system names a variable. */
  ghost predicate HasNames<A(!new), D(!new)>(th: Theory<A, D>, sys: seq<A>) {
    exists i :: 0 <= i < |sys| && th.free(sys[i]) != {}
  }

  method Collect<A(!new), D(!new)>(th: Theory<A, D>, atoms: seq<A>, values: map<Variable, D>, x: Variable,
                                   consumed: array<bool>)
    returns (sys: seq<A>, constrained: bool)
    requires consumed.Length == |atoms|
    modifies consumed
    ensures IsCollected(th, atoms, values, x, old(consumed[..]), consumed[..], sys, |atoms|)
    ensures constrained <==> HasNames(th, sys)
  {
    hide IsSystem, HasNames;
    NoSystem(th, atoms, values, x);
    sys, constrained := [], false;
    for i := 0 to |atoms|
      invariant IsCollected(th, atoms, values, x, old(consumed[..]), consumed[..], sys, i)
      invariant constrained <==> HasNames(th, sys)
    {
      if consumed[i] { continue; }
      var g := th.replace(atoms[i], values);
      if th.free(g) <= {x} {
        SystemGrows(th, atoms, values, x, sys, i);
        sys := sys + [g];
        consumed[i] := true;
        if th.free(g) != {} { constrained := true; }
      }
    }
  }

  /** After the turns of the coordinates `done`: they have values, the atoms used so far hold whatever the
      undecided variables are, and every atom over `done` has been used. */
  ghost predicate AfterTurns<A(!new), D(!new)>(th: Theory<A, D>, atoms: seq<A>, done: seq<Variable>,
                                               values: map<Variable, D>, consumed: seq<bool>)
    requires |consumed| == |atoms|
  {
    && values.Keys == Range(done)
    && (forall i :: 0 <= i < |atoms| && consumed[i] ==> Satisfied(th, atoms[i], values))
    && (forall i :: 0 <= i < |atoms| && done != [] && th.free(atoms[i]) <= Range(done) ==> consumed[i])
  }

  /** A value for a new variable keeps what held before. */
  lemma SatisfiedGrows<A(!new), D(!new)>(th: Theory<A, D>, a: A, values: map<Variable, D>, x: Variable, d: D)
    requires Satisfied(th, a, values) && x !in values
    ensures Satisfied(th, a, values[x := d])
  {
    forall v: Variable -> D | Agrees(v, values[x := d]) ensures th.holds(a, v) {
      forall y | y in values ensures v(y) == values[y] {
        assert y in values[x := d];
      }
      assert Agrees(v, values);
    }
  }

  /** The value the turn of `x` commits to. */
  ghost predicate IsTurnValue<D(!new)>(answer: Answer<D>, x: Variable, d: D) {
    answer.Values? && (x in answer.values ==> answer.values[x] == d)
  }

  /** An atom in the system of `x` holds once `x` has its value. */
  lemma SolvedHolds<A(!new), D(!new)>(th: Theory<A, D>, solver: Solver<A, D>, known: set<D>, sys: seq<A>, x: Variable,
                                      a: A, values: map<Variable, D>, d: D)
    requires IsTheory(th) && SoundSolver(th, solver) && InOneVariable(th, sys, x) && x !in values
    requires IsTurnValue(solver(known, sys, x), x, d) && th.replace(a, values) in sys
    ensures Satisfied(th, a, values[x := d])
  {
    var i :| 0 <= i < |sys| && sys[i] == th.replace(a, values);
    forall v: Variable -> D | Agrees(v, values[x := d]) ensures th.holds(a, v) {
      assert x in values[x := d] && v(x) == d;
      forall y | y in values ensures v(y) == values[y] {
        assert y in values[x := d];
      }
      assert Agrees(v, values);
      assert th.holds(sys[i], v);
    }
  }

  lemma TurnKeeps<A(!new), D(!new)>(th: Theory<A, D>, solver: Solver<A, D>, known: set<D>, atoms: seq<A>,
                                    done: seq<Variable>, x: Variable, values: map<Variable, D>, before: seq<bool>,
                                    after: seq<bool>, sys: seq<A>, d: D)
    requires IsTheory(th) && SoundSolver(th, solver) && |before| == |after| == |atoms| && x !in done
    requires AfterTurns(th, atoms, done, values, before)
    requires IsCollected(th, atoms, values, x, before, after, sys, |atoms|)
    requires IsTurnValue(solver(known, sys, x), x, d)
    ensures AfterTurns(th, atoms, done + [x], values[x := d], after)
  {
    var more := done + [x];
    assert values[x := d].Keys == Range(more);
    forall i | 0 <= i < |atoms| && after[i] ensures Satisfied(th, atoms[i], values[x := d]) {
      if before[i] {
        SatisfiedGrows(th, atoms[i], values, x, d);
      } else {
        SolvedHolds(th, solver, known, sys, x, atoms[i], values, d);
      }
    }
    forall i | 0 <= i < |atoms| && th.free(atoms[i]) <= Range(more) ensures after[i] {
      assert th.free(th.replace(atoms[i], values)) <= th.free(atoms[i]) - values.Keys;
    }
  }

  // The run: the values that the turns of the first coordinates picked.

  ghost function ValuesOf<D(!new)>(coords: seq<Variable>, picks: seq<D>): (values: map<Variable, D>)
    requires |picks| <= |coords|
    ensures values.Keys == Range(coords[..|picks|])
  {
    if picks == [] then map[]
    else
      var last := |picks| - 1;
      assert coords[..last + 1] == coords[..last] + [coords[last]];
      ValuesOf(coords, picks[..last])[coords[last] := picks[last]]
  }

  /** Some turn before has used the atom. */
  ghost predicate IsUsed<A(!new), D(!new)>(th: Theory<A, D>, a: A, coords: seq<Variable>, picks: seq<D>)
    requires |picks| <= |coords|
  {
    exists k :: 0 <= k < |picks| && NamesAtMost(th, a, ValuesOf(coords, picks[..k]), coords[k])
  }

  ghost function Used<A(!new), D(!new)>(th: Theory<A, D>, atoms: seq<A>, coords: seq<Variable>,
                                        picks: seq<D>): (used: seq<bool>)
    requires |picks| <= |coords|
    ensures |used| == |atoms| && forall i :: 0 <= i < |atoms| ==> used[i] == IsUsed(th, atoms[i], coords, picks)
  {
    seq(|atoms|, i requires 0 <= i < |atoms| => IsUsed(th, atoms[i], coords, picks))
  }

  /** The system of the turn after the picks: the atoms that no turn before has used and that name at most
      its coordinate, with the values picked so far. */
  ghost function TurnSystem<A(!new), D(!new)>(th: Theory<A, D>, atoms: seq<A>, coords: seq<Variable>,
                                              picks: seq<D>): seq<A>
    requires |picks| < |coords|
  {
    Collected(th, atoms, ValuesOf(coords, picks), coords[|picks|], Used(th, atoms, coords, picks), |atoms|)
  }

  /** The solver's answer in that turn. */
  ghost function TurnAnswer<A(!new), D(!new)>(th: Theory<A, D>, solver: Solver<A, D>, known: set<D>, atoms: seq<A>,
                                              coords: seq<Variable>, picks: seq<D>): Answer<D>
    requires |picks| < |coords|
  {
    solver(known, TurnSystem(th, atoms, coords, picks), coords[|picks|])
  }

  ghost predicate TurnRefuses<A(!new), D(!new)>(th: Theory<A, D>, solver: Solver<A, D>, known: set<D>, atoms: seq<A>,
                                                coords: seq<Variable>, picks: seq<D>)
    requires |picks| < |coords|
  {
    Refuses(th, TurnAnswer(th, solver, known, atoms, coords, picks), TurnSystem(th, atoms, coords, picks),
            coords[|picks|])
  }

  /** The turn picks `d`: the answer's value for its coordinate, or the zero if it has none. */
  ghost predicate TurnPicks<A(!new), D(!new)>(th: Theory<A, D>, solver: Solver<A, D>, zero: Variable -> D,
                                              known: set<D>, atoms: seq<A>, coords: seq<Variable>, picks: seq<D>, d: D)
    requires |picks| < |coords|
  {
    var x, answer := coords[|picks|], TurnAnswer(th, solver, known, atoms, coords, picks);
    && answer.Values? && !TurnRefuses(th, solver, known, atoms, coords, picks)
    && d == if x in answer.values then answer.values[x] else zero(x)
  }

  ghost predicate IsRun<A(!new), D(!new)>(th: Theory<A, D>, solver: Solver<A, D>, zero: Variable -> D, known: set<D>,
                                          atoms: seq<A>, coords: seq<Variable>, picks: seq<D>) {
    && |picks| <= |coords|
    && forall j :: 0 <= j < |picks| ==> TurnPicks(th, solver, zero, known, atoms, coords, picks[..j], picks[j])
  }

  /** There is one run: any two agree as far as both go. */
  lemma {:induction false} RunIsUnique<A(!new), D(!new)>(th: Theory<A, D>, solver: Solver<A, D>, zero: Variable -> D,
                                                         known: set<D>, atoms: seq<A>, coords: seq<Variable>,
                                                         p: seq<D>, q: seq<D>, j: nat)
    requires IsRun(th, solver, zero, known, atoms, coords, p) && IsRun(th, solver, zero, known, atoms, coords, q)
    requires j <= |p| && j <= |q|
    ensures p[..j] == q[..j]
  {
    hide TurnPicks;
    if j > 0 {
      var i := j - 1;
      RunIsUnique(th, solver, zero, known, atoms, coords, p, q, i);
      PickIsUnique(th, solver, zero, known, atoms, coords, p[..i], p[i], q[i]);
      assert p[..j] == p[..i] + [p[i]] && q[..j] == q[..i] + [q[i]];
    }
  }

  lemma PickIsUnique<A(!new), D(!new)>(th: Theory<A, D>, solver: Solver<A, D>, zero: Variable -> D, known: set<D>,
                                       atoms: seq<A>, coords: seq<Variable>, picks: seq<D>, d: D, e: D)
    requires |picks| < |coords|
    requires TurnPicks(th, solver, zero, known, atoms, coords, picks, d)
    requires TurnPicks(th, solver, zero, known, atoms, coords, picks, e)
    ensures d == e
  {
  }

  lemma AppendedValue<D(!new)>(coords: seq<Variable>, picks: seq<D>, d: D)
    requires |picks| < |coords|
    ensures ValuesOf(coords, picks + [d]) == ValuesOf(coords, picks)[coords[|picks|] := d]
  {
    var more := picks + [d];
    assert more[..|more| - 1] == picks;
  }

  /** Where no coordinate repeats, each keeps the value of its turn. */
  lemma {:induction false} PickedValue<D(!new)>(coords: seq<Variable>, picks: seq<D>, j: nat)
    requires NoRepeats(coords) && j < |picks| <= |coords|
    ensures ValuesOf(coords, picks)[coords[j]] == picks[j]
    decreases |picks|
  {
    var last := |picks| - 1;
    var init := picks[..last];
    assert picks == init + [picks[last]];
    AppendedValue(coords, init, picks[last]);
    if j < last {
      PickedValue(coords, init, j);
    }
  }

  /** The turns of `picks` are done: the atoms are used as the turns used them, and if no coordinate
      repeats, they hold as `AfterTurns` says. */
  ghost predicate TurnsDone<A(!new), D(!new)>(th: Theory<A, D>, solver: Solver<A, D>, zero: Variable -> D,
                                              known: set<D>, atoms: seq<A>, coords: seq<Variable>, picks: seq<D>,
                                              values: map<Variable, D>, consumed: seq<bool>) {
    && IsRun(th, solver, zero, known, atoms, coords, picks)
    && values == ValuesOf(coords, picks) && consumed == Used(th, atoms, coords, picks)
    && (NoRepeats(coords) ==> AfterTurns(th, atoms, coords[..|picks|], values, consumed))
  }

  /** The system collected is the turn's. */
  lemma CollectedInTurn<A(!new), D(!new)>(th: Theory<A, D>, solver: Solver<A, D>, zero: Variable -> D, known: set<D>,
                                          atoms: seq<A>, coords: seq<Variable>, picks: seq<D>, values: map<Variable, D>,
                                          before: seq<bool>, after: seq<bool>, sys: seq<A>)
    requires TurnsDone(th, solver, zero, known, atoms, coords, picks, values, before) && |picks| < |coords|
    requires |before| == |after| == |atoms|
    requires IsCollected(th, atoms, values, coords[|picks|], before, after, sys, |atoms|)
    ensures sys == TurnSystem(th, atoms, coords, picks) && IsSystem(th, atoms, values, coords[|picks|], sys)
  {
    hide AfterTurns, IsRun, IsSystem;
  }

  /** The turn uses what it collects. */
  lemma UsedInTurn<A(!new), D(!new)>(th: Theory<A, D>, atoms: seq<A>, coords: seq<Variable>, picks: seq<D>, d: D,
                                     before: seq<bool>, after: seq<bool>, sys: seq<A>)
    requires |picks| < |coords| && |before| == |after| == |atoms| && before == Used(th, atoms, coords, picks)
    requires IsCollected(th, atoms, ValuesOf(coords, picks), coords[|picks|], before, after, sys, |atoms|)
    ensures after == Used(th, atoms, coords, picks + [d])
  {
    hide IsSystem, Collected, NamesAtMost;
    var more := picks + [d];
    assert more[..|picks|] == picks;
    forall i | 0 <= i < |atoms| ensures IsUsed(th, atoms[i], coords, more) == after[i] {
      forall k | 0 <= k < |picks| ensures more[..k] == picks[..k] {}
      if IsUsed(th, atoms[i], coords, picks) {
        var k :| 0 <= k < |picks| && NamesAtMost(th, atoms[i], ValuesOf(coords, picks[..k]), coords[k]);
        assert NamesAtMost(th, atoms[i], ValuesOf(coords, more[..k]), coords[k]);
      }
      if after[i] && !before[i] {
        assert NamesAtMost(th, atoms[i], ValuesOf(coords, more[..|picks|]), coords[|picks|]);
      }
    }
  }

  lemma RunGoesOn<A(!new), D(!new)>(th: Theory<A, D>, solver: Solver<A, D>, zero: Variable -> D, known: set<D>,
                                    atoms: seq<A>, coords: seq<Variable>, picks: seq<D>, d: D)
    requires IsRun(th, solver, zero, known, atoms, coords, picks) && |picks| < |coords|
    requires TurnPicks(th, solver, zero, known, atoms, coords, picks, d)
    ensures IsRun(th, solver, zero, known, atoms, coords, picks + [d])
  {
    hide TurnPicks;
    var more := picks + [d];
    forall j | 0 <= j < |more| ensures TurnPicks(th, solver, zero, known, atoms, coords, more[..j], more[j]) {
      assert j < |picks| ==> more[..j] == picks[..j];
      assert j == |picks| ==> more[..j] == picks;
    }
  }

  lemma NextTurn<A(!new), D(!new)>(th: Theory<A, D>, solver: Solver<A, D>, zero: Variable -> D, known: set<D>,
                                   atoms: seq<A>, coords: seq<Variable>, picks: seq<D>, values: map<Variable, D>,
                                   before: seq<bool>, after: seq<bool>, sys: seq<A>, d: D)
    requires IsTheory(th) && SoundSolver(th, solver) && |before| == |after| == |atoms| && |picks| < |coords|
    requires TurnsDone(th, solver, zero, known, atoms, coords, picks, values, before)
    requires IsCollected(th, atoms, values, coords[|picks|], before, after, sys, |atoms|)
    requires TurnPicks(th, solver, zero, known, atoms, coords, picks, d)
    ensures TurnsDone(th, solver, zero, known, atoms, coords, picks + [d], values[coords[|picks|] := d], after)
  {
    hide IsTheory, SoundSolver, IsCollected, AfterTurns, IsSystem, IsRun, TurnRefuses, ValuesOf, Used;
    var c, x, more := |picks|, coords[|picks|], values[coords[|picks|] := d];
    RunGoesOn(th, solver, zero, known, atoms, coords, picks, d);
    UsedInTurn(th, atoms, coords, picks, d, before, after, sys);
    CollectedInTurn(th, solver, zero, known, atoms, coords, picks, values, before, after, sys);
    AppendedValue(coords, picks, d);
    assert coords[..c + 1] == coords[..c] + [x];
    if NoRepeats(coords) {
      assert x !in coords[..c];
      TurnKeeps(th, solver, known, atoms, coords[..c], x, values, before, after, sys, d);
    }
  }

  /** What the values are worth once every turn is done. */
  lemma AllTurnsDone<A(!new), D(!new)>(th: Theory<A, D>, solver: Solver<A, D>, zero: Variable -> D, known: set<D>,
                                       atoms: seq<A>, coords: seq<Variable>, picks: seq<D>, values: map<Variable, D>,
                                       consumed: seq<bool>)
    requires TurnsDone(th, solver, zero, known, atoms, coords, picks, values, consumed) && |picks| == |coords|
    ensures values.Keys == Range(coords)
    ensures NoRepeats(coords) && coords != [] ==>
              forall i :: 0 <= i < |atoms| && th.free(atoms[i]) <= Range(coords) ==> Satisfied(th, atoms[i], values)
  {
    assert coords[..|coords|] == coords;
  }

  /** Some atom left over still names a coordinate. */
  ghost predicate IsLeft<A(!new), D(!new)>(th: Theory<A, D>, atoms: seq<A>, coords: seq<Variable>,
                                           values: map<Variable, D>, used: seq<bool>, n: nat)
    requires n <= |atoms| == |used|
  {
    exists i :: 0 <= i < n && !used[i] && NamesOne(th, atoms[i], coords, values, |coords|)
  }

  ghost predicate NamesOne<A(!new), D(!new)>(th: Theory<A, D>, a: A, coords: seq<Variable>, values: map<Variable, D>,
                                             n: nat)
    requires n <= |coords|
  {
    exists c :: 0 <= c < n && coords[c] in th.free(th.replace(a, values))
  }

  method LeavesCoordinate<A(!new), D(!new)>(th: Theory<A, D>, atoms: seq<A>, coords: seq<Variable>,
                                            sol: map<Variable, D>, consumed: array<bool>) returns (left: bool)
    requires consumed.Length == |atoms|
    ensures left <==> IsLeft(th, atoms, coords, sol, consumed[..], |atoms|)
  {
    for i := 0 to |atoms|
      invariant !IsLeft(th, atoms, coords, sol, consumed[..], i)
    {
      if consumed[i] { continue; }
      var g := th.replace(atoms[i], sol);
      for c := 0 to |coords|
        invariant !NamesOne(th, atoms[i], coords, sol, c)
      {
        if coords[c] in th.free(g) { return true; }
      }
    }
    left := false;
  }

  /** Once every coordinate has a value, no atom names one. */
  lemma NothingLeft<A(!new), D(!new)>(th: Theory<A, D>, atoms: seq<A>, coords: seq<Variable>, values: map<Variable, D>,
                                      used: seq<bool>)
    requires IsTheory(th) && values.Keys == Range(coords) && |used| == |atoms|
    ensures !IsLeft(th, atoms, coords, values, used, |atoms|)
  {
    forall i | 0 <= i < |atoms| ensures !NamesOne(th, atoms[i], coords, values, |coords|) {
      assert th.free(th.replace(atoms[i], values)) <= th.free(atoms[i]) - values.Keys;
    }
  }

  datatype Turn<D> = Stop(outcome: Outcome<D>) | Pick(value: D)

  /** The turn of the coordinate `x` after the picks. */
  method TakeTurn<A(!new), D(!new)>(th: Theory<A, D>, solver: Solver<A, D>, zero: Variable -> D, known: set<D>,
                                    atoms: seq<A>, ghost coords: seq<Variable>, x: Variable, ghost picks: seq<D>,
                                    sol: map<Variable, D>, consumed: array<bool>) returns (r: Turn<D>)
    requires IsTheory(th) && SoundSolver(th, solver) && consumed.Length == |atoms|
    requires |picks| < |coords| && x == coords[|picks|]
    requires TurnsDone(th, solver, zero, known, atoms, coords, picks, sol, consumed[..])
    modifies consumed
    ensures r == Stop(Failed) <==> TurnAnswer(th, solver, known, atoms, coords, picks) == Error
    ensures r == Stop(Rejected) <==> TurnRefuses(th, solver, known, atoms, coords, picks)
    ensures r.Stop? ==> r.outcome.Failed? || r.outcome.Rejected?
    ensures r.Pick? ==>
              TurnsDone(th, solver, zero, known, atoms, coords, picks + [r.value], sol[x := r.value], consumed[..])
  {
    hide TurnsDone, IsCollected, IsTheory, SoundSolver, IsRun, Refuses, ValuesOf, TurnSystem, TurnAnswer, TurnRefuses,
      TurnPicks, IsSystem;
    ghost var before := consumed[..];
    var sys, constrained := Collect(th, atoms, sol, x, consumed);
    CollectedInTurn(th, solver, zero, known, atoms, coords, picks, sol, before, consumed[..], sys);
    var answer := solver(known, sys, x);
    TurnOutcome(th, solver, zero, known, atoms, coords, picks, sys, answer, constrained);
    if answer.Error? { return Stop(Failed); }
    if answer.Unsatisfiable? || (x !in answer.values && constrained) { return Stop(Rejected); }
    var d := if x in answer.values then answer.values[x] else zero(x);
    NextTurn(th, solver, zero, known, atoms, coords, picks, sol, before, consumed[..], sys, d);
    r := Pick(d);
  }

  lemma NoTurns<A(!new), D(!new)>(th: Theory<A, D>, solver: Solver<A, D>, zero: Variable -> D, known: set<D>,
                                  atoms: seq<A>, coords: seq<Variable>, consumed: seq<bool>)
    requires |consumed| == |atoms| && forall i :: 0 <= i < |atoms| ==> !consumed[i]
    ensures TurnsDone(th, solver, zero, known, atoms, coords, [], map[], consumed)
  {
  }

  /** Decides the coordinates one at a time; `picks` are the values of the turns that were done.  A decided
      assignment of distinct coordinates, at least one, satisfies every atom over them, whatever the other
      variables are; without coordinates no atom is looked at.  The step is rejected exactly where the turn's
      own system is refused, so the check of left-over atoms never fires.  The ledger learns the values only
      when every coordinate has one. */
  method Decode<A(!new), D(==,!new)>(th: Theory<A, D>, solver: Solver<A, D>, zero: Variable -> D, atoms: seq<A>,
                                     coords: seq<Variable>, ledger: Ledger<D>)
    returns (r: Outcome<D>, ghost picks: seq<D>)
    requires IsTheory(th) && SoundSolver(th, solver)
    modifies ledger
    ensures IsRun(th, solver, zero, old(ledger.known), atoms, coords, picks)
    ensures r.Decided? <==> |picks| == |coords|
    ensures r.Decided? ==> r.values == ValuesOf(coords, picks) && r.values.Keys == Range(coords)
    ensures r.Decided? && NoRepeats(coords) && coords != [] ==>
              forall i :: 0 <= i < |atoms| && th.free(atoms[i]) <= Range(coords) ==> Satisfied(th, atoms[i], r.values)
    ensures r.Rejected? <==> |picks| < |coords| && TurnRefuses(th, solver, old(ledger.known), atoms, coords, picks)
    ensures r.Failed? <==>
              |picks| < |coords| && TurnAnswer(th, solver, old(ledger.known), atoms, coords, picks) == Error
    ensures coords == [] ==> r == Decided(map[])
    ensures ledger.known == if r.Decided? then old(ledger.known) + r.values.Values else old(ledger.known)
  {
    var sol: map<Variable, D> := map[];
    var consumed := new bool[|atoms|](_ => false);
    picks := [];
    ghost var known := ledger.known;
    NoTurns(th, solver, zero, known, atoms, coords, consumed[..]);
    hide TurnsDone, IsTheory, SoundSolver, IsRun, ValuesOf, TurnAnswer, TurnRefuses, Satisfied, IsLeft, Range,
        NoRepeats;
    for c := 0 to |coords|
      invariant ledger.known == known && |picks| == c
      invariant TurnsDone(th, solver, zero, known, atoms, coords, picks, sol, consumed[..])
    {
      RunSoFar(th, solver, zero, known, atoms, coords, picks, sol, consumed[..]);
      var turn := TakeTurn(th, solver, zero, ledger.known, atoms, coords, coords[c], picks, sol, consumed);
      if turn.Stop? { return turn.outcome, picks; }
      sol, picks := sol[coords[c] := turn.value], picks + [turn.value];
    }
    AllTurnsDone(th, solver, zero, known, atoms, coords, picks, sol, consumed[..]);
    RunSoFar(th, solver, zero, known, atoms, coords, picks, sol, consumed[..]);
    NothingLeft(th, atoms, coords, sol, consumed[..]);
    var left := LeavesCoordinate(th, atoms, coords, sol, consumed);
    // an atom left over that still names a coordinate would reject the step
    if left { assert false; }
    ledger.Commit(sol.Values);
    r := Decided(sol);
  }

  lemma RunSoFar<A(!new), D(!new)>(th: Theory<A, D>, solver: Solver<A, D>, zero: Variable -> D, known: set<D>,
                                   atoms: seq<A>, coords: seq<Variable>, picks: seq<D>, values: map<Variable, D>,
                                   consumed: seq<bool>)
    requires TurnsDone(th, solver, zero, known, atoms, coords, picks, values, consumed)
    ensures IsRun(th, solver, zero, known, atoms, coords, picks) && values == ValuesOf(coords, picks)
  {
    hide TurnPicks, AfterTurns;
  }

  /** The branches of the turn. */
  lemma TurnOutcome<A(!new), D(!new)>(th: Theory<A, D>, solver: Solver<A, D>, zero: Variable -> D, known: set<D>,
                                      atoms: seq<A>, coords: seq<Variable>, picks: seq<D>, sys: seq<A>,
                                      answer: Answer<D>, constrained: bool)
    requires |picks| < |coords| && sys == TurnSystem(th, atoms, coords, picks)
             && answer == solver(known, sys, coords[|picks|])
    requires constrained <==> HasNames(th, sys)
    ensures answer == TurnAnswer(th, solver, known, atoms, coords, picks)
    ensures TurnRefuses(th, solver, known, atoms, coords, picks) <==>
              !answer.Error? && (answer.Unsatisfiable? || (coords[|picks|] !in answer.values && constrained))
    ensures answer.Values? && !TurnRefuses(th, solver, known, atoms, coords, picks) ==>
              TurnPicks(th, solver, zero, known, atoms, coords, picks,
                        if coords[|picks|] in answer.values then answer.values[coords[|picks|]]
                              else zero(coords[|picks|]))
  {
    hide TurnSystem;
  }
}
