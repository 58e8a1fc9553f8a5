# Verification of the tau-lang synthesis core

This project models the parts of tau-lang that decide and prepare the synthesis of programs from
temporal specifications, and proves what they promise:

* **Algorithm D** (`src/algorithm_d_game.h`): a synthesis game is multiplied with a finite memory of
  1-types, coloured edges are split by stub states, dead ends are removed, and Zielonka's recursion
  solves the parity game. The verdict is proved to be the winner of the data game under the weights of the
  product, over all strategies and all infinite plays, and the headers are characterised for which that is
  the winner under the acceptance condition the game was given with.
* **Algorithms A and B** (`src/algorithm_a_skeleton.h`, `src/algorithm_b_skeleton.h`): a feasibility
  relation is compiled into an LTL formula over encoded bits. The infinite words that satisfy the
  formula are characterised exactly, and A is proved to admit the moves that D's table admits.
* **The bit game of the AIGER export** (`src/aiger_export.h`): past and fixed reads become bookkeeping
  outputs. The atoms are characterised for which the game decides exactly what the skeleton says of the
  streams, and what a controller of the one is worth for the other.
* **The unsat core** (`src/api.tmpl.h`): conjuncts are split, anchored and deleted one at a time.
* **The atomless decode** (`src/atomless_decode.h`): a step is solved one coordinate at a time.

## How it is organised

| file | content |
|---|---|
| `Recurrence.dfy`, `StrategyGames.dfy` | greatest recurring values; games, strategies, winning |
| `Attractors.dfy`, `Zielonka.dfy`, `DeadEnds.dfy` | the worklist attractor, the recursion, dead ends and determinacy |
| `Bits.dfy`, `Names.dfy`, `Options.dfy` | bitmasks, decimal names, optional values |
| `SynthGame.dfy`, `DataGame.dfy` | the synthesis game and its assignments; the game over data |
| `ProductGame.dfy`, `ProductCorrect.dfy` | the product builder, and that the product decides the data game |
| `Acceptance.dfy`, `AcceptanceTexts.dfy`, `Priorities.dfy` | acceptance conditions, the texts that are read, priorities |
| `Headers.dfy`, `AlgorithmD.dfy`, `Verdicts.dfy` | games read from a header, the verdict, and the headers for which it is right |
| `Ltl.dfy`, `Encoding.dfy`, `AlgorithmA.dfy`, `AlgorithmB.dfy`, `SkeletonAgreement.dfy` | formulas on infinite words and the two skeletons |
| `Substitution.dfy`, `Bookkeeping.dfy`, `BitGame.dfy`, `AigerGame.dfy`, `AigerExport.dfy` | the bit game |
| `Captured.dfy`, `Controllers.dfy` | the atoms for which the bit game is right, and its controllers |
| `StartRule.dfy`, `UnsatCore.dfy`, `PrintedCore.dfy` | the start of the always part, the core, and the core as it is printed |
| `Atomless.dfy` | the per-coordinate decode |

Plays are functions from steps to moves or states; a strategy reads the whole history. Code that changes
things step by step is modelled by methods with loops, arrays and classes, and what they compute is tied
to predicates about which the lemmas speak.

## What the proofs found

* The verdict is who wins under the acceptance condition, in every game with a header and from every state,
  exactly when the header is read (`Verdicts.HeaderVerdict`): its name is known and on every set of colours
  the condition says what the greatest priority says, or there is neither name nor colour and the condition
  is false.
  * Of the headers that spell the condition of their name, or have no known one, and have colours, these
    are the ones with a known name (`Verdicts.NamedVerdict`). A Streett condition is refused, and the refusal
    is answered as a win of the environment: with `Fin(0)|Inf(1)` the system wins the game of one system
    state with a true self-loop, and the verdict is the environment's (`Verdicts.StreettRefused`). So it is
    with marks of several colours, whatever the condition (`Verdicts.MultiColouredRefused`).
    `src/ltl_aba_data_game.tmpl.h` (lines 3848-3853) calls such games undecided.
  * Without an `acc-name` and without colours, the text of the condition is not read: only a text that
    starts with `t` is played as true (`Verdicts.UnnamedVerdict`). With the header `0 !f` the system wins the
    same game and the verdict is the environment's (`Verdicts.TrueConditionPlayedAsFalse`); so it is with
    `(t)` and every other such text (`Verdicts.LoopMisjudged`).
* The system's choices and the environment's filter read the same data pattern from every assignment
  exactly when every `d_i` is an AP of the game (`SynthGame.PatternsAgreeIffAllNamed`).
* In Algorithm B the environment must remember the last output type only if that type is below the
  number of types and some 2-type remembers it. If every remembered position is a type, the first
  condition says nothing more (`AlgorithmB.MemoryWithoutBound`).
* The bit game's skeleton is rewritten atom by atom, and the atoms are named `p0`, `p1`, ... A stream may have
  such a name, and then it is replaced too: with `p1[t] = 1` and `o1[t] = 0` the game asks for `o1[t] = 0` in
  the place of the first (`Captured.StreamNamedLikeAtom`). The game decides what the skeleton says, for every
  skeleton and all streams, exactly when no atom's formula changes its value, as a Boolean function of the
  bits, by the replacements after it (`Captured.DecidesIffHarmless`). No replacement happens at all exactly
  when no formula reads a later atom's name (`Substitution.SequentialIffNoCapture`).
* A stream may also be called like a bookkeeping output: with `x[t-1] = 1` and `__h_x_1[t] = 1` both atoms
  read one output, and a skeleton that asks for their difference has a game without words
  (`Captured.StreamNamedLikeHistory`).
* A controller of the bit game is one of the skeleton, and conversely if fixed reads are of step 0
  (`Controllers.GameGivesController`, `Controllers.ControllerGivesGame`). A copy of `x[k]` is chosen at step 0:
  the skeleton that lets `o1` follow `i1` and mentions `o1[k]` has a controller for every `k`, and its game
  has one for `k = 0` only (`Controllers.FixedReadForetells`).
* The core is minimal for the conjuncts with their anchors. As printed, without them, it need not be: the
  core of `always x[t] != x[0] && always x[t] = x[t-1]` is both conjuncts, and the first one as printed
  conflicts alone (`PrintedCore.CoreAsPrinted`). For given lookbacks and behaviours, for satisfiability as
  for realizability, the printed core is minimal whatever the conjuncts say exactly when every `always` that reads a moving step reads as far back as the deepest
  one (`PrintedCore.PrintedMinimalIffDeep`, and `PrintedCore.PrintedMinimalIffSafe` for specifications that
  contain anchors themselves).
* The atomless decode looks at no atom when it has no coordinate to decide, so ground atoms are then not
  checked; with a coordinate they are, and its check of left-over atoms cannot fire (`Atomless.Decode`).
* A comment in `src/algorithm_d_game.h` (line 665) calls the key of a stub (state, memory, edge); the key
  also holds the next memory, and the model follows the code. The header of `src/algorithm_a_skeleton.h`
  (line 20) gives one shape of clause (3); the code has three, and the model has all of them.

## Model

| member | source | states |
|---|---|---|
| Recurrence.DominantExists | src/algorithm_d_game.h:828-830 | a bounded sequence of priorities has a greatest one that recurs, so every infinite play has a winner |
| Recurrence.OnlyOneParity | src/algorithm_d_game.h:828-830 | the greatest recurring priority has one parity: no play is won by both players |
| Recurrence.SuffixParity | src/algorithm_d_game.h:880-945 | the winner of a play does not depend on a finite prefix |
| StrategyGames.NotBothWin | src/algorithm_d_game.h:949-967 | two players cannot both have winning strategies from one position |
| Attractors.AttractorIsUnique | src/algorithm_d_game.h:837-838 | the least set closed under the two attractor rules is unique |
| Attractors.RankedIsAttractor | src/algorithm_d_game.h:855-874 | a closed set every state of which is pulled in by earlier ones is the least closed set |
| Attractors.Predecessors | src/algorithm_d_game.h:846-849 | each predecessor list holds every state as often as the edge occurs, duplicates included |
| Attractors.VisitPredecessor | src/algorithm_d_game.h:860-872 | looking at one predecessor keeps the worklist, the degrees and the ranks right |
| Attractors.Pop | src/algorithm_d_game.h:857-874 | taking a state off the worklist keeps: degrees count the edges to states not yet taken, and the list holds exactly the states in the set that were not taken |
| Attractors.Attractor | src/algorithm_d_game.h:839-876 | the worklist with degree counters computes the least closed set, with ranks that show how each state is forced |
| Zielonka.RestrictTo | src/algorithm_d_game.h:889-893 | the restricted lists have exactly the edges inside V |
| Zielonka.ResidualDeadEndFree | src/algorithm_d_game.h:912-914 | removing an attractor from a dead-end-free set leaves a dead-end-free set, so both recursive calls get one |
| Zielonka.BeneficiaryWinsAll | src/algorithm_d_game.h:919-923 | if the opponent wins nothing in the first sub-game, the owner of the greatest priority wins all of V with a positional strategy that stays in V |
| Zielonka.OpponentRegion | src/algorithm_d_game.h:924-944 | the opponent wins its attractor and its share of the second sub-game with one positional strategy that stays there |
| Zielonka.BeneficiaryKeeps | src/algorithm_d_game.h:928-931 | the beneficiary's share of the second sub-game is its own in all of V |
| Zielonka.FirstCase | src/algorithm_d_game.h:915-923 | the pair returned by the first case is the solution of V |
| Zielonka.SecondCase | src/algorithm_d_game.h:924-944 | the pair returned by the second case is the solution of V |
| Zielonka.WonFrom | src/algorithm_d_game.h:880-945 | a play that follows a region's strategy from some step on has the parity of its player |
| Zielonka.Solve | src/algorithm_d_game.h:880-945 | on a dead-end-free V with non-negative priorities the result is a partition of V into regions, each with a positional strategy that stays in it against every move inside V and whose every infinite play has the owner's parity |
| DeadEnds.ClosureAttractor | src/algorithm_d_game.h:976-1009 | the naive closure loop computes the least closed set of the sub-game on V |
| DeadEnds.WorklistAgreesWithClosure | src/algorithm_d_game.h:839-876 | the worklist attractor on the restricted lists and the closure loop compute the same set |
| DeadEnds.StuckStates | src/algorithm_d_game.h:1013-1020 | the two sets are exactly the states without a move inside V, by owner |
| DeadEnds.RemoveLayer | src/algorithm_d_game.h:1022-1031 | removing an attractor extends what its player can force by ranks, and no move of the other player leads back |
| DeadEnds.NoInfiniteDescent | src/algorithm_d_game.h:963-967 | a play that follows the strategy on removed states does not go on for ever there |
| DeadEnds.RemoveDeadEnds | src/algorithm_d_game.h:1022-1031 | one removal leaves no stuck state of the loser and makes no new stuck state of the winner |
| DeadEnds.RemoveSystemDeadEnds | src/algorithm_d_game.h:1022-1027 | stuck system states and what the environment can force to them go to the environment |
| DeadEnds.RemoveEnvironmentDeadEnds | src/algorithm_d_game.h:1028-1031 | stuck environment states and what the system can force to them go to the system |
| DeadEnds.StripDeadEnds | src/algorithm_d_game.h:1011-1032 | the loop ends, each player's dead ends are removed at most once, the rest is dead-end free, and every removed state is one its new owner can force |
| DeadEnds.JoinRegions | src/algorithm_d_game.h:1034-1038 | a region of the residual and the removed states of its player make a region of the whole game |
| DeadEnds.Determined | src/algorithm_d_game.h:949-971 | in a solved game each player has a winning strategy exactly from the states of its region |
| DeadEnds.WinPlayer1 | src/algorithm_d_game.h:972-1039 | with non-negative priorities the set is exactly the states from which player 1 has a winning strategy, player 0 has one from every other, and both win with positional strategies |
| Bits.SetBitBits | src/algorithm_d_game.h:433 | setting a bit sets that bit and no other |
| Bits.SameBits | src/algorithm_d_game.h:427-436 | a mask is determined by its bits |
| Names.DIndexFromApName | src/algorithm_d_game.h:412-422 | the index of `d_` and one to nine digits, and -1 for every other name |
| Names.DIndexOfDName | src/algorithm_skeleton_common.h:19 | the name of every index of up to nine digits is read back as that index |
| SynthGame.DPatternFromAssignment | src/algorithm_d_game.h:427-436 | bit N is set iff some controllable AP named d_N is true in the assignment |
| SynthGame.SplitAps | src/algorithm_d_game.h:452-461 | the table has the last AP naming each data proposition, and the list every AP that names none, once |
| SynthGame.ChoiceAssignment | src/algorithm_d_game.h:467-472 | the assignment has exactly the bits of the pattern's APs and of the free APs |
| SynthGame.SysChoices | src/algorithm_d_game.h:449-476 | every pair of a D-pattern and an assignment that agrees with it occurs exactly once, 2^(K + other APs) in all |
| SynthGame.ChoiceCarriesItsPattern | src/algorithm_d_game.h:441-444 | when every data proposition is named, a choice's assignment carries its pattern |
| SynthGame.UnmentionedDiffers | src/algorithm_d_game.h:441-444 | an unnamed data proposition gives a choice whose assignment carries another pattern |
| SynthGame.PatternsAgreeIffAllNamed | src/algorithm_d_game.h:427-444 | the system's choices and the environment's reading agree on every choice iff every data proposition is named |
| ProductGame.BaseStateNumber | src/algorithm_d_game.h:552-554 | base states are numbered q * T1 + rho, and there are as many as states times types |
| ProductGame.FeasibilityTable | src/algorithm_d_game.h:596-620 | the table holds exactly the triples of memory, next memory and pattern that some 3-type realises |
| ProductGame.EnvEdgeReachable | src/algorithm_d_game.h:630-639 | an environment edge exists iff its guard admits an assignment whose data are feasible from the memory |
| ProductGame.FirstScan | src/algorithm_d_game.h:671-717 | the stubs are exactly the legal coloured moves, and stubs and keys are inverse to each other |
| ProductGame.SecondScan | src/algorithm_d_game.h:748-824 | every legal move is an edge, to its stub if it is coloured, and every edge is a legal move |
| ProductGame.FillStates | src/algorithm_d_game.h:732-746 | owners and weights of base states and stubs |
| ProductGame.BuildProductGame | src/algorithm_d_game.h:543-826 | the two errors, the empty game for unsupported acceptance, and otherwise the product of the game with the memory |
| ProductGame.StubsHaveOneWay | src/algorithm_d_game.h:671-717 | every stub has exactly one predecessor and one successor, the state and the target of its coloured move |
| ProductCorrect.MergeDominates | src/algorithm_d_game.h:741-746 | projecting the stubs away keeps the greatest recurring weight |
| ProductCorrect.RegionWinsData | src/algorithm_d_game.h:543-826 | the positional strategy of a region of the product wins the data game from every state of the region |
| ProductCorrect.ProductDecides | src/algorithm_d_game.h:543-826 | each player wins the data game from exactly the states whose numbers lie in its region of the product |
| Acceptance.Reader.Ws | src/algorithm_d_game.h:93 | the index moves past the blanks and no further |
| Acceptance.Reader.ReadPrim | src/algorithm_d_game.h:95-118 | the operand at the index: parentheses, negation, constants, Inf and Fin, and the failures |
| Acceptance.Reader.ReadConj | src/algorithm_d_game.h:119-124 | the conjunction at the index |
| Acceptance.Reader.ReadDisj | src/algorithm_d_game.h:125-130 | the disjunction at the index |
| Acceptance.AcceptanceWithoutColors | src/algorithm_d_game.h:90-135 | ends on every text, with the value of the grammar or none |
| Acceptance.UncoloredHolds | src/algorithm_d_game.h:86-89 | all Inf false and all Fin true is the condition on a run without recurring colours |
| Acceptance.TextReads | src/algorithm_d_game.h:90-135 | every text of a condition, with blanks anywhere and parentheses needed or not, is read as its value without recurring colours |
| AcceptanceTexts.ReadIffReadable | src/algorithm_d_game.h:90-135 | a text is read with a value iff it is a condition of that value in which anything but `)` may stand between `Inf` or `Fin` and the next `)` |
| Acceptance.SpellSpells | src/algorithm_d_game.h:95-130 | the spelling with the fewest parentheses is one, and it spells its condition: none is left without a text |
| Headers.ParityMinEvenText | tests/unit/test_algorithm_d.cpp:562-563 | the usual text of parity min even with three colours, with its parentheses, is a text of a condition that means it |
| Priorities.ComputePriorities | src/algorithm_d_game.h:275-350 | priorities of states and edges, what an uncoloured run is worth, and the reading of a header without a name |
| Priorities.MaxTreeMeaning | src/algorithm_d_game.h:286-299 | parity max is decided by the parity of the greatest recurring colour |
| Priorities.MinTreeMeaning | src/algorithm_d_game.h:286-299 | parity min is decided by the parity of the least recurring colour |
| Priorities.LiftIsInjective | src/algorithm_d_game.h:586-594 | distinct colours have distinct weights, all above those of an uncoloured run |
| Priorities.DominantColorDecides | src/algorithm_d_game.h:291-299 | the recurring colour of greatest weight decides the condition by the weight's parity |
| Priorities.CanonicalScores | src/algorithm_d_game.h:275-299 | for all, Buchi, co-Buchi and parity min/max even/odd with any number of colours, on every non-empty set of colours the condition holds iff the greatest weight is odd |
| Priorities.WeightDecidesAcceptance | src/algorithm_d_game.h:275-350 | if so, a run is accepted iff its greatest recurring weight is odd; without recurring colours the base weight decides |
| Headers.ConditionScores | src/algorithm_d_game.h:275-299 | every condition that means the canonical one of its name is scored by the name's priorities |
| Headers.ParsedIsKnown | src/algorithm_d_game.h:311-315 | a game whose header has a known name and a condition its priorities score is one the product builder takes |
| Headers.ParsedStateWeight | src/algorithm_d_game.h:586-594 | the weight of a state of a parsed game: that of its colour, or the base |
| Headers.WeightsDecidePlay | src/algorithm_d_game.h:586-594 | on a legal play of a parsed game the weights decide the original acceptance condition |
| AlgorithmD.ArenasAgree | src/algorithm_d_game.h:586-594 | if the weights score every legal play as the condition does, each player wins under the condition iff it wins under the weights |
| AlgorithmD.SolveAlgorithmD | src/algorithm_d_game.h:1068-1097 | false for an unsupported acceptance, and otherwise true iff the system, and false iff the environment, wins the data game from the initial state and memory under the weights; where the header is read, under the original acceptance condition |
| Headers.UnnamedColourless | src/algorithm_d_game.h:300-310 | without a name and colours the weights decide a play as the condition does iff the text starts with `t` or the condition is false |
| Verdicts.HeaderVerdict | src/algorithm_d_game.h:275-350 | for any header: the verdict says who wins under the condition in every game and from every state iff the header is read |
| Verdicts.NamedVerdict | src/algorithm_d_game.h:581-584 | for a header with colours that spells the condition of its name or has no known name: iff the name is known |
| Verdicts.UnnamedVerdict | src/algorithm_d_game.h:300-310 | for a header without a name and colours: iff the text starts with `t` or the condition is false |
| Verdicts.UnscoredMisjudged | src/algorithm_d_game.h:286-299 | a set of colours on which a known name's priorities and the condition differ gives a ring of states that is misjudged |
| Verdicts.LoopRefused | src/algorithm_d_game.h:581-584 | without a known name but with colours, and a condition true of uncoloured runs, the system wins the loop and the verdict is the environment's |
| Verdicts.StreettRefused | src/algorithm_d_game.h:581-584 | the Streett condition with colours 0 and 1 is the condition of such a header |
| Verdicts.MultiColouredRefused | src/algorithm_d_game.h:581-584 | with a mark of several colours there is a game that the system wins whatever the condition, and the verdict is the environment's |
| Verdicts.LoopMisjudged | src/algorithm_d_game.h:300-310 | with any other text of a true condition the system wins the loop and the verdict is the environment's |
| Verdicts.TrueConditionPlayedAsFalse | src/algorithm_d_game.h:300-310 | `0 !f` is the header of a game the system wins, and the verdict is the environment's |
| Encoding.BitsEncode | src/algorithm_skeleton_common.h:27-36 | the conjunction holds exactly where the propositions spell the low bits of the number |
| Encoding.REncode | src/algorithm_skeleton_common.h:54-56 | holds exactly where the R-bits spell the type |
| Encoding.PEncode | src/algorithm_skeleton_common.h:44-46 | holds exactly where the P-bits spell the 2-type |
| Encoding.DPatternFormula | src/algorithm_skeleton_common.h:64-66 | holds exactly where the data propositions spell the pattern |
| Encoding.EncodingBits | src/algorithm_skeleton_common.h:72-76 | the least number of bits from the minimum on that encodes all indices |
| Encoding.IndexByPair | src/algorithm_a_skeleton.h:110-118 | the index holds exactly the masks of the triples |
| Encoding.AllMasks | src/algorithm_a_skeleton.h:141-142 | no infeasible mask means that every mask is feasible |
| Encoding.PatternDisjunction | src/algorithm_a_skeleton.h:147-155 | holds exactly where the data pattern is one of the feasible ones |
| AlgorithmA.NegAtom | src/algorithm_a_skeleton.h:54-57 | forbids exactly one type with one pattern, also when there are no data |
| AlgorithmA.ConjoinMoves | src/algorithm_a_skeleton.h:172-205 | whichever of the three shapes is chosen, exactly the feasible patterns of the type remain |
| AlgorithmA.AppendGlobalMoves | src/algorithm_a_skeleton.h:138-163 | the same at every step for the unconditional clauses |
| AlgorithmA.IndexByType | src/algorithm_a_skeleton.h:112-118 | the masks of a type from any memory |
| AlgorithmA.MovesFrom | src/algorithm_a_skeleton.h:169-208 | the conjunction holds exactly where the move is feasible from the memory type |
| AlgorithmA.ValidityClauses | src/algorithm_a_skeleton.h:131-133 | clause (1): no step has an encoding that is no type |
| AlgorithmA.TypeClauses | src/algorithm_a_skeleton.h:135-163 | clause (2): every step's pattern is feasible for its type from some memory |
| AlgorithmA.StepClauses | src/algorithm_a_skeleton.h:210-215 | clause (3): every step is feasible from the type of the one before |
| AlgorithmA.InitialClause | src/algorithm_a_skeleton.h:217-222 | clause (3_0): the first step is feasible from the initial memory, if that is a type |
| AlgorithmA.BuildSkeleton | src/algorithm_a_skeleton.h:90-229 | the formula holds on exactly the words that follow the relation and satisfy phi*; the outputs and the number of bits |
| AlgorithmB.PairValidity | src/algorithm_b_skeleton.h:116-118 | every announced 2-type is one |
| AlgorithmB.Matching | src/algorithm_b_skeleton.h:123-128 | exactly the 2-types that remember the type |
| AlgorithmB.MemoryClauses | src/algorithm_b_skeleton.h:120-137 | the environment remembers every last type that it can |
| AlgorithmB.PairClauses | src/algorithm_b_skeleton.h:153-176 | whichever shape is chosen, exactly the feasible patterns of the pair remain |
| AlgorithmB.FeasibilityClauses | src/algorithm_b_skeleton.h:143-178 | every step whose pair is in range is feasible |
| AlgorithmB.Assumptions | src/algorithm_b_skeleton.h:114-137 | the assumption parts hold iff the environment keeps to the assumption |
| AlgorithmB.Guarantees | src/algorithm_b_skeleton.h:139-182 | the guarantee parts: valid types, feasible pairs and phi* |
| AlgorithmB.BuildSkeleton | src/algorithm_b_skeleton.h:87-203 | the formula holds on exactly the words on which the assumption implies that every step has a type and is feasible for the announced 2-type, and phi* |
| AlgorithmB.MemoryWithoutBound | src/algorithm_b_skeleton.h:122-137 | if every remembered position is a type, the memory assumption needs no bound on the last type |
| SkeletonAgreement.FeasibleIsTriple | src/boolean_algebras/qlt/qlt_ltl_synthesis.tmpl.h:605-609 | D's feasibility of a move is membership in the relation handed to A |
| SkeletonAgreement.WordSpells | src/algorithm_a_skeleton.h:101-106 | every sequence of types and patterns is spelt by a word |
| SkeletonAgreement.RelationIsTable | src/algorithm_a_skeleton.h:165-222 | a sequence of moves satisfies A's clauses with the initial memory iff D's table admits every move from the memory before it |
| SkeletonAgreement.SkeletonOfTable | src/boolean_algebras/qlt/qlt_ltl_synthesis.tmpl.h:605-617 | the formula A builds from D's table, without phi*, holds on a sequence of moves iff the table admits every move of it |
| Substitution.ApplyMeans | src/aiger_export.h:253-258 | replacing propositions by formulas reads them at the values of the formulas |
| Substitution.SequentialIffNoCapture | src/aiger_export.h:253-258 | replacing one after the other is replacing at once, on every formula, iff no formula reads a proposition replaced later |
| Substitution.HarmlessMeans | src/aiger_export.h:253-258 | if the later replacements change no formula's value, replacing one after the other reads every proposition at the value of its formula |
| Bookkeeping.NamesInjective | src/aiger_export.h:42-50 | no two history or fixed outputs share a name |
| Bookkeeping.HistoryHolds | src/aiger_export.h:265-269 | under the constraints the output k back is x at t-k, and before step k the past held at step 0 |
| Bookkeeping.FixedHolds | src/aiger_export.h:270-276 | under the constraints a fixed output is x[k] at every step |
| Bookkeeping.ExtensionTied | src/aiger_export.h:265-276 | every word of the streams with any past extends to one that satisfies the constraints |
| BitGame.BitTable.At | src/aiger_export.h:39-46 | the bit of a read, and the history outputs 1 to k added to the table |
| BitGame.BitTable.AtStep | src/aiger_export.h:48-52 | the bit of a fixed read, and its output added to the table |
| BitGame.BitTable.BitTerm | src/aiger_export.h:57-115 | the formula of a term and what it needs, or the error for a term or an input position the export does not take |
| BitGame.BitTable.BitAtom | src/aiger_export.h:118-144 | the formula of a comparison and what it needs, or the error |
| BitGame.TermMeans | src/aiger_export.h:57-115 | on a tied word the formula of a term is its value modulo 2 on the streams |
| BitGame.AtomMeans | src/aiger_export.h:118-144 | on a tied word the formula of an atom holds exactly where the atom holds on the streams |
| AigerGame.RewriteSkeleton | src/aiger_export.h:253-258 | the skeleton with every atom replaced in turn |
| AigerGame.TieHistory | src/aiger_export.h:265-269 | adds exactly the constraints of the history outputs |
| AigerGame.TieFixed | src/aiger_export.h:270-276 | adds exactly the constraints of the fixed outputs |
| AigerExport.BitGameOf | src/aiger_export.h:247-295 | when the game is refused; its formula, inputs, outputs and streams |
| AigerExport.CarriedGame | src/aiger_export.h:265-276 | a tied word is in the game iff the skeleton holds with its atoms read on the streams it carries, if no later replacement changes an atom's value and no name clashes with a bookkeeping output |
| AigerExport.GameDecides | src/aiger_export.h:220-295 | under the same condition, some word of the game carries the streams and the past iff the skeleton holds on them |
| Captured.DecidesIffHarmless | src/aiger_export.h:253-258 | it does so for every skeleton, all streams and any past iff no later replacement changes an atom's value |
| Captured.StreamNamedLikeAtom | src/ltl_aba_helpers.tmpl.h:168 | a stream called `p1`: the word of streams on which the skeleton fails is in the game |
| Captured.StreamNamedLikeHistory | src/aiger_export.h:39-46 | a stream called `__h_x_1`: the skeleton holds on some streams and the game has no word |
| Controllers.GameGivesController | src/aiger_export.h:220-225 | a controller of the game is one of the skeleton |
| Controllers.ControllerGivesGame | src/aiger_export.h:265-276 | with fixed reads of step 0 only, a controller of the skeleton becomes one of the game |
| Controllers.FixedReadForetells | src/aiger_export.h:82-92 | a skeleton that mentions o1[k] has a controller for every k, and its game has one iff k is 0 |
| StartRule.CollectConjuncts | src/api.tmpl.h:1778-1800 | the list of conjuncts, each always split over its own |
| StartRule.ConjunctsMean | src/api.tmpl.h:1776-1777 | the list conjoins to the formula at every step of every trace |
| StartRule.ConjunctsDepth | README.md:1380-1389 | the list's always part starts where the specification's does |
| StartRule.ConjunctsHold | README.md:1376-1389 | under the start rule the list holds on the traces on which the specification does |
| StartRule.ConjunctionConflicts | src/api.tmpl.h:1850-1858 | a list conflicts iff the conjunction given to the check does |
| StartRule.SplitConflicts | src/api.tmpl.h:1776-1777 | the list of conjuncts conflicts iff the specification does |
| UnsatCore.AnchoredHolds | src/ltl_aba_helpers.tmpl.h:257-274 | an anchor changes where a conjunct starts, not what it asks |
| UnsatCore.FixedSteps | README.md:1392-1394 | what reads fixed steps only, and so has no anchor, says the same from every start |
| UnsatCore.DeepestLookback | src/api.tmpl.h:1835-1838 | the deepest lookback of the always conjuncts |
| UnsatCore.AnchorEach | src/api.tmpl.h:1839-1845 | every always conjunct that reads less far back is anchored, if it reads a moving step |
| UnsatCore.PartStartsAtDepth | src/api.tmpl.h:1825-1830 | the always part of every subset of the anchored conjuncts is asked from step k on |
| UnsatCore.DeletionMonotone | src/api.tmpl.h:1825-1830 | dropping anchored conjuncts never turns a non-conflict into a conflict |
| PrintedCore.WithoutAnchors | src/api.tmpl.h:1828-1830 | without anchors it can: `always x[t] = 1`, always one of `x[t]` and `x[t-1]` is 1, and `x[0] = 0` do not conflict, and without the second they do |
| UnsatCore.WrittenConflicts | src/api.tmpl.h:1825-1830 | conjuncts that conflict with their anchors conflict as printed |
| UnsatCore.TryDrop | src/api.tmpl.h:1881-1894 | one turn keeps the conflict and the order, and a kept conjunct is needed if the check decides |
| UnsatCore.FindCore | src/api.tmpl.h:1803-1898 | no verdict, the empty core, or a core that comes from the specification in order, conflicts as printed and with anchors, after at most n+1 checks; when every check decides it is the one the deletion leaves, and minimal with anchors if the empty set does not conflict |
| PrintedCore.SafeIsMinimal | src/api.tmpl.h:1879-1880 | if no conjunct about the trace stands beside an always that reads less far back than the deepest, the printed core is minimal |
| PrintedCore.UnsafeIsSpoiled | src/api.tmpl.h:1879-1880 | otherwise, with the same lookbacks and behaviours, leaves exist for which the printed core conflicts with less |
| PrintedCore.PrintedMinimalIffSafe | src/api.tmpl.h:1825-1830 | for given lookbacks, and behaviours that all produce a trace and two of which share none: the printed core is minimal whatever the leaves say iff no such conjunct stands beside such an always |
| PrintedCore.PrintedMinimalIffDeep | src/api.tmpl.h:1825-1830 | for a specification without anchors of its own: iff every moving always conjunct reads as far back as the deepest |
| PrintedCore.SatisfiablePrintedIffDeep | src/api.tmpl.h:1859 | the same for satisfiability, where a behaviour is a trace and produces itself |
| PrintedCore.CoreAsPrinted | src/api.tmpl.h:1879-1880 | `always x[t] != x[0]` with `always x[t] = x[t-1]` conflicts, its core is both conjuncts, minimal with anchors, and the first as printed conflicts alone |
| Atomless.Collect | src/atomless_decode.h:68-81 | the system of a coordinate is the unused atoms that name at most it once the values are substituted, and they are marked used |
| Atomless.SolvedHolds | src/atomless_decode.h:82-104 | an atom in the system of a coordinate holds once the coordinate has its value |
| Atomless.TurnKeeps | src/atomless_decode.h:67-105 | after each turn the used atoms hold whatever is undecided, and every atom over the coordinates so far is used |
| Atomless.RunIsUnique | src/atomless_decode.h:60-105 | the values that the turns pick are determined by the atoms, the coordinates and the solver |
| Atomless.PickedValue | src/atomless_decode.h:104 | where no coordinate repeats, each keeps the value of its turn |
| Atomless.Decode | src/atomless_decode.h:60-122 | a decided assignment is that of the run: each turn's system is exactly the atoms no earlier turn used that name at most its coordinate, with the values picked so far, and its value the solver's answer or the zero; with distinct coordinates it satisfies every atom over them; it is rejected iff the turn reached refuses its own system, never by the check of left-over atoms; the ledger learns the values only at the end |

## Left out

- HOA text: scanning of headers and edge labels; a label is a Boolean expression over AP indices, or
  unreadable, and the acceptance name and colours are given. The text of the acceptance condition is read.
- `ltlsynt` and Spot calls: the game, and the verdict of a synthesised formula, are inputs or not modelled.
- The enumeration of 1-, 2- and 3-types, D-bitmasks and the initial memory are inputs.
- Machine integers: masks and state numbers are unbounded, so an overflow of a shift or a product is not
  modelled; the limit on the number of APs is.
- The initial memory is below the number of types, as the source asserts.
- Colours: a game whose marks name a colour that its header does not count is outside `Headers.IsHeader`.
- Marks of several colours: the model keeps the first colour of a mark, as the source does.
- Bookkeeping names: for a stream named like a bookkeeping output there is a counterexample and no exact
  condition.
- Inputs of the bit game that are named like bookkeeping outputs are outside `Controllers.ControllerGivesGame`.
- Zielonka.Solve: says nothing about the split when a priority is negative, where the source returns early
  with two empty sets; a parsed game has none.
- DeadEnds.StripDeadEnds: sets of states are Dafny sets; the order in which `std::set` lists them decides nothing.
- Spot's concrete syntax: formulas are trees, and a word-boundary replacement in text is a replacement of propositions.
- AlgorithmA.BuildSkeleton: D-masks outside `[0, 2^K)` are excluded, as the source's documentation asks.
- AlgorithmB.BuildSkeleton: D-masks outside `[0, 2^K)` are excluded, as for Algorithm A.
- BitGame.BitTable.At: a read ahead of the current step, on which the source's lookup throws, is not modelled.
- The circuit itself: `keep_outputs`, the AIGER text and the cross-check of the verdict.
- UnsatCore.FindCore: definitions, simplification and the reports of undecided checks; the check of a
  conjunction is a function that may give no verdict.
- Atomless.Decode: the algebra's solver is a function assumed sound; it reads the ledger and does not write
  it, and the commit to the ledger does not fail.
- The other files of the repository, among them the interpreter, the normaliser and the type inference.
