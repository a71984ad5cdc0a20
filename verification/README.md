# Roshambo round evaluation and refereeing, in Dafny

A model of the core of a two-player rock-paper-scissors ("roshambo") simulator. Two robots
play rounds under a referee. Throws are integers (0 = rock, 1 = paper, 2 = scissors), and
outcomes are integers seen from one player's side (1 = win, 0 = draw, -1 = loss).

- `rules.dfy`, module `Rules`: the standard rule set `evaluate_standard_rules` as a pure
  function returning `Ok(outcomes)` or `Err(RuleViolation)`. It has the length check, the
  per-throw loop as written, and the mod-3 outcome rule. It also holds the `RuleSet` wrapper
  with `StandardRuleSet`, a model of the verbose if/elif block on its own, and a version with
  a corrected per-throw check (see Findings).
- `robot.dfy`, module `Robots`: `RoshamboRobot` as a class. Its name and strategy are fixed,
  and its history is a `seq` of rows `(own, opponent, outcome)` that `LearnThrow` extends.
  The strategy is any function from history to throw.
- `referee.dfy`, module `Referees`: the `Referee` class with its fixed slot map
  `{1: robot_one, 2: robot_two}`. It has the standalone legality predicate
  `check_throw_outcome` and its own copy of the evaluator, `evaluate_round`. That copy is a
  method with the per-throw loop, proved equal to `Rules.EvaluateStandardRules` on every
  input. `conduct_round` is a method that solicits slot 1 then slot 2, evaluates the pair,
  and appends one row to each history only if evaluation did not raise.

Where the docstrings and the code disagree, the model follows the code:

- The referee never calls `check_throw_outcome`, and nothing disqualifies a robot.
- The per-throw check inside the evaluator binds `enumerate`'s pair backwards. So it tests
  the position (0 or 1), not the throw, and it never raises.
- An out-of-range throw is therefore rejected only by the final "should never happen" branch,
  and only for some pairs: `[3, 3]` scores a draw and `[3, 1]` a win for robot 2.
- A raised `RuleViolation` leaves `conduct_round` as an error. Here it is the `Some` result
  of `ConductRound`, and no history has changed.

`Referee.py` and `rules.py` each declare their own `RuleViolation` class with the same shape.
Both are modelled by the single datatype `Rules.RuleViolation`.

The ghost fields `start1`, `start2` and `rounds` of `Referee` count the rounds the referee has
completed. Its invariant `Paired()` says that two distinct robots have histories that grew by
exactly `rounds` rows since the referee took them over, and that row k of one mirrors row k of
the other. `ConductRound` preserves it. The source does not forbid putting the same robot in
both slots; `ConductRound`'s contract covers that case too, where that one robot learns both
rows.

## Model

| member | source | states |
|---|---|---|
| `Rules.LegalityScan` | rule_sets/rules.py:42-48 | the per-throw loop can only report a position that is itself outside [0, 1, 2]; the violating index it reports is the thrown value at that position, and the robot number is that value plus one |
| `Rules.ModularOutcomes` | rule_sets/rules.py:86-99 | the modular block's outcomes are two antisymmetric values, zero exactly when the throws are equal; its only error is "This should never happen" |
| `Rules.EvaluateStandardRules` | rule_sets/rules.py:23-101 | a list whose length is not 2 raises the wrong-count violation and returns no outcome; any returned outcome pair is antisymmetric and a draw exactly when the throws are equal |
| `Rules.StandardRuleSetEvaluates` | rule_sets/rules.py:104-105 | `StandardRuleSet`'s stored function is `evaluate_standard_rules` |
| `Rules.LegalityScanNeverFires` | rule_sets/rules.py:42-48 | on the lists the loop ever sees, the swapped per-throw check never raises |
| `Rules.OnlyModularBlockDecides` | rule_sets/rules.py:50-101 | for two throws the result is exactly the modular block's, so the verbose block's assignment never reaches the caller |
| `Rules.ErrorOnlyFromUnclassifiedPair` | rule_sets/rules.py:88-99 | for two throws the only violation is the line-99 one, raised iff throw_2 differs from throw_1 and is neither one nor two above it mod 3 |
| `Rules.RejectedPairs` | rule_sets/rules.py:88-99 | a pair is rejected iff the throws differ and throw_2 is out of range or congruent to throw_1 mod 3 |
| `Rules.StandardRulesMatchTable` | rule_sets/rules.py:86-99 | on every legal pair the rule is total and agrees with the independent beats-table: draw on equal throws, otherwise the winner is whoever beats the other |
| `Rules.SecondWinsWhenOneAbove` | rule_sets/rules.py:91-93 | if throw_2 == (throw_1 + 1) mod 3, player 2 wins with [-1, 1] (rock loses to paper, paper to scissors, scissors to rock) for any integer throw_1 |
| `Rules.FirstWinsWhenTwoAbove` | rule_sets/rules.py:95-96 | if throw_2 == (throw_1 + 2) mod 3, player 1 wins with [1, -1] for any integer throw_1 |
| `Rules.SwapMirrorsOutcomes` | rule_sets/rules.py:86-99 | swapping two legal throws swaps the outcome pair |
| `Rules.ConcreteCases` | rule_sets/rules.py:36-99 | the nine legal pairs' outcomes; [3, 3] is a draw, [3, 0] and [0, 3] hit "should never happen"; one or three throws raise the wrong-count violation |
| `Rules.VerboseOutcomes` | rule_sets/rules.py:54-84 | the verbose block assigns outcomes exactly when the throws are equal, or both are legal and the pair is not paper against rock; every other pair leaves `outcomes` unassigned |
| `Rules.VerboseBlockAgreesWhereAssigned` | rule_sets/rules.py:54-96 | wherever the verbose block assigns outcomes, the modular block assigns the same ones |
| `Rules.VerboseBlockMissesPaperRock` | rule_sets/rules.py:68-75 | the verbose block as written leaves paper against rock unassigned, while the evaluator scores it [1, -1] |
| `Rules.CorrectedVerboseMatchesModular` | rule_sets/rules.py:54-84 | with its second paper test reading "rock", the verbose block is total on legal pairs and equals the evaluator |
| `Rules.ValueScan` | rule_sets/rules.py:42-48 | the per-throw loop with the pair bound as intended finds nothing iff every throw is legal, and otherwise reports the first illegal throw with its position and robot number |
| `Rules.IllegalThrowGoesUndetected` | rule_sets/rules.py:42-48 | as written, [3, 1] and [-1, 0] receive outcomes; with the intended check both raise for robot 1 |
| `Rules.CorrectedCheckRejectsExactlyIllegal` | rule_sets/rules.py:42-48 | with the intended check, two throws are rejected iff one is illegal, naming the first offender; "should never happen" is unreachable; accepted pairs score as written |
| `Robots.RoshamboRobot.constructor` | actors/RoshamboRobot.py:26-30 | a new robot keeps the given name and strategy and has an empty history |
| `Robots.RoshamboRobot.LearnThrow` | actors/RoshamboRobot.py:32-34 | the history gains exactly one row at its end, and earlier rows are unchanged |
| `Robots.RoshamboRobot.MakeThrow` | actors/RoshamboRobot.py:39-40 | the throw is the strategy applied to the current history, and nothing changes |
| `Referees.RoundRecords` | actors/Referee.py:94-95 | robot 1's row is (t1, t2, o1) and robot 2's is (t2, t1, o2): each row lists its own throw first and the other's second, with its own outcome |
| `Referees.RecordsMirror` | actors/Referee.py:94-95 | the two rows of an accepted round mirror each other: own and opponent throws swapped, outcomes negated |
| `Referees.MirroredLogsGrow` | actors/Referee.py:94-98 | appending one mirrored pair of rows to two mirrored histories keeps them mirrored |
| `Referees.Referee.constructor` | actors/Referee.py:37-38 | the slot map is {1: robot_one, 2: robot_two}; it is a constant no round alters |
| `Referees.Referee.CheckThrowOutcome` | actors/Referee.py:61-70 | a returned throw passes iff it is numeric and equal to 0, 1 or 2 |
| `Referees.Referee.EvaluateRound` | actors/Referee.py:102-181 | the referee's copy of the evaluator returns exactly what `evaluate_standard_rules` returns on every input, including which inputs raise and with what |
| `Referees.Referee.ConductRound` | actors/Referee.py:72-100 | the throws are slot 1's then slot 2's strategy on the current histories; if evaluation raises, no history changes; otherwise robot 1 gains (t1, t2, o1) and robot 2 gains (t2, t1, o2), the match invariant is kept and the round count grows by one |
| `Referees.CheckedThrowsEvaluate` | actors/Referee.py:61-70 | two throws that pass the legality predicate always receive the table's outcomes |
| `Referees.UncheckedThrowsStillEvaluate` | actors/Referee.py:84-90 | the round never applies the legality predicate: 3 fails it, yet [3, 3] is scored a draw |

## Left out

- The `print` in `conduct_round` (actors/Referee.py:93) and the `__main__` demo blocks of both actor files are console output and demo glue. So is the three-round paper-against-rock scenario they run.
- `check_throw_function` probes an object with `hasattr(..., '__call__')`, which has no counterpart here. `check_robots_throw_function` only returns the slot map. The forfeit rules their docstrings describe are not implemented in the code, so they are not modelled either.
- The `rule_set` parameter in the referee's docstring is not a constructor parameter; the referee always uses its own `evaluate_round`.
- The `roshambo` package that the demo imports is not part of this model.
- numpy arrays are modelled as sequences of integer rows: `np.zeros((0, 3))` is the empty sequence, and `np.append` is appending one row. The float element type and the shape errors numpy can raise are not modelled.
- Throws are integers. Floats, Python 2 `long`, booleans and non-numeric values are not modelled in the evaluator. The legality predicate's argument distinguishes only integer-valued numbers from non-numbers.
- `RoshamboRobot.__init__` asserts that the name is a `str`; here the parameter's type guarantees it.
- Robots.RoshamboRobot.MakeThrow: the strategy is a total, side-effect-free function of the history. A strategy that raises, returns a non-integer or keeps its own state is not modelled. For that reason the order in which the two robots are asked is visible only in the order the throws are stored.
- The error message texts of `RuleViolation` are reduced to their cause and the values they mention.

## Findings

| source | as written | input that shows it | evidently intended | confidence | as-written member | corrected member |
|---|---|---|---|---|---|---|
| rule_sets/rules.py:74 | the second test for robot 1 throwing paper repeats `throw_2 == 2`, so paper against rock leaves `outcomes` unassigned in the verbose block (the modular block then assigns it) | [1, 0] | `throw_2 == 0`, giving [1, -1] | high; not executed | `Rules.VerboseBlockMissesPaperRock` | `Rules.CorrectedVerboseMatchesModular` |
| rule_sets/rules.py:42 | `for throw, robot_index in enumerate(throws)` binds the position to `throw`, so the per-throw check tests 0 and 1 and never raises | [3, 1] returns [-1, 1] | `for robot_index, throw in enumerate(throws)`, raising for robot 1 at index 0 | high; not executed | `Rules.IllegalThrowGoesUndetected` | `Rules.CorrectedCheckRejectsExactlyIllegal` |

The same two defects are in the referee's copy at actors/Referee.py:154 and actors/Referee.py:122.
The verbose block's value never reaches a caller, so `EvaluateStandardRules` is already the
corrected behaviour for the first defect. For the second, the referee's round keeps the
as-written evaluator, because that is the one the code runs; on legal throws the corrected
evaluator returns the same outcomes.
