/** The standard rule set of two-player roshambo (rule_sets/rules.py).
    Throws are integers: 0 = rock, 1 = paper, 2 = scissors.
    Outcomes are integers from one player's point of view: 1 = win, 0 = draw, -1 = loss.
    An evaluation either returns a fresh two-element list of outcomes or raises RuleViolation,
    which the model writes as a Result. */
module Rules {

  datatype Option<T> = None | Some(value: T)

  /** The three causes for which the evaluator raises RuleViolation. Only the per-throw check
      passes a violating index; the other two leave it at its default of None. */
  datatype RuleViolation =
    | WrongThrowCount(numThrows: nat)
    | IllegalThrow(robotNumber: int, throw: int, violatingIndex: int)
    | ShouldNeverHappen

  datatype Result<T> = Ok(value: T) | Err(error: RuleViolation)

  const Rock := 0
  const Paper := 1
  const Scissors := 2

  /** Membership in the list [0, 1, 2] of legal throws. */
  predicate IsLegal(t: int) {
    t == Rock || t == Paper || t == Scissors
  }

  /** An independent statement of who beats whom: rock crushes scissors, paper covers rock,
      scissors cut paper. */
  predicate Beats(x: int, y: int) {
    (x == Rock && y == Scissors) || (x == Paper && y == Rock) || (x == Scissors && y == Paper)
  }

  /** The per-throw validation loop, from position k on. `enumerate` yields (index, value)
      pairs, and the loop binds them as (throw, robot_index): the value it tests is the
      POSITION, and the thrown value lands in robot_index. */
  function LegalityScan(throws: seq<int>, k: nat): (e: Option<RuleViolation>)
    requires k <= |throws|
    decreases |throws| - k
    ensures e.Some? ==> e.value.IllegalThrow? && k <= e.value.throw < |throws| && !IsLegal(e.value.throw)
    ensures e.Some? ==> e.value.violatingIndex == throws[e.value.throw] &&
                        e.value.robotNumber == throws[e.value.throw] + 1
  {
    if k == |throws| then None
    else
      var throw, robotIndex := k, throws[k];
      var robotNumber := robotIndex + 1;
      if !IsLegal(throw) then Some(IllegalThrow(robotNumber, throw, robotIndex))
      else LegalityScan(throws, k + 1)
  }

  /** The modular block that decides the result: throw_2 one above throw_1 (mod 3) wins for
      player 2, two above wins for player 1, and anything else raises. */
  function ModularOutcomes(throw1: int, throw2: int): (r: Result<seq<int>>)
    ensures r.Ok? ==> |r.value| == 2 && r.value[0] == -r.value[1]
    ensures r.Ok? ==> (r.value[0] == 0 <==> throw1 == throw2)
    ensures r.Err? ==> r.error == ShouldNeverHappen
  {
    if throw1 == throw2 then Ok([0, 0])
    else if throw2 == (1 + throw1) % 3 then Ok([-1, 1])
    else if throw2 == (2 + throw1) % 3 then Ok([1, -1])
    else Err(ShouldNeverHappen)
  }

  /** evaluate_standard_rules. The verbose if/elif block of the source only assigns the local
      `outcomes`, which the modular block then assigns again (or raises) on every path, so the
      value is the modular block's; VerboseOutcomes models that block on its own. */
  function EvaluateStandardRules(throws: seq<int>): (r: Result<seq<int>>)
    ensures |throws| != 2 ==> r == Err(WrongThrowCount(|throws|))
    ensures r.Ok? ==> |throws| == 2 && |r.value| == 2 && r.value[0] == -r.value[1]
    ensures r.Ok? ==> (r.value[0] == 0 <==> throws[0] == throws[1])
  {
    if |throws| != 2 then Err(WrongThrowCount(|throws|))
    else match LegalityScan(throws, 0)
      case Some(violation) => Err(violation)
      case None => ModularOutcomes(throws[0], throws[1])
  }

  /** The RuleSet wrapper: it only stores the evaluation function it is given. */
  datatype RuleSet = RuleSet(evaluateRound: seq<int> -> Result<seq<int>>)

  const StandardRuleSet := RuleSet(EvaluateStandardRules)

  lemma StandardRuleSetEvaluates(throws: seq<int>)
    ensures StandardRuleSet.evaluateRound(throws) == EvaluateStandardRules(throws)
  {
  }

  /** The per-throw loop can only ever test positions, so on a list of at most three throws
      it never raises. */
  lemma {:induction false} LegalityScanNeverFires(throws: seq<int>, k: nat)
    requires k <= |throws| <= 3
    decreases |throws| - k
    ensures LegalityScan(throws, k) == None
  {
    if k < |throws| {
      LegalityScanNeverFires(throws, k + 1);
    }
  }

  /** On two throws the result comes from the modular block alone. */
  lemma OnlyModularBlockDecides(throws: seq<int>)
    requires |throws| == 2
    ensures EvaluateStandardRules(throws) == ModularOutcomes(throws[0], throws[1])
  {
    LegalityScanNeverFires(throws, 0);
  }

  /** On two throws the only error is the "should never happen" branch, and it is raised
      exactly when throw_2 differs from throw_1 and is neither one nor two above it mod 3. */
  lemma ErrorOnlyFromUnclassifiedPair(throw1: int, throw2: int)
    ensures var r := EvaluateStandardRules([throw1, throw2]);
      (r.Err? ==> r.error == ShouldNeverHappen) &&
      (r.Err? <==> throw1 != throw2 && throw2 != (throw1 + 1) % 3 && throw2 != (throw1 + 2) % 3)
  {
    OnlyModularBlockDecides([throw1, throw2]);
  }

  /** The same condition said without the formula: the pair is rejected exactly when the
      throws differ and throw_2 is out of range or congruent to throw_1 mod 3. */
  lemma RejectedPairs(throw1: int, throw2: int)
    ensures EvaluateStandardRules([throw1, throw2]).Err? <==>
      throw1 != throw2 && (!IsLegal(throw2) || throw2 == throw1 % 3)
  {
    ErrorOnlyFromUnclassifiedPair(throw1, throw2);
    var m := throw1 % 3;
    assert (throw1 + 1) % 3 == (m + 1) % 3 && (throw1 + 2) % 3 == (m + 2) % 3;
  }

  /** For legal throws the result agrees with the table of who beats whom: the rule is total
      on {0,1,2}^2 and the "should never happen" branch is unreachable there. */
  lemma StandardRulesMatchTable(a: int, b: int)
    requires IsLegal(a) && IsLegal(b)
    ensures EvaluateStandardRules([a, b]) ==
      Ok(if a == b then [0, 0] else if Beats(a, b) then [1, -1] else [-1, 1])
  {
    OnlyModularBlockDecides([a, b]);
  }

  /** One above mod 3 wins for player 2, whatever the integer throw_1 is. */
  lemma SecondWinsWhenOneAbove(a: int, b: int)
    requires b == (a + 1) % 3
    ensures EvaluateStandardRules([a, b]) == Ok([-1, 1])
  {
    OnlyModularBlockDecides([a, b]);
  }

  /** Two above mod 3 wins for player 1, whatever the integer throw_1 is. */
  lemma FirstWinsWhenTwoAbove(a: int, b: int)
    requires b == (a + 2) % 3
    ensures EvaluateStandardRules([a, b]) == Ok([1, -1])
  {
    OnlyModularBlockDecides([a, b]);
    assert b != (a + 1) % 3;
  }

  /** Swapping two legal throws swaps the outcomes: the rule treats both players alike. */
  lemma SwapMirrorsOutcomes(a: int, b: int)
    requires IsLegal(a) && IsLegal(b)
    ensures EvaluateStandardRules([a, b]).Ok? && EvaluateStandardRules([b, a]).Ok?
    ensures EvaluateStandardRules([b, a]).value ==
      [EvaluateStandardRules([a, b]).value[1], EvaluateStandardRules([a, b]).value[0]]
  {
    StandardRulesMatchTable(a, b);
    StandardRulesMatchTable(b, a);
  }

  /** The nine legal pairs, and how out-of-range throws fare: only the modular block can
      reject them, so some pairs with an illegal throw still receive outcomes. */
  lemma ConcreteCases()
    ensures EvaluateStandardRules([Rock, Paper]) == Ok([-1, 1])
    ensures EvaluateStandardRules([Paper, Scissors]) == Ok([-1, 1])
    ensures EvaluateStandardRules([Scissors, Rock]) == Ok([-1, 1])
    ensures EvaluateStandardRules([Paper, Rock]) == Ok([1, -1])
    ensures EvaluateStandardRules([Scissors, Paper]) == Ok([1, -1])
    ensures EvaluateStandardRules([Rock, Scissors]) == Ok([1, -1])
    ensures forall t :: IsLegal(t) ==> EvaluateStandardRules([t, t]) == Ok([0, 0])
    ensures EvaluateStandardRules([3, 3]) == Ok([0, 0])
    ensures EvaluateStandardRules([3, 0]) == Err(ShouldNeverHappen)
    ensures EvaluateStandardRules([0, 3]) == Err(ShouldNeverHappen)
    ensures EvaluateStandardRules([Rock]) == Err(WrongThrowCount(1))
    ensures EvaluateStandardRules([Rock, Paper, Scissors]) == Err(WrongThrowCount(3))
  {
    StandardRulesMatchTable(Rock, Paper);
    StandardRulesMatchTable(Paper, Scissors);
    StandardRulesMatchTable(Scissors, Rock);
    StandardRulesMatchTable(Paper, Rock);
    StandardRulesMatchTable(Scissors, Paper);
    StandardRulesMatchTable(Rock, Scissors);
    forall t | IsLegal(t) ensures EvaluateStandardRules([t, t]) == Ok([0, 0]) {
      StandardRulesMatchTable(t, t);
    }
    RejectedPairs(3, 3);
    OnlyModularBlockDecides([3, 3]);
    RejectedPairs(3, 0);
    OnlyModularBlockDecides([3, 0]);
    RejectedPairs(0, 3);
    OnlyModularBlockDecides([0, 3]);
  }

  // ---------------------------------------------------------------------------------------
  // The verbose block (rules.py lines 54-84), which the modular block always overwrites.

  /** The verbose block as written; None means it leaves `outcomes` unassigned. Its second
      test for robot 1 throwing paper repeats `throw_2 == 2`, so paper against rock falls
      through. */
  function VerboseOutcomes(throw1: int, throw2: int): (r: Option<seq<int>>)
    ensures r.Some? <==>
      (throw1 == throw2 || (IsLegal(throw1) && IsLegal(throw2) && !(throw1 == Paper && throw2 == Rock)))
  {
    if throw1 == throw2 then Some([0, 0])
    else if throw1 == Rock then
      (if throw2 == Paper then Some([-1, 1]) else if throw2 == Scissors then Some([1, -1]) else None)
    else if throw1 == Paper then
      (if throw2 == Scissors then Some([-1, 1]) else if throw2 == Scissors then Some([1, -1]) else None)
    else if throw1 == Scissors then
      (if throw2 == Rock then Some([-1, 1]) else if throw2 == Paper then Some([1, -1]) else None)
    else None
  }

  /** The verbose block with its evidently intended second test for paper (rock loses). */
  function VerboseOutcomesCorrected(throw1: int, throw2: int): Option<seq<int>> {
    if throw1 == throw2 then Some([0, 0])
    else if throw1 == Rock then
      (if throw2 == Paper then Some([-1, 1]) else if throw2 == Scissors then Some([1, -1]) else None)
    else if throw1 == Paper then
      (if throw2 == Scissors then Some([-1, 1]) else if throw2 == Rock then Some([1, -1]) else None)
    else if throw1 == Scissors then
      (if throw2 == Rock then Some([-1, 1]) else if throw2 == Paper then Some([1, -1]) else None)
    else None
  }

  /** Wherever the verbose block assigns, the modular block assigns the same outcomes, so
      overwriting it changes nothing there. */
  lemma VerboseBlockAgreesWhereAssigned(throw1: int, throw2: int)
    requires VerboseOutcomes(throw1, throw2).Some?
    ensures ModularOutcomes(throw1, throw2) == Ok(VerboseOutcomes(throw1, throw2).value)
  {
  }

  /** The verbose block as written leaves paper against rock unassigned, a legal pair the
      modular block does classify. */
  lemma VerboseBlockMissesPaperRock()
    ensures VerboseOutcomes(Paper, Rock) == None
    ensures EvaluateStandardRules([Paper, Rock]) == Ok([1, -1])
  {
    StandardRulesMatchTable(Paper, Rock);
  }

  /** Corrected, the verbose block is total on legal pairs and equals the modular rule. */
  lemma CorrectedVerboseMatchesModular(a: int, b: int)
    requires IsLegal(a) && IsLegal(b)
    ensures VerboseOutcomesCorrected(a, b).Some?
    ensures EvaluateStandardRules([a, b]) == Ok(VerboseOutcomesCorrected(a, b).value)
  {
    StandardRulesMatchTable(a, b);
  }

  // ---------------------------------------------------------------------------------------
  // The per-throw check with the enumerate pair bound in its intended order.

  /** The validation loop binding (robot_index, throw) as enumerate yields them: the first
      position holding a value outside [0, 1, 2] is reported. */
  function ValueScan(throws: seq<int>, k: nat): (e: Option<RuleViolation>)
    requires k <= |throws|
    decreases |throws| - k
    ensures e.None? <==> forall i :: k <= i < |throws| ==> IsLegal(throws[i])
    ensures e.Some? ==> (exists i :: k <= i < |throws| && !IsLegal(throws[i]) &&
                          (forall j :: k <= j < i ==> IsLegal(throws[j])) &&
                          e.value == IllegalThrow(i + 1, throws[i], i))
  {
    if k == |throws| then None
    else
      var robotIndex, throw := k, throws[k];
      var robotNumber := robotIndex + 1;
      if !IsLegal(throw) then Some(IllegalThrow(robotNumber, throw, robotIndex))
      else ValueScan(throws, k + 1)
  }

  /** evaluate_standard_rules with the corrected per-throw check. */
  function EvaluateStandardRulesCorrected(throws: seq<int>): Result<seq<int>> {
    if |throws| != 2 then Err(WrongThrowCount(|throws|))
    else match ValueScan(throws, 0)
      case Some(violation) => Err(violation)
      case None => ModularOutcomes(throws[0], throws[1])
  }

  /** As written, an illegal first throw is not caught: rock-plus-three against paper is
      scored as a win for paper, and -1 against rock as a win for rock. */
  lemma IllegalThrowGoesUndetected()
    ensures EvaluateStandardRules([3, Paper]) == Ok([-1, 1])
    ensures EvaluateStandardRules([-1, Rock]) == Ok([-1, 1])
    ensures EvaluateStandardRulesCorrected([3, Paper]) == Err(IllegalThrow(1, 3, 0))
    ensures EvaluateStandardRulesCorrected([-1, Rock]) == Err(IllegalThrow(1, -1, 0))
  {
    SecondWinsWhenOneAbove(3, Paper);
    SecondWinsWhenOneAbove(-1, Rock);
  }

  /** With the corrected check, two throws are rejected with the first offending position
      exactly when one of them is illegal; otherwise the result is the as-written one, and
      the "should never happen" branch is indeed never reached. */
  lemma CorrectedCheckRejectsExactlyIllegal(throws: seq<int>)
    requires |throws| == 2
    ensures var r := EvaluateStandardRulesCorrected(throws);
      (r.Err? <==> !IsLegal(throws[0]) || !IsLegal(throws[1])) &&
      (!IsLegal(throws[0]) ==> r == Err(IllegalThrow(1, throws[0], 0))) &&
      (IsLegal(throws[0]) && !IsLegal(throws[1]) ==> r == Err(IllegalThrow(2, throws[1], 1))) &&
      (r.Err? ==> r.error != ShouldNeverHappen) &&
      (r.Ok? ==> r == EvaluateStandardRules(throws))
  {
    var r := EvaluateStandardRulesCorrected(throws);
    if IsLegal(throws[0]) && IsLegal(throws[1]) {
      assert ValueScan(throws, 0) == None;
      StandardRulesMatchTable(throws[0], throws[1]);
      assert throws == [throws[0], throws[1]];
    } else if !IsLegal(throws[0]) {
      assert ValueScan(throws, 0) == Some(IllegalThrow(1, throws[0], 0));
    } else {
      assert ValueScan(throws, 1) == Some(IllegalThrow(2, throws[1], 1));
    }
  }
}
