/** The referee (actors/Referee.py): it holds two robots in fixed slots 1 and 2, asks each for a
    throw, scores the pair with its own copy of the standard rules, and tells each robot the
    round's result. */
module Referees {
  import opened Rules
  import opened Robots

  /** What a robot may hand back as a throw, as far as the legality predicate can tell:
      an integer-valued number, or something that is not a number at all. */
  datatype Returned = Numeric(n: int) | NonNumeric

  /** The two rows one round adds: robot 1 learns (t1, t2, o1), robot 2 learns (t2, t1, o2). */
  function RoundRecords(throws: seq<int>, outcomes: seq<int>): (r: (Row, Row))
    requires |throws| == 2 && |outcomes| == 2
    ensures r.0.own == r.1.opponent == throws[0] && r.1.own == r.0.opponent == throws[1]
    ensures r.0.outcome == outcomes[0] && r.1.outcome == outcomes[1]
  {
    (Row(throws[0], throws[1], outcomes[0]), Row(throws[1], throws[0], outcomes[1]))
  }

  /** Two rows describe the same round seen from either side. */
  predicate Mirrored(mine: Row, theirs: Row) {
    mine.own == theirs.opponent && mine.opponent == theirs.own && mine.outcome == -theirs.outcome
  }

  /** Two histories describe the same rounds, row by row. */
  predicate MirroredLogs(h1: seq<Row>, h2: seq<Row>) {
    |h1| == |h2| && forall k :: 0 <= k < |h1| ==> Mirrored(h1[k], h2[k])
  }

  /** Every round the evaluator accepts gives each robot the mirror image of the other's row. */
  lemma RecordsMirror(throws: seq<int>)
    requires EvaluateStandardRules(throws).Ok?
    ensures var o := EvaluateStandardRules(throws).value;
      Mirrored(RoundRecords(throws, o).0, RoundRecords(throws, o).1)
  {
  }

  /** Appending a mirrored pair of rows keeps two histories mirrored. */
  lemma MirroredLogsGrow(h1: seq<Row>, h2: seq<Row>, r1: Row, r2: Row)
    requires MirroredLogs(h1, h2) && Mirrored(r1, r2)
    ensures MirroredLogs(h1 + [r1], h2 + [r2])
  {
  }

  class Referee {
    /** The slot mapping {1: robot_one, 2: robot_two}, set once. */
    const robots: map<int, RoshamboRobot>

    /** Lengths of the two histories when the referee took the robots over, and the number of
        rounds it has completed since. */
    ghost var start1: nat
    ghost var start2: nat
    ghost var rounds: nat

    predicate Slots() {
      1 in robots && 2 in robots
    }

    /** The throws the two robots would make now, in slot order. */
    ghost function SolicitedThrows(): seq<int>
      requires Slots()
      reads robots.Values
    {
      [robots[1].throwFunction(robots[1].history), robots[2].throwFunction(robots[2].history)]
    }

    /** The match invariant: two distinct robots, and since the referee took them over both
        histories have grown by exactly `rounds` rows, row k of one mirroring row k of the
        other. */
    ghost predicate Paired()
      requires Slots()
      reads this, robots.Values
    {
      robots[1] != robots[2] &&
      start1 <= |robots[1].history| && start2 <= |robots[2].history| &&
      |robots[1].history| - start1 == rounds &&
      MirroredLogs(robots[1].history[start1..], robots[2].history[start2..])
    }

    constructor (robotOne: RoshamboRobot, robotTwo: RoshamboRobot)
      ensures robots == map[1 := robotOne, 2 := robotTwo] && Slots()
      ensures rounds == 0
      ensures robotOne != robotTwo ==> Paired()
    {
      robots := map[1 := robotOne, 2 := robotTwo];
      start1 := |robotOne.history|;
      start2 := |robotTwo.history|;
      rounds := 0;
    }

    /** check_throw_outcome: a returned throw is legal iff it is a number equal to 0, 1 or 2. */
    static function CheckThrowOutcome(throw: Returned): (legal: bool)
      ensures legal <==> throw.Numeric? && 0 <= throw.n < 3
    {
      throw.Numeric? && throw.n in [0, 1, 2]
    }

    /** evaluate_round, the referee's own copy of the standard rules. It agrees with
        Rules.EvaluateStandardRules on every input, errors included. */
    static method EvaluateRound(throws: seq<int>) returns (r: Result<seq<int>>)
      ensures r == EvaluateStandardRules(throws)
    {
      var numThrows := |throws|;
      if numThrows != 2 {
        return Err(WrongThrowCount(numThrows));
      }

      // enumerate yields (index, value); the loop binds them as (throw, robotIndex)
      for i := 0 to |throws|
        invariant LegalityScan(throws, i) == LegalityScan(throws, 0)
      {
        var throw, robotIndex := i, throws[i];
        var robotNumber := robotIndex + 1;
        if throw !in [0, 1, 2] {
          // the tested value is a position, 0 or 1, so the raise here is never reached
          assert false;
        }
      }

      var throw1, throw2 := throws[0], throws[1];
      var outcomes: seq<int>;

      // the verbose rules, whose assignment the modular rules below always replace
      if throw1 == throw2 {
        outcomes := [0, 0];
      } else if throw1 == 0 {
        if throw2 == 1 {
          outcomes := [-1, 1];
        } else if throw2 == 2 {
          outcomes := [1, -1];
        }
      } else if throw1 == 1 {
        if throw2 == 2 {
          outcomes := [-1, 1];
        } else if throw2 == 2 {
          outcomes := [1, -1];
        }
      } else if throw1 == 2 {
        if throw2 == 0 {
          outcomes := [-1, 1];
        } else if throw2 == 1 {
          outcomes := [1, -1];
        }
      }

      // the modular rules
      if throw1 == throw2 {
        outcomes := [0, 0];
      } else if throw2 == (1 + throw1) % 3 {
        outcomes := [-1, 1];
      } else if throw2 == (2 + throw1) % 3 {
        outcomes := [1, -1];
      } else {
        return Err(ShouldNeverHappen);
      }
      return Ok(outcomes);
    }

    /** conduct_round: solicit robot 1's throw, then robot 2's, evaluate the pair, and only
        if that returns append a row to each robot's history. The raised RuleViolation is
        returned as Some; None means the round completed. */
    method ConductRound() returns (raised: Option<RuleViolation>)
      requires Slots()
      modifies this, robots[1], robots[2]
      ensures start1 == old(start1) && start2 == old(start2)
      ensures var evaluated := EvaluateStandardRules(old(SolicitedThrows()));
        (raised.Some? <==> evaluated.Err?) &&
        (raised.Some? ==> raised.value == evaluated.error)
      ensures raised.Some? ==>
        robots[1].history == old(robots[1].history) && robots[2].history == old(robots[2].history) &&
        rounds == old(rounds)
      ensures raised.None? ==>
        var throws := old(SolicitedThrows());
        var records := RoundRecords(throws, EvaluateStandardRules(throws).value);
        rounds == old(rounds) + 1 &&
        (robots[1] != robots[2] ==>
          robots[1].history == old(robots[1].history) + [records.0] &&
          robots[2].history == old(robots[2].history) + [records.1]) &&
        (robots[1] == robots[2] ==>
          robots[1].history == old(robots[1].history) + [records.0, records.1])
      ensures raised.None? && old(Paired()) ==> Paired()
    {
      ghost var solicited := SolicitedThrows();
      var throws: seq<int> := [];
      var order := [1, 2];
      for i := 0 to |order|
        invariant throws == solicited[..i]
        invariant unchanged(this, robots[1], robots[2])
      {
        var throw := robots[order[i]].MakeThrow();
        throws := throws + [throw];
      }
      assert throws == solicited;

      var outcomes := EvaluateRound(throws);
      if outcomes.Err? {
        return Some(outcomes.error);
      }
      RecordsMirror(throws);

      var robot1History := Row(throws[0], throws[1], outcomes.value[0]);
      var robot2History := Row(throws[1], throws[0], outcomes.value[1]);
      robots[1].LearnThrow(robot1History);
      robots[2].LearnThrow(robot2History);
      rounds := rounds + 1;

      if old(Paired()) {
        assert robots[1].history[start1..] == old(robots[1].history[start1..]) + [robot1History];
        assert robots[2].history[start2..] == old(robots[2].history[start2..]) + [robot2History];
        MirroredLogsGrow(old(robots[1].history[start1..]), old(robots[2].history[start2..]),
                         robot1History, robot2History);
      }
      return None;
    }
  }

  /** A legal pair of returned throws always receives outcomes, and they are the table's;
      the converse fails, since the evaluator never applies this predicate. */
  lemma CheckedThrowsEvaluate(a: int, b: int)
    requires Referee.CheckThrowOutcome(Numeric(a)) && Referee.CheckThrowOutcome(Numeric(b))
    ensures EvaluateStandardRules([a, b]) ==
      Ok(if a == b then [0, 0] else if Beats(a, b) then [1, -1] else [-1, 1])
  {
    StandardRulesMatchTable(a, b);
  }

  /** The evaluator is not guarded by the legality predicate: an out-of-range pair that the
      predicate rejects still receives outcomes. */
  lemma UncheckedThrowsStillEvaluate()
    ensures !Referee.CheckThrowOutcome(Numeric(3))
    ensures EvaluateStandardRules([3, 3]) == Ok([0, 0])
  {
  }
}
