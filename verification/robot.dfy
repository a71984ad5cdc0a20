/** A roshambo robot (actors/RoshamboRobot.py): a name, a strategy that picks a throw from the
    robot's history, and that history, which grows by one row per round played. */
module Robots {

  /** One row of a robot's history: its own throw, its opponent's throw, and the outcome
      from its own point of view (1 win, 0 draw, -1 loss). */
  datatype Row = Row(own: int, opponent: int, outcome: int)

  class RoshamboRobot {
    const name: string
    /** The strategy: any function from the history to a throw. */
    const throwFunction: seq<Row> -> int
    var history: seq<Row>

    /** A new robot starts with no rows. */
    constructor (name: string, throwFunction: seq<Row> -> int)
      ensures this.name == name && this.throwFunction == throwFunction
      ensures history == []
    {
      this.name := name;
      this.history := [];
      this.throwFunction := throwFunction;
    }

    /** Appends one row after all earlier ones, which stay as they were. */
    method LearnThrow(newResults: Row)
      modifies this
      ensures history == old(history) + [newResults]
      ensures |history| == |old(history)| + 1 && history[..|old(history)|] == old(history)
    {
      history := history + [newResults];
    }

    /** Asks the strategy for a throw given the current history, changing nothing. */
    method MakeThrow() returns (throw: int)
      ensures throw == throwFunction(history)
    {
      throw := throwFunction(history);
    }
  }
}
