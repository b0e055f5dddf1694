/**
 * The cost estimates of the planner (masa20/Brain.java): Manhattan move cost,
 * the direction towards a target, the turn cost and their weighted sum. Java
 * computes them on 32-bit ints; here they are unbounded.
 */
module Costs {
  import opened Positions

  /** Brain.estimateMoveCost: the Manhattan distance between two positions. */
  function MoveCost(a: Pos, b: Pos): (r: nat)
    ensures r == 0 <==> a == b
  {
    Abs(a.x - b.x) + Abs(a.y - b.y)
  }

  lemma MoveCostSymmetric(a: Pos, b: Pos)
    ensures MoveCost(a, b) == MoveCost(b, a)
  {
  }

  lemma MoveCostTriangle(a: Pos, b: Pos, c: Pos)
    ensures MoveCost(a, c) <= MoveCost(a, b) + MoveCost(b, c)
  {
  }

  /** One step changes the move cost to any target by exactly one. */
  lemma MoveCostStep(p: Pos, d: Dir, t: Pos)
    ensures MoveCost(Step(p, d), t) == MoveCost(p, t) + 1 || MoveCost(Step(p, d), t) + 1 == MoveCost(p, t)
  {
  }

  /**
   * Brain.getDirectionTowards: along the axis with the larger offset (x on a
   * tie), east or north when the offset is positive, otherwise west or
   * south. The step it names brings a different target one unit closer, and
   * a neighbouring position gets the direction that leads to it.
   */
  function DirectionTowards(current: Pos, target: Pos): (r: Dir)
    ensures current != target ==> MoveCost(Step(current, r), target) + 1 == MoveCost(current, target)
    ensures Abs(target.x - current.x) >= Abs(target.y - current.y) <==> r == EAST || r == WEST
    ensures forall d: Dir :: target == Step(current, d) ==> r == d
  {
    var x := target.x - current.x;
    var y := target.y - current.y;
    if Abs(x) >= Abs(y) then
      if x > 0 then EAST else WEST
    else
      if y > 0 then NORTH else SOUTH
  }

  /**
   * The quarter turns in the body of Brain.estimateTurnCost: the shorter way
   * round from facing `from` to facing `to`.
   */
  function Turns(from: Dir, to: Dir): (r: nat)
    ensures r <= 2
    ensures r == 0 <==> to == from
    ensures r == 1 <==> to == RotateRight(from) || to == RotateLeft(from)
    ensures r == 2 <==> to == Opposite(from)
  {
    var t := (to - from + 4) % 4;
    if t < 4 - t then t else 4 - t
  }

  lemma TurnsSymmetric(a: Dir, b: Dir)
    ensures Turns(a, b) == Turns(b, a)
  {
  }

  /**
   * Brain.estimateTurnCost: the turns from the current facing to the
   * direction from the agent's own cell towards the target (not from the
   * cell the estimate is for).
   */
  function TurnCost(here: Pos, facing: Dir, target: Pos): (r: nat)
    ensures r <= 2
    ensures r == 0 <==> DirectionTowards(here, target) == facing
  {
    Turns(facing, DirectionTowards(here, target))
  }

  /**
   * Brain.estimateTotalCost: turn cost plus twice the move cost, where the
   * turn cost depends only on the agent (here, facing), not on start.
   */
  function TotalCost(here: Pos, facing: Dir, start: Pos, end: Pos): (r: nat)
    ensures 2 * MoveCost(start, end) <= r <= 2 * MoveCost(start, end) + 2
    ensures r == 0 <==> start == end && DirectionTowards(here, end) == facing
  {
    TurnCost(here, facing, end) + MoveCost(start, end) * 2
  }

  /** For a fixed agent and end, the total cost orders starts by move cost. */
  lemma TotalCostMonotone(here: Pos, facing: Dir, a: Pos, b: Pos, end: Pos)
    ensures TotalCost(here, facing, a, end) <= TotalCost(here, facing, b, end) <==> MoveCost(a, end) <= MoveCost(b, end)
  {
  }
}
