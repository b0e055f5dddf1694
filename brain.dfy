/**
 * The planner and per-tick state machine of the agent (masa20/Brain.java):
 * learn integrates a percept into the map, think picks the next action from
 * the planned moves (replanning when they run out or when going forward would
 * hit an obstacle), and the planning itself chooses the cheapest unexplored
 * cell, searches a path to it and turns the path into actions.
 */
module Planner {
  import opened Wrappers
  import opened Positions
  import opened Cells
  import opened Traversal
  import opened Costs
  import opened Moves
  import opened Search
  import opened WorldMap

  /**
   * What think produces: an action, or NoMove where Java's moves.remove(0)
   * throws because getMoves planned an empty list (the chosen cell is linked
   * to head but every walk to it crosses an obstacle).
   */
  datatype Decision = Act(action: Action) | NoMove

  /** The cell linked ahead of h when facing d is an obstacle: the re-check in think. */
  ghost predicate BlockedAhead(cells: seq<Cell>, h: nat, d: int)
  {
    && h < |cells| && 0 <= d < 4
    && Slot(cells[h], d).Some? && Slot(cells[h], d).value < |cells|
    && cells[Slot(cells[h], d).value].obstacle
  }

  /**
   * What a plan fresh from getMoves guarantees to think: null exactly when
   * nothing reachable is left to explore, empty only when some reachable
   * candidate is cut off by obstacles, and never a first GoForward into an
   * obstacle.
   */
  ghost predicate FreshPlan(cells: seq<Cell>, h: nat, facing: int, moves: Option<seq<Action>>)
  {
    && (moves.None? <==> Exhausted(cells, h))
    && (moves == Some([]) ==>
          exists x :: 0 <= x < |cells| && Candidate(cells, x) && Reachable(cells, h, x) && !PassablyReachable(cells, h, x))
    && (moves.Some? && moves.value != [] && moves.value[0] == GoForward ==> !BlockedAhead(cells, h, facing))
  }

  /**
   * plan is what getMoves plans from head h facing `facing` when something is
   * left to explore: target is a reachable candidate of least cost, the first
   * of that cost in the traversal order from h, path is
   * a passable walk without repetitions from h to target (empty exactly when
   * there is none), and plan turns and steps along path.
   */
  ghost predicate Planned(cells: seq<Cell>, h: nat, facing: Dir, target: nat, path: seq<nat>, plan: seq<Action>)
  {
    && Positioned(cells) && h < |cells|
    && Candidate(cells, target) && Reachable(cells, h, target)
    && (forall x :: 0 <= x < |cells| && Reachable(cells, h, x) && Candidate(cells, x) ==>
          CostOf(cells, h, facing, target) <= CostOf(cells, h, facing, x))
    && FirstOfLeast(cells, h, facing, target)
    && (path == [] <==> !PassablyReachable(cells, h, target))
    && (path != [] ==> path[0] == h && path[|path| - 1] == target && IsPath(cells, path) && Passable(cells, path) && Distinct(path))
    && plan == Plan(PathPositions(cells, path), facing)
  }

  /** think replans: there are no moves left, or the next one is a GoForward into an obstacle. */
  ghost predicate Replans(moves: Option<seq<Action>>, cells: seq<Cell>, h: nat, facing: Dir)
  {
    moves.None? || moves.value == [] || (moves.value[0] == GoForward && BlockedAhead(cells, h, facing))
  }

  /** think's decision d takes the first action of plan and leaves the rest as the moves; NoMove for an empty plan. */
  ghost predicate TakesFirst(plan: seq<Action>, d: Decision, moves: Option<seq<Action>>)
  {
    && (plan == [] ==> d == NoMove && moves == Some([]))
    && (plan != [] ==> d == Act(plan[0]) && moves == Some(plan[1..]))
  }

  /** estimateTotalCost(map.head, x): what getLowestCostUnexplored ranks cell x by. */
  ghost function CostOf(cells: seq<Cell>, h: nat, facing: Dir, x: nat): nat
    requires Positioned(cells) && h < |cells| && x < |cells|
  {
    TotalCost(cells[h].pos.value, facing, cells[h].pos.value, cells[x].pos.value)
  }

  /** The cell at index j of `order` is no candidate, or a candidate costing strictly more than target. */
  ghost predicate CostlierAt(cells: seq<Cell>, h: nat, facing: Dir, order: seq<nat>, j: int, target: nat)
  {
    && Positioned(cells) && h < |cells| && target < |cells| && 0 <= j < |order|
    && (Candidate(cells, order[j]) ==> CostOf(cells, h, facing, order[j]) > CostOf(cells, h, facing, target))
  }

  /**
   * From index k of order on, target comes before any candidate that is not
   * costlier than it: it appears at k or later, and every cell in between
   * is CostlierAt.
   */
  ghost predicate FirstOfLeastFrom(cells: seq<Cell>, h: nat, facing: Dir, order: seq<nat>, target: nat, k: nat)
    decreases |order| - k
  {
    && k < |order|
    && (order[k] == target
        || (CostlierAt(cells, h, facing, order, k, target) && FirstOfLeastFrom(cells, h, facing, order, target, k + 1)))
  }

  /**
   * target is the first of its cost in the traversal order from h: every
   * candidate before it costs strictly more (the strict `<` of
   * getLowestCostUnexplored keeps the first of equally cheap cells).
   */
  ghost predicate FirstOfLeast(cells: seq<Cell>, h: nat, facing: Dir, target: nat)
  {
    SlotsInRange(cells) && h < |cells| && FirstOfLeastFrom(cells, h, facing, BfsOrder(cells, h), target, 0)
  }

  /** The index getLowestCostUnexplored reports makes its cell FirstOfLeastFrom every earlier index. */
  lemma {:induction false} RankFirst(cells: seq<Cell>, h: nat, facing: Dir, order: seq<nat>, target: nat, rank: nat, k: nat)
    requires k <= rank < |order| && order[rank] == target
    requires forall j :: 0 <= j < rank ==> CostlierAt(cells, h, facing, order, j, target)
    ensures FirstOfLeastFrom(cells, h, facing, order, target, k)
    decreases rank - k
  {
    if k < rank {
      RankFirst(cells, h, facing, order, target, rank, k + 1);
    }
  }

  /** Two candidates of equal cost, both first of least cost from index k, are the same cell. */
  lemma {:induction false} FirstOfLeastUnique(cells: seq<Cell>, h: nat, facing: Dir, order: seq<nat>, t1: nat, t2: nat, k: nat)
    requires FirstOfLeastFrom(cells, h, facing, order, t1, k) && FirstOfLeastFrom(cells, h, facing, order, t2, k)
    requires Positioned(cells) && h < |cells| && Candidate(cells, t1) && Candidate(cells, t2)
    requires CostOf(cells, h, facing, t1) == CostOf(cells, h, facing, t2)
    ensures t1 == t2
    decreases |order| - k
  {
    if order[k] != t1 && order[k] != t2 {
      FirstOfLeastUnique(cells, h, facing, order, t1, t2, k + 1);
    }
  }

  /**
   * getMoves's target is determined: two plans for the same map, head and
   * facing aim at the same cell, however many candidates tie on cost.
   */
  lemma PlannedTargetUnique(cells: seq<Cell>, h: nat, facing: Dir,
                            t1: nat, path1: seq<nat>, plan1: seq<Action>, t2: nat, path2: seq<nat>, plan2: seq<Action>)
    requires Planned(cells, h, facing, t1, path1, plan1) && Planned(cells, h, facing, t2, path2, plan2)
    ensures t1 == t2
  {
    FirstOfLeastUnique(cells, h, facing, BfsOrder(cells, h), t1, t2, 0);
  }

  /** No cell reachable from h is a candidate (not an obstacle and not explored). */
  ghost predicate Exhausted(cells: seq<Cell>, h: nat)
  {
    forall x :: 0 <= x < |cells| && Reachable(cells, h, x) ==> !Candidate(cells, x)
  }

  /**
   * Among the cells ys visited so far, best is the first candidate of least
   * cost (None when there is no candidate) and rank is its index.
   */
  ghost predicate LowestAmong(cells: seq<Cell>, h: nat, facing: Dir, ys: seq<nat>, best: Option<nat>, rank: nat)
  {
    && Positioned(cells) && h < |cells|
    && (best.None? ==> forall j :: 0 <= j < |ys| ==> !Candidate(cells, ys[j]))
    && (best.Some? ==>
          && rank < |ys| && ys[rank] == best.value && Candidate(cells, best.value)
          && (forall j :: 0 <= j < rank && Candidate(cells, ys[j]) ==>
                CostOf(cells, h, facing, ys[j]) > CostOf(cells, h, facing, best.value))
          && (forall j :: 0 <= j < |ys| && Candidate(cells, ys[j]) ==>
                CostOf(cells, h, facing, ys[j]) >= CostOf(cells, h, facing, best.value)))
  }

  /** lowest is the cost of best, Java's Integer.MAX_VALUE (here None) when there is no best. */
  ghost predicate CostTracked(cells: seq<Cell>, h: nat, facing: Dir, best: Option<nat>, lowest: Option<nat>)
  {
    && (best.None? <==> lowest.None?)
    && (best.Some? ==> Positioned(cells) && h < |cells| && best.value < |cells| && lowest.value == CostOf(cells, h, facing, best.value))
  }

  /** An iteration of getLowestCostUnexplored that meets a strictly cheaper candidate x takes it as the best. */
  lemma LowestTake(cells: seq<Cell>, h: nat, facing: Dir, ys: seq<nat>, x: nat,
                   best: Option<nat>, rank: nat, lowest: Option<nat>)
    requires LowestAmong(cells, h, facing, ys, best, rank) && CostTracked(cells, h, facing, best, lowest)
    requires Candidate(cells, x) && (lowest.None? || CostOf(cells, h, facing, x) < lowest.value)
    ensures LowestAmong(cells, h, facing, ys + [x], Some(x), |ys|)
    ensures CostTracked(cells, h, facing, Some(x), Some(CostOf(cells, h, facing, x)))
  {
    var ys' := ys + [x];
    forall j | 0 <= j < |ys'| && Candidate(cells, ys'[j])
      ensures CostOf(cells, h, facing, ys'[j]) >= CostOf(cells, h, facing, x)
    {
      if j < |ys| {
        assert ys'[j] == ys[j];
      }
    }
  }

  /** An iteration of getLowestCostUnexplored that meets no cheaper candidate keeps the best. */
  lemma LowestKeep(cells: seq<Cell>, h: nat, facing: Dir, ys: seq<nat>, x: nat,
                   best: Option<nat>, rank: nat, lowest: Option<nat>)
    requires LowestAmong(cells, h, facing, ys, best, rank) && CostTracked(cells, h, facing, best, lowest)
    requires Candidate(cells, x) ==> lowest.Some? && CostOf(cells, h, facing, x) >= lowest.value
    ensures LowestAmong(cells, h, facing, ys + [x], best, rank)
  {
    var ys' := ys + [x];
    assert forall j :: 0 <= j < |ys| ==> ys'[j] == ys[j];
    assert ys'[|ys|] == x;
  }

  /** After the whole order, best is the cheapest reachable candidate, or there is none. */
  lemma LowestFinal(cells: seq<Cell>, h: nat, facing: Dir, best: Option<nat>, rank: nat)
    requires SlotsInRange(cells) && h < |cells| && LowestAmong(cells, h, facing, BfsOrder(cells, h), best, rank)
    ensures best.None? <==> Exhausted(cells, h)
    ensures best.Some? ==> Reachable(cells, h, best.value)
    ensures best.Some? ==> forall x :: 0 <= x < |cells| && Reachable(cells, h, x) && Candidate(cells, x) ==>
              CostOf(cells, h, facing, best.value) <= CostOf(cells, h, facing, x)
  {
    var order := BfsOrder(cells, h);
    forall x | 0 <= x < |cells| && Reachable(cells, h, x)
      ensures exists j :: 0 <= j < |order| && order[j] == x
    {
      ReachableIsInOrder(cells, h, x);
    }
    if best.Some? {
      InOrderIsReachable(cells, h, best.value);
    }
  }

  /** A search that ran out of queued cells without polling the target found no passable walk to it. */
  lemma SearchExhausted(cells: seq<Cell>, from: nat, target: nat, seen: set<nat>, parent: map<nat, nat>,
                        when: map<nat, nat>, clock: nat)
    requires SlotsInRange(cells)
    requires Tree(cells, from, {}, seen, parent, when, clock) && Closed(cells, {}, seen, {})
    requires from in seen && target !in seen
    ensures !PassablyReachable(cells, from, target)
  {
    if PassablyReachable(cells, from, target) {
      var p :| IsPath(cells, p) && Passable(cells, p) && p[0] == from && p[|p| - 1] == target;
      ClosedSetHoldsPath(cells, seen, p, true);
    }
  }

  /**
   * A fresh plan that starts with GoForward faces the second cell of the
   * path, which is no obstacle: so the re-check in think never fires on the
   * first move of a new plan.
   */
  lemma FirstForwardSafe(cells: seq<Cell>, path: seq<nat>, facing: Dir)
    requires Positioned(cells) && Consistent(cells) && IsPath(cells, path) && Passable(cells, path)
    requires var acts := Plan(PathPositions(cells, path), facing); acts != [] && acts[0] == GoForward
    ensures |path| >= 2 && Slot(cells[path[0]], facing) == Some(path[1]) && !cells[path[1]].obstacle
  {
    var ps := PathPositions(cells, path);
    var towards := DirectionTowards(ps[0], ps[1]);
    assert Plan(ps, facing) == Segment(facing, towards) + [GoForward] + Plan(ps[1..], towards);
    assert path[1] in Neighbors(cells[path[0]]);
    NeighborDirection(cells, path[0], path[1]);
  }

  class Brain {
    /** The agent's map (the Java field `map`). */
    const world: Map
    /** The planned actions; None is Java's null before the first plan and after exploration ends. */
    var moves: Option<seq<Action>>
    /** Set by learn when the current cell is dirty; overrides the planned moves. */
    var suckNow: bool

    /** The map is valid and the planned moves are turns and forwards only. */
    ghost predicate Valid()
      reads this, world
    {
      && world.Valid()
      && (moves.Some? ==> forall i :: 0 <= i < |moves.value| ==> moves.value[i] == GoForward || IsTurn(moves.value[i]))
    }

    constructor ()
      ensures Valid() && fresh(world)
      ensures world.cells == [Observed(Pos(0, 0), false)] && world.head == 0 && world.dir == NORTH
      ensures moves.None? && !suckNow
    {
      world := new Map();
      moves := None;
      suckNow := false;
    }

    /** Brain.learn: integrate the percept and remember whether to suck now. */
    method Learn(seeObstacle: bool, seeDirt: bool)
      returns (ghost arenas: seq<seq<Cell>>, ghost observed: seq<nat>)
      requires Valid()
      modifies world`cells, this`suckNow
      ensures Valid() && world.HeadProcessed()
      ensures world.head == old(world.head) && world.dir == old(world.dir) && moves == old(moves)
      ensures suckNow == seeDirt
      ensures |arenas| == 5 && arenas[0] == old(world.cells) && world.head < |arenas[4]| && world.cells == arenas[4][world.head := arenas[4][world.head].(explored := true)]
      ensures ObservedFrom(arenas, world.head, Around(world.dir), observed, seeObstacle, 0)
      ensures Processed(old(world.cells), world.cells, world.head, world.dir, seeObstacle)
    {
      suckNow, arenas, observed := world.Process(seeObstacle, seeDirt);
      assert moves == old(moves) && world.Valid();
    }

    /**
     * Brain.getLowestCostUnexplored: over the map's breadth-first order from
     * head, the first candidate of least estimateTotalCost(head, c); None,
     * Java's null, when there is none. Java's Integer.MAX_VALUE start value
     * is None here, i.e. larger than every cost.
     */
    method GetLowestCostUnexplored() returns (r: Option<nat>, ghost rank: nat)
      requires world.Valid()
      ensures r.None? <==> Exhausted(world.cells, world.head)
      ensures r.Some? ==> r.value < |world.cells| && Candidate(world.cells, r.value) && Reachable(world.cells, world.head, r.value)
      ensures r.Some? ==> forall x :: 0 <= x < |world.cells| && Reachable(world.cells, world.head, x) && Candidate(world.cells, x) ==>
                CostOf(world.cells, world.head, world.dir, r.value) <= CostOf(world.cells, world.head, world.dir, x)
      ensures r.Some? ==> var order := BfsOrder(world.cells, world.head);
                rank < |order| && order[rank] == r.value &&
                forall j :: 0 <= j < rank && Candidate(world.cells, order[j]) ==>
                  CostOf(world.cells, world.head, world.dir, order[j]) > CostOf(world.cells, world.head, world.dir, r.value)
    {
      var cells, head, facing: Dir := world.cells, world.head, world.dir;
      var here := cells[head].pos.value;
      ghost var order := BfsOrder(cells, head);
      r, rank := None, 0;
      var lowestCost: Option<nat> := None;
      var it := new MapIter(cells, head);
      while it.HasNext()
        invariant it.Valid() && fresh(it) && it.cells == cells && it.start == head
        invariant LowestAmong(cells, head, facing, it.yielded, r, rank)
        invariant CostTracked(cells, head, facing, r, lowestCost)
        decreases |order| - |it.yielded|
      {
        ghost var ys := it.yielded;
        var c := it.Next();
        if !cells[c].obstacle && !cells[c].explored {
          var cost := TotalCost(here, facing, here, cells[c].pos.value);
          if lowestCost.None? || cost < lowestCost.value {
            LowestTake(cells, head, facing, ys, c, r, rank, lowestCost);
            lowestCost := Some(cost);
            r, rank := Some(c), |ys|;
          } else {
            LowestKeep(cells, head, facing, ys, c, r, rank, lowestCost);
          }
        } else {
          LowestKeep(cells, head, facing, ys, c, r, rank, lowestCost);
        }
      }
      assert it.yielded == order;
      LowestFinal(cells, head, facing, r, rank);
    }

    /**
     * Brain.getOptimalPath: a best-first search from `from` ranked by
     * estimateTotalCost(c, target), with a seen set and parent links, then
     * the path rebuilt from target. A non-empty result is a passable walk
     * without repetitions from `from` to target; the result is empty exactly
     * when no passable walk leads there.
     */
    method GetOptimalPath(from: nat, target: nat) returns (path: seq<nat>)
      requires world.Valid() && from < |world.cells| && target < |world.cells|
      ensures path != [] ==> path[0] == from && path[|path| - 1] == target
      ensures path != [] ==> IsPath(world.cells, path) && Passable(world.cells, path) && Distinct(path)
      ensures path == [] <==> !PassablyReachable(world.cells, from, target)
    {
      var cells, facing: Dir := world.cells, world.dir;
      var here := cells[world.head].pos.value;
      path := [];
      var seen: set<nat> := {};
      var queue: set<nat> := {from};
      var parent: map<nat, nat> := map[];
      ghost var when: map<nat, nat> := map[];
      ghost var clock: nat := 0;
      while queue != {}
        invariant Tree(cells, from, queue, seen, parent, when, clock)
        invariant Closed(cells, queue, seen, {})
        invariant from in seen || (seen == {} && queue == {from})
        invariant target !in seen && path == []
        decreases Unseen(cells, seen)
      {
        LeastExists(cells, here, facing, queue, target);
        var current :| Least(cells, here, facing, queue, target, current);
        PollKeepsTree(cells, from, queue, seen, parent, when, clock, current);
        PollShrinks(cells, seen, current);
        queue := queue - {current};
        seen := seen + {current};
        when := when[current := clock];
        clock := clock + 1;
        if current == target {
          path := Reconstruct(cells, target, parent, from, queue, seen, when, clock);
          assert PassablyReachable(cells, from, target);
          return;
        }
        queue, parent := Expand(cells, here, facing, target, current, queue, seen, parent, from, when, clock);
      }
      SearchExhausted(cells, from, target, seen, parent, when, clock);
    }

    /**
     * Brain.getMoves: None when no reachable cell is left to explore;
     * otherwise the plan for the path from head to the cheapest unexplored
     * cell, starting from the current facing. `target` and `path` name the
     * chosen cell and the searched path.
     */
    method GetMoves() returns (r: Option<seq<Action>>, ghost target: nat, ghost path: seq<nat>)
      requires world.Valid()
      ensures r.None? <==> Exhausted(world.cells, world.head)
      ensures r.Some? ==> target < |world.cells| && Candidate(world.cells, target) && Reachable(world.cells, world.head, target)
      ensures r.Some? ==> forall x :: 0 <= x < |world.cells| && Reachable(world.cells, world.head, x) && Candidate(world.cells, x) ==>
                CostOf(world.cells, world.head, world.dir, target) <= CostOf(world.cells, world.head, world.dir, x)
      ensures r.Some? ==> FirstOfLeast(world.cells, world.head, world.dir, target)
      ensures r.Some? ==> (path == [] <==> !PassablyReachable(world.cells, world.head, target))
      ensures r.Some? && path != [] ==> path[0] == world.head && path[|path| - 1] == target
      ensures r.Some? && path != [] ==> IsPath(world.cells, path) && Passable(world.cells, path) && Distinct(path)
      ensures r.Some? ==> r.value == Plan(PathPositions(world.cells, path), world.dir)
      ensures r.Some? ==> Forwards(r.value) == (if path == [] then 0 else |path| - 1) && WellShaped(r.value)
      ensures r.Some? && path != [] ==>
                Follow(world.cells, world.head, world.dir, r.value).Some? &&
                Follow(world.cells, world.head, world.dir, r.value).value.0 == target
      ensures r.Some? && r.value != [] && r.value[0] == GoForward ==> !BlockedAhead(world.cells, world.head, world.dir)
      ensures r.Some? && world.cells[world.head].explored ==> (r.value == [] <==> !PassablyReachable(world.cells, world.head, target))
    {
      path := [];
      var found, rank := GetLowestCostUnexplored();
      if found.None? {
        r, target := None, 0;
        return;
      }
      var goal := found.value;
      target := goal;
      ghost var order := BfsOrder(world.cells, world.head);
      assert forall j :: 0 <= j < rank ==> CostlierAt(world.cells, world.head, world.dir, order, j, goal);
      RankFirst(world.cells, world.head, world.dir, order, goal, rank, 0);
      var route := GetOptimalPath(world.head, goal);
      path := route;
      var cells := world.cells;
      ghost var ps := PathPositions(cells, route);
      var moves := MovesAlong(cells, route, world.dir);
      r := Some(moves);
      PlanForwards(ps, world.dir);
      PlanShape(ps, world.dir);
      if route != [] {
        FollowPlan(cells, route, world.dir);
        if moves != [] && moves[0] == GoForward {
          FirstForwardSafe(cells, route, world.dir);
        }
      }
    }

    /**
     * The re-check of think before a GoForward: the cell getRelativeCell
     * names straight ahead of head is an obstacle. After learn that slot is
     * linked, so the map does not change.
     */
    method ObstacleAhead() returns (b: bool)
      requires world.Valid() && world.HeadProcessed()
      modifies world`cells
      ensures world.cells == old(world.cells)
      ensures b == BlockedAhead(world.cells, world.head, world.dir)
    {
      ghost var d: Dir := world.dir;
      assert Slot(world.cells[world.head], d).Some?;
      var ahead := world.GetRelativeCell(world.head, NORTH);
      b := world.cells[ahead.value].obstacle;
    }

    /**
     * The last part of Brain.think: carry out a planned move on the map,
     * except a GoForward into an obstacle, which is reported as blocked and
     * changes nothing.
     */
    method Perform(move: Action) returns (blocked: bool)
      requires world.Valid() && world.HeadProcessed()
      modifies world`head, world`dir, world`cells
      ensures world.Valid() && world.cells == old(world.cells)
      ensures blocked <==> move == GoForward && BlockedAhead(world.cells, old(world.head), old(world.dir))
      ensures blocked ==> world.dir == old(world.dir) && world.head == old(world.head)
      ensures move == GoForward && !blocked ==>
                Slot(world.cells[old(world.head)], old(world.dir)) == Some(world.head) && !world.cells[world.head].obstacle && world.dir == old(world.dir)
      ensures move == TurnLeft ==> world.dir == RotateLeft(old(world.dir)) && world.head == old(world.head)
      ensures move == TurnRight ==> world.dir == RotateRight(old(world.dir)) && world.head == old(world.head)
      ensures move != GoForward && move != TurnLeft && move != TurnRight ==>
                world.dir == old(world.dir) && world.head == old(world.head)
    {
      ghost var facing: Dir := world.dir;
      assert Slot(world.cells[world.head], facing).Some?;
      blocked := false;
      if move == GoForward {
        blocked := ObstacleAhead();
        if !blocked {
          world.GoForward();
        }
      } else if move == TurnRight {
        world.TurnRight();
      } else if move == TurnLeft {
        world.TurnLeft();
      }
    }

    /**
     * The replanning step of Brain.think: plan anew when there are no moves
     * left. The new moves are getMoves's plan for target and path.
     */
    method Refill() returns (ghost target: nat, ghost path: seq<nat>)
      requires Valid() && world.HeadProcessed()
      modifies this`moves
      ensures Valid()
      ensures old(moves).None? || old(moves) == Some([]) ==> FreshPlan(world.cells, world.head, world.dir, moves)
      ensures old(moves).None? || old(moves) == Some([]) ==>
                moves.Some? ==> Planned(world.cells, world.head, world.dir, target, path, moves.value)
      ensures old(moves).Some? && old(moves) != Some([]) ==> moves == old(moves)
    {
      target, path := 0, [];
      if moves.None? || moves.value == [] {
        moves, target, path := GetMoves();
      }
    }

    /**
     * The middle of Brain.think: take the next planned move off the list and
     * carry it out, unless it is a GoForward into an obstacle (blocked). An
     * empty list gives NoMove.
     */
    method Advance() returns (d: Decision, blocked: bool)
      requires Valid() && world.HeadProcessed() && moves.Some?
      modifies this`moves, world`cells, world`head, world`dir
      ensures Valid() && world.cells == old(world.cells)
      ensures blocked <==> old(moves).value != [] && old(moves).value[0] == GoForward &&
                           BlockedAhead(world.cells, old(world.head), old(world.dir))
      ensures blocked ==> world.head == old(world.head) && world.dir == old(world.dir)
      ensures !blocked ==> TakesFirst(old(moves).value, d, moves)
      ensures !blocked && d == Act(GoForward) ==>
                Slot(world.cells[old(world.head)], old(world.dir)) == Some(world.head) && !world.cells[world.head].obstacle && world.dir == old(world.dir)
      ensures !blocked && d == Act(TurnLeft) ==> world.dir == RotateLeft(old(world.dir)) && world.head == old(world.head)
      ensures !blocked && d == Act(TurnRight) ==> world.dir == RotateRight(old(world.dir)) && world.head == old(world.head)
      ensures !blocked && d == NoMove ==> world.head == old(world.head) && world.dir == old(world.dir)
      ensures !blocked && d.Act? ==> d.action == GoForward || IsTurn(d.action)
    {
      var next := moves.value;
      if next == [] {
        return NoMove, false;
      }
      var move := next[0];
      assert move == GoForward || IsTurn(move);
      moves := Some(next[1..]);
      assert forall i :: 0 <= i < |next| - 1 ==> next[1..][i] == next[i + 1];
      blocked := Perform(move);
      d := Act(move);
    }

    /**
     * The body of Brain.think after the dirt check: plan anew when there are
     * no moves, shut off when nothing is left to explore, and otherwise take
     * the next planned move. blocked reports a GoForward into an obstacle,
     * after which think clears the plan and starts over.
     */
    method Step() returns (d: Decision, blocked: bool, ghost target: nat, ghost path: seq<nat>, ghost plan: seq<Action>)
      requires Valid() && world.HeadProcessed()
      modifies this`moves, world`cells, world`head, world`dir
      ensures Valid() && world.cells == old(world.cells)
      ensures blocked <==> old(moves).Some? && old(moves).value != [] && old(moves).value[0] == GoForward &&
                           BlockedAhead(world.cells, old(world.head), old(world.dir))
      ensures blocked ==> world.head == old(world.head) && world.dir == old(world.dir)
      ensures !blocked ==> d != Act(SuckDirt)
      ensures !blocked && d == Act(ShutOff) ==> Exhausted(world.cells, old(world.head)) && moves.None?
      ensures !blocked && d == Act(ShutOff) ==> world.head == old(world.head) && world.dir == old(world.dir)
      ensures !blocked && Replans(old(moves), world.cells, old(world.head), old(world.dir)) && Exhausted(world.cells, old(world.head)) ==>
                d == Act(ShutOff)
      ensures !blocked && d == Act(GoForward) ==>
                Slot(world.cells[old(world.head)], old(world.dir)) == Some(world.head) && !world.cells[world.head].obstacle && world.dir == old(world.dir)
      ensures !blocked && d == Act(TurnLeft) ==> world.dir == RotateLeft(old(world.dir)) && world.head == old(world.head)
      ensures !blocked && d == Act(TurnRight) ==> world.dir == RotateRight(old(world.dir)) && world.head == old(world.head)
      ensures !blocked && d == NoMove ==> moves == Some([]) && world.head == old(world.head) && world.dir == old(world.dir)
      ensures !blocked && d == NoMove ==>
                exists x :: 0 <= x < |world.cells| && Candidate(world.cells, x) &&
                  Reachable(world.cells, world.head, x) && !PassablyReachable(world.cells, world.head, x)
      ensures !Replans(old(moves), world.cells, old(world.head), old(world.dir)) ==> TakesFirst(old(moves).value, d, moves)
      ensures !blocked && Replans(old(moves), world.cells, old(world.head), old(world.dir)) &&
              !Exhausted(world.cells, old(world.head)) ==>
                Planned(world.cells, old(world.head), old(world.dir), target, path, plan) && TakesFirst(plan, d, moves)
    {
      plan := [];
      target, path := Refill();
      if moves.None? {
        return Act(ShutOff), false, target, path, plan;
      }
      plan := moves.value;
      d, blocked := Advance();
    }

    /**
     * Brain.think: suck when learn saw dirt; otherwise take the next planned
     * move, planning anew when there is none and shutting off when nothing is
     * left to explore. A GoForward into an obstacle clears the plan and
     * thinks again; a fresh plan never starts that way, so this recursion is
     * at most one level deep.
     */
    method Think() returns (d: Decision, ghost target: nat, ghost path: seq<nat>, ghost plan: seq<Action>)
      requires Valid() && world.HeadProcessed()
      modifies this`moves, world`cells, world`head, world`dir
      ensures Valid() && world.cells == old(world.cells)
      ensures d == Act(SuckDirt) <==> old(suckNow)
      ensures old(suckNow) ==> moves == old(moves) && world.head == old(world.head) && world.dir == old(world.dir)
      ensures d == Act(ShutOff) ==> Exhausted(world.cells, old(world.head)) && moves.None?
      ensures d == Act(ShutOff) ==> world.head == old(world.head) && world.dir == old(world.dir)
      ensures !old(suckNow) && Replans(old(moves), world.cells, old(world.head), old(world.dir)) && Exhausted(world.cells, old(world.head)) ==>
                d == Act(ShutOff)
      ensures d == Act(GoForward) ==>
                Slot(world.cells[old(world.head)], old(world.dir)) == Some(world.head) && !world.cells[world.head].obstacle && world.dir == old(world.dir)
      ensures d == Act(TurnLeft) ==> world.dir == RotateLeft(old(world.dir)) && world.head == old(world.head)
      ensures d == Act(TurnRight) ==> world.dir == RotateRight(old(world.dir)) && world.head == old(world.head)
      ensures d == NoMove ==> !old(suckNow) && moves == Some([]) && world.head == old(world.head) && world.dir == old(world.dir)
      ensures d == NoMove ==>
                exists x :: 0 <= x < |world.cells| && Candidate(world.cells, x) &&
                  Reachable(world.cells, world.head, x) && !PassablyReachable(world.cells, world.head, x)
      ensures !old(suckNow) && !Replans(old(moves), world.cells, old(world.head), old(world.dir)) ==>
                TakesFirst(old(moves).value, d, moves)
      ensures !old(suckNow) && Replans(old(moves), world.cells, old(world.head), old(world.dir)) &&
              !Exhausted(world.cells, old(world.head)) ==>
                Planned(world.cells, old(world.head), old(world.dir), target, path, plan) && TakesFirst(plan, d, moves)
      decreases if moves.Some? && moves.value != [] then 1 else 0
    {
      target, path, plan := 0, [], [];
      if suckNow {
        return Act(SuckDirt), target, path, plan;
      }
      var blocked;
      d, blocked, target, path, plan := Step();
      if blocked {
        moves := Some([]);
        d, target, path, plan := Think();
      }
    }
  }
}
