/**
 * Agent actions and the translation of a path into actions done by
 * Brain.getMoves (masa20/Brain.java): before each step the agent turns from
 * its hypothetical facing to the direction of the next cell (one right turn,
 * or left turns otherwise) and then goes forward.
 */
module Moves {
  import opened Wrappers
  import opened Positions
  import opened Cells
  import opened Traversal
  import opened Costs

  /** The vacworld actions the controller emits. */
  datatype Action = GoForward | TurnLeft | TurnRight | SuckDirt | ShutOff

  predicate IsTurn(a: Action)
  {
    a == TurnLeft || a == TurnRight
  }

  /**
   * The inner loop of Brain.getMoves: while the facing is not `to`, a right
   * turn when `to` is a quarter turn to the right, otherwise a left turn.
   */
  function Segment(from: Dir, to: Dir): (r: seq<Action>)
    ensures |r| == Turns(from, to)
    ensures forall i :: 0 <= i < |r| ==> IsTurn(r[i])
    decreases Turns(from, to)
  {
    if from == to then []
    else if (to - from + 4) % 4 == 1 then [TurnRight] + Segment(RotateRight(from), to)
    else [TurnLeft] + Segment(RotateLeft(from), to)
  }

  /**
   * Brain.getMoves on the positions of a path: for each step a Segment from
   * the hypothetical facing to the direction of the next position, then
   * GoForward, the new facing being that direction.
   */
  function Plan(ps: seq<Pos>, facing: Dir): seq<Action>
    decreases |ps|
  {
    if |ps| < 2 then []
    else
      var towards := DirectionTowards(ps[0], ps[1]);
      Segment(facing, towards) + [GoForward] + Plan(ps[1..], towards)
  }

  /**
   * One turn of the inner loop of Brain.getMoves: the turn it emits is the
   * first action of the segment still to emit, and the rest of the segment,
   * from the rotated facing, is one turn shorter.
   */
  lemma SegmentTurn(facing: Dir, towards: Dir, facing': Dir)
    requires facing != towards
    requires facing' == if (towards - facing + 4) % 4 == 1 then (facing + 1) % 4 else (facing + 3) % 4
    ensures Segment(facing, towards) == [if (towards - facing + 4) % 4 == 1 then TurnRight else TurnLeft] + Segment(facing', towards)
    ensures Turns(facing', towards) < Turns(facing, towards)
  {
    var diff := (towards - facing + 4) % 4;
    if diff == 1 {
      assert Segment(facing, towards) == [TurnRight] + Segment(RotateRight(facing), towards);
    } else {
      assert Segment(facing, towards) == [TurnLeft] + Segment(RotateLeft(facing), towards);
    }
  }

  lemma AppendAssoc(a: seq<Action>, t: Action, b: seq<Action>)
    ensures a + ([t] + b) == (a + [t]) + b
  {
  }

  lemma EmitStep(done: seq<Action>, seg: seq<Action>, rest: seq<Action>)
    ensures (done + seg + [GoForward]) + rest == done + (seg + [GoForward] + rest)
  {
  }

  /** One step of the outer loop of Brain.getMoves on the suffix of the positions from i. */
  lemma PlanUnfold(ps: seq<Pos>, i: nat, facing: Dir)
    requires i + 1 < |ps|
    ensures var towards := DirectionTowards(ps[i], ps[i + 1]);
            Plan(ps[i..], facing) == Segment(facing, towards) + [GoForward] + Plan(ps[i + 1..], towards)
  {
    assert ps[i..][1..] == ps[i + 1..];
  }

  /** The positions of the cells of a path. */
  ghost function PathPositions(cells: seq<Cell>, path: seq<nat>): (r: seq<Pos>)
    requires forall i :: 0 <= i < |path| ==> path[i] < |cells| && cells[path[i]].pos.Some?
    ensures |r| == |path|
    ensures forall i :: 0 <= i < |path| ==> r[i] == cells[path[i]].pos.value
  {
    seq(|path|, i requires 0 <= i < |path| => cells[path[i]].pos.value)
  }

  /**
   * The inner loop of Brain.getMoves: turn the hypothetical facing until it
   * is `towards`, appending each turn to the moves.
   */
  method TurnTowards(moves: seq<Action>, facing: Dir, towards: Dir) returns (moves': seq<Action>, facing': Dir)
    ensures moves' == moves + Segment(facing, towards) && facing' == towards
  {
    moves', facing' := moves, facing;
    while facing' != towards
      invariant moves' + Segment(facing', towards) == moves + Segment(facing, towards)
      decreases Turns(facing', towards)
    {
      ghost var before, f0 := moves', facing';
      var diff := (towards - facing' + 4) % 4;
      if diff == 1 {
        moves' := moves' + [TurnRight];
        facing' := (facing' + 1) % 4;
      } else {
        moves' := moves' + [TurnLeft];
        facing' := (facing' + 3) % 4;
      }
      SegmentTurn(f0, towards, facing');
      AppendAssoc(before, moves'[|moves'| - 1], Segment(facing', towards));
    }
    assert moves' + [] == moves';
  }

  /**
   * The walk of Brain.getMoves over a path: before each step, turn the
   * hypothetical facing towards the next cell, then go forward.
   */
  method MovesAlong(cells: seq<Cell>, route: seq<nat>, facing0: Dir) returns (moves: seq<Action>)
    requires forall i :: 0 <= i < |route| ==> route[i] < |cells| && cells[route[i]].pos.Some?
    ensures moves == Plan(PathPositions(cells, route), facing0)
  {
    ghost var ps := PathPositions(cells, route);
    moves := [];
    var facing: Dir := facing0;
    var i := 0;
    while i < |route| - 1
      invariant 0 <= i <= |route| && (route != [] ==> i < |route|)
      invariant moves + Plan(ps[i..], facing) == Plan(ps, facing0)
    {
      var towards := DirectionTowards(cells[route[i]].pos.value, cells[route[i + 1]].pos.value);
      PlanUnfold(ps, i, facing);
      ghost var start, done := facing, moves;
      moves, facing := TurnTowards(moves, facing, towards);
      EmitStep(done, Segment(start, towards), Plan(ps[i + 1..], towards));
      moves := moves + [GoForward];
      facing := towards;
      i := i + 1;
    }
    assert Plan(ps[i..], facing) == [];
  }

  /** The number of GoForward actions. */
  function Forwards(acts: seq<Action>): nat
    decreases |acts|
  {
    if acts == [] then 0
    else (if acts[0] == GoForward then 1 else 0) + Forwards(acts[1..])
  }

  lemma {:induction false} ForwardsAppend(a: seq<Action>, b: seq<Action>)
    ensures Forwards(a + b) == Forwards(a) + Forwards(b)
    decreases |a|
  {
    if a == [] {
      assert a + b == b;
    } else {
      assert (a + b)[1..] == a[1..] + b;
      ForwardsAppend(a[1..], b);
    }
  }

  lemma {:induction false} ForwardsOfTurns(a: seq<Action>)
    requires forall i :: 0 <= i < |a| ==> IsTurn(a[i])
    ensures Forwards(a) == 0
    decreases |a|
  {
    if a != [] {
      ForwardsOfTurns(a[1..]);
    }
  }

  /** getMoves emits exactly one GoForward per step of the path. */
  lemma {:induction false} PlanForwards(ps: seq<Pos>, facing: Dir)
    ensures Forwards(Plan(ps, facing)) == if ps == [] then 0 else |ps| - 1
    decreases |ps|
  {
    if |ps| >= 2 {
      var towards := DirectionTowards(ps[0], ps[1]);
      var s := Segment(facing, towards);
      ForwardsOfTurns(s);
      ForwardsAppend(s, [GoForward]);
      ForwardsAppend(s + [GoForward], Plan(ps[1..], towards));
      PlanForwards(ps[1..], towards);
    }
  }

  /** Only turns and forwards, no three turns in a row, and a GoForward at the end. */
  ghost predicate WellShaped(acts: seq<Action>)
  {
    && (forall i :: 0 <= i < |acts| ==> acts[i] == GoForward || IsTurn(acts[i]))
    && (forall i :: 0 <= i && i + 2 < |acts| ==> acts[i] == GoForward || acts[i + 1] == GoForward || acts[i + 2] == GoForward)
    && (acts != [] ==> acts[|acts| - 1] == GoForward)
  }

  lemma ShapedBlock(s: seq<Action>, rest: seq<Action>)
    requires |s| <= 2 && forall i :: 0 <= i < |s| ==> IsTurn(s[i])
    requires WellShaped(rest)
    ensures WellShaped(s + [GoForward] + rest)
  {
    var acts := s + [GoForward] + rest;
    var k := |s| + 1;
    assert acts[|s|] == GoForward;
    forall i | 0 <= i < |acts|
      ensures acts[i] == GoForward || IsTurn(acts[i])
    {
      if i >= k {
        assert acts[i] == rest[i - k];
      } else if i < |s| {
        assert acts[i] == s[i];
      }
    }
    forall i | k <= i && i + 2 < |acts|
      ensures acts[i] == GoForward || acts[i + 1] == GoForward || acts[i + 2] == GoForward
    {
      var j := i - k;
      assert acts[i] == rest[j] && acts[i + 1] == rest[j + 1] && acts[i + 2] == rest[j + 2];
    }
    if rest != [] {
      assert acts[|acts| - 1] == rest[|rest| - 1];
    }
  }

  /** Each GoForward of a plan follows at most two turns, and a plan ends with GoForward. */
  lemma {:induction false} PlanShape(ps: seq<Pos>, facing: Dir)
    ensures WellShaped(Plan(ps, facing))
    decreases |ps|
  {
    if |ps| >= 2 {
      var towards := DirectionTowards(ps[0], ps[1]);
      PlanShape(ps[1..], towards);
      ShapedBlock(Segment(facing, towards), Plan(ps[1..], towards));
    }
  }

  /**
   * Replaying actions on a map from cell h with facing d: GoForward moves to
   * the cell linked ahead (None when that slot is unlinked), turns rotate
   * the facing, SuckDirt and ShutOff move nothing.
   */
  ghost function Follow(cells: seq<Cell>, h: nat, d: Dir, acts: seq<Action>): Option<(nat, Dir)>
    decreases |acts|
  {
    if acts == [] then Some((h, d))
    else match acts[0]
      case GoForward =>
        if h < |cells| && Slot(cells[h], d).Some? then Follow(cells, Slot(cells[h], d).value, d, acts[1..])
        else None
      case TurnLeft => Follow(cells, h, RotateLeft(d), acts[1..])
      case TurnRight => Follow(cells, h, RotateRight(d), acts[1..])
      case _ => Follow(cells, h, d, acts[1..])
  }

  lemma {:induction false} FollowAppend(cells: seq<Cell>, h: nat, d: Dir, a: seq<Action>, b: seq<Action>)
    ensures Follow(cells, h, d, a + b) ==
              if Follow(cells, h, d, a).None? then None
              else Follow(cells, Follow(cells, h, d, a).value.0, Follow(cells, h, d, a).value.1, b)
    decreases |a|
  {
    if a == [] {
      assert a + b == b;
    } else {
      assert (a + b)[0] == a[0] && (a + b)[1..] == a[1..] + b;
      match a[0]
      case GoForward =>
        if h < |cells| && Slot(cells[h], d).Some? {
          FollowAppend(cells, Slot(cells[h], d).value, d, a[1..], b);
        }
      case TurnLeft => FollowAppend(cells, h, RotateLeft(d), a[1..], b);
      case TurnRight => FollowAppend(cells, h, RotateRight(d), a[1..], b);
      case _ => FollowAppend(cells, h, d, a[1..], b);
    }
  }

  /** The turns of a segment bring the facing to its target and do not move. */
  lemma {:induction false} FollowSegment(cells: seq<Cell>, h: nat, from: Dir, to: Dir)
    ensures Follow(cells, h, from, Segment(from, to)) == Some((h, to))
    decreases Turns(from, to)
  {
    if from != to {
      if (to - from + 4) % 4 == 1 {
        FollowSegment(cells, h, RotateRight(from), to);
      } else {
        FollowSegment(cells, h, RotateLeft(from), to);
      }
    }
  }

  /** On a consistent map, the direction towards a linked neighbour is the slot that links it. */
  lemma NeighborDirection(cells: seq<Cell>, a: nat, b: nat)
    requires Consistent(cells) && a < |cells| && b in Neighbors(cells[a])
    ensures b < |cells| && cells[a].pos.Some? && cells[b].pos.Some?
    ensures Slot(cells[a], DirectionTowards(cells[a].pos.value, cells[b].pos.value)) == Some(b)
  {
    var e: Dir :| Slot(cells[a], e) == Some(b);
    assert cells[b].pos == Some(Step(cells[a].pos.value, e));
  }

  /**
   * Replaying the plan of a walk from its first cell, with any facing,
   * follows linked slots to its last cell.
   */
  lemma {:induction false} FollowPlan(cells: seq<Cell>, path: seq<nat>, facing: Dir)
    requires Positioned(cells) && Consistent(cells) && IsPath(cells, path)
    ensures Follow(cells, path[0], facing, Plan(PathPositions(cells, path), facing)).Some?
    ensures Follow(cells, path[0], facing, Plan(PathPositions(cells, path), facing)).value.0 == path[|path| - 1]
    decreases |path|
  {
    var ps := PathPositions(cells, path);
    if |path| >= 2 {
      var towards := DirectionTowards(ps[0], ps[1]);
      var s := Segment(facing, towards);
      assert path[1] in Neighbors(cells[path[0]]);
      NeighborDirection(cells, path[0], path[1]);
      var tail := path[1..];
      assert IsPath(cells, tail);
      assert PathPositions(cells, tail) == ps[1..];
      FollowPlan(cells, tail, towards);
      FollowSegment(cells, path[0], facing, towards);
      FollowAppend(cells, path[0], facing, s, [GoForward]);
      FollowAppend(cells, path[0], facing, s + [GoForward], Plan(ps[1..], towards));
    }
  }
}
