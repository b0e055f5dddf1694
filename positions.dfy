/**
 * Integer grid positions (masa20/Pos.java) and the four cardinal directions.
 *
 * The vacworld library that defines Direction is not part of this model; the
 * rotation arithmetic of the controller (+1 turns right, +3 turns left,
 * relative SOUTH is behind) only works with the numbering below, so it is fixed
 * here.
 */
module Positions {
  import opened Wrappers

  const NORTH: int := 0
  const EAST: int := 1
  const SOUTH: int := 2
  const WEST: int := 3

  /** A facing or an absolute direction. */
  type Dir = d: int | 0 <= d < 4

  function Abs(x: int): (r: nat)
    ensures r == x || r == -x
  {
    if x < 0 then -x else x
  }

  /** Java's `a % 4`: the remainder truncated toward zero, whose sign follows `a`. */
  function JavaRem4(a: int): (r: int)
    ensures -4 < r < 4
    ensures r % 4 == a % 4
    ensures a >= 0 ==> r == a % 4
    ensures a < 0 ==> r <= 0
  {
    if a >= 0 then a % 4 else -((-a) % 4)
  }

  function RotateRight(d: Dir): Dir { (d + 1) % 4 }

  function RotateLeft(d: Dir): Dir { (d + 3) % 4 }

  /** The absolute direction opposite to d. */
  function Opposite(d: Dir): Dir { (d + 2) % 4 }

  lemma RotationsUndoEachOther(d: Dir)
    ensures RotateLeft(RotateRight(d)) == d
    ensures RotateRight(RotateLeft(d)) == d
  {
  }

  lemma FourRightTurns(d: Dir)
    ensures RotateRight(RotateRight(RotateRight(RotateRight(d)))) == d
  {
  }

  datatype Pos = Pos(x: int, y: int)

  /** Ahead, behind, left and right of a facing are four different directions. */
  lemma FourDistinct(d: Dir)
    ensures d != Opposite(d) && d != RotateLeft(d) && d != RotateRight(d)
    ensures Opposite(d) != RotateLeft(d) && Opposite(d) != RotateRight(d) && RotateLeft(d) != RotateRight(d)
  {
    if d == 0 {
    } else if d == 1 {
    } else if d == 2 {
    } else {
    }
  }

  /** The relative directions NORTH, SOUTH, WEST, EAST under facing d: ahead, behind, left, right. */
  lemma RelativeIsAbsolute(d: Dir)
    ensures (d + NORTH) % 4 == d && (d + SOUTH) % 4 == Opposite(d)
    ensures (d + WEST) % 4 == RotateLeft(d) && (d + EAST) % 4 == RotateRight(d)
  {
  }

  /** Every direction is ahead, behind, left or right of a facing. */
  lemma OneOfFour(d: Dir, e: Dir)
    ensures e == d || e == Opposite(d) || e == RotateLeft(d) || e == RotateRight(d)
  {
    if d == 0 {
    } else if d == 1 {
    } else if d == 2 {
    } else {
    }
  }

  /** Relative direction (r + 2) % 4, the reverse of r, is the opposite absolute direction. */
  lemma BackwardsIsOpposite(c: Dir, r: Dir)
    ensures (c + (r + 2) % 4) % 4 == Opposite((c + r) % 4)
  {
    if r < 2 {
      assert (r + 2) % 4 == r + 2;
    } else {
      assert (r + 2) % 4 == r - 2;
    }
  }

  /** One unit step from p along absolute direction d. */
  function Step(p: Pos, d: Dir): Pos
  {
    if d == NORTH then Pos(p.x, p.y + 1)
    else if d == SOUTH then Pos(p.x, p.y - 1)
    else if d == EAST then Pos(p.x + 1, p.y)
    else Pos(p.x - 1, p.y)
  }

  /**
   * Pos.getRelativePos: the position one step away in absolute direction
   * (cardinalDir + relativeDir) % 4. Java returns null when that remainder is
   * not a direction, which happens only for a negative sum.
   */
  function RelativePos(p: Pos, cardinalDir: int, relativeDir: int): (r: Option<Pos>)
    ensures r.None? <==> cardinalDir + relativeDir < 0 && (cardinalDir + relativeDir) % 4 != 0
    ensures r.Some? ==> Abs(r.value.x - p.x) + Abs(r.value.y - p.y) == 1
  {
    var cellDir := JavaRem4(cardinalDir + relativeDir);
    if cellDir == NORTH then Some(Pos(p.x, p.y + 1))
    else if cellDir == SOUTH then Some(Pos(p.x, p.y - 1))
    else if cellDir == EAST then Some(Pos(p.x + 1, p.y))
    else if cellDir == WEST then Some(Pos(p.x - 1, p.y))
    else None
  }

  /** With a facing and a relative direction in 0..3 the null return is dead code. */
  lemma RelativePosShift(p: Pos, cardinalDir: Dir, relativeDir: Dir)
    ensures RelativePos(p, cardinalDir, relativeDir) == Some(Step(p, (cardinalDir + relativeDir) % 4))
  {
  }

  /** The result depends on the two directions only through their sum modulo 4. */
  lemma RelativePosDependsOnSum(p: Pos, c1: nat, r1: nat, c2: nat, r2: nat)
    requires (c1 + r1) % 4 == (c2 + r2) % 4
    ensures RelativePos(p, c1, r1) == RelativePos(p, c2, r2)
  {
  }

  /** Stepping in relative direction r and then (r + 2) % 4 under the same facing comes back. */
  lemma RelativePosThereAndBack(p: Pos, c: Dir, r: Dir)
    ensures RelativePos(p, c, r).Some?
    ensures RelativePos(RelativePos(p, c, r).value, c, (r + 2) % 4) == Some(p)
  {
    RelativePosShift(p, c, r);
    RelativePosShift(Step(p, (c + r) % 4), c, (r + 2) % 4);
  }

  /** Ahead, right, behind, left in turn (one facing throughout) is a closed loop. */
  lemma RelativePosCycle(p: Pos, c: Dir)
    ensures RelativePos(p, c, NORTH).Some?
    ensures var p1 := RelativePos(p, c, NORTH).value;
            RelativePos(p1, c, EAST).Some? &&
            var p2 := RelativePos(p1, c, EAST).value;
            RelativePos(p2, c, SOUTH).Some? &&
            var p3 := RelativePos(p2, c, SOUTH).value;
            RelativePos(p3, c, WEST) == Some(p)
  {
    RelativeIsAbsolute(c);
    var p1 := Step(p, c);
    var p2 := Step(p1, RotateRight(c));
    var p3 := Step(p2, Opposite(c));
    RelativePosShift(p, c, NORTH);
    RelativePosShift(p1, c, EAST);
    RelativePosShift(p2, c, SOUTH);
    RelativePosShift(p3, c, WEST);
    assert Step(p3, RotateLeft(c)) == p;
  }

  /** Pos.equals: false for null (and any non-Pos), otherwise a field-by-field comparison. */
  function Equals(a: Pos, b: Option<Pos>): (r: bool)
    ensures r <==> b == Some(a)
  {
    b.Some? && a.x == b.value.x && a.y == b.value.y
  }

  lemma EqualsReflexiveSymmetric(a: Pos, b: Pos)
    ensures Equals(a, Some(a))
    ensures Equals(a, Some(b)) <==> Equals(b, Some(a))
    ensures Equals(a, Some(b)) <==> a.x == b.x && a.y == b.y
  {
  }

  /** A step changes the position, and different directions lead to different positions. */
  lemma StepsDiffer(p: Pos, d1: Dir, d2: Dir)
    ensures Step(p, d1) != p
    ensures d1 != d2 ==> Step(p, d1) != Step(p, d2)
    ensures Step(Step(p, d1), Opposite(d1)) == p
  {
  }
}
