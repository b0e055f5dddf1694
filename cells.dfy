/**
 * Graph nodes of the controller's map (masa20/Cell.java).
 *
 * Cells live in an arena (the map's sequence of cells) and are identified by
 * their index there; a neighbour slot holds the index of the linked cell or
 * None for Java's null. A placeholder cell has no position yet.
 */
module Cells {
  import opened Wrappers
  import opened Positions

  datatype Cell = Cell(
    obstacle: bool,
    explored: bool,
    pos: Option<Pos>,
    n: Option<nat>,
    s: Option<nat>,
    e: Option<nat>,
    w: Option<nat>)

  /** The slot for absolute direction d. */
  function Slot(c: Cell, d: Dir): Option<nat>
  {
    if d == NORTH then c.n
    else if d == SOUTH then c.s
    else if d == EAST then c.e
    else c.w
  }

  /** The cell with the slot for absolute direction d set to x. */
  function SetSlot(c: Cell, d: Dir, x: Option<nat>): (r: Cell)
    ensures Slot(r, d) == x
    ensures forall d': Dir :: d' != d ==> Slot(r, d') == Slot(c, d')
    ensures r.obstacle == c.obstacle && r.explored == c.explored && r.pos == c.pos
  {
    if d == NORTH then c.(n := x)
    else if d == SOUTH then c.(s := x)
    else if d == EAST then c.(e := x)
    else c.(w := x)
  }

  /** Cell(Pos, boolean): an observed cell with nothing linked yet. */
  function Observed(p: Pos, obstacle: bool): (c: Cell)
    ensures c.pos == Some(p) && c.obstacle == obstacle && !c.explored
    ensures forall d: Dir :: Slot(c, d).None?
  {
    Cell(obstacle, false, Some(p), None, None, None, None)
  }

  /** Cell(): a placeholder created when a neighbour is linked before it is observed. */
  function Blank(): (c: Cell)
    ensures !c.obstacle && !c.explored && c.pos.None?
    ensures forall d: Dir :: Slot(c, d).None?
  {
    Cell(false, false, None, None, None, None, None)
  }

  /** The cells linked through the slots ds, in the order of ds. */
  function LinkedAlong(c: Cell, ds: seq<Dir>): seq<nat>
  {
    if ds == [] then []
    else (if Slot(c, ds[0]).Some? then [Slot(c, ds[0]).value] else []) + LinkedAlong(c, ds[1..])
  }

  /** Cell.getNeighbors: the linked slots, in n, s, e, w order. */
  function Neighbors(c: Cell): (r: seq<nat>)
    ensures |r| <= 4
    ensures forall x :: x in r <==> exists d: Dir :: Slot(c, d) == Some(x)
  {
    var ns := if c.n.Some? then [c.n.value] else [];
    var ss := if c.s.Some? then [c.s.value] else [];
    var es := if c.e.Some? then [c.e.value] else [];
    var ws := if c.w.Some? then [c.w.value] else [];
    assert forall x :: x in ns + ss + es + ws <==> x in ns || x in ss || x in es || x in ws;
    assert forall x :: x in ns <==> Slot(c, NORTH) == Some(x);
    assert forall x :: x in ss <==> Slot(c, SOUTH) == Some(x);
    assert forall x :: x in es <==> Slot(c, EAST) == Some(x);
    assert forall x :: x in ws <==> Slot(c, WEST) == Some(x);
    ns + ss + es + ws
  }

  /** getNeighbors lists the linked slots in n, s, e, w order. */
  lemma NeighborsInOrder(c: Cell)
    ensures Neighbors(c) == LinkedAlong(c, [NORTH, SOUTH, EAST, WEST])
  {
    AlongCompass(c);
  }

  /** LinkedAlong over the four compass slots, written out. */
  lemma AlongCompass(c: Cell)
    ensures LinkedAlong(c, [NORTH, SOUTH, EAST, WEST])
      == (if c.n.Some? then [c.n.value] else []) + (if c.s.Some? then [c.s.value] else [])
       + (if c.e.Some? then [c.e.value] else []) + (if c.w.Some? then [c.w.value] else [])
  {
    var ws := if c.w.Some? then [c.w.value] else [];
    var es := if c.e.Some? then [c.e.value] else [];
    var ss := if c.s.Some? then [c.s.value] else [];
    var ns := if c.n.Some? then [c.n.value] else [];
    assert LinkedAlong(c, [WEST]) == ws by { assert [WEST][1..] == []; }
    assert LinkedAlong(c, [EAST, WEST]) == es + ws by { assert [EAST, WEST][1..] == [WEST]; }
    assert LinkedAlong(c, [SOUTH, EAST, WEST]) == ss + (es + ws) by { assert [SOUTH, EAST, WEST][1..] == [EAST, WEST]; }
    assert LinkedAlong(c, [NORTH, SOUTH, EAST, WEST]) == ns + (ss + (es + ws)) by {
      assert [NORTH, SOUTH, EAST, WEST][1..] == [SOUTH, EAST, WEST];
    }
    assert ns + (ss + (es + ws)) == ns + ss + es + ws;
  }


  lemma NeighborsOfBlank()
    ensures Neighbors(Blank()) == []
  {
  }

  /**
   * Cell.setRelativeCell: overwrites the slot for (cardinalDir + relativeDir) % 4
   * with x; when that remainder is not a direction (a negative sum) nothing changes.
   */
  function WithRelativeCell(c: Cell, cardinalDir: int, relativeDir: int, x: Option<nat>): (r: Cell)
    ensures r.obstacle == c.obstacle && r.explored == c.explored && r.pos == c.pos
    ensures cardinalDir + relativeDir >= 0 || (cardinalDir + relativeDir) % 4 == 0 ==>
              var d := (cardinalDir + relativeDir) % 4;
              r == SetSlot(c, d, x) && Slot(r, d) == x && forall d': Dir :: d' != d ==> Slot(r, d') == Slot(c, d')
    ensures cardinalDir + relativeDir < 0 && (cardinalDir + relativeDir) % 4 != 0 ==> r == c
  {
    var cellDir := JavaRem4(cardinalDir + relativeDir);
    if cellDir == NORTH then c.(n := x)
    else if cellDir == SOUTH then c.(s := x)
    else if cellDir == EAST then c.(e := x)
    else if cellDir == WEST then c.(w := x)
    else c
  }
}
