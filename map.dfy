/**
 * The agent's internal map (masa20/Map.java): the cell arena, the current cell
 * `head`, the facing `dir`, the breadth-first iterator over linked cells, the
 * lookup by position, the lazy neighbour linking of Cell.getRelativeCell and
 * the integration of one percept.
 */
module WorldMap {
  import opened Wrappers
  import opened Positions
  import opened Cells
  import opened Traversal

  /**
   * Map.MapIter: a breadth-first traversal with a FIFO queue and a `seen` set.
   * `yielded` (ghost) records what next() has returned so far.
   */
  class MapIter {
    const cells: seq<Cell>
    ghost const start: nat
    var queue: seq<nat>
    var seen: set<nat>
    ghost var yielded: seq<nat>

    ghost predicate Valid()
      reads this
    {
      && SlotsInRange(cells)
      && start < |cells|
      && Frontier(cells, queue, seen)
      && yielded + BfsFrom(cells, queue, seen) == BfsOrder(cells, start)
    }

    constructor (cells: seq<Cell>, start: nat)
      requires SlotsInRange(cells) && start < |cells|
      ensures Valid()
      ensures this.cells == cells && this.start == start && yielded == []
      ensures queue == [start] && seen == {start}
    {
      this.cells := cells;
      this.start := start;
      queue := [start];
      seen := {start};
      yielded := [];
    }

    predicate HasNext()
      reads this
      requires Valid()
      ensures HasNext() <==> |yielded| < |BfsOrder(cells, start)|
    {
      queue != []
    }

    /** Polls the queue and enqueues the not yet seen neighbours of the polled cell. */
    method Next() returns (c: nat)
      requires Valid() && HasNext()
      modifies this
      ensures Valid()
      ensures c == old(queue[0]) && yielded == old(yielded) + [c]
      ensures (queue, seen) == Visit(Neighbors(cells[c]), old(queue[1..]), old(seen))
      ensures BfsOrder(cells, start)[|old(yielded)|] == c
    {
      BfsOrderStep(cells, start, yielded, queue, seen);
      ghost var next := Polled(cells, queue, seen);
      c := queue[0];
      yielded := yielded + [c];
      var ns := Neighbors(cells[c]);
      var rest := queue[1..];
      ghost var s0 := seen;
      queue := rest;
      var i := 0;
      while i < |ns|
        invariant 0 <= i <= |ns|
        invariant Visit(ns[i..], queue, seen) == next
        invariant yielded == old(yielded) + [c]
      {
        VisitFrom(ns, i, queue, seen);
        if ns[i] !in seen {
          queue := queue + [ns[i]];
          seen := seen + {ns[i]};
        }
        i := i + 1;
      }
      assert ns[i..] == [];
    }
  }

  /** An arena cell that is not an obstacle and has not been explored yet. */
  ghost predicate Candidate(cells: seq<Cell>, x: nat)
  {
    x < |cells| && !cells[x].obstacle && !cells[x].explored
  }

  /** The cell at index j of `order` does not lie at p. */
  ghost predicate NotAt(cells: seq<Cell>, order: seq<nat>, j: int, p: Pos)
  {
    0 <= j < |order| && order[j] < |cells| && cells[order[j]].pos != Some(p)
  }

  /** x is the first cell of `order` whose position is p: it lies at p and no cell before it does. */
  ghost predicate FirstInOrder(cells: seq<Cell>, order: seq<nat>, x: nat, p: Pos)
  {
    exists k :: 0 <= k < |order| && order[k] == x && x < |cells| && cells[x].pos == Some(p)
      && forall j :: 0 <= j < k ==> NotAt(cells, order, j, p)
  }

  /**
   * Slot d of h is linked to a cell one step away in direction d whose
   * opposite slot links back to h: what process establishes for each
   * neighbour of head.
   */
  ghost predicate LinkedBack(cells: seq<Cell>, h: nat, d: Dir)
  {
    && h < |cells| && cells[h].pos.Some?
    && Slot(cells[h], d).Some? && Slot(cells[h], d).value < |cells|
    && cells[Slot(cells[h], d).value].pos == Some(Step(cells[h].pos.value, d))
    && Slot(cells[Slot(cells[h], d).value], Opposite(d)) == Some(h)
  }

  /**
   * The arena after one neighbour observation of process: slot d of h names
   * nb, which is an existing cell or, when nb is |cells|, a new placeholder
   * appended at the end; nb gets the position one step from h in direction
   * d, the back-link to h and, when one was sensed, its obstacle flag.
   */
  ghost function ObservedCells(cells: seq<Cell>, h: nat, d: Dir, nb: nat, sensed: Option<bool>): (r: seq<Cell>)
    requires h < |cells| && nb <= |cells| && cells[h].pos.Some?
    ensures |r| == if nb < |cells| then |cells| else |cells| + 1
  {
    var grown := if nb < |cells| then cells else cells + [Blank()];
    var before := grown[nb];
    grown[h := SetSlot(cells[h], d, Some(nb))]
         [nb := SetSlot(before, Opposite(d), Some(h)).(
                  pos := Some(Step(cells[h].pos.value, d)),
                  obstacle := if sensed.Some? then sensed.value else before.obstacle)]
  }

  /**
   * cells' is cells after one neighbour observation of process at h in
   * direction d: nb is the cell already linked there, an existing cell one
   * step away, or a new placeholder; nothing but h and nb changes.
   */
  ghost predicate Observation(cells: seq<Cell>, cells': seq<Cell>, h: nat, d: Dir, nb: nat, sensed: Option<bool>)
  {
    && h < |cells| && cells[h].pos.Some? && nb != h && nb <= |cells|
    && (nb < |cells| ==> cells[nb].pos == Some(Step(cells[h].pos.value, d)))
    && (Slot(cells[h], d).Some? ==> Slot(cells[h], d) == Some(nb))
    && cells' == ObservedCells(cells, h, d, nb, sensed)
  }

  /**
   * The cell getRelativeCell picks for slot d of h when that slot is empty:
   * an existing nb is the first cell, in breadth-first order from h, one step
   * away in direction d; a new placeholder (nb == |cells|) is made only when
   * no cell reachable from h lies there.
   */
  ghost predicate Chosen(cells: seq<Cell>, h: nat, d: Dir, nb: nat)
  {
    && SlotsInRange(cells) && h < |cells| && cells[h].pos.Some?
    && (Slot(cells[h], d).None? && nb < |cells| ==>
          FirstInOrder(cells, BfsOrder(cells, h), nb, Step(cells[h].pos.value, d)))
    && (Slot(cells[h], d).None? && nb >= |cells| ==>
          forall x: nat {:trigger Reachable(cells, h, x)} :: x < |cells| && Reachable(cells, h, x) ==>
            cells[x].pos != Some(Step(cells[h].pos.value, d)))
  }

  /**
   * getRelativeCell never duplicates a reachable cell: when the slot is empty
   * and some cell x reachable from h lies one step away, the chosen cell is an
   * existing cell at that position, coming no later than x in breadth-first
   * order.
   */
  lemma ChosenReuses(cells: seq<Cell>, h: nat, d: Dir, nb: nat, x: nat)
    requires Chosen(cells, h, d, nb) && Slot(cells[h], d).None?
    requires x < |cells| && Reachable(cells, h, x) && cells[x].pos == Some(Step(cells[h].pos.value, d))
    ensures nb < |cells| && cells[nb].pos == cells[x].pos
    ensures forall j :: 0 <= j < |BfsOrder(cells, h)| && BfsOrder(cells, h)[j] == x ==>
              exists k :: 0 <= k <= j && BfsOrder(cells, h)[k] == nb
  {
    var p := Step(cells[h].pos.value, d);
    var order := BfsOrder(cells, h);
    var k :| 0 <= k < |order| && order[k] == nb && nb < |cells| && cells[nb].pos == Some(p)
             && forall j :: 0 <= j < k ==> NotAt(cells, order, j, p);
    forall j | 0 <= j < |order| && order[j] == x
      ensures exists k' :: 0 <= k' <= j && order[k'] == nb
    {
      assert !NotAt(cells, order, j, p);
      assert k <= j && order[k] == nb;
    }
  }

  /** The absolute directions Map.process observes when facing dir, in its order: ahead, behind, left, right. */
  function Around(dir: Dir): seq<Dir>
  {
    [dir, Opposite(dir), RotateLeft(dir), RotateRight(dir)]
  }

  /**
   * Observations i, i + 1, .. of a run of process at h, one per direction of
   * dirs: none is left, or observation i is as ObservedAt says.
   */
  ghost predicate ObservedFrom(arenas: seq<seq<Cell>>, h: nat, dirs: seq<Dir>, observed: seq<nat>, seeObstacle: bool, i: nat)
    decreases |dirs| - i, 1
  {
    i >= |dirs| || ObservedAt(arenas, h, dirs, observed, seeObstacle, i)
  }

  /**
   * Observation i of a run of process at h: arenas[i + 1] is arenas[i] after
   * observing observed[i] in direction dirs[i], the cell getRelativeCell
   * picks there (only the first observation senses), and the rest of the run
   * follows.
   */
  ghost predicate ObservedAt(arenas: seq<seq<Cell>>, h: nat, dirs: seq<Dir>, observed: seq<nat>, seeObstacle: bool, i: nat)
    decreases |dirs| - i, 0
  {
    && i < |dirs| && i + 1 < |arenas| && i < |observed|
    && Observation(arenas[i], arenas[i + 1], h, dirs[i], observed[i], if i == 0 then Some(seeObstacle) else None)
    && Chosen(arenas[i], h, dirs[i], observed[i])
    && ObservedFrom(arenas, h, dirs, observed, seeObstacle, i + 1)
  }

  /** A run from observation j on holds each later observation i as ObservedAt says. */
  lemma {:induction false} RunStep(arenas: seq<seq<Cell>>, h: nat, dirs: seq<Dir>, observed: seq<nat>, seeObstacle: bool, i: nat, j: nat)
    requires ObservedFrom(arenas, h, dirs, observed, seeObstacle, j) && j <= i < |dirs|
    ensures ObservedAt(arenas, h, dirs, observed, seeObstacle, i)
    decreases i - j
  {
    assert ObservedAt(arenas, h, dirs, observed, seeObstacle, j);
    if j < i {
      RunStep(arenas, h, dirs, observed, seeObstacle, i, j + 1);
    }
  }

  /**
   * Map.process never appends a duplicate: when observation i of a run finds
   * slot dirs[i] empty and a cell x reachable from h lies one step that way,
   * the observed cell is an existing cell at x's position.
   */
  lemma RunReuses(arenas: seq<seq<Cell>>, h: nat, dirs: seq<Dir>, observed: seq<nat>, seeObstacle: bool, i: nat, x: nat)
    requires ObservedFrom(arenas, h, dirs, observed, seeObstacle, 0) && i < |dirs| && i < |arenas|
    requires h < |arenas[i]| && arenas[i][h].pos.Some? && Slot(arenas[i][h], dirs[i]).None?
    requires x < |arenas[i]| && Reachable(arenas[i], h, x) && arenas[i][x].pos == Some(Step(arenas[i][h].pos.value, dirs[i]))
    ensures i < |observed| && observed[i] < |arenas[i]| && arenas[i][observed[i]].pos == arenas[i][x].pos
  {
    RunStep(arenas, h, dirs, observed, seeObstacle, i, 0);
    assert Chosen(arenas[i], h, dirs[i], observed[i]);
    ChosenReuses(arenas[i], h, dirs[i], observed[i], x);
  }

  /** The four observations of Map.process, in its order, make up one run from c0 to c4. */
  lemma RunOfFour(c0: seq<Cell>, c1: seq<Cell>, c2: seq<Cell>, c3: seq<Cell>, c4: seq<Cell>,
                  h: nat, dir: Dir, n1: nat, n2: nat, n3: nat, n4: nat, seeObstacle: bool)
    requires Observation(c0, c1, h, dir, n1, Some(seeObstacle)) && Chosen(c0, h, dir, n1)
    requires Observation(c1, c2, h, Opposite(dir), n2, None) && Chosen(c1, h, Opposite(dir), n2)
    requires Observation(c2, c3, h, RotateLeft(dir), n3, None) && Chosen(c2, h, RotateLeft(dir), n3)
    requires Observation(c3, c4, h, RotateRight(dir), n4, None) && Chosen(c3, h, RotateRight(dir), n4)
    ensures ObservedFrom([c0, c1, c2, c3, c4], h, Around(dir), [n1, n2, n3, n4], seeObstacle, 0)
  {
    var arenas, dirs, observed := [c0, c1, c2, c3, c4], Around(dir), [n1, n2, n3, n4];
    assert arenas[0] == c0 && arenas[1] == c1 && arenas[2] == c2 && arenas[3] == c3 && arenas[4] == c4;
    assert dirs[0] == dir && dirs[1] == Opposite(dir) && dirs[2] == RotateLeft(dir) && dirs[3] == RotateRight(dir);
    assert observed[0] == n1 && observed[1] == n2 && observed[2] == n3 && observed[3] == n4;
    assert ObservedFrom(arenas, h, dirs, observed, seeObstacle, 4);
    assert ObservedAt(arenas, h, dirs, observed, seeObstacle, 3);
    assert ObservedAt(arenas, h, dirs, observed, seeObstacle, 2);
    assert ObservedAt(arenas, h, dirs, observed, seeObstacle, 1);
    assert ObservedAt(arenas, h, dirs, observed, seeObstacle, 0);
  }

  /** An observation keeps the map invariant and links h and nb both ways. */
  lemma ObservationValid(cells: seq<Cell>, cells': seq<Cell>, h: nat, d: Dir, nb: nat, sensed: Option<bool>)
    requires SlotsInRange(cells) && Positioned(cells) && Consistent(cells)
    requires Observation(cells, cells', h, d, nb, sensed)
    ensures SlotsInRange(cells') && Positioned(cells') && Consistent(cells')
    ensures LinkedBack(cells', h, d) && Slot(cells'[h], d) == Some(nb)
  {
    var P := cells[h].pos.value;
    StepsDiffer(P, d, d);
    forall i, e: Dir | 0 <= i < |cells'| && Slot(cells'[i], e).Some?
      ensures Slot(cells'[i], e).value < |cells'| && cells'[i].pos.Some?
      ensures cells'[Slot(cells'[i], e).value].pos == Some(Step(cells'[i].pos.value, e))
    {
      var t := Slot(cells'[i], e).value;
      if i == h && e == d {
        assert t == nb;
      } else if i == nb && e == Opposite(d) {
        assert t == h;
      } else if i == nb {
        assert nb < |cells| && Slot(cells[nb], e) == Some(t);
        StepsDiffer(Step(P, d), e, Opposite(d));
      } else {
        assert i < |cells| && Slot(cells[i], e) == Some(t);
        assert cells'[i].pos == cells[i].pos;
        if t == nb {
          assert cells[t].pos == Some(Step(P, d));
        }
      }
    }
    forall i | 0 <= i < |cells'|
      ensures cells'[i].pos.Some?
    {
    }
  }

  /** Observing slot d leaves the link of another slot e of h as it was. */
  lemma ObservationKeeps(cells: seq<Cell>, cells': seq<Cell>, h: nat, d: Dir, nb: nat, sensed: Option<bool>, e: Dir)
    requires Observation(cells, cells', h, d, nb, sensed)
    requires LinkedBack(cells, h, e) && e != d
    ensures LinkedBack(cells', h, e) && Slot(cells'[h], e) == Slot(cells[h], e)
  {
    var P := cells[h].pos.value;
    StepsDiffer(P, d, e);
    var t := Slot(cells[h], e).value;
    assert t != nb;
    assert cells'[t] == cells[t];
  }

  /**
   * Flags and positions under an observation: only nb's obstacle flag may
   * change, no explored flag changes, existing cells keep their position and
   * a new cell is neither an obstacle nor explored.
   */
  lemma ObservationFlags(cells: seq<Cell>, cells': seq<Cell>, h: nat, d: Dir, nb: nat, sensed: Option<bool>)
    requires Observation(cells, cells', h, d, nb, sensed)
    ensures forall x :: 0 <= x < |cells'| ==> cells'[x].explored == (x < |cells| && cells[x].explored)
    ensures forall x :: 0 <= x < |cells'| && (x != nb || sensed.None?) ==>
              cells'[x].obstacle == (x < |cells| && cells[x].obstacle)
    ensures forall x :: 0 <= x < |cells| ==> cells'[x].pos == cells[x].pos
    ensures nb < |cells'| && (sensed.Some? ==> cells'[nb].obstacle == sensed.value)
  {
  }

  /**
   * What one observation of neighbour nb in direction d does to slot e of a
   * cell x other than h: nb gains the back-link to h, any other slot of an
   * existing cell stays, and a new cell (only ever nb) has no other link.
   */
  ghost predicate SlotStep(cells: seq<Cell>, cells': seq<Cell>, h: nat, d: Dir, nb: nat, x: nat, e: Dir)
  {
    && |cells| <= |cells'| <= |cells| + 1 && nb < |cells'| && (|cells'| > |cells| ==> nb == |cells|)
    && (x < |cells'| ==>
          Slot(cells'[x], e) == if x == nb && e == Opposite(d) then Some(h) else if x < |cells| then Slot(cells[x], e) else None)
  }

  /** An observation changes the slots of the other cells as SlotStep says. */
  lemma ObservationSlot(cells: seq<Cell>, cells': seq<Cell>, h: nat, d: Dir, nb: nat, sensed: Option<bool>, x: nat, e: Dir)
    requires Observation(cells, cells', h, d, nb, sensed) && x != h
    ensures SlotStep(cells, cells', h, d, nb, x, e)
  {
  }

  /** No cell of `order` has position p. */
  ghost predicate NoneWithPos(cells: seq<Cell>, order: seq<nat>, p: Pos)
  {
    forall j :: 0 <= j < |order| ==> order[j] < |cells| && cells[order[j]].pos != Some(p)
  }

  /** A match at index k after none before it is the first one, and it is reachable. */
  lemma FoundFirst(cells: seq<Cell>, start: nat, k: nat, p: Pos)
    requires SlotsInRange(cells) && start < |cells|
    requires k < |BfsOrder(cells, start)| && NoneWithPos(cells, BfsOrder(cells, start)[..k], p)
    requires BfsOrder(cells, start)[k] < |cells| && cells[BfsOrder(cells, start)[k]].pos == Some(p)
    ensures FirstInOrder(cells, BfsOrder(cells, start), BfsOrder(cells, start)[k], p)
    ensures Reachable(cells, start, BfsOrder(cells, start)[k])
  {
    var order := BfsOrder(cells, start);
    forall j | 0 <= j < k
      ensures NotAt(cells, order, j, p)
    {
      assert order[..k][j] == order[j];
    }
    assert order[k] in order;
    InOrderIsReachable(cells, start, order[k]);
  }

  /** When no cell of the traversal has position p, no reachable cell has it. */
  lemma NoneFound(cells: seq<Cell>, start: nat, p: Pos)
    requires SlotsInRange(cells) && start < |cells|
    requires NoneWithPos(cells, BfsOrder(cells, start), p)
    ensures forall x: nat :: x < |cells| && Reachable(cells, start, x) ==> cells[x].pos != Some(p)
  {
    var order := BfsOrder(cells, start);
    forall x: nat | x < |cells| && Reachable(cells, start, x)
      ensures cells[x].pos != Some(p)
    {
      ReachableIsInOrder(cells, start, x);
      var j :| 0 <= j < |order| && order[j] == x;
    }
  }

  /**
   * cells' is cells after getRelativeCell on cell c for absolute direction d
   * returned r, the traversal for the lookup starting at `from`: slot d of c
   * names r; a slot already linked is kept and nothing changes; otherwise r
   * is the first cell, in breadth-first order from `from`, lying one step
   * away (what getCellByPos finds), or, when no reachable cell lies there, a
   * new placeholder appended at the end.
   */
  ghost predicate LinkOutcome(cells: seq<Cell>, cells': seq<Cell>, from: nat, c: nat, d: Dir, r: nat)
  {
    && c < |cells| && c < |cells'| && cells[c].pos.Some?
    && Slot(cells'[c], d) == Some(r)
    && (Slot(cells[c], d).Some? ==> cells' == cells)
    && (Slot(cells[c], d).None? && r < |cells| ==>
          && cells' == cells[c := SetSlot(cells[c], d, Some(r))]
          && cells[r].pos == Some(Step(cells[c].pos.value, d))
          && Reachable(cells, from, r)
          && SlotsInRange(cells) && from < |cells|
          && FirstInOrder(cells, BfsOrder(cells, from), r, Step(cells[c].pos.value, d)))
    && (Slot(cells[c], d).None? && r >= |cells| ==>
          && r == |cells|
          && cells' == cells[c := SetSlot(cells[c], d, Some(r))] + [Blank()]
          && forall x: nat {:trigger Reachable(cells, from, x)} :: x < |cells| && Reachable(cells, from, x) ==>
               cells[x].pos != Some(Step(cells[c].pos.value, d)))
  }

  /**
   * The statements of one neighbour observation, run on the state that
   * getRelativeCell leaves behind (`linked`), make up an Observation.
   */
  lemma ObservationSteps(before: seq<Cell>, linked: seq<Cell>, after: seq<Cell>, h: nat, d: Dir, nb: nat, sensed: Option<bool>)
    requires SlotsInRange(before) && Positioned(before) && Consistent(before) && h < |before|
    requires LinkOutcome(before, linked, h, h, d, nb)
    requires nb < |linked| && h < |linked| && linked[h].pos.Some?
    requires var placed := linked[nb].(pos := Some(Step(linked[h].pos.value, d)));
             var sensedAt := if sensed.Some? then placed.(obstacle := sensed.value) else placed;
             after == linked[nb := SetSlot(sensedAt, Opposite(d), Some(h))]
    ensures Observation(before, after, h, d, nb, sensed) && Chosen(before, h, d, nb)
    ensures h < |after| && SlotsInRange(after) && Positioned(after) && Consistent(after)
  {
    assert linked[h].pos == before[h].pos;
    var P := before[h].pos.value;
    StepsDiffer(P, d, d);
    if Slot(before[h], d).Some? {
      assert before[nb].pos == Some(Step(P, d));
      assert SetSlot(before[h], d, Some(nb)) == before[h];
    }
    assert Observation(before, after, h, d, nb, sensed);
    ObservationValid(before, after, h, d, nb, sensed);
  }

  /**
   * cells' is cells after Map.process at head h facing dir, with the ahead
   * obstacle bit seeObstacle: what happens at h (ProcessedAtHead) and, for
   * the other cells, only the back-links to h (BackLinksOnly).
   */
  ghost predicate Processed(cells: seq<Cell>, cells': seq<Cell>, h: nat, dir: Dir, seeObstacle: bool)
  {
    ProcessedAtHead(cells, cells', h, dir, seeObstacle) && BackLinksOnly(cells, cells', h)
  }

  /**
   * h is explored; its four slots are linked to cells one step away that
   * link back to h, keeping the slots that were already linked; the ahead
   * cell's obstacle flag is the sensed bit; no other flag or existing
   * position changes; new cells are neither obstacles nor explored; at most
   * four cells were added, and cells other than h and its neighbours are
   * untouched.
   */
  ghost predicate ProcessedAtHead(cells: seq<Cell>, cells': seq<Cell>, h: nat, dir: Dir, seeObstacle: bool)
  {
    && h < |cells| <= |cells'| <= |cells| + 4
    && cells'[h].explored
    && (forall d: Dir :: LinkedBack(cells', h, d))
    && LinkedBack(cells', h, dir)
    && (forall d: Dir :: Slot(cells[h], d).Some? ==> Slot(cells'[h], d) == Slot(cells[h], d))
    && cells'[Slot(cells'[h], dir).value].obstacle == seeObstacle
    && (forall x :: 0 <= x < |cells'| && Slot(cells'[h], dir) != Some(x) ==>
          cells'[x].obstacle == (x < |cells| && cells[x].obstacle))
    && (forall x :: 0 <= x < |cells'| && x != h ==> cells'[x].explored == (x < |cells| && cells[x].explored))
    && (forall x :: 0 <= x < |cells| ==> cells'[x].pos == cells[x].pos)
    && (forall x :: 0 <= x < |cells| && x != h && x !in Neighbors(cells'[h]) ==> cells'[x] == cells[x])
  }

  /**
   * A cell other than h changes only by the back-link to h, in the slot
   * opposite to the one h links it from; a new cell has no other link; and
   * every new cell is a neighbour of h.
   */
  ghost predicate BackLinksOnly(cells: seq<Cell>, cells': seq<Cell>, h: nat)
  {
    && h < |cells'| && |cells| <= |cells'|
    && (forall x, d: Dir :: 0 <= x < |cells'| && x != h ==>
          Slot(cells'[x], Opposite(d)) == if Slot(cells'[h], d) == Some(x) then Some(h) else if x < |cells| then Slot(cells[x], Opposite(d)) else None)
    && (forall x :: |cells| <= x < |cells'| ==> x in Neighbors(cells'[h]))
  }

  /**
   * The four observations of Map.process (ahead, behind, left, right, only
   * the first one sensing) followed by marking h explored give a Processed
   * map that keeps the map invariant.
   */
  lemma ProcessSteps(c0: seq<Cell>, c1: seq<Cell>, c2: seq<Cell>, c3: seq<Cell>, c4: seq<Cell>, c5: seq<Cell>,
                     h: nat, dir: Dir, n1: nat, n2: nat, n3: nat, n4: nat, seeObstacle: bool)
    requires SlotsInRange(c0) && Positioned(c0) && Consistent(c0)
    requires Observation(c0, c1, h, dir, n1, Some(seeObstacle))
    requires Observation(c1, c2, h, Opposite(dir), n2, None)
    requires Observation(c2, c3, h, RotateLeft(dir), n3, None)
    requires Observation(c3, c4, h, RotateRight(dir), n4, None)
    requires h < |c4| && c5 == c4[h := c4[h].(explored := true)]
    ensures Processed(c0, c5, h, dir, seeObstacle)
    ensures SlotsInRange(c5) && Positioned(c5) && Consistent(c5)
  {
    ProcessAtHead(c0, c1, c2, c3, c4, c5, h, dir, n1, n2, n3, n4, seeObstacle);
    ProcessSlots(c0, c1, c2, c3, c4, c5, h, dir, n1, n2, n3, n4, seeObstacle);
  }

  /** What the four observations and the explored mark do at h, keeping the map invariant. */
  lemma ProcessAtHead(c0: seq<Cell>, c1: seq<Cell>, c2: seq<Cell>, c3: seq<Cell>, c4: seq<Cell>, c5: seq<Cell>,
                      h: nat, dir: Dir, n1: nat, n2: nat, n3: nat, n4: nat, seeObstacle: bool)
    requires SlotsInRange(c0) && Positioned(c0) && Consistent(c0)
    requires Observation(c0, c1, h, dir, n1, Some(seeObstacle))
    requires Observation(c1, c2, h, Opposite(dir), n2, None)
    requires Observation(c2, c3, h, RotateLeft(dir), n3, None)
    requires Observation(c3, c4, h, RotateRight(dir), n4, None)
    requires h < |c4| && c5 == c4[h := c4[h].(explored := true)]
    ensures ProcessedAtHead(c0, c5, h, dir, seeObstacle)
    ensures SlotsInRange(c5) && Positioned(c5) && Consistent(c5)
  {
    ProcessLinks(c0, c1, c2, c3, c4, h, dir, n1, n2, n3, n4, seeObstacle);
    ProcessFlags(c0, c1, c2, c3, c4, h, dir, n1, n2, n3, n4, seeObstacle);
    ProcessFrame(c0, c1, c2, c3, c4, h, dir, n1, n2, n3, n4, seeObstacle);
  }

  /** Four observations in a row keep the links that the earlier ones made. */
  lemma ChainLinks(c0: seq<Cell>, c1: seq<Cell>, c2: seq<Cell>, c3: seq<Cell>, c4: seq<Cell>, h: nat,
                   d1: Dir, d2: Dir, d3: Dir, d4: Dir, n1: nat, n2: nat, n3: nat, n4: nat, s1: Option<bool>)
    requires SlotsInRange(c0) && Positioned(c0) && Consistent(c0)
    requires Observation(c0, c1, h, d1, n1, s1) && Observation(c1, c2, h, d2, n2, None)
    requires Observation(c2, c3, h, d3, n3, None) && Observation(c3, c4, h, d4, n4, None)
    requires d1 != d2 && d1 != d3 && d1 != d4 && d2 != d3 && d2 != d4 && d3 != d4
    ensures SlotsInRange(c4) && Positioned(c4) && Consistent(c4)
    ensures LinkedBack(c4, h, d1) && LinkedBack(c4, h, d2) && LinkedBack(c4, h, d3) && LinkedBack(c4, h, d4)
    ensures Slot(c4[h], d1) == Some(n1) && Slot(c4[h], d2) == Some(n2)
    ensures Slot(c4[h], d3) == Some(n3) && Slot(c4[h], d4) == Some(n4)
  {
    ObservationValid(c0, c1, h, d1, n1, s1);
    ObservationValid(c1, c2, h, d2, n2, None);
    ObservationKeeps(c1, c2, h, d2, n2, None, d1);
    ObservationValid(c2, c3, h, d3, n3, None);
    ObservationKeeps(c2, c3, h, d3, n3, None, d1);
    ObservationKeeps(c2, c3, h, d3, n3, None, d2);
    ObservationValid(c3, c4, h, d4, n4, None);
    ObservationKeeps(c3, c4, h, d4, n4, None, d1);
    ObservationKeeps(c3, c4, h, d4, n4, None, d2);
    ObservationKeeps(c3, c4, h, d4, n4, None, d3);
  }

  /** Flags and positions across four observations, only the first one sensing. */
  lemma ChainFlags(c0: seq<Cell>, c1: seq<Cell>, c2: seq<Cell>, c3: seq<Cell>, c4: seq<Cell>, h: nat,
                   d1: Dir, d2: Dir, d3: Dir, d4: Dir, n1: nat, n2: nat, n3: nat, n4: nat, s1: Option<bool>)
    requires Observation(c0, c1, h, d1, n1, s1) && Observation(c1, c2, h, d2, n2, None)
    requires Observation(c2, c3, h, d3, n3, None) && Observation(c3, c4, h, d4, n4, None)
    ensures |c0| <= |c4| <= |c0| + 4 && n1 < |c4|
    ensures forall x :: 0 <= x < |c4| ==> c4[x].explored == (x < |c0| && c0[x].explored)
    ensures forall x :: 0 <= x < |c4| && (x != n1 || s1.None?) ==> c4[x].obstacle == (x < |c0| && c0[x].obstacle)
    ensures s1.Some? ==> c4[n1].obstacle == s1.value
    ensures forall x :: 0 <= x < |c0| ==> c4[x].pos == c0[x].pos
  {
    ObservationFlags(c0, c1, h, d1, n1, s1);
    ObservationFlags(c1, c2, h, d2, n2, None);
    ObservationFlags(c2, c3, h, d3, n3, None);
    ObservationFlags(c3, c4, h, d4, n4, None);
  }

  /** Across four observations only h and the four observed cells change, and linked slots of h stay. */
  lemma ChainFrame(c0: seq<Cell>, c1: seq<Cell>, c2: seq<Cell>, c3: seq<Cell>, c4: seq<Cell>, h: nat,
                   d1: Dir, d2: Dir, d3: Dir, d4: Dir, n1: nat, n2: nat, n3: nat, n4: nat, s1: Option<bool>)
    requires Observation(c0, c1, h, d1, n1, s1) && Observation(c1, c2, h, d2, n2, None)
    requires Observation(c2, c3, h, d3, n3, None) && Observation(c3, c4, h, d4, n4, None)
    ensures forall x :: 0 <= x < |c0| && x != h && x != n1 && x != n2 && x != n3 && x != n4 ==> c4[x] == c0[x]
    ensures forall d: Dir :: Slot(c0[h], d).Some? && d != d1 && d != d2 && d != d3 && d != d4 ==>
              Slot(c4[h], d) == Slot(c0[h], d)
    ensures Slot(c0[h], d1).Some? ==> Slot(c0[h], d1) == Some(n1)
    ensures Slot(c1[h], d2).Some? ==> Slot(c1[h], d2) == Some(n2)
    ensures Slot(c2[h], d3).Some? ==> Slot(c2[h], d3) == Some(n3)
    ensures Slot(c3[h], d4).Some? ==> Slot(c3[h], d4) == Some(n4)
    ensures d1 != d2 ==> Slot(c1[h], d2) == Slot(c0[h], d2)
    ensures d1 != d3 && d2 != d3 ==> Slot(c2[h], d3) == Slot(c0[h], d3)
    ensures d1 != d4 && d2 != d4 && d3 != d4 ==> Slot(c3[h], d4) == Slot(c0[h], d4)
  {
  }

  lemma ProcessLinks(c0: seq<Cell>, c1: seq<Cell>, c2: seq<Cell>, c3: seq<Cell>, c4: seq<Cell>, h: nat, dir: Dir,
                     n1: nat, n2: nat, n3: nat, n4: nat, seeObstacle: bool)
    requires SlotsInRange(c0) && Positioned(c0) && Consistent(c0)
    requires Observation(c0, c1, h, dir, n1, Some(seeObstacle))
    requires Observation(c1, c2, h, Opposite(dir), n2, None)
    requires Observation(c2, c3, h, RotateLeft(dir), n3, None)
    requires Observation(c3, c4, h, RotateRight(dir), n4, None)
    ensures var c5 := c4[h := c4[h].(explored := true)];
            && SlotsInRange(c5) && Positioned(c5) && Consistent(c5)
            && (forall d: Dir :: LinkedBack(c5, h, d))
            && LinkedBack(c5, h, dir) && Slot(c5[h], dir) == Some(n1)
            && Neighbors(c5[h]) == Neighbors(c4[h])
            && n1 in Neighbors(c5[h]) && n2 in Neighbors(c5[h]) && n3 in Neighbors(c5[h]) && n4 in Neighbors(c5[h])
            && (forall d: Dir :: Slot(c0[h], d).Some? ==> Slot(c5[h], d) == Slot(c0[h], d))
  {
    var d2, d3, d4 := Opposite(dir), RotateLeft(dir), RotateRight(dir);
    FourDistinct(dir);
    ChainLinks(c0, c1, c2, c3, c4, h, dir, d2, d3, d4, n1, n2, n3, n4, Some(seeObstacle));
    ChainFrame(c0, c1, c2, c3, c4, h, dir, d2, d3, d4, n1, n2, n3, n4, Some(seeObstacle));
    var c5 := c4[h := c4[h].(explored := true)];
    MarkExplored(c4, h);
    forall d: Dir
      ensures LinkedBack(c5, h, d)
    {
      OneOfFour(dir, d);
    }
    forall d: Dir | Slot(c0[h], d).Some?
      ensures Slot(c5[h], d) == Slot(c0[h], d)
    {
      OneOfFour(dir, d);
    }
  }

  lemma ProcessFlags(c0: seq<Cell>, c1: seq<Cell>, c2: seq<Cell>, c3: seq<Cell>, c4: seq<Cell>, h: nat, dir: Dir,
                     n1: nat, n2: nat, n3: nat, n4: nat, seeObstacle: bool)
    requires Observation(c0, c1, h, dir, n1, Some(seeObstacle))
    requires Observation(c1, c2, h, Opposite(dir), n2, None)
    requires Observation(c2, c3, h, RotateLeft(dir), n3, None)
    requires Observation(c3, c4, h, RotateRight(dir), n4, None)
    ensures var c5 := c4[h := c4[h].(explored := true)];
            && h < |c0| <= |c5| <= |c0| + 4 && n1 < |c5|
            && c5[h].explored
            && c5[n1].obstacle == seeObstacle
            && (forall x :: 0 <= x < |c5| && x != n1 ==> c5[x].obstacle == (x < |c0| && c0[x].obstacle))
            && (forall x :: 0 <= x < |c5| && x != h ==> c5[x].explored == (x < |c0| && c0[x].explored))
            && (forall x :: 0 <= x < |c0| ==> c5[x].pos == c0[x].pos)
  {
    ChainFlags(c0, c1, c2, c3, c4, h, dir, Opposite(dir), RotateLeft(dir), RotateRight(dir), n1, n2, n3, n4, Some(seeObstacle));
  }

  lemma ProcessFrame(c0: seq<Cell>, c1: seq<Cell>, c2: seq<Cell>, c3: seq<Cell>, c4: seq<Cell>, h: nat, dir: Dir,
                     n1: nat, n2: nat, n3: nat, n4: nat, seeObstacle: bool)
    requires Observation(c0, c1, h, dir, n1, Some(seeObstacle))
    requires Observation(c1, c2, h, Opposite(dir), n2, None)
    requires Observation(c2, c3, h, RotateLeft(dir), n3, None)
    requires Observation(c3, c4, h, RotateRight(dir), n4, None)
    ensures var c5 := c4[h := c4[h].(explored := true)];
            forall x :: 0 <= x < |c0| && x != h && x != n1 && x != n2 && x != n3 && x != n4 ==> c5[x] == c0[x]
  {
    ChainFrame(c0, c1, c2, c3, c4, h, dir, Opposite(dir), RotateLeft(dir), RotateRight(dir), n1, n2, n3, n4, Some(seeObstacle));
  }

  /**
   * Slot e of a cell x other than h after four observations in distinct
   * directions, one of them opposite to e: the back-link to h when h links
   * x from the opposite slot, otherwise the slot as it was (none for a new
   * cell).
   */
  lemma SlotAfterFour(c0: seq<Cell>, c1: seq<Cell>, c2: seq<Cell>, c3: seq<Cell>, c4: seq<Cell>, h: nat,
                      d1: Dir, d2: Dir, d3: Dir, d4: Dir, n1: nat, n2: nat, n3: nat, n4: nat, x: nat, d: Dir)
    requires SlotStep(c0, c1, h, d1, n1, x, Opposite(d)) && SlotStep(c1, c2, h, d2, n2, x, Opposite(d))
    requires SlotStep(c2, c3, h, d3, n3, x, Opposite(d)) && SlotStep(c3, c4, h, d4, n4, x, Opposite(d))
    requires d1 != d2 && d1 != d3 && d1 != d4 && d2 != d3 && d2 != d4 && d3 != d4
    requires d == d1 || d == d2 || d == d3 || d == d4
    requires h < |c4| && Slot(c4[h], d1) == Some(n1) && Slot(c4[h], d2) == Some(n2)
    requires Slot(c4[h], d3) == Some(n3) && Slot(c4[h], d4) == Some(n4)
    requires x < |c4| && x != h
    ensures Slot(c4[x], Opposite(d)) == if Slot(c4[h], d) == Some(x) then Some(h) else if x < |c0| then Slot(c0[x], Opposite(d)) else None
  {
  }

  /** The four observations and the explored mark of process change the other cells only by back-links. */
  lemma ProcessSlots(c0: seq<Cell>, c1: seq<Cell>, c2: seq<Cell>, c3: seq<Cell>, c4: seq<Cell>, c5: seq<Cell>,
                     h: nat, dir: Dir, n1: nat, n2: nat, n3: nat, n4: nat, seeObstacle: bool)
    requires SlotsInRange(c0) && Positioned(c0) && Consistent(c0)
    requires Observation(c0, c1, h, dir, n1, Some(seeObstacle))
    requires Observation(c1, c2, h, Opposite(dir), n2, None)
    requires Observation(c2, c3, h, RotateLeft(dir), n3, None)
    requires Observation(c3, c4, h, RotateRight(dir), n4, None)
    requires h < |c4| && c5 == c4[h := c4[h].(explored := true)]
    ensures BackLinksOnly(c0, c5, h)
  {
    FourDistinct(dir);
    ChainLinks(c0, c1, c2, c3, c4, h, dir, Opposite(dir), RotateLeft(dir), RotateRight(dir), n1, n2, n3, n4, Some(seeObstacle));
    ObservationSlots(c0, c1, h, dir, n1, Some(seeObstacle));
    ObservationSlots(c1, c2, h, Opposite(dir), n2, None);
    ObservationSlots(c2, c3, h, RotateLeft(dir), n3, None);
    ObservationSlots(c3, c4, h, RotateRight(dir), n4, None);
    FourSlotSteps(c0, c1, c2, c3, c4, c5, h, dir, n1, n2, n3, n4);
  }

  /** ObservationSlot for every cell other than h and every slot. */
  lemma ObservationSlots(cells: seq<Cell>, cells': seq<Cell>, h: nat, d: Dir, nb: nat, sensed: Option<bool>)
    requires Observation(cells, cells', h, d, nb, sensed)
    ensures forall x: nat, e: Dir :: x != h ==> SlotStep(cells, cells', h, d, nb, x, e)
  {
    forall x: nat, e: Dir | x != h
      ensures SlotStep(cells, cells', h, d, nb, x, e)
    {
      ObservationSlot(cells, cells', h, d, nb, sensed, x, e);
    }
  }

  /**
   * Four slot steps ahead, behind, left and right of dir that end with h
   * linked to the four observed cells change the other cells only by
   * back-links.
   */
  lemma FourSlotSteps(c0: seq<Cell>, c1: seq<Cell>, c2: seq<Cell>, c3: seq<Cell>, c4: seq<Cell>, c5: seq<Cell>,
                      h: nat, dir: Dir, n1: nat, n2: nat, n3: nat, n4: nat)
    requires forall x: nat, e: Dir :: x != h ==> SlotStep(c0, c1, h, dir, n1, x, e)
    requires forall x: nat, e: Dir :: x != h ==> SlotStep(c1, c2, h, Opposite(dir), n2, x, e)
    requires forall x: nat, e: Dir :: x != h ==> SlotStep(c2, c3, h, RotateLeft(dir), n3, x, e)
    requires forall x: nat, e: Dir :: x != h ==> SlotStep(c3, c4, h, RotateRight(dir), n4, x, e)
    requires h < |c4| && Slot(c4[h], dir) == Some(n1) && Slot(c4[h], Opposite(dir)) == Some(n2)
    requires Slot(c4[h], RotateLeft(dir)) == Some(n3) && Slot(c4[h], RotateRight(dir)) == Some(n4)
    requires c5 == c4[h := c4[h].(explored := true)]
    ensures BackLinksOnly(c0, c5, h)
  {
    FourDistinct(dir);
    forall x, d: Dir | 0 <= x < |c5| && x != h
      ensures Slot(c5[x], Opposite(d)) == if Slot(c5[h], d) == Some(x) then Some(h) else if x < |c0| then Slot(c0[x], Opposite(d)) else None
    {
      OneOfFour(dir, d);
      assert SlotStep(c0, c1, h, dir, n1, x, Opposite(d));
      assert SlotStep(c1, c2, h, Opposite(dir), n2, x, Opposite(d));
      assert SlotStep(c2, c3, h, RotateLeft(dir), n3, x, Opposite(d));
      assert SlotStep(c3, c4, h, RotateRight(dir), n4, x, Opposite(d));
      SlotAfterFour(c0, c1, c2, c3, c4, h, dir, Opposite(dir), RotateLeft(dir), RotateRight(dir), n1, n2, n3, n4, x, d);
    }
    assert SlotStep(c0, c1, h, dir, n1, h + 1, dir);
    assert SlotStep(c1, c2, h, Opposite(dir), n2, h + 1, dir);
    assert SlotStep(c2, c3, h, RotateLeft(dir), n3, h + 1, dir);
    assert SlotStep(c3, c4, h, RotateRight(dir), n4, h + 1, dir);
    NewCellsNeighbors(|c0|, |c1|, |c2|, |c3|, c5, h, dir, n1, n2, n3, n4);
  }

  /**
   * When four steps that each add at most their own observed cell lead from
   * n0 to |c5| cells, every new cell is one h links to.
   */
  lemma NewCellsNeighbors(n0: nat, m1: nat, m2: nat, m3: nat, c5: seq<Cell>, h: nat, dir: Dir, n1: nat, n2: nat, n3: nat, n4: nat)
    requires n0 <= m1 <= n0 + 1 && (m1 > n0 ==> n1 == n0)
    requires m1 <= m2 <= m1 + 1 && (m2 > m1 ==> n2 == m1)
    requires m2 <= m3 <= m2 + 1 && (m3 > m2 ==> n3 == m2)
    requires m3 <= |c5| <= m3 + 1 && (|c5| > m3 ==> n4 == m3)
    requires h < |c5| && Slot(c5[h], dir) == Some(n1) && Slot(c5[h], Opposite(dir)) == Some(n2)
    requires Slot(c5[h], RotateLeft(dir)) == Some(n3) && Slot(c5[h], RotateRight(dir)) == Some(n4)
    ensures forall x :: n0 <= x < |c5| ==> x in Neighbors(c5[h])
  {
    forall x | n0 <= x < |c5|
      ensures x in Neighbors(c5[h])
    {
      assert x == n1 || x == n2 || x == n3 || x == n4;
    }
  }

  /**
   * Every slot of h that links back is linked. Map.Process uses this to turn
   * the back-links of Processed into HeadProcessed; it stands alone because
   * it needs only the back-links, not the observations.
   */
  lemma AllSlotsLinked(cells: seq<Cell>, h: nat)
    requires forall d: Dir :: LinkedBack(cells, h, d)
    ensures h < |cells| && forall d: Dir :: Slot(cells[h], d).Some?
  {
    assert LinkedBack(cells, h, NORTH);
    forall d: Dir
      ensures Slot(cells[h], d).Some?
    {
      assert LinkedBack(cells, h, d);
    }
  }

  /** Marking h explored changes no link, position or other flag. */
  lemma MarkExplored(cells: seq<Cell>, h: nat)
    requires h < |cells|
    ensures var cells' := cells[h := cells[h].(explored := true)];
            && (SlotsInRange(cells) ==> SlotsInRange(cells'))
            && (Positioned(cells) ==> Positioned(cells'))
            && (Consistent(cells) ==> Consistent(cells'))
            && (forall d: Dir :: LinkedBack(cells, h, d) ==> LinkedBack(cells', h, d))
            && (forall d: Dir :: Slot(cells'[h], d) == Slot(cells[h], d))
            && Neighbors(cells'[h]) == Neighbors(cells[h])
  {
    var cells' := cells[h := cells[h].(explored := true)];
    assert forall i, d: Dir :: 0 <= i < |cells| ==> Slot(cells'[i], d) == Slot(cells[i], d) && cells'[i].pos == cells[i].pos;
  }

  class Map {
    var cells: seq<Cell>
    var head: nat
    var dir: int

    /** Indices and facing are in range. */
    ghost predicate Linked()
      reads this
    {
      head < |cells| && 0 <= dir < 4 && SlotsInRange(cells)
    }

    /** The map invariant: linked, no placeholder left, geometry agrees with links. */
    ghost predicate Valid()
      reads this
    {
      Linked() && Positioned(cells) && Consistent(cells)
    }

    /** Head is explored and all four of its slots are linked, as process leaves them. */
    ghost predicate HeadProcessed()
      reads this
    {
      head < |cells| && cells[head].explored && forall d: Dir :: Slot(cells[head], d).Some?
    }

    /** The cell ahead of head, when that slot is linked. */
    ghost function Ahead(): Option<nat>
      reads this
      requires Linked()
    {
      Slot(cells[head], dir)
    }

    constructor ()
      ensures Valid()
      ensures cells == [Observed(Pos(0, 0), false)] && head == 0 && dir == NORTH
    {
      cells := [Observed(Pos(0, 0), false)];
      head := 0;
      dir := NORTH;
    }

    /**
     * Map.getCellByPos: the first cell, in breadth-first order from head,
     * whose position equals p, or None.
     */
    method GetCellByPos(p: Pos) returns (r: Option<nat>)
      requires Valid()
      ensures r.Some? ==> r.value < |cells| && cells[r.value].pos == Some(p) && Reachable(cells, head, r.value)
      ensures r.Some? ==> FirstInOrder(cells, BfsOrder(cells, head), r.value, p)
      ensures r.None? ==> forall x: nat :: x < |cells| && Reachable(cells, head, x) ==> cells[x].pos != Some(p)
    {
      ghost var order := BfsOrder(cells, head);
      var it := new MapIter(cells, head);
      while it.HasNext()
        invariant it.Valid() && fresh(it) && it.cells == cells && it.start == head
        invariant |it.yielded| <= |order| && it.yielded == order[..|it.yielded|]
        invariant NoneWithPos(cells, it.yielded, p)
        decreases |order| - |it.yielded|
      {
        ghost var k := |it.yielded|;
        var c := it.Next();
        assert order[k] == c && it.yielded == order[..k + 1];
        var here := cells[c].pos.value;
        if Equals(here, Some(p)) {
          FoundFirst(cells, head, k, p);
          assert FirstInOrder(cells, order, c, p);
          return Some(c);
        }
      }
      assert it.yielded == order;
      NoneFound(cells, head, p);
      r := None;
    }

    /**
     * Cell.getRelativeCell on cell c: the neighbour in absolute direction
     * (dir + relativeDir) % 4 (Java's remainder). An empty slot is linked
     * first, to the cell getCellByPos finds one step that way or else to a new
     * placeholder. None is the null of a remainder that names no direction.
     */
    method GetRelativeCell(c: nat, relativeDir: int) returns (r: Option<nat>)
      requires Valid() && c < |cells|
      modifies this`cells
      ensures head == old(head) && dir == old(dir) && Linked() && |cells| >= old(|cells|)
      ensures r.None? <==> dir + relativeDir < 0 && (dir + relativeDir) % 4 != 0
      ensures r.None? ==> cells == old(cells)
      ensures r.Some? ==> LinkOutcome(old(cells), cells, head, c, (dir + relativeDir) % 4, r.value)
    {
      var cellDir := JavaRem4(dir + relativeDir);
      if cellDir < 0 {
        // no case of the switch matches
        return None;
      }
      var slot := Slot(cells[c], cellDir);
      if slot.Some? {
        return slot;
      }
      var found := GetCellByPos(RelativePos(cells[c].pos.value, dir, relativeDir).value);
      if found.Some? {
        r := found;
      } else {
        r := Some(|cells|);
        cells := cells + [Blank()];
      }
      cells := cells[c := SetSlot(cells[c], cellDir, r)];
    }

    /**
     * Map.process: observe and link the cells ahead, behind, to the left and
     * to the right of head, mark head explored and return the dirt bit.
     */
    method Process(seeObstacle: bool, seeDirt: bool) returns (dirt: bool, ghost arenas: seq<seq<Cell>>, ghost observed: seq<nat>)
      requires Valid()
      modifies this`cells
      ensures head == old(head) && dir == old(dir) && Valid() && HeadProcessed()
      ensures Processed(old(cells), cells, head, dir, seeObstacle)
      ensures |arenas| == 5 && arenas[0] == old(cells) && head < |arenas[4]| && cells == arenas[4][head := arenas[4][head].(explored := true)]
      ensures ObservedFrom(arenas, head, Around(dir), observed, seeObstacle, 0)
      ensures dirt == seeDirt
    {
      ghost var c0 := cells;
      ghost var c1, c2, c3, n1, n2, n3, n4 := ObserveSurroundings(seeObstacle);
      arenas, observed := [c0, c1, c2, c3, cells], [n1, n2, n3, n4];
      ExploreHead(c0, c1, c2, c3, n1, n2, n3, n4, seeObstacle);
      dirt := seeDirt;
    }

    /**
     * The last write of Map.process: head is marked explored. Coming after
     * the four observations from c0, it completes the processed map.
     */
    method ExploreHead(ghost c0: seq<Cell>, ghost c1: seq<Cell>, ghost c2: seq<Cell>, ghost c3: seq<Cell>,
                       ghost n1: nat, ghost n2: nat, ghost n3: nat, ghost n4: nat, ghost seeObstacle: bool)
      requires 0 <= dir < 4 && SlotsInRange(c0) && Positioned(c0) && Consistent(c0)
      requires Observation(c0, c1, head, dir, n1, Some(seeObstacle))
      requires Observation(c1, c2, head, Opposite(dir), n2, None)
      requires Observation(c2, c3, head, RotateLeft(dir), n3, None)
      requires Observation(c3, cells, head, RotateRight(dir), n4, None)
      modifies this`cells
      ensures head == old(head) && dir == old(dir) && Valid() && HeadProcessed()
      ensures Processed(c0, cells, head, dir, seeObstacle)
      ensures head < |old(cells)| && cells == old(cells)[head := old(cells)[head].(explored := true)]
    {
      cells := cells[head := cells[head].(explored := true)];
      ProcessSteps(c0, c1, c2, c3, old(cells), cells, head, dir, n1, n2, n3, n4, seeObstacle);
      AllSlotsLinked(cells, head);
    }

    /**
     * The four neighbour observations of Map.process, ahead (sensing the
     * obstacle bit), behind, left and right; c1, c2 and c3 are the arenas
     * between them and n1 .. n4 the observed cells.
     */
    method ObserveSurroundings(seeObstacle: bool)
      returns (ghost c1: seq<Cell>, ghost c2: seq<Cell>, ghost c3: seq<Cell>,
               ghost n1: nat, ghost n2: nat, ghost n3: nat, ghost n4: nat)
      requires Valid()
      modifies this`cells
      ensures head == old(head) && dir == old(dir) && head < |old(cells)| && 0 <= dir < 4
      ensures Observation(old(cells), c1, head, dir, n1, Some(seeObstacle))
      ensures Observation(c1, c2, head, Opposite(dir), n2, None)
      ensures Observation(c2, c3, head, RotateLeft(dir), n3, None)
      ensures Observation(c3, cells, head, RotateRight(dir), n4, None)
      ensures ObservedFrom([old(cells), c1, c2, c3, cells], head, Around(dir), [n1, n2, n3, n4], seeObstacle, 0)
    {
      ghost var c0, h, d := cells, head, dir;
      RelativeIsAbsolute(d);
      var forward := ObserveNeighbor(NORTH, Some(seeObstacle), c0, h, d);
      c1 := cells;
      var backward := ObserveNeighbor(SOUTH, None, c1, h, Opposite(d));
      c2 := cells;
      var left := ObserveNeighbor(WEST, None, c2, h, RotateLeft(d));
      c3 := cells;
      var right := ObserveNeighbor(EAST, None, c3, h, RotateRight(d));
      n1, n2, n3, n4 := forward, backward, left, right;
      RunOfFour(c0, c1, c2, c3, cells, h, d, n1, n2, n3, n4, seeObstacle);
    }

    /**
     * One neighbour of Map.process: link the cell in relative direction rel,
     * then place it (see PlaceNeighbor).
     */
    method ObserveNeighbor(rel: Dir, sensed: Option<bool>, ghost before: seq<Cell>, ghost h: nat, ghost d: Dir)
      returns (nb: nat)
      requires Valid() && before == cells && h == head && d == (dir + rel) % 4
      modifies this`cells
      ensures head == h && dir == old(dir) && Valid()
      ensures Observation(before, cells, h, d, nb, sensed) && Chosen(before, h, d, nb)
    {
      var r := GetRelativeCell(head, rel);
      nb := r.value;
      ghost var linked := cells;
      PlaceNeighbor(nb, rel, sensed);
      ObservationSteps(old(cells), linked, cells, head, (dir + rel) % 4, r.value, sensed);
    }

    /**
     * The field writes of Map.process on the neighbour nb in relative
     * direction rel: its position, its obstacle flag when one was sensed, and
     * the back-link to head through relative direction (rel + 2) % 4.
     */
    method PlaceNeighbor(nb: nat, rel: Dir, sensed: Option<bool>)
      requires head < |cells| && 0 <= dir < 4 && nb < |cells| && cells[head].pos.Some?
      modifies this`cells
      ensures head == old(head) && dir == old(dir)
      ensures var d := (dir + rel) % 4;
              var placed := old(cells[nb]).(pos := Some(Step(old(cells[head]).pos.value, d)));
              var sensedAt := if sensed.Some? then placed.(obstacle := sensed.value) else placed;
              cells == old(cells)[nb := SetSlot(sensedAt, Opposite(d), Some(head))]
    {
      var here := cells[head].pos.value;
      RelativePosShift(here, dir, rel);
      BackwardsIsOpposite(dir, rel);
      var cell := cells[nb].(pos := RelativePos(here, dir, rel));
      if sensed.Some? {
        cell := cell.(obstacle := sensed.value);
      }
      cell := WithRelativeCell(cell, dir, (rel + 2) % 4, Some(head));
      cells := cells[nb := cell];
    }

    /** Map.goForward: head moves to the cell ahead, linked first if need be. */
    method GoForward()
      requires Valid()
      modifies this`cells, this`head
      ensures dir == old(dir) && Linked() && |cells| >= old(|cells|)
      ensures Slot(cells[old(head)], dir) == Some(head)
      ensures old(Slot(cells[head], dir)).Some? ==>
                cells == old(cells) && Some(head) == old(Slot(cells[head], dir)) && Valid()
    {
      var r := GetRelativeCell(head, NORTH);
      head := r.value;
    }

    /** Map.turnLeft: a quarter turn counter-clockwise. */
    method TurnLeft()
      requires Linked()
      modifies this`dir
      ensures dir == RotateLeft(old(dir)) && cells == old(cells) && head == old(head)
    {
      dir := (dir + 3) % 4;
    }

    /** Map.turnRight: a quarter turn clockwise. */
    method TurnRight()
      requires Linked()
      modifies this`dir
      ensures dir == RotateRight(old(dir)) && cells == old(cells) && head == old(head)
    {
      dir := (dir + 1) % 4;
    }
  }
}
