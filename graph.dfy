/**
 * The cell arena as a directed graph: well-formedness, paths, reachability and
 * the breadth-first order in which the map's iterator (masa20/Map.java, MapIter)
 * visits the cells.
 */
module Traversal {
  import opened Wrappers
  import opened Positions
  import opened Cells

  /** Every linked slot names a cell of the arena. */
  ghost predicate SlotsInRange(cells: seq<Cell>)
  {
    forall i, d: Dir :: 0 <= i < |cells| && Slot(cells[i], d).Some? ==> Slot(cells[i], d).value < |cells|
  }

  /** Every cell has been given a position (no placeholder is left). */
  ghost predicate Positioned(cells: seq<Cell>)
  {
    forall i :: 0 <= i < |cells| ==> cells[i].pos.Some?
  }

  /** Geometry agrees with the links: the cell in slot d lies one step in direction d. */
  ghost predicate Consistent(cells: seq<Cell>)
  {
    forall i, d: Dir :: 0 <= i < |cells| && Slot(cells[i], d).Some? ==>
      Slot(cells[i], d).value < |cells| && cells[i].pos.Some? &&
      cells[Slot(cells[i], d).value].pos == Some(Step(cells[i].pos.value, d))
  }

  lemma NeighborsInRange(cells: seq<Cell>, i: nat)
    requires SlotsInRange(cells) && i < |cells|
    ensures forall x :: x in Neighbors(cells[i]) ==> x < |cells|
  {
  }

  ghost predicate Distinct(s: seq<nat>)
  {
    forall i, j :: 0 <= i < j < |s| ==> s[i] != s[j]
  }

  /** A non-empty walk along linked slots. */
  ghost predicate IsPath(cells: seq<Cell>, p: seq<nat>)
  {
    && |p| > 0
    && (forall i :: 0 <= i < |p| ==> p[i] < |cells|)
    && (forall i, j {:trigger p[i], p[j]} :: 0 <= i && j == i + 1 && j < |p| ==> p[j] in Neighbors(cells[p[i]]))
  }

  /** No cell after the first one of the walk is an obstacle. */
  ghost predicate Passable(cells: seq<Cell>, p: seq<nat>)
  {
    forall i :: 1 <= i < |p| ==> p[i] < |cells| && !cells[p[i]].obstacle
  }

  ghost predicate Reachable(cells: seq<Cell>, from: nat, to: nat)
  {
    exists p :: IsPath(cells, p) && p[0] == from && p[|p| - 1] == to
  }

  ghost predicate PassablyReachable(cells: seq<Cell>, from: nat, to: nat)
  {
    exists p :: IsPath(cells, p) && Passable(cells, p) && p[0] == from && p[|p| - 1] == to
  }

  lemma ReachableFromItself(cells: seq<Cell>, x: nat)
    requires x < |cells|
    ensures Reachable(cells, x, x)
  {
    assert IsPath(cells, [x]);
  }

  lemma ReachableStep(cells: seq<Cell>, from: nat, y: nat, x: nat)
    requires Reachable(cells, from, y) && y < |cells| && x < |cells| && x in Neighbors(cells[y])
    ensures Reachable(cells, from, x)
  {
    var p :| IsPath(cells, p) && p[0] == from && p[|p| - 1] == y;
    var q := p + [x];
    assert forall i :: 0 <= i < |p| ==> q[i] == p[i];
    assert q[|p|] == x && q[|p| - 1] == y;
    forall i, j | 0 <= i && j == i + 1 && j < |q|
      ensures q[j] in Neighbors(cells[q[i]])
    {
      if j < |p| {
        assert p[j] in Neighbors(cells[p[i]]);
      }
    }
    assert IsPath(cells, q);
  }

  /**
   * A set that contains the first cell of a walk and is closed under the links
   * the walk may use (all of them, or only those into non-obstacle cells)
   * contains the whole walk.
   */
  lemma {:induction false} ClosedSetHoldsPath(cells: seq<Cell>, s: set<nat>, p: seq<nat>, avoid: bool)
    requires IsPath(cells, p) && p[0] in s
    requires avoid ==> Passable(cells, p)
    requires forall y, x ::
               (y in s && y < |cells| && x in Neighbors(cells[y]) && x < |cells| && (!avoid || !cells[x].obstacle))
               ==> x in s
    ensures p[|p| - 1] in s
    decreases |p|
  {
    if |p| > 1 {
      var q := p[..|p| - 1];
      assert IsPath(cells, q);
      ClosedSetHoldsPath(cells, s, q, avoid);
      assert p[|p| - 2] == q[|q| - 1];
    }
  }

  /**
   * One step of MapIter.next: the neighbours ns of the polled cell are appended,
   * in order, to the queue and added to `seen` unless already seen.
   */
  function Visit(ns: seq<nat>, queue: seq<nat>, seen: set<nat>): (r: (seq<nat>, set<nat>))
    ensures |queue| <= |r.0| && r.0[..|queue|] == queue
    ensures forall x :: x in r.1 <==> x in seen || x in ns
    ensures forall x :: x in r.0[|queue|..] <==> x in ns && x !in seen
    ensures Distinct(r.0[|queue|..])
    ensures r.1 == seen ==> r.0 == queue
    decreases |ns|
  {
    if ns == [] then (queue, seen)
    else if ns[0] in seen then Visit(ns[1..], queue, seen)
    else
      var r := Visit(ns[1..], queue + [ns[0]], seen + {ns[0]});
      assert r.0[|queue|..] == [ns[0]] + r.0[|queue| + 1..];
      assert r.0[..|queue|] == (queue + [ns[0]])[..|queue|];
      r
  }

  /** Visit processes the neighbours one at a time, front to back. */
  lemma VisitFrom(ns: seq<nat>, i: nat, queue: seq<nat>, seen: set<nat>)
    requires i < |ns|
    ensures Visit(ns[i..], queue, seen) ==
            if ns[i] in seen then Visit(ns[i + 1..], queue, seen)
            else Visit(ns[i + 1..], queue + [ns[i]], seen + {ns[i]})
  {
    assert ns[i..][1..] == ns[i + 1..];
  }

  /** The queue and the set of seen cells of a traversal. */
  ghost predicate Frontier(cells: seq<Cell>, queue: seq<nat>, seen: set<nat>)
  {
    && SlotsInRange(cells)
    && (forall i :: 0 <= i < |queue| ==> queue[i] in seen)
    && (forall x :: x in seen ==> x < |cells|)
  }

  ghost function Unseen(cells: seq<Cell>, seen: set<nat>): set<nat>
  {
    set i | 0 <= i < |cells| && i !in seen
  }

  /** Visiting the polled cell keeps the frontier well-formed and makes progress. */
  lemma VisitProgress(cells: seq<Cell>, queue: seq<nat>, seen: set<nat>)
    requires Frontier(cells, queue, seen) && queue != []
    ensures var next := Visit(Neighbors(cells[queue[0]]), queue[1..], seen);
            && Frontier(cells, next.0, next.1)
            && Unseen(cells, next.1) <= Unseen(cells, seen)
            && (Unseen(cells, next.1) == Unseen(cells, seen) ==> next.0 == queue[1..])
  {
    var ns := Neighbors(cells[queue[0]]);
    NeighborsInRange(cells, queue[0]);
    var next := Visit(ns, queue[1..], seen);
    var k := |queue| - 1;
    assert next.0 == queue[1..] + next.0[k..] by {
      assert next.0 == next.0[..k] + next.0[k..];
    }
    forall i | 0 <= i < |next.0|
      ensures next.0[i] in next.1
    {
      if i < k {
        assert next.0[i] == queue[i + 1];
      } else {
        assert next.0[i] == next.0[k..][i - k];
        assert next.0[i] in next.0[k..];
      }
    }
    forall x | x in next.1
      ensures x < |cells|
    {
      if x !in seen {
        assert x in ns;
      }
    }
    if Unseen(cells, next.1) == Unseen(cells, seen) {
      forall x | x in next.1
        ensures x in seen
      {
        assert x < |cells|;
        assert x !in Unseen(cells, next.1);
      }
      assert next.1 == seen;
    }
  }

  /** The breadth-first sequence a traversal in state (queue, seen) yields from now on. */
  ghost function BfsFrom(cells: seq<Cell>, queue: seq<nat>, seen: set<nat>): (r: seq<nat>)
    requires Frontier(cells, queue, seen)
    ensures forall x :: x in r ==> x < |cells|
    ensures r == [] <==> queue == []
    ensures queue != [] ==> r[0] == queue[0]
    decreases Unseen(cells, seen), |queue|
  {
    if queue == [] then []
    else
      var next := Visit(Neighbors(cells[queue[0]]), queue[1..], seen);
      VisitProgress(cells, queue, seen);
      [queue[0]] + BfsFrom(cells, next.0, next.1)
  }

  /** The order in which a fresh MapIter started at `start` yields the cells. */
  ghost function BfsOrder(cells: seq<Cell>, start: nat): seq<nat>
    requires SlotsInRange(cells) && start < |cells|
  {
    BfsFrom(cells, [start], {start})
  }

  /** One poll of a non-empty traversal yields the head of the queue first. */
  lemma BfsFromUnfold(cells: seq<Cell>, queue: seq<nat>, seen: set<nat>)
    requires Frontier(cells, queue, seen) && queue != []
    ensures var next := Polled(cells, queue, seen);
            && Frontier(cells, next.0, next.1)
            && BfsFrom(cells, queue, seen) == [queue[0]] + BfsFrom(cells, next.0, next.1)
  {
    VisitProgress(cells, queue, seen);
  }

  /** One call of MapIter.next preserves the iterator's tie to the breadth-first order. */
  lemma BfsOrderStep(cells: seq<Cell>, start: nat, done: seq<nat>, queue: seq<nat>, seen: set<nat>)
    requires SlotsInRange(cells) && start < |cells|
    requires Frontier(cells, queue, seen) && queue != []
    requires done + BfsFrom(cells, queue, seen) == BfsOrder(cells, start)
    ensures var next := Polled(cells, queue, seen);
            && Frontier(cells, next.0, next.1)
            && (done + [queue[0]]) + BfsFrom(cells, next.0, next.1) == BfsOrder(cells, start)
            && |done| < |BfsOrder(cells, start)| && BfsOrder(cells, start)[|done|] == queue[0]
  {
    BfsFromUnfold(cells, queue, seen);
    var next := Polled(cells, queue, seen);
    assert done + BfsFrom(cells, queue, seen) == (done + [queue[0]]) + BfsFrom(cells, next.0, next.1);
  }

  /** What holds of a traversal that has yielded `done` and is in state (queue, seen). */
  ghost predicate BfsState(cells: seq<Cell>, start: nat, done: seq<nat>, queue: seq<nat>, seen: set<nat>)
  {
    && Frontier(cells, queue, seen)
    && Distinct(done + queue)
    && (forall x :: x in seen <==> x in done || x in queue)
    && (forall y, x :: y in done && y < |cells| && x in Neighbors(cells[y]) ==> x in seen)
    && (forall x :: x in seen ==> Reachable(cells, start, x))
  }

  lemma DistinctConcat(a: seq<nat>, b: seq<nat>)
    requires Distinct(a) && Distinct(b)
    requires forall x :: x in b ==> x !in a
    ensures Distinct(a + b)
  {
    forall i, j | 0 <= i < j < |a + b|
      ensures (a + b)[i] != (a + b)[j]
    {
      if i >= |a| {
        assert (a + b)[i] == b[i - |a|] && (a + b)[j] == b[j - |a|];
      } else if j >= |a| {
        assert (a + b)[j] == b[j - |a|] && (a + b)[j] in b;
        assert (a + b)[i] == a[i];
      }
    }
  }

  /** The state after polling the head of the queue and visiting its neighbours. */
  function Polled(cells: seq<Cell>, queue: seq<nat>, seen: set<nat>): (seq<nat>, set<nat>)
    requires queue != [] && queue[0] < |cells|
  {
    Visit(Neighbors(cells[queue[0]]), queue[1..], seen)
  }

  lemma PolledSplit(cells: seq<Cell>, queue: seq<nat>, seen: set<nat>)
    requires queue != [] && queue[0] < |cells|
    ensures var next := Polled(cells, queue, seen);
            next.0 == queue[1..] + next.0[|queue| - 1..]
  {
    var next := Polled(cells, queue, seen);
    var k := |queue| - 1;
    assert next.0 == next.0[..k] + next.0[k..];
  }

  lemma PolledDistinct(cells: seq<Cell>, start: nat, done: seq<nat>, queue: seq<nat>, seen: set<nat>)
    requires BfsState(cells, start, done, queue, seen) && queue != []
    ensures Distinct(done + [queue[0]] + Polled(cells, queue, seen).0)
  {
    var next := Polled(cells, queue, seen);
    var added := next.0[|queue| - 1..];
    PolledSplit(cells, queue, seen);
    assert done + [queue[0]] + next.0 == (done + queue) + added by {
      assert queue == [queue[0]] + queue[1..];
    }
    DistinctConcat(done + queue, added);
  }

  lemma PolledMembers(cells: seq<Cell>, start: nat, done: seq<nat>, queue: seq<nat>, seen: set<nat>)
    requires BfsState(cells, start, done, queue, seen) && queue != []
    ensures var next := Polled(cells, queue, seen);
            forall x :: x in next.1 <==> x in done + [queue[0]] || x in next.0
  {
    var next := Polled(cells, queue, seen);
    var added := next.0[|queue| - 1..];
    PolledSplit(cells, queue, seen);
    forall x
      ensures x in next.1 <==> x in done + [queue[0]] || x in next.0
    {
      assert x in queue <==> x == queue[0] || x in queue[1..] by {
        assert queue == [queue[0]] + queue[1..];
      }
      assert x in next.0 <==> x in queue[1..] || x in added;
    }
  }

  lemma PolledClosed(cells: seq<Cell>, start: nat, done: seq<nat>, queue: seq<nat>, seen: set<nat>)
    requires BfsState(cells, start, done, queue, seen) && queue != []
    ensures var next := Polled(cells, queue, seen);
            forall y, x :: y in done + [queue[0]] && y < |cells| && x in Neighbors(cells[y]) ==> x in next.1
  {
    var next := Polled(cells, queue, seen);
    forall y, x | y in done + [queue[0]] && y < |cells| && x in Neighbors(cells[y])
      ensures x in next.1
    {
      if y != queue[0] {
        assert y in done;
      }
    }
  }

  lemma PolledReachable(cells: seq<Cell>, start: nat, done: seq<nat>, queue: seq<nat>, seen: set<nat>)
    requires BfsState(cells, start, done, queue, seen) && queue != []
    ensures var next := Polled(cells, queue, seen);
            forall x :: x in next.1 ==> Reachable(cells, start, x)
  {
    var next := Polled(cells, queue, seen);
    NeighborsInRange(cells, queue[0]);
    forall x | x in next.1
      ensures Reachable(cells, start, x)
    {
      if x !in seen {
        ReachableStep(cells, start, queue[0], x);
      }
    }
  }

  /** Polling the head of the queue and visiting its neighbours keeps BfsState. */
  lemma BfsStateStep(cells: seq<Cell>, start: nat, done: seq<nat>, queue: seq<nat>, seen: set<nat>)
    requires BfsState(cells, start, done, queue, seen) && queue != []
    ensures var next := Polled(cells, queue, seen);
            BfsState(cells, start, done + [queue[0]], next.0, next.1)
  {
    VisitProgress(cells, queue, seen);
    PolledDistinct(cells, start, done, queue, seen);
    PolledMembers(cells, start, done, queue, seen);
    PolledClosed(cells, start, done, queue, seen);
    PolledReachable(cells, start, done, queue, seen);
  }

  /** What the whole output `out` of a traversal satisfies. */
  ghost predicate BfsOutcome(cells: seq<Cell>, start: nat, seen: set<nat>, out: seq<nat>)
  {
    && Distinct(out)
    && (forall x :: x in seen ==> x in out)
    && (forall x :: x in out ==> Reachable(cells, start, x))
    && (forall y, x :: y in out && y < |cells| && x in Neighbors(cells[y]) ==> x in out)
  }

  lemma BfsStateFinished(cells: seq<Cell>, start: nat, done: seq<nat>, seen: set<nat>)
    requires BfsState(cells, start, done, [], seen)
    ensures BfsOutcome(cells, start, seen, done)
  {
    assert done + [] == done;
  }

  /** The outcome after polling `q` from the queue is the outcome before it. */
  lemma BfsOutcomeGrows(cells: seq<Cell>, start: nat, seen: set<nat>, seen': set<nat>, done: seq<nat>, q: nat, rest: seq<nat>)
    requires BfsOutcome(cells, start, seen', (done + [q]) + rest) && seen <= seen'
    ensures BfsOutcome(cells, start, seen, done + ([q] + rest))
  {
    assert done + ([q] + rest) == (done + [q]) + rest;
  }

  lemma {:induction false} BfsFromInvariant(cells: seq<Cell>, start: nat, done: seq<nat>, queue: seq<nat>, seen: set<nat>)
    requires BfsState(cells, start, done, queue, seen)
    ensures BfsOutcome(cells, start, seen, done + BfsFrom(cells, queue, seen))
    decreases Unseen(cells, seen), |queue|
  {
    if queue == [] {
      BfsStateFinished(cells, start, done, seen);
      assert done + BfsFrom(cells, queue, seen) == done;
    } else {
      var next := Polled(cells, queue, seen);
      VisitProgress(cells, queue, seen);
      BfsStateStep(cells, start, done, queue, seen);
      BfsFromInvariant(cells, start, done + [queue[0]], next.0, next.1);
      BfsFromUnfold(cells, queue, seen);
      BfsOutcomeGrows(cells, start, seen, next.1, done, queue[0], BfsFrom(cells, next.0, next.1));
    }
  }

  /**
   * The traversal starts at `start`, yields no cell twice, and yields exactly the
   * cells reachable from `start` through linked slots.
   */
  lemma BfsOrderSpec(cells: seq<Cell>, start: nat)
    requires SlotsInRange(cells) && start < |cells|
    ensures |BfsOrder(cells, start)| > 0 && BfsOrder(cells, start)[0] == start
    ensures Distinct(BfsOrder(cells, start))
    ensures forall x :: x in BfsOrder(cells, start) <==> Reachable(cells, start, x)
  {
    ReachableFromItself(cells, start);
    assert BfsState(cells, start, [], [start], {start});
    BfsFromInvariant(cells, start, [], [start], {start});
    var out := BfsOrder(cells, start);
    assert [] + out == out;
    var s := set x | x in out;
    forall x | Reachable(cells, start, x)
      ensures x in out
    {
      var p :| IsPath(cells, p) && p[0] == start && p[|p| - 1] == x;
      ClosedSetHoldsPath(cells, s, p, false);
    }
  }

  lemma InOrderIsReachable(cells: seq<Cell>, start: nat, x: nat)
    requires SlotsInRange(cells) && start < |cells| && x in BfsOrder(cells, start)
    ensures Reachable(cells, start, x)
  {
    BfsOrderSpec(cells, start);
  }

  lemma ReachableIsInOrder(cells: seq<Cell>, start: nat, x: nat)
    requires SlotsInRange(cells) && start < |cells| && Reachable(cells, start, x)
    ensures x in BfsOrder(cells, start)
  {
    BfsOrderSpec(cells, start);
  }
}
