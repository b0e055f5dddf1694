/**
 * The best-first path search of Brain.getOptimalPath (masa20/Brain.java):
 * its priority, the invariant of its queue, seen set and parent map, the
 * expansion of one polled cell and the rebuilding of the path from the parent
 * links. The priority queue is a set from which a cell of least priority is
 * taken; which one Java's heap returns on a tie is left open.
 */
module Search {
  import opened Wrappers
  import opened Positions
  import opened Cells
  import opened Traversal
  import opened Costs

  /** The priority of a queued cell x: estimateTotalCost(x, target), for an agent at `here` facing `facing`. */
  function Key(cells: seq<Cell>, here: Pos, facing: Dir, x: nat, target: nat): nat
    requires Positioned(cells) && x < |cells| && target < |cells|
  {
    TotalCost(here, facing, cells[x].pos.value, cells[target].pos.value)
  }

  /** c is a queued cell of least priority: what PriorityQueue.poll returns. */
  predicate Least(cells: seq<Cell>, here: Pos, facing: Dir, queue: set<nat>, target: nat, c: nat)
    requires Positioned(cells) && target < |cells|
    requires forall x :: x in queue ==> x < |cells|
  {
    c in queue && forall y :: y in queue ==> Key(cells, here, facing, c, target) <= Key(cells, here, facing, y, target)
  }

  /** A non-empty queue of arena cells has an element of least priority. */
  lemma {:induction false} LeastExists(cells: seq<Cell>, here: Pos, facing: Dir, queue: set<nat>, target: nat)
    requires Positioned(cells) && target < |cells| && queue != {}
    requires forall x :: x in queue ==> x < |cells|
    ensures exists c :: Least(cells, here, facing, queue, target, c)
    decreases |queue|
  {
    var x :| x in queue;
    if queue != {x} {
      var rest := queue - {x};
      LeastExists(cells, here, facing, rest, target);
      var c :| Least(cells, here, facing, rest, target, c);
      assert forall y :: y in queue ==> y == x || y in rest;
      if Key(cells, here, facing, x, target) < Key(cells, here, facing, c, target) {
        assert Least(cells, here, facing, queue, target, x);
      } else {
        assert Least(cells, here, facing, queue, target, c);
      }
    } else {
      assert forall y :: y in queue ==> y == x;
      assert Least(cells, here, facing, queue, target, x);
    }
  }

  /** Queued cells are arena cells not seen yet. */
  ghost predicate Queued(cells: seq<Cell>, queue: set<nat>, seen: set<nat>)
  {
    forall x :: x in queue ==> x < |cells| && x !in seen
  }

  /** Seen cells are arena cells stamped with the step, before `clock`, at which they were polled. */
  ghost predicate Stamped(cells: seq<Cell>, seen: set<nat>, when: map<nat, nat>, clock: nat)
  {
    forall x :: x in seen ==> x < |cells| && x in when && when[x] < clock
  }

  /** `from` is queued or seen and has no parent; every other queued or seen cell has one. */
  ghost predicate Rooted(cells: seq<Cell>, from: nat, queue: set<nat>, seen: set<nat>, parent: map<nat, nat>)
  {
    && from < |cells|
    && (from in queue || from in seen)
    && from !in parent
    && (forall x :: (x in queue || x in seen) && x != from ==> x in parent)
  }

  /** A cell with a parent is no obstacle and is linked from its parent, a seen cell. */
  ghost predicate ParentLinks(cells: seq<Cell>, seen: set<nat>, parent: map<nat, nat>)
  {
    forall x :: x in parent ==>
      && x < |cells| && !cells[x].obstacle
      && parent[x] in seen && parent[x] < |cells| && x in Neighbors(cells[parent[x]])
  }

  /** A parent was polled before its child (or before now, for a child not yet polled). */
  ghost predicate ParentsEarlier(seen: set<nat>, parent: map<nat, nat>, when: map<nat, nat>, clock: nat)
  {
    forall x :: x in parent ==>
      && parent[x] in when
      && if x in seen then x in when && when[parent[x]] < when[x] else when[parent[x]] < clock
  }

  /**
   * The search state of Brain.getOptimalPath. `when` records the step at
   * which each seen cell was polled and `clock` the next step; they exist
   * only to show that following parents ends.
   */
  ghost predicate Tree(cells: seq<Cell>, from: nat, queue: set<nat>, seen: set<nat>,
                       parent: map<nat, nat>, when: map<nat, nat>, clock: nat)
  {
    && Queued(cells, queue, seen)
    && Stamped(cells, seen, when, clock)
    && Rooted(cells, from, queue, seen, parent)
    && ParentLinks(cells, seen, parent)
    && ParentsEarlier(seen, parent, when, clock)
  }

  /** Every seen cell outside `open` has its non-obstacle neighbours seen or queued. */
  ghost predicate Closed(cells: seq<Cell>, queue: set<nat>, seen: set<nat>, open: set<nat>)
  {
    forall y, x :: y in seen && y !in open && y < |cells| && x in Neighbors(cells[y]) && x < |cells| && !cells[x].obstacle ==>
      x in seen || x in queue
  }

  /** Polling `current`: it leaves the queue, is seen and gets the next step. */
  lemma PollKeepsTree(cells: seq<Cell>, from: nat, queue: set<nat>, seen: set<nat>,
                      parent: map<nat, nat>, when: map<nat, nat>, clock: nat, current: nat)
    requires Tree(cells, from, queue, seen, parent, when, clock) && current in queue
    ensures Tree(cells, from, queue - {current}, seen + {current}, parent, when[current := clock], clock + 1)
    ensures Closed(cells, queue, seen, {}) ==> Closed(cells, queue - {current}, seen + {current}, {current})
  {
    var queue', seen', when' := queue - {current}, seen + {current}, when[current := clock];
    assert Queued(cells, queue', seen');
    assert Stamped(cells, seen', when', clock + 1);
    assert Rooted(cells, from, queue', seen', parent);
    assert ParentLinks(cells, seen', parent);
    forall x | x in parent
      ensures parent[x] in when'
      ensures if x in seen' then x in when' && when'[parent[x]] < when'[x] else when'[parent[x]] < clock + 1
    {
      assert parent[x] in seen && parent[x] != current;
    }
  }

  /** Polling a queued arena cell shrinks the set of cells not yet seen: the search terminates. */
  lemma PollShrinks(cells: seq<Cell>, seen: set<nat>, current: nat)
    requires current < |cells| && current !in seen
    ensures Unseen(cells, seen + {current}) < Unseen(cells, seen)
  {
    assert current in Unseen(cells, seen);
  }

  /**
   * One neighbour in the loop of Expand: queueing a non-obstacle unseen
   * neighbour of the polled cell and, when `adopt` (or when it has no parent
   * yet), making the polled cell its parent keeps the search state.
   */
  lemma AdoptKeepsTree(cells: seq<Cell>, from: nat, queue: set<nat>, seen: set<nat>,
                       parent: map<nat, nat>, when: map<nat, nat>, clock: nat,
                       current: nat, neighbor: nat, adopt: bool)
    requires Tree(cells, from, queue, seen, parent, when, clock) && current in seen && from in seen
    requires neighbor < |cells| && !cells[neighbor].obstacle && neighbor !in seen
    requires neighbor in Neighbors(cells[current])
    requires adopt || neighbor in parent
    ensures Tree(cells, from, queue + {neighbor}, seen, if adopt then parent[neighbor := current] else parent, when, clock)
  {
    var parent' := if adopt then parent[neighbor := current] else parent;
    AdoptRooted(cells, from, queue, seen, parent, parent', current, neighbor);
    if adopt {
      AdoptLinks(cells, seen, parent, current, neighbor);
      AdoptEarlier(seen, parent, when, clock, current, neighbor);
    }
  }

  lemma AdoptRooted(cells: seq<Cell>, from: nat, queue: set<nat>, seen: set<nat>,
                    parent: map<nat, nat>, parent': map<nat, nat>, current: nat, neighbor: nat)
    requires Rooted(cells, from, queue, seen, parent) && from in seen && neighbor !in seen
    requires parent' == parent[neighbor := current] || (neighbor in parent && parent' == parent)
    ensures Rooted(cells, from, queue + {neighbor}, seen, parent')
  {
  }

  lemma AdoptLinks(cells: seq<Cell>, seen: set<nat>, parent: map<nat, nat>, current: nat, neighbor: nat)
    requires ParentLinks(cells, seen, parent) && current in seen && current < |cells|
    requires neighbor < |cells| && !cells[neighbor].obstacle && neighbor in Neighbors(cells[current])
    ensures ParentLinks(cells, seen, parent[neighbor := current])
  {
  }

  lemma AdoptEarlier(seen: set<nat>, parent: map<nat, nat>, when: map<nat, nat>, clock: nat, current: nat, neighbor: nat)
    requires ParentsEarlier(seen, parent, when, clock) && current in when && when[current] < clock && neighbor !in seen
    ensures ParentsEarlier(seen, parent[neighbor := current], when, clock)
  {
  }

  /**
   * The loop of Brain.getOptimalPath over the neighbours of the polled cell
   * `current`: skip obstacles and seen cells, queue the others if not queued
   * yet, and make `current` their parent when they have none or when
   * dist < estimateTotalCost(neighbour, target), dist being the neighbour's
   * move cost to the target.
   */
  method Expand(cells: seq<Cell>, here: Pos, facing: Dir, target: nat, current: nat,
                queue: set<nat>, seen: set<nat>, parent: map<nat, nat>,
                ghost from: nat, ghost when: map<nat, nat>, ghost clock: nat)
    returns (queue': set<nat>, parent': map<nat, nat>)
    requires SlotsInRange(cells) && Positioned(cells) && target < |cells|
    requires Tree(cells, from, queue, seen, parent, when, clock) && current in seen && from in seen
    requires Closed(cells, queue, seen, {current})
    ensures Tree(cells, from, queue', seen, parent', when, clock)
    ensures Closed(cells, queue', seen, {})
  {
    var ns := Neighbors(cells[current]);
    NeighborsInRange(cells, current);
    queue', parent' := queue, parent;
    var i := 0;
    while i < |ns|
      invariant 0 <= i <= |ns|
      invariant Tree(cells, from, queue', seen, parent', when, clock)
      invariant queue <= queue'
      invariant Covered(cells, ns, i, seen, queue')
    {
      ghost var before := queue';
      var neighbor := ns[i];
      if !(cells[neighbor].obstacle || neighbor in seen) {
        var dist := MoveCost(cells[neighbor].pos.value, cells[target].pos.value);
        ghost var q, p := queue', parent';
        if neighbor !in queue' {
          queue' := queue' + {neighbor};
        }
        var adopt := neighbor !in parent' || dist < Key(cells, here, facing, neighbor, target);
        if adopt {
          parent' := parent'[neighbor := current];
        }
        AdoptKeepsTree(cells, from, q, seen, p, when, clock, current, neighbor, adopt);
        assert queue' == q + {neighbor};
      }
      CoverStep(cells, ns, i, seen, before, queue');
      i := i + 1;
    }
    ExpandCloses(cells, queue, queue', seen, current, ns);
  }

  /** The first i cells of ns are arena cells, and seen or queued unless obstacles. */
  ghost predicate Covered(cells: seq<Cell>, ns: seq<nat>, i: nat, seen: set<nat>, queue: set<nat>)
  {
    i <= |ns| && forall j :: 0 <= j < i ==> ns[j] < |cells| && (!cells[ns[j]].obstacle ==> ns[j] in seen || ns[j] in queue)
  }

  lemma CoverStep(cells: seq<Cell>, ns: seq<nat>, i: nat, seen: set<nat>, queue: set<nat>, queue': set<nat>)
    requires Covered(cells, ns, i, seen, queue) && i < |ns| && ns[i] < |cells| && queue <= queue'
    requires !cells[ns[i]].obstacle ==> ns[i] in seen || ns[i] in queue'
    ensures Covered(cells, ns, i + 1, seen, queue')
  {
  }

  lemma ExpandCloses(cells: seq<Cell>, queue: set<nat>, queue': set<nat>, seen: set<nat>, current: nat, ns: seq<nat>)
    requires current < |cells| && ns == Neighbors(cells[current]) && queue <= queue'
    requires forall x :: x in ns ==> x < |cells|
    requires Closed(cells, queue, seen, {current})
    requires Covered(cells, ns, |ns|, seen, queue')
    ensures Closed(cells, queue', seen, {})
  {
    forall y, x | y in seen && y < |cells| && x in Neighbors(cells[y]) && x < |cells| && !cells[x].obstacle
      ensures x in seen || x in queue'
    {
      if y == current {
        var j :| 0 <= j < |ns| && ns[j] == x;
      }
    }
  }

  lemma IsPathCons(cells: seq<Cell>, c: nat, path: seq<nat>)
    requires IsPath(cells, path) && c < |cells| && path[0] in Neighbors(cells[c])
    ensures IsPath(cells, [c] + path)
  {
    var p := [c] + path;
    assert forall i :: 1 <= i < |p| ==> p[i] == path[i - 1];
    forall i, j | 0 <= i && j == i + 1 && j < |p|
      ensures p[j] in Neighbors(cells[p[i]])
    {
      if i > 0 {
        assert p[i] == path[i - 1] && p[j] == path[j - 1];
      }
    }
  }

  /**
   * A partly rebuilt path: a walk ending at target whose cells were all
   * polled, in the order of the walk, and all have parents after the first.
   */
  ghost predicate Chain(cells: seq<Cell>, target: nat, seen: set<nat>, parent: map<nat, nat>, when: map<nat, nat>, path: seq<nat>)
  {
    && IsPath(cells, path) && path[|path| - 1] == target
    && Ranked(seen, parent, when, path)
  }

  ghost predicate Ranked(seen: set<nat>, parent: map<nat, nat>, when: map<nat, nat>, path: seq<nat>)
  {
    && (forall i :: 0 <= i < |path| ==> path[i] in seen && path[i] in when)
    && (forall i :: 1 <= i < |path| ==> path[i] in parent)
    && (forall i, j :: 0 <= i < j < |path| ==> when[path[i]] < when[path[j]])
  }

  /** Prepending the parent of the first cell extends a chain. */
  lemma ChainCons(cells: seq<Cell>, seen: set<nat>, parent: map<nat, nat>,
                  when: map<nat, nat>, clock: nat, target: nat, c: nat, path: seq<nat>)
    requires Stamped(cells, seen, when, clock) && ParentLinks(cells, seen, parent)
    requires ParentsEarlier(seen, parent, when, clock) && c in seen
    requires path == [] ==> c == target
    requires path != [] ==> Chain(cells, target, seen, parent, when, path) && path[0] in parent && parent[path[0]] == c
    ensures Chain(cells, target, seen, parent, when, [c] + path)
  {
    assert c in when && c < |cells|;
    if path == [] {
      assert IsPath(cells, [c]);
      assert Ranked(seen, parent, when, [c]);
    } else {
      assert path[0] in Neighbors(cells[c]);
      IsPathCons(cells, c, path);
      assert when[c] < when[path[0]];
      RankedCons(seen, parent, when, c, path);
    }
  }

  lemma RankedCons(seen: set<nat>, parent: map<nat, nat>, when: map<nat, nat>, c: nat, path: seq<nat>)
    requires Ranked(seen, parent, when, path) && path != [] && path[0] in parent
    requires c in seen && c in when && when[c] < when[path[0]]
    ensures Ranked(seen, parent, when, [c] + path)
  {
    var p := [c] + path;
    assert forall i :: 1 <= i < |p| ==> p[i] == path[i - 1];
    forall i, j | 0 <= i < j < |p|
      ensures when[p[i]] < when[p[j]]
    {
      if i > 0 {
        assert p[i] == path[i - 1];
      } else if j > 1 {
        assert when[path[0]] < when[path[j - 1]];
      }
    }
  }

  /** A chain that starts at from is a passable walk without repetitions. */
  lemma ChainDone(cells: seq<Cell>, target: nat, seen: set<nat>, parent: map<nat, nat>, when: map<nat, nat>, path: seq<nat>)
    requires Chain(cells, target, seen, parent, when, path) && ParentLinks(cells, seen, parent)
    ensures Passable(cells, path) && Distinct(path)
  {
    forall i | 1 <= i < |path|
      ensures path[i] < |cells| && !cells[path[i]].obstacle
    {
      assert path[i] in parent;
    }
    forall i, j | 0 <= i < j < |path|
      ensures path[i] != path[j]
    {
      assert when[path[i]] < when[path[j]];
    }
  }

  /**
   * The path rebuilding of Brain.getOptimalPath: from target, prepend the
   * current cell and move to its parent until there is none.
   */
  method Reconstruct(cells: seq<Cell>, target: nat, parent: map<nat, nat>,
                     ghost from: nat, ghost queue: set<nat>, ghost seen: set<nat>, ghost when: map<nat, nat>, ghost clock: nat)
    returns (path: seq<nat>)
    requires Tree(cells, from, queue, seen, parent, when, clock) && target in seen
    ensures path != [] && path[0] == from && path[|path| - 1] == target
    ensures IsPath(cells, path) && Passable(cells, path) && Distinct(path)
  {
    path := [];
    var current: Option<nat> := Some(target);
    while current.Some?
      invariant current.Some? ==> current.value in seen && current.value in when
      invariant path == [] ==> current == Some(target)
      invariant path != [] ==> Chain(cells, target, seen, parent, when, path)
      invariant current.Some? && path != [] ==> path[0] in parent && parent[path[0]] == current.value
      invariant current.Some? && path != [] ==> when[current.value] < when[path[0]]
      invariant current.None? ==> path != [] && path[0] == from
      decreases if current.Some? then when[current.value] + 1 else 0
    {
      var c := current.value;
      ChainCons(cells, seen, parent, when, clock, target, c, path);
      path := [c] + path;
      if c in parent {
        current := Some(parent[c]);
      } else {
        current := None;
      }
    }
    ChainDone(cells, target, seen, parent, when, path);
  }
}
