# masa20 exploration controller, modelled in Dafny

The `masa20` package steers a vacuum agent through a grid world that starts out unknown. Each tick has two steps:

- **Learn.** The agent folds its percept into a map. The percept is whether there is an obstacle ahead and whether the current cell is dirty.
- **Think.** The agent picks one action: SuckDirt, GoForward, TurnLeft, TurnRight or ShutOff.

The map is a graph of cells. Each cell has an `obstacle` flag, an `explored` flag, an optional position and four neighbour slots `n/s/e/w`. The map also keeps `head`, the agent's cell, and `dir`, its facing.

The planner works in three steps:

1. It scans the map breadth-first and picks the unexplored non-obstacle cell with the lowest estimated cost.
2. It runs a greedy best-first search with parent pointers to find a path to that cell.
3. It turns the path into actions. Before each forward step it adds right or left turns, tracking a hypothetical facing as it goes.

`think` re-checks each GoForward against the obstacle flag of the cell ahead, and replans when that cell is blocked.

## How the model is built

- **Arena.** The graph is a sequence of `Cell` records, `Map.cells`.
  - A cell's identity is its index.
  - A neighbour slot holds `Some(index)`, or `None` where Java has `null`.
  - A placeholder cell has no position.
  - Java compares cells by reference, because `Cell` does not override `equals`. `HashSet<Cell>` and `HashMap<Cell, Cell>` therefore become `set<nat>` and `map<nat, nat>` over arena indices.
- **Directions.** They are fixed as NORTH=0, EAST=1, SOUTH=2, WEST=3; the vacworld `Direction` class is not part of this model.
  - The rotation arithmetic of the source depends on this numbering: `+1` turns right, `+3` turns left, and relative SOUTH means behind.
  - Java's `%` truncates toward zero. It is modelled by `Positions.JavaRem4` wherever an operand may be negative.
- **Classes.**
  - `Map` and `MapIter` are classes whose methods update their fields.
  - `MapIter` iterates over a snapshot of the arena, because nothing changes the map while it runs.
  - `Brain` keeps `world` (the Java field `map`; `map` is a Dafny keyword), `moves` and `suckNow`.
- **Breadth-first order.** The order of the iterator is defined once, as the ghost function `Traversal.BfsOrder`. The iterator's invariant ties what it has yielded, plus what it still will yield, to that function.
- **The priority queue.** `PriorityQueue.poll` becomes a choice of any queued cell of least key. Every property of the search is proved for every such choice.
- **Replanning.** In `think`, the recursive call happens only after a GoForward into an obstacle, and it clears the plan first. The call then plans anew. A fresh plan never starts with a GoForward into an obstacle (`FreshPlan`, proved by `Planner.FirstForwardSafe`), so the recursive call does not recurse again. Think is therefore at most one call deep, and its `decreases` clause (1 with moves left, 0 without) records that.
- **Percepts.** The percept is two booleans, `seeObstacle` and `seeDirt`. Actions are the datatype `Moves.Action`.
- **The crash in `think`.** There is one case where Java's `moves.remove(0)` would throw:
  1. `getOptimalPath` finds no path, because the chosen cell is only reachable through obstacles.
  2. `getMoves` then returns an empty list.
  3. `moves.remove(0)` is called on that empty list.

  The decision `Planner.NoMove` stands for this outcome.

Two details of `getOptimalPath` are kept exactly as the code has them:

- **Search that never reaches the target.** The path is built only inside the branch where the target is polled (masa20/Brain.java:74-81). When the queue runs out first, line 91 returns the list still empty, so `Planner.Brain.GetOptimalPath` returns `[]`.
- **The parent update at masa20/Brain.java:87.** The line compares `dist < estimateTotalCost(neighbor, target)`, where `dist` is `estimateMoveCost(neighbor, target)` from line 84. The total cost is a turn cost measured from `map.head` plus twice that move cost. The model keeps this comparison literally.

## Model

| member | source | states |
|---|---|---|
| Positions.JavaRem4 | masa20/Pos.java:19 | Java's truncating `% 4`: agrees with the Euclidean remainder modulo 4, equals it for non-negative operands, and is never positive for negative ones |
| Positions.RelativePos | masa20/Pos.java:18-31 | getRelativePos is null exactly when the direction sum is negative and not a multiple of 4; otherwise the result is at Manhattan distance 1 |
| Positions.RelativePosShift | masa20/Pos.java:19-28 | with a facing and a relative direction in 0..3 the result is never null: it is the unit step in absolute direction (c + r) % 4 (north y+1, south y-1, east x+1, west x-1) |
| Positions.RelativePosDependsOnSum | masa20/Pos.java:19-28 | the result depends on the two directions only through their sum modulo 4 |
| Positions.RelativePosThereAndBack | masa20/Pos.java:19-28 | shifting by relative r and then by relative (r + 2) % 4 under the same facing returns to the start |
| Positions.RelativePosCycle | masa20/Pos.java:19-28 | shifting by relative NORTH, EAST, SOUTH, WEST in turn under one facing returns to the start |
| Positions.StepsDiffer | masa20/Pos.java:21-28 | a step changes the position, different directions give different positions, and the opposite step undoes a step |
| Positions.Equals | masa20/Pos.java:33-38 | equals is true exactly when the argument is a position with the same coordinates (false for null) |
| Positions.EqualsReflexiveSymmetric | masa20/Pos.java:33-38 | equals is reflexive and symmetric, and means x and y both match |
| Positions.RotationsUndoEachOther | masa20/Map.java:50-57 | turning left undoes turning right and vice versa |
| Positions.FourRightTurns | masa20/Map.java:55-57 | four right turns restore the facing |
| Positions.RelativeIsAbsolute | masa20/Map.java:23-38 | relative NORTH, SOUTH, WEST, EAST under facing d are ahead, behind, left and right of d |
| Positions.FourDistinct | masa20/Map.java:23-38 | ahead, behind, left and right of a facing are four different directions |
| Positions.OneOfFour | masa20/Map.java:23-38 | every absolute direction is ahead, behind, left or right of a facing |
| Positions.BackwardsIsOpposite | masa20/Map.java:26-38 | the back-link written with relative (r + 2) % 4 lands in the slot opposite to the one observed |
| Cells.Observed | masa20/Cell.java:20-23 | Cell(pos, obstacle) has that position and flag, is unexplored and has no links |
| Cells.Blank | masa20/Cell.java:10-26 | Cell() is no obstacle, unexplored, has no position and all four slots empty |
| Cells.NeighborsOfBlank | masa20/Cell.java:26-36 | a blank cell has no neighbours |
| Cells.Neighbors | masa20/Cell.java:29-36 | getNeighbors holds exactly the linked slots and at most four of them |
| Cells.NeighborsInOrder | masa20/Cell.java:29-36 | getNeighbors lists the linked slots in n, s, e, w order, as collecting the slots along [NORTH, SOUTH, EAST, WEST] does |
| Cells.SetSlot | masa20/Cell.java:76-87 | one slot assignment sets that slot and keeps the other three slots, the flags and the position |
| Cells.WithRelativeCell | masa20/Cell.java:73-89 | setRelativeCell sets the slot for (c + r) % 4 and keeps everything else; a negative remainder changes nothing |
| Traversal.Visit | masa20/Map.java:95-100 | one next step appends to the queue exactly the neighbours not seen yet, each once, and marks them seen |
| Traversal.BfsFrom | masa20/Map.java:88-102 | the remaining traversal is empty exactly when the queue is, starts with the head of the queue, and yields arena cells |
| Traversal.BfsOrderSpec | masa20/Map.java:80-102 | the iterator yields head first, each cell at most once, and exactly the cells reachable through linked slots |
| Traversal.InOrderIsReachable | masa20/Map.java:80-102 | every yielded cell is reachable from head |
| Traversal.ReachableIsInOrder | masa20/Map.java:80-102 | every cell reachable from head is yielded |
| Traversal.ReachableStep | masa20/Map.java:95-99 | a linked neighbour of a reachable cell is reachable |
| Traversal.ClosedSetHoldsPath | masa20/Brain.java:82-89 | a set closed under (passable) links that holds the first cell of a walk holds its last one |
| WorldMap.MapIter.constructor | masa20/Map.java:80-85 | the iterator starts with queue [start] and seen {start}, having yielded nothing |
| WorldMap.MapIter.HasNext | masa20/Map.java:88-90 | hasNext is true exactly while fewer cells were yielded than the traversal holds |
| WorldMap.MapIter.Next | masa20/Map.java:93-102 | next returns the head of the queue, which is the next cell of the traversal, and enqueues its unseen neighbours |
| WorldMap.Map.constructor | masa20/Map.java:14-17 | a new map has one cell, at (0,0), no obstacle, as head, facing NORTH |
| WorldMap.Map.GetCellByPos | masa20/Map.java:60-67 | a result has the position, is reachable and is the first such cell in traversal order; null means no reachable cell has the position |
| WorldMap.FoundFirst | masa20/Map.java:61-64 | the first match of the loop is the first cell with that position in traversal order, and reachable |
| WorldMap.NoneFound | masa20/Map.java:61-66 | a loop that finds nothing means no reachable cell has that position |
| WorldMap.Map.GetRelativeCell | masa20/Cell.java:39-67 | a linked slot is returned with nothing changed; an empty slot is linked to the first cell, in traversal order from head, that lies one step away (what getCellByPos returns), or else to a new blank cell appended to the map; null exactly for a negative direction sum that is not a multiple of 4 |
| WorldMap.Map.PlaceNeighbor | masa20/Map.java:24-26 | a neighbour gets the position one step away, the sensed obstacle flag (ahead only) and the back-link to head |
| WorldMap.Map.ObserveNeighbor | masa20/Map.java:23-26 | one neighbour block of process is an observation of the cell getRelativeCell picks for that slot: the linked cell; for an empty slot the first cell in traversal order from head one step away, and a new cell only when no reachable cell is there; the map invariant is kept |
| WorldMap.ObservationValid | masa20/Map.java:23-26 | an observation keeps links in range, positions and their consistency, and links head and the neighbour both ways |
| WorldMap.ObservationKeeps | masa20/Map.java:23-38 | observing one slot keeps the two-way link of every other slot of head |
| WorldMap.ObservationFlags | masa20/Map.java:23-38 | only the sensed neighbour's obstacle flag changes, no explored flag changes, and existing positions stay |
| WorldMap.ObservationSteps | masa20/Map.java:23-26 | getRelativeCell followed by the position, flag and back-link writes is an observation of the cell getRelativeCell chose |
| WorldMap.ChosenReuses | masa20/Cell.java:41-64 | when an empty slot was observed and a reachable cell already lies one step away there, the observed cell has that position and comes no later in traversal order: no duplicate is appended |
| WorldMap.Map.ObserveSurroundings | masa20/Map.java:23-38 | process observes ahead (sensing), behind, left and right in that order, each time the cell getRelativeCell picks, and the four steps form one run of process |
| WorldMap.RunOfFour | masa20/Map.java:23-38 | four such observations ahead, behind, left and right make a run of process |
| WorldMap.RunStep | masa20/Map.java:23-38 | every observation of a run is an observation of the cell getRelativeCell picks in its direction |
| WorldMap.RunReuses | masa20/Map.java:23-38 | within a run, an empty slot observed while a reachable cell lies one step away there is linked to a cell with that position, never to a new one |
| WorldMap.ObservationSlot | masa20/Map.java:23-26 | one observation changes the slots of a cell other than head only by the back-link of the observed cell; a new cell, which can only be the observed one, has no other link |
| WorldMap.ObservationSlots | masa20/Map.java:23-26 | the same for every cell other than head and every slot |
| WorldMap.SlotAfterFour | masa20/Map.java:23-38 | after the four observations a cell other than head holds, in the slot opposite to d, head if head links it in d, and otherwise what it held before (nothing for a new cell) |
| WorldMap.FourSlotSteps | masa20/Map.java:23-39 | four such steps ahead, behind, left and right change the other cells only by back-links, and every new cell is one head links to |
| WorldMap.NewCellsNeighbors | masa20/Map.java:23-38 | when each of the four steps adds at most its own observed cell, every added cell is a neighbour of head |
| WorldMap.ProcessSlots | masa20/Map.java:21-42 | process changes every cell other than head only by the back-link to head, and every added cell is a neighbour of head |
| WorldMap.ProcessAtHead | masa20/Map.java:21-42 | what process does at head: explored, four slots linked both ways to cells one step away, existing links kept, only the ahead flag set, at most four cells added; the map invariant is kept |
| WorldMap.ProcessSteps | masa20/Map.java:21-42 | the four observations and the explored mark give the processed map, both at head and at the other cells, and it keeps the map invariant |
| WorldMap.AllSlotsLinked | masa20/Map.java:23-39 | after the back-links are written all four slots of head are linked |
| WorldMap.MarkExplored | masa20/Map.java:39 | marking head explored changes no link, position or other flag |
| WorldMap.Map.ExploreHead | masa20/Map.java:39 | after the four observations, marking head explored gives the processed map and keeps the map invariant |
| WorldMap.Map.Process | masa20/Map.java:21-42 | process marks head explored, links all four slots to cells one step away that link back, keeps existing links, sets only the ahead cell's obstacle flag to seeObstacle, adds at most four cells, all of them neighbours of head, changes every other cell only by the back-link to head in the slot opposite to the one head links it from, leaves head and dir, and returns seeDirt; the returned run names the four intermediate maps and the cells getRelativeCell picked, each the linked cell or the first reachable cell one step away, new only when none is there |
| WorldMap.Map.GoForward | masa20/Map.java:45-47 | head becomes the cell linked ahead and dir stays; when that slot was linked nothing else changes |
| WorldMap.Map.TurnLeft | masa20/Map.java:50-52 | dir becomes (dir + 3) % 4 and nothing else changes |
| WorldMap.Map.TurnRight | masa20/Map.java:55-57 | dir becomes (dir + 1) % 4 and nothing else changes |
| Costs.MoveCost | masa20/Brain.java:134-138 | estimateMoveCost is non-negative and zero exactly for equal positions |
| Costs.MoveCostSymmetric | masa20/Brain.java:134-138 | estimateMoveCost is symmetric |
| Costs.MoveCostTriangle | masa20/Brain.java:134-138 | estimateMoveCost obeys the triangle inequality |
| Costs.MoveCostStep | masa20/Brain.java:134-138 | one step changes the move cost to any target by exactly one |
| Costs.DirectionTowards | masa20/Brain.java:123-131 | the direction brings a different target one step closer, is east or west exactly when abs(dx) >= abs(dy), and for a unit neighbour is the direction it lies in |
| Costs.Turns | masa20/Brain.java:118-119 | min(t, 4 - t) is 0, 1 or 2: 0 for the same facing, 1 for a quarter turn, 2 for the opposite |
| Costs.TurnsSymmetric | masa20/Brain.java:118-119 | the turn count is the same in both directions |
| Costs.TurnCost | masa20/Brain.java:116-120 | estimateTurnCost is in {0, 1, 2} and zero exactly when the agent already faces the direction towards the target |
| Costs.TotalCost | masa20/Brain.java:111-113 | estimateTotalCost lies between twice and twice plus two the move cost, and is zero exactly when start equals end and the agent faces the direction from here towards end |
| Costs.TotalCostMonotone | masa20/Brain.java:111-113 | for one agent state and end, total costs order starts as move costs do |
| Moves.Segment | masa20/Brain.java:155-164 | the turns inserted before a step are all turns and as many as the turn count |
| Moves.SegmentTurn | masa20/Brain.java:155-163 | each pass of the turning loop emits the first turn of the segment and leaves a strictly shorter one |
| Moves.TurnTowards | masa20/Brain.java:155-164 | the turning loop appends the segment towards the next cell and leaves the hypothetical facing equal to that direction |
| Moves.PlanUnfold | masa20/Brain.java:150-167 | one pass of the path walk is a segment, a GoForward and the plan of the rest from the new facing |
| Moves.MovesAlong | masa20/Brain.java:148-167 | the walk over the path produces exactly the plan of its positions from map.dir |
| Moves.ForwardsOfTurns | masa20/Brain.java:155-164 | turns contain no GoForward |
| Moves.PlanForwards | masa20/Brain.java:150-167 | a plan has exactly path.size() - 1 GoForwards |
| Moves.PlanShape | masa20/Brain.java:150-167 | a plan has only turns and forwards, at most two turns before each GoForward, and ends with GoForward |
| Moves.FollowSegment | masa20/Brain.java:155-164 | replaying the turns of a segment leaves the cell and brings the facing to the target direction |
| Moves.NeighborDirection | masa20/Brain.java:153 | on a consistent map the direction towards a linked neighbour is the slot that links it |
| Moves.FollowPlan | masa20/Brain.java:143-169 | replaying a path's plan from its first cell follows linked slots to its last cell |
| Search.LeastExists | masa20/Brain.java:66-72 | a non-empty queue has a cell of least estimateTotalCost to poll |
| Search.PollKeepsTree | masa20/Brain.java:72-73 | polling moves a queued cell to seen and keeps the parent tree rooted at from |
| Search.PollShrinks | masa20/Brain.java:71-73 | polling an unseen cell shrinks the unseen cells, so the search ends |
| Search.AdoptKeepsTree | masa20/Brain.java:83-88 | queueing an unseen non-obstacle neighbour and making current its parent keeps the tree |
| Search.Expand | masa20/Brain.java:82-89 | the neighbour loop keeps the tree and leaves every non-obstacle neighbour of a seen cell seen or queued |
| Search.ExpandCloses | masa20/Brain.java:82-89 | after the loop every seen cell has its non-obstacle neighbours seen or queued |
| Search.ChainDone | masa20/Brain.java:76-79 | the rebuilt path has no obstacle after its start and no repeated cell |
| Search.Reconstruct | masa20/Brain.java:76-79 | following parents from target gives a walk from from to target over links, passable and without repetitions |
| Planner.Brain.constructor | masa20/Brain.java:24-26 | a new brain has a new map, no moves and no dirt override |
| Planner.Brain.Learn | masa20/Brain.java:30-32 | learn processes the percept into the map as process does (head and its neighbours linked, other cells changed only by back-links, each neighbour the cell getRelativeCell picks, as the returned run shows) and sets suckNow to the dirt bit |
| Planner.LowestTake | masa20/Brain.java:99-104 | a strictly cheaper candidate becomes the best and its cost the lowest |
| Planner.LowestKeep | masa20/Brain.java:99-105 | any other cell leaves the best as it was |
| Planner.LowestFinal | masa20/Brain.java:95-108 | after the whole traversal the best is null exactly when no reachable candidate exists, and is otherwise a reachable candidate of least cost |
| Planner.Brain.GetLowestCostUnexplored | masa20/Brain.java:95-108 | null exactly when no reachable cell is non-obstacle and unexplored; otherwise such a cell of least cost, the first of least cost in traversal order |
| Planner.SearchExhausted | masa20/Brain.java:71-91 | a search that empties its queue without polling the target proves no passable walk to it exists |
| Planner.Brain.GetOptimalPath | masa20/Brain.java:63-92 | a path starts at from, ends at target, steps over links, avoids obstacles after the start and repeats no cell; the path is empty exactly when no such walk exists |
| Planner.FirstForwardSafe | masa20/Brain.java:150-167 | a plan that starts with GoForward faces the path's second cell, which is no obstacle |
| Planner.PlannedTargetUnique | masa20/Brain.java:95-107 | the planned target is determined by the map, head and facing: when candidates tie on cost, the strict `<` keeps the first in traversal order, so two plans aim at the same cell |
| Planner.RankFirst | masa20/Brain.java:99-104 | the index at which the loop last took a strictly cheaper candidate makes that candidate the first of least cost from every earlier index |
| Planner.FirstOfLeastUnique | masa20/Brain.java:99-104 | two equally cheap candidates that are both first of least cost in one order are the same cell |
| Planner.Brain.GetMoves | masa20/Brain.java:143-169 | null exactly when exploration is done; otherwise the path to the reachable candidate getLowestCostUnexplored picks (of least cost, and the first of that cost in traversal order) as turns and forwards, one GoForward per step, at most two turns each, replaying to the target, with a first GoForward never into an obstacle |
| Planner.Brain.ObstacleAhead | masa20/Brain.java:46 | the re-check is true exactly when the cell linked ahead is an obstacle, and changes nothing once head is processed |
| Planner.Brain.Perform | masa20/Brain.java:44-55 | a GoForward into an obstacle is reported as blocked and changes nothing; otherwise GoForward moves head to the non-obstacle cell ahead and turns rotate dir; the cells never change and the map stays valid |
| Planner.Brain.Advance | masa20/Brain.java:43-55 | an empty plan gives NoMove; otherwise the first action is removed, carried out and returned, unless it is a GoForward into an obstacle, which is reported as blocked with head and dir unchanged |
| Planner.Brain.Refill | masa20/Brain.java:38-40 | empty or null moves are replaced by getMoves's result: null exactly when nothing reachable is left, otherwise the plan along a passable walk to the reachable candidate of least cost that comes first in traversal order, empty only when no such walk exists; other moves are kept |
| Planner.Brain.Step | masa20/Brain.java:37-55 | after the dirt check: blocked exactly for a planned GoForward into an obstacle, changing nothing; otherwise ShutOff exactly when a replan finds nothing left, the replanned first action of the plan for the first least-cost reachable candidate, or the next planned action taken and removed |
| Planner.Brain.Think | masa20/Brain.java:35-57 | SuckDirt exactly when suckNow, changing nothing; when it replans (no moves left, or the next one is a GoForward into an obstacle), ShutOff exactly when nothing reachable is left, and otherwise the first action of getMoves's plan for the first least-cost reachable candidate in traversal order, with the rest of that plan left as the moves; without a replan, the next planned action is taken and removed; GoForward never into an obstacle and moves head ahead; turns rotate dir |

## Left out

- masa20/VacAgent.java and the vacworld and agent libraries are not part of this model. The percept becomes two booleans, the Action classes a datatype and `Direction` fixed constants.
- Java's 32-bit `int`: coordinates and costs are unbounded integers. Overflow would need the agent to wander hundreds of millions of cells from its start, so it is not modelled.
- `Integer.MAX_VALUE` in getLowestCostUnexplored is modelled as "no cost yet" (None). A candidate whose cost is exactly `Integer.MAX_VALUE` would be skipped in Java; with unbounded costs this cannot arise.
- The heap tie-breaking of `PriorityQueue` is left out. Search.Least lets poll return any cell of least key, so the exact path Java picks among equally ranked cells is not determined. Every stated property holds whatever the choice.
- Planner.Brain.Think: requires that learn processed the current cell first, the order VacAgent calls them in every tick. Java's behaviour when think runs on an unprocessed head is not modelled.
- Planner.Brain.Think: NoMove stands for the exception that `moves.remove(0)` throws on an empty plan. The model proves NoMove happens only when a reachable candidate is cut off by obstacles. It does not prove that a sequence of ticks can never reach that state, because that needs the whole history of the walk.
- WorldMap.Map.GoForward: when the slot ahead is empty, Java links it through getRelativeCell. The head may then become a blank cell without a position, and the next process would dereference its null position. The map invariant is only ensured when the slot was already linked, which is always the case after process.
- WorldMap.Map.Process: the global facts that every link in the map is two-way and that no two cells share a position are not proved. They depend on the whole history of the walk. Only the two-way links of head's four neighbours, which process writes, are proved.
- Java null-pointer paths: the model requires every cell to have a position (a valid map) wherever Java would dereference `pos`. Placeholders never get that far in the modelled call sequence.
- Object identity, `HashSet`/`HashMap` hashing and `LinkedList` internals are replaced by arena indices, sets, maps and sequences.
