# moma_simulation_engine in Dafny

A model of the simulation engine's core and the examples built on it:

- **Grids and A\*** (`src/grid.rs`, `src/pathfinding.rs`): a row-major grid
  of `Blocked`/`Free`/`Path` cells, its four-way neighbourhood, and A\* with
  the Manhattan heuristic. Both A\* searches of the repository (the grid
  search and the automaton-cost search of the behavioural example) are
  instances of one best-first engine, `Pathfinding.BestFirstSearch`. The
  engine is proved to return a cheapest walk, to return `None` exactly when
  the goal is unreachable, and to return `[start]` when start and goal
  coincide.
- **Maze generation** (`src/maze.rs`): the depth-first backtracker. Its
  random shuffle is an arbitrary sequence of orderings of the four moves.
- **Cellular automata** (`src/automaton.rs`; `src/lib.rs` holds the same
  one-dimensional automaton; the Game-of-Life example holds the same
  two-dimensional one). These are the ring rule with `wrapping_add`, the
  torus rule over the Moore neighbourhood, and `render`.
- **Flow network** (`src/network_graph.rs`): graph building, the Dijkstra
  search on unsaturated edges, `route_cheapest_path` and `edmonds_karp`.
  Flow conservation is stated through per-point net outflow.
- **Flow manager** (`examples/moma_network_flow_manager`): the diamond
  network and the loop that decays costs, routes, penalises and resets. The
  first step and the `edmonds_karp` result on the diamond are worked out.
  `FlowSequences` models `_flow_to_sequence`, the canonical listing of all
  flows.
- **Game of Life drawing**, **Gowers U2 sum**, **state-vector simulator**
  (`src/circuit.rs`) and the **behavioural-analysis** example.

The MOMA ring's `residue(a, b)` belongs to an external crate. It is an
uninterpreted function `Automaton.Rule` everywhere. Randomness, the FFT norm
and `atan2/cos/sin` are function parameters.

Layout: one module per file. The helper modules are `Wrappers` (`Option`),
`Arith`, `Seqs` and `SearchNode`. `Pathfinding` holds the generic search.
`GridSearch` and `Behavioural` instantiate it. `NetworkGraph`, `Dijkstra`,
`FlowSums` and `FlowRouter` model `network_graph.rs`. `FlowManager`,
`DiamondRuns` and `FlowSequences` model the flow-manager example.

## Model

| member | source | states |
|---|---|---|
| Grids.New | src/grid.rs:42-48 | the grid has the requested width and height, `width * height` cells, and every in-bounds point reads the initial cell |
| Grids.Set | src/grid.rs:87-91 | writing a point keeps the shape, reads back the written cell there, and leaves every cell at another flat index unchanged |
| Grids.InBoundsInRange | src/grid.rs:79-84 | indexing a valid grid at an in-bounds point reads inside the cell vector, so `Index` does not panic there |
| Grids.FlatInjective | src/grid.rs:79-84 | `y * width + x` gives distinct in-bounds points distinct cells, so each point reads its own cell |
| Grids.SetOnlyTouches | src/grid.rs:79-91 | for in-bounds points, a read after a write returns the new cell at the written point and the old cell anywhere else |
| Grids.Neighbors | src/grid.rs:60-75 | a point is yielded iff it is in bounds, one unit away and not `Blocked`; at most four, in the order left, right, up, down |
| SearchNode.CmpReversesKey | src/pathfinding.rs:23-27 | the heap order is the reverse of `cost + heuristic`: `Greater` iff the key is smaller, `Less` iff larger, `Equal` iff the same |
| SearchNode.HeapTopHasLeastKey | src/pathfinding.rs:21-27 | a node no other node is `Greater` than has the least key of the frontier, so the max-heap pops a least-key node |
| SearchNode.ManhattanMetric | src/pathfinding.rs:36-38 | the distance is symmetric, zero exactly on equal points, and obeys the triangle inequality |
| SearchNode.ManhattanFits | src/pathfinding.rs:36-38 | for coordinates that fit `i32`, the distance fits the `u32` cost without wrapping |
| SearchNode.ManhattanConsistent | src/pathfinding.rs:36-38 | across one unit move the heuristic changes by at most one, in either direction |
| SearchNode.ManhattanAdmissible | src/pathfinding.rs:36-38 | along any walk of unit moves, the distance between its ends is at most the number of moves |
| Pathfinding.BestFirstSearch | src/pathfinding.rs:50-92 | the result is a walk from start to goal whose cost no other such walk beats; `None` iff no walk exists; `Some([start])` when start is the goal |
| Pathfinding.Reconstruct | src/pathfinding.rs:63-73 | following `came_from` back from the popped goal and reversing gives a cheapest start-to-goal walk |
| Pathfinding.Expand | src/pathfinding.rs:75-88 | relaxing all successors of a popped point re-establishes the search invariant; a stale pop changes nothing |
| Pathfinding.Advance | src/pathfinding.rs:62-88 | one pop-and-expand round keeps the invariant and either settles a new point or shrinks the heap |
| Pathfinding.ArgMinKey | src/pathfinding.rs:62 | `pop` takes an entry whose key is least in the frontier |
| Pathfinding.PopIsLowerBound | src/pathfinding.rs:62-73 | any key no larger than every frontier key is at most the cost of every start-to-goal walk |
| Pathfinding.HeuristicAdmissible | src/pathfinding.rs:36-38 | a consistent heuristic that is zero at the goal never exceeds the cost of a walk to the goal |
| Pathfinding.ExhaustedUnreachable | src/pathfinding.rs:91 | once the frontier is empty, every walk from start stays among settled points and never reaches the goal |
| Pathfinding.WalkCostAtLeastMoves | src/pathfinding.rs:76 | with every step costing at least one, a walk costs at least its number of moves |
| GridSearch.GridProblem | src/pathfinding.rs:75-80 | the successors are exactly the open neighbours, every move costs one, and the heuristic is the Manhattan distance to the goal |
| GridSearch.GridWellPosed | src/pathfinding.rs:23-80 | on a grid with sides up to 2^30 and fewer than 2^31 cells, the search space is closed, finite and consistent, and every cost plus heuristic fits the `u32` sum of `Node::cmp` |
| GridSearch.CellsExact | src/grid.rs:34-38 | the search universe is exactly the in-bounds points |
| GridSearch.UnitWalkCost | src/pathfinding.rs:76 | with unit steps, a walk's cost is its number of moves |
| GridSearch.GridWalks | src/pathfinding.rs:75 | the engine's walks are exactly the grid's paths through open cells |
| GridSearch.AStar | src/pathfinding.rs:50-92 | `a_star` returns a shortest path through open cells, at least as long as the Manhattan distance; `None` iff there is none; `[start]` when start is the goal |
| Maze.Pick | src/maze.rs:34-52 | the first direction in the shuffled order whose target is interior and blocked; `None` iff there is no such direction |
| Maze.CarveInBounds | src/maze.rs:35-45 | a carvable move stays in bounds, the wall lies between current and target, and odd points lead to odd targets through even walls |
| Maze.CarveGrows | src/maze.rs:40-45 | carving frees exactly the target and wall, keeps every other cell, and strictly shrinks the set of blocked cells |
| Maze.CarveStep | src/maze.rs:40-48 | carving and pushing the target keeps the carving invariant and strictly shrinks the blocked cells |
| Maze.PopStep | src/maze.rs:54-56 | backtracking from a finished top keeps the carving invariant |
| Maze.CarveAll | src/maze.rs:29-57 | the loop ends with an empty stack and the carving invariant intact, whatever the shuffles |
| Maze.AllOddFree | src/maze.rs:29-57 | after backtracking ends, every interior odd-coordinate cell is free |
| Maze.StartInRange | src/maze.rs:25-26 | on odd sides, `(1, 1)` is inside the cell vector iff the grid has at least three rows |
| Maze.Openings | src/maze.rs:60-61 | the entrance `(0, 1)` and exit `(width - 1, height - 2)` become free and nothing else changes |
| Maze.EntranceToExit | src/maze.rs:9-11 | on a finished maze at least three wide, the entrance and exit are connected through free cells |
| Maze.FinishedMaze | src/maze.rs:17-64 | the finished grid keeps its shape, its border is blocked except the openings, all interior odd cells are free and reachable from the entrance, and the openings are connected |
| Maze.EntranceReachesAll | src/maze.rs:9-11 | on a finished maze at least three wide, every odd interior cell is reachable from the entrance |
| Maze.GenerateMaze | src/maze.rs:17-64 | `None` (the panics) iff a side is even or the grid has one row; otherwise a maze with the border, free-cell and connectivity properties above |
| Maze.WidthOneSplits | src/maze.rs:9-11 | in a one-column, seven-row grid whose cells are all walls except the openings and flat cell 2, no walk joins the entrance to the exit |
| Maze.WidthOneMaze | src/maze.rs:9-26 | `generate_maze(1, 7)` as written returns a grid without a path from `(0, 1)` to `(0, 5)`, whatever the shuffles |
| Maze.GenerateMazeGuarded | src/maze.rs:9-21 | with a single column rejected like an even side, every returned maze joins the entrance to the exit, and all its interior odd cells are free and reachable from the entrance |
| Automaton.WrappingAdd | src/automaton.rs:52 | the sum modulo 2^64: exact when it fits, one 2^64 less when it does not |
| Automaton.StepRing | src/automaton.rs:40-59 | every cell becomes `residue(cell, left + right)`, neighbours wrapping round the ring and the sum wrapping at 2^64; width unchanged |
| Automaton.RotateStepRing | src/automaton.rs:43-56 | the ring rule commutes with rotation: stepping a rotated ring equals rotating the stepped ring |
| Automaton.Render | src/automaton.rs:64-84 | one character per cell: the symbol of the cell value modulo 10 |
| Automaton.RenderShowsDigits | src/automaton.rs:64-84 | two states render the same iff they have the same length and agree on every value modulo 10 |
| Automaton.FlatUnique | src/automaton.rs:132 | distinct in-row coordinates have distinct row-major indices |
| Automaton.NeighbourSum | src/automaton.rs:122-130 | the loop over the eight offsets computes the wrapped Moore-neighbourhood sum |
| Automaton.StepRow | src/automaton.rs:120-138 | one row of the update writes every cell of the row from the old state only |
| Automaton.StepTorus | src/automaton.rs:116-141 | every cell becomes `residue(cell, Moore sum)` computed on the old state; sizes unchanged |
| Automaton.UniformTorus | src/automaton.rs:122-130 | on a uniform torus every Moore sum is eight times the common value |
| Automaton.SmallCellsNoOverflow | src/automaton.rs:128 | cells below 2^64 / 8 keep every Moore sum inside `u64` |
| Automaton.ShiftStepTorus | src/automaton.rs:116-141 | the torus rule commutes with a cyclic shift of the grid |
| NetworkGraph.New | src/network_graph.rs:35-41 | the graph has the given source and sink and no nodes or edges |
| NetworkGraph.GetEdges | src/network_graph.rs:64-72 | a node's own edge list, and the empty list, not a panic, for a point that is not a node |
| NetworkGraph.AddNode | src/network_graph.rs:45-47 | the node is added to the key set and no edge list changes |
| NetworkGraph.AddNodeIdempotent | src/network_graph.rs:45-47 | adding a node twice is the same as adding it once |
| NetworkGraph.AddEdge | src/network_graph.rs:51-61 | both ends become nodes, the new edge with zero flow is appended to the source's list, and every other list is unchanged |
| NetworkGraph.AddEdgeCount | src/network_graph.rs:51-61 | the source's list grows by exactly one, and its last entry is the new edge |
| NetworkGraph.Find | src/network_graph.rs:128-129 | a found index points at an edge to the wanted point |
| NetworkGraph.FindFirst | src/network_graph.rs:128-129 | the index found is the first edge to that point; `None` iff no edge goes there |
| NetworkGraph.FindEdge | src/network_graph.rs:176 | without parallel edges, `find` by target locates each edge at its own position |
| NetworkGraph.WalkCostNonNegative | src/network_graph.rs:100 | with non-negative edge costs every walk costs at least zero |
| Dijkstra.ArgMinKey | src/network_graph.rs:88 | the popped entry has the least distance key in the queue |
| Dijkstra.StalePopKeeps | src/network_graph.rs:91-93 | dropping an entry whose key exceeds the recorded distance keeps the search invariant |
| Dijkstra.RelaxEdge | src/network_graph.rs:98-106 | relaxing one unsaturated edge keeps the relaxation invariant, and a stale pop changes nothing |
| Dijkstra.Expand | src/network_graph.rs:98-107 | relaxing every edge of the popped point re-establishes the search invariant |
| Dijkstra.PopIsLowerBound | src/network_graph.rs:88-96 | any key no larger than every queue key is at most the cost of every source-to-sink walk |
| Dijkstra.SinkFound | src/network_graph.rs:94-96 | when the sink is popped fresh, the parent map is a tree rooted at the source and the sink's distance is least over all walks |
| Dijkstra.Turn | src/network_graph.rs:88-107 | one round either finishes at the sink with a cheapest parent tree, or keeps the invariant and makes progress |
| Dijkstra.Exhausted | src/network_graph.rs:109 | when the queue runs dry the sink is unreachable and has no distance, so the final `contains_key` is false |
| Dijkstra.FindCheapestPath | src/network_graph.rs:78-110 | `found` iff the sink is reachable by unsaturated edges; the parent map then leads back from the sink along a cheapest walk |
| Dijkstra.ReachableFromTree | src/network_graph.rs:94-96 | a parent tree to the sink witnesses that the sink is reachable |
| Dijkstra.TreePath | src/network_graph.rs:162-168 | following a parent tree back from the sink gives a repetition-free walk from the source whose cost is the sink's distance |
| FlowRouter.TracePath | src/network_graph.rs:161-168 | the reconstructed and reversed path is a repetition-free walk from source to sink with the sink's distance as cost |
| FlowRouter.Bottleneck | src/network_graph.rs:171-178 | positive, at most the remaining capacity of each step, and equal to one of them; `u64::MAX` for a one-point path |
| FlowRouter.PushFlow | src/network_graph.rs:180-186 | adds the flow to exactly the edges the path uses |
| FlowRouter.RouteAlong | src/network_graph.rs:171-186 | the bottleneck can be carried, pushing it preserves the graph's shape, and the net outflow rises at the source and falls at the sink by the flow |
| FlowRouter.RouteCheapestPath | src/network_graph.rs:154-189 | `(0, None)` iff the sink is unreachable; otherwise a cheapest repetition-free path, its bottleneck, and that flow pushed, conserving flow at every inner point |
| FlowRouter.AugmentShrinks | src/network_graph.rs:134-144 | pushing the bottleneck saturates at least one edge and unsaturates none, so the loop ends |
| FlowRouter.AugmentStep | src/network_graph.rs:134-144 | one augmentation keeps shape, conservation and monotone flows, and adds the bottleneck to the total |
| FlowRouter.EdmondsKarp | src/network_graph.rs:113-147 | ends with no unsaturated source-to-sink path. The source's net outflow rises, and the sink's falls, by the total; every other point keeps its balance. Started without flow, the total is the source's net outflow and the sink's net inflow. Flows only grow, and capacities stay respected if they were at the start |
| FlowSums.Bump | src/network_graph.rs:184 | exactly one edge's flow grows by the amount; targets, capacities and costs are kept |
| FlowSums.BumpSums | src/network_graph.rs:184 | the list's total flow grows by the amount, and so does its flow into the bumped edge's target |
| FlowSums.AddFlowNet | src/network_graph.rs:183-185 | adding flow to an edge raises the net outflow of its tail and lowers that of its head by the amount |
| FlowSums.AugmentNet | src/network_graph.rs:180-186 | pushing `f` along a repetition-free path raises the net outflow of its first point and lowers that of its last by `f`; all others are unchanged |
| FlowSums.AugmentFlows | src/network_graph.rs:180-186 | each edge's flow grows by `f` if the path uses it and is unchanged otherwise |
| FlowSums.AugmentMonotone | src/network_graph.rs:180-186 | no edge's flow decreases |
| FlowSums.AugmentFeasible | src/network_graph.rs:171-186 | a push within the remaining capacities keeps every flow within its capacity |
| FlowSums.NoFlowBalanced | src/network_graph.rs:52-58 | in a graph whose edges all carry zero flow, as `add_edge` creates them, every point has net outflow zero |
| FlowManager.DiamondShape | examples/moma_network_flow_manager/src/main.rs:89-103 | the diamond has exactly the edges S→A→T (capacity 10) and S→B→C→T (capacity 7), with cost 1 and no flow |
| FlowManager.DecayTowardsOne | examples/moma_network_flow_manager/src/main.rs:47-52 | decay keeps a cost of 1, and moves any other cost strictly towards 1 without crossing it |
| FlowManager.DecayMonotone | examples/moma_network_flow_manager/src/main.rs:50 | decay preserves the order of costs |
| FlowManager.DecayCosts | examples/moma_network_flow_manager/src/main.rs:47-52 | every edge's cost is decayed, and its target, capacity and flow are kept |
| FlowManager.DecayKeepsCosts | examples/moma_network_flow_manager/src/main.rs:47-52 | costs at least 1 stay at least 1, and a cost of exactly 1 is unchanged |
| FlowManager.Penalize | examples/moma_network_flow_manager/src/main.rs:70-75 | only the first edge from `path[0]` to `path[1]` gets the adjustment added; all else is kept |
| FlowManager.ResetFlows | examples/moma_network_flow_manager/src/main.rs:81-83 | every flow becomes zero; routes and costs are kept |
| FlowManager.DecayAndRoute | examples/moma_network_flow_manager/src/main.rs:47-54 | routing happens on the decayed graph: the route is a cheapest path there, with its bottleneck flow |
| FlowManager.PenaliseAndReset | examples/moma_network_flow_manager/src/main.rs:57-83 | the error is the measured norm minus 0.85; the path's first edge gets 50 times a positive error; all flows are reset |
| FlowManager.ManagerStep | examples/moma_network_flow_manager/src/main.rs:46-83 | one loop iteration: every cost is its decay, plus the penalty on the routed path's first edge when the error is positive; flows reset; structure kept |
| FlowManager.StepCostsAtLeastOne | examples/moma_network_flow_manager/src/main.rs:47-75 | decay and a positive penalty keep every cost at least 1 |
| FlowManager.RunManager | examples/moma_network_flow_manager/src/main.rs:31-86 | after the simulation steps the graph still has the diamond's routes, no flow, costs of at least 1, and is a valid input to the search |
| FlowSequences.MinPoint | examples/moma_network_flow_manager/src/main.rs:107 | the least point of a non-empty set, in `Point`'s derived order (`x`, then `y`) |
| FlowSequences.SortedPoints | examples/moma_network_flow_manager/src/main.rs:107-110 | the `BTreeMap` iteration order: every key exactly once, strictly ascending |
| FlowSequences.Insert | examples/moma_network_flow_manager/src/main.rs:112-113 | inserting adds exactly the one edge; a list ascending by target stays ascending; distinct targets stay distinct when the new edge's target is fresh |
| FlowSequences.SortEdges | examples/moma_network_flow_manager/src/main.rs:112-113 | sorting by the key `(e.to.x, e.to.y)`: a permutation of the node's edges, ascending by target; distinct targets stay distinct |
| FlowSequences.EdgesSplit | examples/moma_network_flow_manager/src/main.rs:107-116 | the edge count of a node set can be summed starting from any node |
| FlowSequences.VisitCount | examples/moma_network_flow_manager/src/main.rs:107-116 | the walk over the sorted keys lists as many edges as the nodes have |
| FlowSequences.VisitMembers | examples/moma_network_flow_manager/src/main.rs:110-116 | every listed edge is an edge of its node, and every edge of a visited node is listed |
| FlowSequences.VisitSorted | examples/moma_network_flow_manager/src/main.rs:110-116 | over ascending keys the walk is ordered by node, then by target |
| FlowSequences.VisitStrict | examples/moma_network_flow_manager/src/main.rs:110-116 | over ascending keys whose lists have distinct targets, the walk is strictly ordered by (node, target) |
| FlowSequences.FlowSequenceOrder | examples/moma_network_flow_manager/src/main.rs:104-119 | `_flow_to_sequence` emits one flow per edge of the graph, and its length is the total edge count. Entry k is the flow of the k-th listed edge. The listing holds exactly the graph's edges, ordered by (source node, `to.x`, `to.y`). Without parallel edges that order is strict, so entry k is the flow of the k-th edge in that order |
| DiamondRuns.DiamondSteps | examples/moma_network_flow_manager/src/main.rs:96-100 | the unsaturated moves of a diamond-shaped graph are exactly its five edges whose flow is below capacity |
| DiamondRuns.DiamondWalks | examples/moma_network_flow_manager/src/main.rs:89-103 | the only source-to-sink walks are S-A-T and S-B-C-T |
| DiamondRuns.DiamondWalkCosts | examples/moma_network_flow_manager/src/main.rs:96-100 | on the fresh diamond those walks cost 2 and 3, and S-A-T has room 10 on both edges |
| DiamondRuns.FirstRoute | examples/moma_network_flow_manager/src/main.rs:54 | the first `route_cheapest_path` takes S-A-T and routes 10 units |
| DiamondRuns.FirstStep | examples/moma_network_flow_manager/src/main.rs:43-83 | after the first step only S→A carries a penalty, which is 50 times the error when positive; every flow is zero again |
| DiamondRuns.DiamondNets | examples/moma_network_flow_manager/src/main.rs:96-100 | the diamond's net outflow at each point in terms of its five edge flows |
| DiamondRuns.BlockedDiamond | src/network_graph.rs:113-147 | any conserving, blocking flow on the diamond saturates all five edges and totals 17 |
| DiamondRuns.DiamondMaxFlow | src/network_graph.rs:113-147 | `edmonds_karp` on the diamond returns 17 with every edge full |
| GameOfLife.MakePalette | examples/moma_conways_game_of_life/src/main.rs:115-123 | one colour per state, taking red, green and blue from the generator in turn; every colour is opaque with channels of at least 50 |
| GameOfLife.CopyChunk | examples/moma_conways_game_of_life/src/main.rs:165 | writing one pixel sets its four bytes and leaves every other byte |
| GameOfLife.Draw | examples/moma_conways_game_of_life/src/main.rs:161-167 | each complete 4-byte pixel gets the palette colour of its cell's state, and the trailing bytes are untouched |
| GameOfLife.DrawnOpaque | examples/moma_conways_game_of_life/src/main.rs:121 | with such a palette every drawn pixel is fully opaque |
| GameOfLife.MainDrawable | examples/moma_conways_game_of_life/src/main.rs:86-128 | a 320 by 240 frame, a matching torus of states below 16, and a 16-colour palette never index out of bounds in `draw` |
| Gower.MulIsProduct | examples/moma_gower/src/main.rs:11-17 | `mul` is the complex product `(ac - bd) + (ad + bc)i` |
| Gower.MulAssociates | examples/moma_gower/src/main.rs:60 | the product of the four corners does not depend on the grouping |
| Gower.MulCommutes | examples/moma_gower/src/main.rs:60 | nor on the order of the factors |
| Gower.UnitMul | examples/moma_gower/src/main.rs:60 | products of the four axis directions stay among them |
| Gower.Sample | examples/moma_gower/src/main.rs:93-100 | an axis step becomes the unit complex number pointing its way; a zero step has angle 0 |
| Gower.SampleDecodes | examples/moma_gower/src/main.rs:93-100 | the direction of a unit step can be read back from its sample |
| Gower.PathToSequence | examples/moma_gower/src/main.rs:88-103 | empty for fewer than two points, otherwise one sample per step in order, each a unit |
| Gower.SumQuads | examples/moma_gower/src/main.rs:37-69 | the triple loop's total and count equal the sum over all rectangles `x, x+h1, x+h2, x+h1+h2` that fit |
| Gower.QuadsPositive | examples/moma_gower/src/main.rs:72-74 | for two or more samples at least one rectangle fits, so the zero-count branch is never taken |
| Gower.U2Average | examples/moma_gower/src/main.rs:26-80 | trivial iff fewer than two samples; otherwise the rectangle total and a positive count |
| Gower.StraightLineSamples | examples/moma_gower/src/main.rs:111 | the straight-line example is an axis path whose every step samples to 1 |
| Gower.StraightLineAverage | examples/moma_gower/src/main.rs:111-116 | a sequence of ones averages to exactly 1, so its norm is 1 |
| Gower.AverageAtMostOne | examples/moma_gower/src/main.rs:76-84 | for unit samples the total's size is at most the count, so the average lies in the unit square |
| Circuit.New | src/circuit.rs:18-31 | a register of `1 << n` amplitudes in the basis state: amplitude one at index 0 and zero everywhere else |
| Circuit.PauliXSwaps | src/gates.rs:9-12 | the Pauli-X matrix exchanges the two amplitudes of a pair |
| Circuit.Pairing | src/circuit.rs:68-80 | flipping bit `t` pairs each index in range with a distinct partner in range, with bit `t` clear on exactly one side |
| Circuit.ApplySingleQubitGate | src/circuit.rs:64-87 | every index with bit `t` clear gets the first row of the gate applied to it and its partner, and the partner gets the second row, from the old amplitudes |
| Circuit.PairGated | src/circuit.rs:79-84 | the stride loop's `j` and `j + stride` are exactly the partners across bit `t` |
| Circuit.X | src/circuit.rs:40-43 | Pauli-X on qubit `t` moves every amplitude to the partner index across bit `t` |
| Circuit.PauliXFlips | src/circuit.rs:40-43 | the gate application with Pauli-X equals that permutation |
| Circuit.FlippedTwice | src/circuit.rs:40-43 | Pauli-X twice on the same qubit gives the state back |
| Circuit.XOnNew | src/circuit.rs:18-43 | Pauli-X on qubit `t` of a fresh register gives the basis state `2^t` |
| Circuit.ApplyCnotGate | src/circuit.rs:90-110 | the loop exchanges the amplitudes of each pair across the target bit whose indices both have the control bit set; with both qubits outside the register nothing moves |
| Circuit.CnotOutsideControl | src/circuit.rs:90-110 | a control qubit outside the register is never set, so CNOT leaves the vector unchanged for any target |
| Circuit.CnotFlipsTarget | src/circuit.rs:90-110 | for distinct qubits, every index with the control bit set takes its partner's amplitude; all others keep theirs |
| Circuit.CnotSameQubit | src/circuit.rs:90-110 | with control equal to target, nothing moves |
| Circuit.CnotTwice | src/circuit.rs:90-110 | CNOT is its own inverse |
| Circuit.CnotOnNew | src/circuit.rs:18-31 | CNOT leaves the fresh `|0...0>` register unchanged |
| Behavioural.Moves | examples/moma_agent_behavioural_analysis/src/main.rs:234-251 | the four offsets give exactly the adjacent in-bounds cells |
| Behavioural.MoveCost | examples/moma_agent_behavioural_analysis/src/main.rs:254-256 | every move costs at least 1 |
| Behavioural.MomaProblem | examples/moma_agent_behavioural_analysis/src/main.rs:205-272 | successors are the adjacent cells, steps cost `residue(current, next) + 1`, and the heuristic is the Manhattan distance |
| Behavioural.MomaCosts | examples/moma_agent_behavioural_analysis/src/main.rs:254-256 | every move costs between 1 and the bound on `residue + 1` |
| Behavioural.MomaConsistent | examples/moma_agent_behavioural_analysis/src/main.rs:256-261 | the heuristic is consistent with these costs |
| Behavioural.MomaWellPosed | examples/moma_agent_behavioural_analysis/src/main.rs:205-272 | on a torus whose total cost bound stays below 2^31, the search space meets the engine's requirements, including that every cost plus heuristic fits `u32` |
| Behavioural.AStarMomaCost | examples/moma_agent_behavioural_analysis/src/main.rs:205-272 | a cheapest cell path under the automaton's costs, costing at least the Manhattan distance; `None` iff there is none; `[start]` when start is the goal |
| Behavioural.CellWalks | examples/moma_agent_behavioural_analysis/src/main.rs:253 | the engine's walks are exactly the cell paths |
| Behavioural.AllCellsConnected | examples/moma_agent_behavioural_analysis/src/main.rs:234-251 | without walls, any two cells are joined by a path |
| Behavioural.MomaNoneMeansOutside | examples/moma_agent_behavioural_analysis/src/main.rs:271 | from an in-bounds start a path exists iff the goal is in bounds, so `None` means only an out-of-range goal |
| Behavioural.NewExperiment | examples/moma_agent_behavioural_analysis/src/main.rs:37-44 | a fresh result has the name and zero samples and totals |
| Behavioural.RecordAllTotals | examples/moma_agent_behavioural_analysis/src/main.rs:46-50 | recording samples in turn adds their count, their path lengths and their norms to the totals |
| Behavioural.FreshTotals | examples/moma_agent_behavioural_analysis/src/main.rs:37-50 | from a fresh result, the totals are exactly the count and sums of the recorded samples |
| Behavioural.PathToAngles | examples/moma_agent_behavioural_analysis/src/main.rs:289-301 | empty for fewer than two points, otherwise one angle sample per step in order |
| Behavioural.Coords | examples/moma_agent_behavioural_analysis/src/main.rs:122-123 | one coordinate pair per point, in order |
| Behavioural.CellPathSamples | examples/moma_agent_behavioural_analysis/src/main.rs:122-125 | the coordinates of a found path are an axis path, so each step's angle sample is one of the four unit directions |

## Left out

- Floating point. Flow costs, the decay factor and the penalty are `real`. The Gowers sum uses Gaussian integers, which are exact for axis steps. Circuit amplitudes are exact complex reals. Rounding is not modelled.
- Randomness. The automata's random initial states are inputs to the model, and their `new` constructors are not modelled. The maze shuffle, the Game-of-Life palette generator and `measure` are not modelled either; the first two enter as parameters.
- `measure` and `Display` of `src/circuit.rs`, and `src/qubit.rs`. They rely on random sampling and formatting.
- The `h`, `y` and `z` wrappers of `src/circuit.rs`. They share `apply_single_qubit_gate`, which is modelled for any gate matrix. Only Pauli-X is worked out.
- The external MOMA ring. `residue` is uninterpreted.
- The FFT norm `calculate_u2_norm_fft` of both examples. In the flow manager it is a function parameter. In the behavioural example the recorded norms are given values.
- Gower: `magnitude` and the fourth root of `calculate_u2_norm_complex` are not modelled. The model stops at the average.
- Behavioural.PathToAngles, Gower.Sample and Gower.PathToSequence: `atan2`, `cos` and `sin` are not modelled.
  - PathToAngles takes them as the parameter `angle`.
  - Gower.Sample covers axis steps only, where the direction is exact.
  - Gower.PathToSequence therefore requires an axis path (`AxisPath`). `path_to_complex_sequence` also accepts diagonal and longer steps, whose irrational directions the exact model cannot express.
- `_values_to_complex_sequence_fft` of the flow-manager example is not modelled. It only feeds the FFT norm, which is itself left out.
- FlowSequences.FlowSequence: `edge.flow as f64` is taken as exact. Flows above 2^53 would round, and that is not modelled.
- FlowSequences.SortEdges: the sort is stated as a permutation that is ascending by target. That `sort_by_key` is stable, which keeps equal targets in input order, is not stated. The `Insert` construction is stable, but no lemma says so. Without parallel edges there are no equal targets, and `FlowSequenceOrder` pins the order completely.
- `report` of the behavioural example is not modelled. It divides floats and prints. Printing, window handling, the event loop and the strategy loop of the examples' `main` functions are left out too.
- Heap tie-breaking. A pop may take any entry with the least key, and every result is stated up to ties.
  - Pathfinding's `Node` compares only `cost + heuristic` (src/pathfinding.rs:23-27). Nodes with equal keys are truly tied, and `BinaryHeap` leaves their order open.
  - Dijkstra pushes `(OrderedFloat(-d), Point)` tuples (src/network_graph.rs:86 and 103). `Point` derives `Ord` (src/grid.rs:9), so among equal costs the greatest point, by `x` and then `y`, pops first. The model does not fix that order.
- Pathfinding.BestFirstSearch: requires the search to be well posed: a consistent heuristic that is zero at the goal, and step costs of at least one.
  - It also requires every possible heap key to fit `u32`: the cost bound (points times dearest move) plus the heuristic of any point. `Node::cmp` adds `cost + heuristic` as `u32`, and the costs are `u32` too.
  - The invariant then carries that every key in the heap fits `u32`. Beyond these bounds the source's `u32` arithmetic panics in a debug build and wraps in a release build. Neither is modelled.
  - Both A* callers establish the requirement.
- GridSearch.AStar has three requirements, which together are sufficient but not necessary.
  - Grid sides of at most 2^30, with `start` and `goal` coordinates below 2^30 (`FitsI32`). Then `manhattan_distance`'s `as i32` casts are exact and every heuristic stays below 2^31.
  - Fewer than 2^31 cells. A path cost is at most the number of cells, so a cost plus a heuristic stays below 2^32: `cost + 1` and `Node::cmp`'s `cost + heuristic` cannot overflow `u32`.
  - The side cap alone would not suffice, because a 2^30 by 2^30 grid admits paths far longer than 2^32.
- Behavioural.AStarMomaCost: requires the start to be in bounds. An out-of-range start makes the source read an unrelated cell or panic.
- Behavioural.AStarMomaCost: requires the number of cells times the dearest move to stay below 2^31. The source pushes `new_cost as u32` into the heap, which truncates larger costs, and `Node::cmp` adds a heuristic below 2^31 to it as `u32`.
- Dijkstra.FindCheapestPath: requires no parallel edges and no negative costs. Parallel edges can make `find` pick a saturated twin. With negative costs the result is not cheapest. The source runs regardless.
- FlowRouter.RouteCheapestPath: the same requirement as `find_cheapest_path_dijkstra`.
- FlowRouter.EdmondsKarp: requires the requirements above and a source different from the sink. With source equal to sink, every round finds the path `[source]`. Its bottleneck stays `u64::MAX` and no edge is touched, so the first round sets `max_flow` to `u64::MAX`. The second round's `max_flow += path_flow` (src/network_graph.rs:135) then overflows `u64`. A debug build panics there. A release build wraps and keeps finding the same path, so it never ends.
- FlowRouter.EdmondsKarp: the total is a `nat`, so `max_flow += path_flow` is not checked for `u64` overflow.
- FlowRouter.EdmondsKarp: the result is stated as a blocking flow. The source has no reverse residual edges, so a maximum flow is not promised.
- FlowSums.Bump: requires the new flow to fit `u64`. The source's `edge.flow += path_flow` would overflow otherwise.
- Automaton.StepTorus: requires the Moore sums to fit `u64`. The source's `neighbor_sum +=` would overflow otherwise. Automaton.SmallCellsNoOverflow gives a sufficient bound.
- Circuit.ApplySingleQubitGate: requires the target qubit to be below the qubit count. Otherwise the source indexes past the state vector.
- Circuit.ApplyCnotGate: requires the target qubit to be below the qubit count or the control qubit to be outside the register (`CnotFits`). The excluded case, a control inside and a target outside, makes the source swap with an index past the state vector. With both outside no index has the control bit set, and the source and the model leave the vector unchanged.
- `1 << n` and `1 << t` are unbounded powers of two. Shift overflow at 64 qubits is not modelled.
- Behavioural.RecordAllTotals: `samples: u32` and the `u64` totals are `nat`, so overflow is not modelled.
- Behavioural.CellPathSamples: the `as i32` casts of the coordinates are taken as exact, which holds for the example's 256 by 256 torus.
- GameOfLife.MainDrawable: requires every state below the modulus. The external `residue` is what keeps it there.
- Maze.GenerateMaze: the two panics of the source are modelled as `None`: the `assert!` on even sides, and the write to `(1, 1)` outside a one-row grid. Connectivity of entrance and exit is stated only for widths of at least three, because one-column mazes can lack it (see Findings).

## Findings

| source | as written | input that shows it | evidently intended | confidence | as-written member | corrected member |
|---|---|---|---|---|---|---|
| src/maze.rs:9-26 | The doc comment promises a path from `(0, 1)` to `(width - 1, height - 2)`. The `assert!` rejects only even sides, and `grid[(1, 1)]` on a one-column grid writes flat index `1 * 1 + 1 = 2`, the cell `(0, 2)`. No carving move is interior, so nothing else is opened. | `generate_maze(1, 7)`: open cells `(0, 1)`, `(0, 2)` and `(0, 5)`; `(0, 3)` and `(0, 4)` stay walls. | Reject widths below three, as even sides are rejected, so every returned maze keeps the documented path. | medium; not executed | Maze.WidthOneMaze (with Maze.WidthOneSplits) | Maze.GenerateMazeGuarded |
