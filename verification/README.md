# Chain Reaction decision engine, modelled in Dafny

This project models the computer player of a Chain Reaction game (`js/ai.js`).
Players drop orbs on the cells of a grid. A cell that reaches its capacity
explodes and sends one orb to each neighbour, and each neighbour changes
hands. The engine has four parts:

- `simulateBoardState`: copies the board, places one orb and resolves the
  chain reaction in deduplicated waves, at most 200 of them.
- `evaluateBoard`: a one-pass heuristic score with win/loss sentinels of
  ±10000 and a small random jitter.
- `minimax`: depth-limited minimax with fail-soft alpha-beta pruning. The
  computer maximises and the next player in turn minimises.
- `makeAIMove`: enumerates the legal moves. Easy mode picks one at random.
  Otherwise it chooses a depth from the difficulty, shuffles the candidates
  and keeps the first one with the strictly greatest score.

Each part is written twice:

- as pure specification functions (`Simulate`, `Evaluation`, `AlphaBeta`,
  `ChooseMove`);
- as methods that work the way the source does (nested scan loops, an
  in-place 2-D array clone with a queue, loops with early exit), each
  proved equal to its specification function.

The properties the game relies on are proved as lemmas about the
specification functions:

- the explosion rule, and what a cascade can and cannot change;
- the terminal sentinels of the evaluator;
- alpha-beta is fail-soft with respect to plain minimax, and exact at the
  root window;
- the selector returns the first best candidate;
- the depth policy.

Modules:

- `Grid` (`grid.dfy`): cells, boards, the scan order, and the injected
  board geometry.
- `Simulation` (`simulation.dfy`): the simulator.
- `Evaluator` (`evaluation.dfy`): the heuristic.
- `Pruning` (`pruning.dfy`): the maximising and minimising loops of
  `minimax`, abstracted over the child searches, and their soundness.
- `Search` (`search.dfy`): `minimax`.
- `Selector` (`selector.dfy`): `makeAIMove`.
- `Scenarios` (`scenarios.dfy`): concrete cascades on a concrete geometry.

Interfaces and modelling choices:

- `capacity` and `neighbors` come from `js/board.js`, which is not part of
  this model. They are parameters: `Grid.Geometry`, with the contract
  `Grid.ValidGeometry`. Every capacity is at least 1. Every reported
  neighbour of an in-bounds cell is in bounds and not blocked.
- `Math.random` is a parameter at each use:
  - the jitter of an evaluation is `jit(path)`, a value in `[0, 0.5)`
    chosen by an arbitrary oracle. `path` is the list of moves from the
    position being decided to the evaluated node, and the search evaluates
    each node exactly once;
  - the easy pick is a `Unit` value `u` in `[0, 1)`;
  - the shuffle is a permutation `order` of the candidate indices.
- `-Infinity` and `Infinity` are `Pruning.Ext`.
- A null move is `Selector.Option.None`.
- The difficulty is the string the source compares.

## Model

| member | source | states |
|---|---|---|
| Grid.AllCells | js/ai.js:7-8 | The row-major scan of the nested `for y / for x` loops visits exactly the in-bounds cells. |
| Simulation.Place | js/ai.js:34 | The target cell gets owner `who` and one more orb, keeps its obstacle flag, and every other cell is unchanged. |
| Simulation.Unstable | js/ai.js:38 | An obstacle is never queued by the initial scan, and a queued cell holds at least its capacity, so it can pay for its explosion. |
| Simulation.Seed | js/ai.js:36-38 | The initial queue holds exactly the in-bounds cells that are not blocked and hold at least their capacity, so never an obstacle. |
| Simulation.Dedup | js/ai.js:41 | A wave has no repeated coordinate and holds exactly the queued coordinates. |
| Simulation.Bump | js/ai.js:48 | A neighbour gains exactly one orb and now belongs to `who`. It keeps its obstacle flag, and every other cell is unchanged. |
| Simulation.SpreadFrom | js/ai.js:47-49 | The neighbour loop keeps the board's shape, only adds to the touched set, and only appends to the queue. |
| Simulation.SpreadCell | js/ai.js:47-48 | After the spread, a cell has gained one orb per occurrence among the neighbours, belongs to `who` if it occurs at all, and keeps its obstacle flag. |
| Simulation.SpreadTouches | js/ai.js:47-48 | The spread touches exactly the reported neighbours. |
| Simulation.SpreadAppends | js/ai.js:49 | The spread only appends to the queue, and appends only neighbours. |
| Simulation.SpreadEnqueues | js/ai.js:47-49 | The spread appends exactly the neighbours that end at or above their capacity. |
| Simulation.Drain | js/ai.js:46 | The exploding cell loses exactly its capacity in orbs. It becomes unowned iff it is emptied and keeps its obstacle flag. Every other cell is unchanged. |
| Simulation.Explode | js/ai.js:44-50 | An explosion keeps the board's shape and keeps every queued coordinate on the board. |
| Simulation.WaveFrom | js/ai.js:43-51 | A wave keeps the board's shape and keeps every queued coordinate on the board. |
| Simulation.Cascade | js/ai.js:39-52 | The wave loop runs at most `fuel` waves, and stops early only when the queue is empty. |
| Simulation.Simulate | js/ai.js:32-54 | The simulation returns a board of the same shape after at most 200 waves. Fewer waves means nothing is left queued. |
| Simulation.ExplosionRule | js/ai.js:44-50 | Below capacity a queued cell is skipped. Otherwise it loses exactly `cap` orbs, and its owner iff emptied. Each neighbour gains one orb per report and becomes `who`'s. Obstacles stay. The queue gains exactly the neighbours that end at or above capacity. |
| Simulation.ExplodeFrames | js/ai.js:44-50 | An explosion keeps obstacles, changes only cells it touches, and from open cells touches and queues only open cells. |
| Simulation.WaveFrames | js/ai.js:43-51 | The same frame property for a whole wave. |
| Simulation.CascadeFrames | js/ai.js:40-52 | The same frame property for the whole wave loop. |
| Simulation.SimulateFrames | js/ai.js:33-50 | Obstacles stay obstacles. A cell other than the target that never exploded or received an orb keeps its owner and count. No obstacle is ever touched. |
| Simulation.IsUnstable | js/ai.js:38 | The test of one cell in the initial scan is exactly `Unstable`. |
| Simulation.ScanRow | js/ai.js:37-38 | The scan of one row appends to the queue exactly the unstable cells of that row, in column order. |
| Simulation.ScanUnstable | js/ai.js:35-38 | The nested scan over the copy builds exactly `Seed` of the placed board. |
| Simulation.Deduplicate | js/ai.js:41 | The loop that builds the wave computes exactly `Dedup` of the queue. |
| Simulation.BumpAt | js/ai.js:48 | In place, one neighbour gets owner `who` and one more orb; its new count is returned. |
| Simulation.SpreadAt | js/ai.js:47-50 | The in-place neighbour loop leaves the array, queue and touched set equal to `SpreadFrom`. |
| Simulation.ExplodeAt | js/ai.js:44-50 | The in-place processing of one queued coordinate equals `Explode`. Neighbours are asked of the drained copy. |
| Simulation.RunWave | js/ai.js:42-51 | Clearing the queue and processing one wave in place equals `WaveFrom`. |
| Simulation.CloneAndPlace | js/ai.js:33-34 | The fresh array holds the input board with the orb placed. |
| Simulation.SimulateBoardState | js/ai.js:32-54 | The clone-and-mutate procedure returns exactly `Simulate(board, (x, y), who).board`. The input board is a value and is never changed. |
| Evaluator.CellScore | js/ai.js:10-23 | Unowned and blocked cells score 0. The player's own cell scores at least twice its orbs and at most 8 more. Only a rival's critical cell can score below 0. A rival's non-critical cell scores 0. |
| Evaluator.Evaluation | js/ai.js:5-28 | The evaluation is a sentinel, or the accumulated score raised by less than 0.5. |
| Evaluator.TallyMine | js/ai.js:10-14 | Over any visited cells, the player's orb total is 0 iff no visited non-blocked cell of the player holds orbs. |
| Evaluator.TallyEnemy | js/ai.js:10-21 | Over any visited cells, the rival orb total is 0 iff no visited non-blocked cell of another owner holds orbs. |
| Evaluator.TallyOfEmpty | js/ai.js:6-25 | When every visited cell is unowned or blocked, the pass totals a score of 0 and no orbs on either side. |
| Evaluator.EvaluationCases | js/ai.js:26-28 | The evaluation is 10000 when the player has orbs and no rival has any. It is -10000 in the reverse case. When both sides or neither side have orbs, it is the accumulated score plus the jitter. |
| Evaluator.SoleOwner | js/ai.js:26-27 | When every non-blocked cell with orbs belongs to one player who has orbs, that player evaluates to exactly 10000 and every other player to exactly -10000. |
| Evaluator.EmptyBoard | js/ai.js:26-28 | An all-empty board evaluates to the jitter alone, strictly between the sentinels. |
| Evaluator.VisitCell | js/ai.js:9-23 | One step of the inner loop adds exactly the cell's contribution: nothing for unowned or blocked cells, and the corner, edge and threat terms. |
| Evaluator.EvaluateBoard | js/ai.js:5-29 | The nested-loop procedure returns exactly `Evaluation`. |
| Pruning.Max | js/ai.js:70 | `Math.max` returns one of its two arguments, and it is at least both. |
| Pruning.Min | js/ai.js:78 | `Math.min` returns one of its two arguments, and it is at most both. |
| Pruning.MaxBounds | js/ai.js:70-71 | `Math.max` on extended values is the least upper bound. |
| Pruning.MinBounds | js/ai.js:78-79 | `Math.min` on extended values is the greatest lower bound. |
| Pruning.MaxLoop | js/ai.js:66-73 | The maximising loop returns a finite value once at least one child is searched. |
| Pruning.MinLoop | js/ai.js:74-81 | The minimising loop returns a finite value once at least one child is searched. |
| Pruning.MaxLoopNext | js/ai.js:68-71 | One iteration: `maxEval` and `alpha` rise, and the loop stops exactly when `beta <= alpha`. |
| Pruning.MinLoopNext | js/ai.js:76-79 | One iteration: `minEval` and `beta` fall, and the loop stops exactly when `beta <= alpha`. |
| Pruning.MaxOverAbove | js/ai.js:66-73 | The plain maximum over the children is at least the value it starts from. |
| Pruning.MinOverBelow | js/ai.js:74-82 | The plain minimum over the children is at most the value it starts from. |
| Pruning.MaxLoopSound | js/ai.js:66-73 | From any iteration state that meets the loop invariant, the pruned maximising loop is fail-soft with respect to the plain maximum of the remaining children. |
| Pruning.MinLoopSound | js/ai.js:74-82 | From any iteration state that meets the loop invariant, the pruned minimising loop is fail-soft with respect to the plain minimum of the remaining children. |
| Pruning.MaxSound | js/ai.js:66-73 | With fail-soft child searches, the maximising loop is fail-soft in `(alpha, beta)`. Inside the window it returns exactly the maximum. |
| Pruning.MinSound | js/ai.js:74-82 | With fail-soft child searches, the minimising loop is fail-soft in `(alpha, beta)`. Inside the window it returns exactly the minimum. |
| Search.Legal | js/ai.js:64 | A legal cell is never an obstacle, and a rival's cell is never legal. An open cell that is empty or the mover's own is always legal. |
| Search.Moves | js/ai.js:61-64 | The moves are exactly the in-bounds cells that are not blocked and are unowned or owned by the mover. |
| Search.LegalMoves | js/ai.js:61-64 | The nested scan builds exactly `Moves`, in row-major order. |
| Search.Mover | js/ai.js:60 | The maximising node moves the searching player. The minimising node moves `(ai + 1) % playersLength`, which wraps to player 0 after the last player. |
| Search.Cutoff | js/ai.js:59 | The search stops exactly when `Math.abs(eval) >= 10000` or the depth is 0, so both sentinels stop it. |
| Search.AlphaBeta | js/ai.js:57-83 | At a stopping node, or when the mover has no legal move, `minimax` returns the evaluation in any window. |
| Search.Child | js/ai.js:69 | A child board has the shape of its parent. |
| Search.ChildSound | js/ai.js:69-70 | The search of one child is fail-soft with respect to that child's minimax value. |
| Search.ChildrenSound | js/ai.js:68-80 | All child searches of a node are fail-soft with respect to the children's minimax values. |
| Search.AlphaBetaSound | js/ai.js:57-83 | In every window with `alpha < beta`, `minimax` is fail-soft: exact inside the window, and a bound on the correct side outside it. |
| Search.RootExact | js/ai.js:57-83 | From the window `(-Infinity, Infinity)`, `minimax` returns exactly the unpruned minimax value. |
| Search.LeafValue | js/ai.js:58-65 | At depth 0, at a sentinel evaluation, or when the mover has no legal move, `minimax` returns exactly the evaluation, in any window. |
| Search.Minimax | js/ai.js:57-83 | The recursive procedure returns exactly `AlphaBeta`. |
| Search.SearchChild | js/ai.js:69-70 | One child search simulates the move for the mover and searches one ply shallower with the other role. |
| Search.MaxVisit | js/ai.js:69-71 | One pass of the maximising body raises `maxEval` and `alpha` to the child's result, and the loop goes on exactly when `beta > alpha`. |
| Search.MinVisit | js/ai.js:77-79 | One pass of the minimising body lowers `minEval` and `beta` to the child's result, and the loop goes on exactly when `beta > alpha`. |
| Search.MaxMoves | js/ai.js:66-73 | The maximising loop with its `alpha` updates and `break` returns exactly `MaxLoop` over the child searches. |
| Search.MinMoves | js/ai.js:74-82 | The minimising loop with its `beta` updates and `break` returns exactly `MinLoop` over the child searches. |
| Selector.EasyIndex | js/ai.js:93 | `floor(random * n)` is a valid index of the `n` moves. |
| Selector.PermutationFacts | js/ai.js:103 | A shuffle order has one entry per move, each a valid index, and lists every index. |
| Selector.Shuffle | js/ai.js:103 | The shuffled list has one entry per legal move, and each entry is a legal move. |
| Selector.ShuffleMembers | js/ai.js:103 | The shuffled list holds exactly the legal moves. |
| Selector.Occupied | js/ai.js:98 | The count of owned cells over all rows, blocked or not, is 0 iff no cell of any row is owned. |
| Selector.OccupiedBounds | js/ai.js:98 | The occupied count is at most `rows * cols`, and 0 iff no cell is owned. |
| Selector.SearchDepth | js/ai.js:96-100 | The depth is 1, 2 or 5. It is 1 iff the difficulty is neither hard nor hint, and only a hint searches 5. |
| Selector.RatioTest | js/ai.js:98-99 | `occupied / cells > 0.8` iff `5 * occupied > 4 * cells`. |
| Selector.DepthCases | js/ai.js:96-100 | The depth is 2 for hard. For hint it is 5 iff `5 * occupied > 4 * rows * cols`, else 2. Any other difficulty gets 1. |
| Selector.EmptyHintDepth | js/ai.js:97-99 | A hint on a board without owned cells searches 2 plies. |
| Selector.Candidate | js/ai.js:105-106 | A move that wins or loses at once scores exactly its sentinel, whatever the search depth. |
| Selector.CandidateIsMinimax | js/ai.js:106 | A candidate searched at depth above 1 scores exactly its unpruned minimax value. |
| Selector.Pick | js/ai.js:102-108 | The loop keeps a move iff there was a candidate, and the move it keeps is a candidate. |
| Selector.PickStep | js/ai.js:107 | One candidate replaces the best so far exactly when its score is strictly greater. |
| Selector.PickFirstBest | js/ai.js:102-108 | The loop keeps the first candidate whose score is greatest, with that score. |
| Selector.ChooseMove | js/ai.js:86-110 | The result is null iff no cell is a legal move for the player, and any move returned is legal. |
| Selector.EasyPick | js/ai.js:93 | Easy mode returns the legal move at index `floor(random * n)`. |
| Selector.ChosenIsFirstBest | js/ai.js:102-109 | Outside easy mode the move is the first shuffled candidate with the greatest score. |
| Selector.ScoreMove | js/ai.js:105-106 | A candidate is simulated, then searched by `minimax` with the opponent to move, or evaluated at depth 1. |
| Selector.PickBest | js/ai.js:102-108 | The candidate loop computes exactly `Pick` over the candidates' scores. |
| Selector.MakeAIMove | js/ai.js:86-110 | The procedure returns exactly `ChooseMove`. |
| Scenarios.ChainExample | js/ai.js:32-54 | On a 1x3 board with capacity 2, player 0 adds to their left cell holding one orb. The left cell ends empty and unowned, the middle holds one orb of player 0, the right is untouched, and one wave ran. |
| Scenarios.Oscillates | js/ai.js:39-52 | Under any geometry where one wave turns either loaded pair state into the other, the wave loop spends all its fuel and stops with a cell still queued. |
| Scenarios.PairOscillates | js/ai.js:40-52 | Two cells of capacity 1 pass a single orb back and forth. Every wave re-queues the other cell, so the loop spends all its fuel. |
| Scenarios.WaveCapReached | js/ai.js:40 | A reaction that never settles is stopped after exactly 200 waves, with a cell still queued. |

## Left out

- `js/fx.js`, `js/matrix.js` and `js/sound.js` are left out. They hold DOM effects, canvas animation driven by timers and randomness, and audio playback. None of it feeds the engine.
- `capacity` and `neighbors` (`js/board.js`) are not part of this model. They are parameters, and their contract is assumed rather than proved. The scenarios use one concrete geometry: constant capacity and the orthogonally adjacent open cells.
- The distribution of `Math.random` is not modelled. The jitter, the easy-mode index and the shuffle order are arbitrary values of the right kind. Uniformity and shuffle quality are not claimed.
- Floating point is not modelled. Scores, jitter and the occupancy ratio are exact reals, and `0.8` is exactly four fifths.
- `-Infinity` and `Infinity` are the two ends of `Pruning.Ext`, not IEEE values.
- Selector.Shuffle: the shuffle is an injected permutation applied to the move list, which stands for `valid.sort` with a random comparator.
  - The model states that the result keeps exactly the same moves. It does not state that it keeps their multiplicities; the legal moves are distinct anyway.
  - The in-place reordering of the JavaScript array is modelled as a new list. The fallback `valid[0]` is taken from the shuffled list, as in the source.
- Simulation.SimulateBoardState: the JavaScript clone copies each cell object. The model copies cell values into a fresh 2-D array, so the result cannot alias the input.
- The hint occupancy counts every cell whose owner is not -1, blocked or not, over `rows * cols`.
- The jitter is `Math.random() * 0.5`, a value in `[0, 0.5)`.
- Simulation.Simulate: the source does not demand a non-blocked target, so neither does the model. A placement on an obstacle is simulated as written.
