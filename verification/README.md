# A verified model of the snake-playground perft generator

This project is a Dafny model of the turn engine of a Battlesnake-style
grid game, as implemented in Rust by the `perft-generator` crate, together
with three smaller pieces of the same repository:

- the `standard` ruleset of the data generator (`step_board`, `name`,
  `game_over`);
- the integer helpers of the parameter optimiser (coordinate addition, the
  `u128` bit of a cell, `dead`, `manhattan`, `successors`);
- the element-wise vector arithmetic of `linalg`, instantiated at
  mathematical integers.

The perft generator counts the leaves of a game tree. A `Request` holds the
turn counter, the board (size, food, hazards, snakes) and the `you` snake.
`make_moves` plays one joint move: every snake moves, snakes whose stored
head is on food are fed, snakes out of bounds or starved are dropped, and
snakes that collide are dropped, judged against the list the bounds pass
left. `generate_moves_you` and `generate_moves_all` enumerate the moves of
`you` and the joint moves of the other snakes, the latter through a generic
Cartesian product. `perft` alternates the two plies and sums the counts.

The model follows the code as written. In particular:

- `game_over` returns true while `you` is still on the board;
- `apply_move` never updates the stored `head` field, and everything that
  reads `head` reads the stale value;
- both plies of `perft` spend one unit of depth;
- `make_moves` never changes `turn`;
- the data generator's head deltas are transcribed literally (Up adds 0 to
  `y`, Right adds 1 to `y`).

Both plies decrement `depth` (perft-generator/src/perft.rs:17 and :24), so
`depth` counts plies, not turns.

Rust panics that depend on the data (`unwrap` on a missing move, an index
past the end, a `u8` or `i8` health subtraction below the type's minimum, an
explicit `panic!`, a shift past the width of `u128`) become the `Err` case
of a `Result` and name the kind of panic. A few helpers instead state their
panic condition as a precondition, because every caller meets it; each is
listed under "## Left out". The integer types become subset types of `int` (`U8`, `U32`,
`I8`). The perft generator's mutable `Request` is a class whose methods
update its fields loop by loop, each proved against a function on
snapshot values (`Boards.Turn`). The `perft` recursion is a method proved
against the function `PerftCounting.PerftCount`. The data generator's
`step_board` and the optimiser's `successors` are methods with the
source's loops, each proved against a function. Everything the source
writes as expressions is written as functions and lemmas.

Modules:

| file | module | source |
|---|---|---|
| common.dfy | `Common` | integer ranges, panics, `Result`, `position`, absolute value, subsequences |
| geometry.dfy | `Geometry` | perft-generator/src/coordinate.rs, `manhattan` |
| snake.dfy | `Snakes` | perft-generator/src/snake.rs |
| board.dfy | `Boards` | perft-generator/src/board.rs |
| turn_facts.dfy | `TurnFacts` | properties of `make_moves` |
| cartprod.dfy | `CartesianProducts` | perft-generator/src/cartprod.rs |
| genmove.dfy | `MoveGeneration` | perft-generator/src/genmove.rs |
| perft.dfy | `PerftCounting` | perft-generator/src/perft.rs |
| datagen.dfy | `StandardRules` | datagen/src/standard.rs |
| paramboard.dfy | `ParamBoard` | paramoptimizer/src/board.rs |
| parameval.dfy | `ParamEval` | paramoptimizer/src/eval.rs |
| linalg.dfy | `LinearAlgebra` | linalg/src/lib.rs |

## Model

| member | source | states |
|---|---|---|
| Geometry.Delta | perft-generator/src/coordinate.rs:27-32 | every direction's offset is a unit vector |
| Geometry.Translate | perft-generator/src/coordinate.rs:26-34 | the translated cell differs from the start and shares a row or a column with it |
| Geometry.TranslateCases | perft-generator/src/coordinate.rs:27-33 | Up adds (0,+1), Down (0,-1), Left (-1,0), Right (+1,0) |
| Geometry.TranslateOpposite | perft-generator/src/coordinate.rs:28-33 | moving one way and then the opposite way returns to the start, so `(c + Up) + Down == c` and `(c + Left) + Right == c` |
| Geometry.NeighboursDistinct | perft-generator/src/coordinate.rs:28-31 | two directions give the same neighbour exactly when they are the same direction |
| Geometry.TranslateIsUnitStep | perft-generator/src/coordinate.rs:26-34 | a translation is at Manhattan distance 1 from its start and changes the distance to any cell by exactly one |
| Geometry.CoordinateLessIsStrictTotal | perft-generator/src/coordinate.rs:3-7 | the derived order, `x` first and then `y`, is irreflexive, transitive, total and asymmetric |
| Common.Abs | paramoptimizer/src/eval.rs:154 | the absolute value is `n` or `-n` and never negative |
| Geometry.Manhattan | paramoptimizer/src/eval.rs:153-155 | `manhattan` sums the absolute coordinate differences; that it is a metric is stated by Geometry.ManhattanIsMetric, and that a step changes it by one by Geometry.TranslateIsUnitStep |
| Geometry.ManhattanIsMetric | paramoptimizer/src/eval.rs:153-155 | `manhattan` is non-negative, symmetric, zero exactly on equal cells, and obeys the triangle inequality |
| Snakes.DuplicateTail | perft-generator/src/snake.rs:23-25 | the body gains one cell, a copy of the last one, and nothing else changes |
| Snakes.Feed | perft-generator/src/snake.rs:17-21 | the body is the old body plus a copy of its last cell, health is 100, length is one more, and id and stored head are unchanged |
| Snakes.ApplyMove | perft-generator/src/snake.rs:26-31 | it succeeds exactly when the body has two cells or more and health is at least 1; a shorter body panics on the index, zero health on the subtraction; on success the length of the body is kept, the new first cell is the old first cell translated, the rest is the old body without its tail, health is one less, and id, stored head and length are unchanged |
| Snakes.ApplyMoveTracked | perft-generator/src/snake.rs:26-31 | the same move with the stored head set to the new first cell; it fails exactly when `apply_move` does |
| Snakes.OutOfBounds | perft-generator/src/snake.rs:33-38 | `out_of_bounds` tests the stored head against `[0, width) x [0, height)`; the bounds pass built on it is specified by Boards.Request.EliminateOutOfBounds, TurnFacts.InBoundsOrdered and TurnFacts.InBoundsCounts |
| Snakes.BodyCollision | perft-generator/src/snake.rs:40-42 | `snake_body_collision(a, b)` holds when `a`'s stored head is on `b`'s body behind its first cell; on a moved snake it is characterised by Snakes.TrackedSelfCollision and Snakes.StaleHeadSelfCollision |
| Snakes.LostHeadCollision | perft-generator/src/snake.rs:44-46 | `snake_lost_head_collision(a, b)` holds when the heads meet and `a` is not longer; who loses a meeting is stated by Snakes.HeadToHeadLoser |
| Snakes.HeadToHeadLoser | perft-generator/src/snake.rs:44-46 | in a head-to-head meeting at least one snake loses, both lose at equal length, and only the shorter one loses otherwise |
| Snakes.FeedTimesShape | perft-generator/src/snake.rs:17-21 | feeding `n` times appends `n` copies of the tail cell, adds `n` to the length, sets health to 100 when `n > 0`, and keeps id and head |
| Snakes.TrackedSelfCollision | perft-generator/src/snake.rs:26-31 | with the head tracked, a moved snake hits its own body exactly when the new head lands on a cell it keeps |
| Snakes.StaleHeadSelfCollision | perft-generator/src/snake.rs:26-31 | as written, a snake whose stored head starts on its first cell always hits its own body after a move |
| Common.Collect | perft-generator/src/board.rs:52-55 | a loop of fallible steps succeeds exactly when every step does, and then yields every step's value in order |
| Common.CollectFirstFailure | perft-generator/src/board.rs:52-55 | the loop's panic is the panic of the first failing step |
| Common.FirstIndex | perft-generator/src/board.rs:53 | `position` finds the first index whose element satisfies the predicate, and finds none exactly when no element does |
| Boards.GameOver | perft-generator/src/board.rs:34-48 | the check of `game_over` as written; when it holds is stated by Boards.GameOverIff, and how it departs from its comments by Boards.GameOverInverted |
| Boards.GameOverIff | perft-generator/src/board.rs:34-48 | `game_over` holds exactly when some snake carries `you`'s id or at most one snake is on the board |
| Boards.GameOverInverted | perft-generator/src/board.rs:34-48 | the check the comments describe continues the game exactly while `you` is on the board with an opponent; with two or more snakes the written check answers the opposite |
| Boards.MovePosition | perft-generator/src/board.rs:53 | the move found is the first move carrying the snake's id, and none is found exactly when no move carries it |
| Boards.MoveAll | perft-generator/src/board.rs:52-55 | the movement loop succeeds exactly when every snake finds a move and can apply it; the moved snakes are each snake's first matching move applied, in board order, with bodies of two cells or more |
| Boards.MoveAllFirstFailure | perft-generator/src/board.rs:52-55 | the movement loop panics with the first failing snake's panic |
| Boards.FeedEach | perft-generator/src/board.rs:60-65 | feeding for one food cell only lengthens bodies and keeps ids and stored heads |
| Boards.FeedAll | perft-generator/src/board.rs:58-69 | the feeding loops only lengthen bodies and keep ids and stored heads |
| Boards.FeedStep | perft-generator/src/board.rs:58-70 | one more food cell feeds once more, and the cell is kept exactly when no stored head is on it |
| Boards.SnakePosition | perft-generator/src/board.rs:121 | the index found is the first snake with the id, and none is found exactly when no snake carries it |
| Boards.Turn | perft-generator/src/board.rs:50-124 | `make_moves` panics exactly when the movement loop does, with its panic, and keeps turn, width, height and hazards |
| Boards.Request.Clone | perft-generator/src/perft.rs:15 | the clone has the same value as the request |
| Boards.Request.MakeMoves | perft-generator/src/board.rs:50-124 | the method fails exactly when `Turn` panics, with the same panic, and otherwise leaves the request holding `Turn`'s result |
| Boards.Request.RebindYou | perft-generator/src/board.rs:121-123 | `you` becomes the first snake carrying its id when there is one and is otherwise unchanged; nothing else changes |
| Boards.Request.MoveSnakes | perft-generator/src/board.rs:52-55 | the loop fails exactly when the movement loop panics, with its panic, and otherwise replaces only the snakes, by the moved ones |
| Boards.Request.FeedSnakes | perft-generator/src/board.rs:57-70 | the snakes become the fed snakes and the food the uneaten food; nothing else changes |
| Boards.Request.FeedOn | perft-generator/src/board.rs:59-65 | each snake whose stored head is on the cell is fed, and `eaten` holds exactly when some stored head is on it |
| Boards.Request.EliminateOutOfBounds | perft-generator/src/board.rs:73-85 | the snakes become those in bounds with health left, in order; nothing else changes |
| Boards.Request.HitsOtherBody | perft-generator/src/board.rs:94-100 | the scan reports a hit exactly when some snake with another id has the head on its body behind its first cell |
| Boards.Request.LosesHeadToHead | perft-generator/src/board.rs:106-113 | the scan reports a loss exactly when some snake with another id shares the head and is at least as long |
| Boards.Request.EliminateCollisions | perft-generator/src/board.rs:88-120 | the snakes become those that survive against the list as it stood before the pass, in order; nothing else changes |
| TurnFacts.FeedAllCounts | perft-generator/src/board.rs:57-69 | each snake is fed once per food cell on its stored head, counted with repetition |
| TurnFacts.FeedingOrderIndependent | perft-generator/src/board.rs:57-69 | the fed snakes do not depend on the order of the food list |
| TurnFacts.UneatenShape | perft-generator/src/board.rs:57-70 | a food cell is kept exactly when no stored head is on it, with its multiplicity, and kept cells keep their order |
| TurnFacts.InBoundsOrdered | perft-generator/src/board.rs:73-85 | the bounds pass keeps snakes in their order |
| TurnFacts.InBoundsCounts | perft-generator/src/board.rs:73-85 | the bounds pass keeps exactly the snakes in bounds with health left, each as often as it occurs |
| TurnFacts.SurvivorsOrdered | perft-generator/src/board.rs:88-120 | the collision pass keeps snakes in their order |
| TurnFacts.SurvivorsCounts | perft-generator/src/board.rs:88-120 | the collision pass keeps exactly the snakes that survive against the fixed list, each as often as it occurs |
| TurnFacts.SurvivesSnapshot | perft-generator/src/board.rs:89-117 | survival depends only on which snakes the list holds, not on their order |
| TurnFacts.CollisionOrderIndependent | perft-generator/src/board.rs:88-120 | permuting the snakes before the collision pass permutes the survivors and changes nothing else |
| TurnFacts.TurnOutcome | perft-generator/src/board.rs:50-124 | after a turn the snakes are the fed snakes that are in bounds, have health left and survive the collision checks, in their order; the food is the uneaten food in order; `you` follows its id when it survived and is unchanged otherwise |
| TurnFacts.CoveringMovesSucceed | perft-generator/src/board.rs:52-55 | when every snake has two cells or more, health left and a move with its id, the movement loop does not panic |
| TurnFacts.EliminateKeepsWellFormed | perft-generator/src/board.rs:72-120 | the snakes both elimination passes keep have bodies of two cells or more and health left |
| TurnFacts.TurnKeepsWellFormed | perft-generator/src/board.rs:50-124 | on such a board a covering joint move never panics, and the next board is again such a board |
| TurnFacts.SelfCollidersAllDie | perft-generator/src/board.rs:89-92 | a list whose every snake hits its own body has no survivors |
| TurnFacts.StaleHeadsSelfCollide | perft-generator/src/board.rs:52-65 | as written, when every stored head starts on its first cell, every snake hits its own body after moving and feeding |
| TurnFacts.StaleHeadEmptiesBoard | perft-generator/src/board.rs:50-120 | as written, when every stored head starts on its first cell, a turn that does not panic removes every snake |
| TurnFacts.StaleHeadExample | perft-generator/src/board.rs:50-120 | as written, a lone two-cell snake with health 5 moving Up into an empty cell completes the turn and is removed |
| CartesianProducts.Extend | perft-generator/src/cartprod.rs:22-31 | the extensions of `xs` are `xs ++ [b[j]]` for each `j`, in order |
| CartesianProducts.PartialCartesian | perft-generator/src/cartprod.rs:20-33 | `partial_cartesian` extends every tuple of `a` by every item of `b`; its length, order and members are stated by CartesianProducts.PartialCartesianLength, CartesianProducts.PartialCartesianAt and CartesianProducts.PartialCartesianMembers |
| CartesianProducts.PartialCartesianLength | perft-generator/src/cartprod.rs:20-33 | `partial_cartesian(a, b)` has `|a| * |b|` tuples |
| CartesianProducts.PartialCartesianAt | perft-generator/src/cartprod.rs:20-33 | tuple `k * |b| + j` is `a[k] ++ [b[j]]`, so the order is `a`-major |
| CartesianProducts.ExtendMembers | perft-generator/src/cartprod.rs:22-31 | a tuple is an extension of `xs` exactly when it is `xs` followed by an item of `b` |
| CartesianProducts.PartialCartesianMembers | perft-generator/src/cartprod.rs:20-33 | a tuple is in the partial product exactly when it is a tuple of `a` followed by an item of `b` |
| CartesianProducts.Singletons | perft-generator/src/cartprod.rs:54 | each item of the first list becomes a one-item tuple, in order |
| CartesianProducts.FoldPartialLength | perft-generator/src/cartprod.rs:56-58 | folding the partial products multiplies the number of tuples by each list's length |
| CartesianProducts.FoldPartialMembers | perft-generator/src/cartprod.rs:56-58 | folding the partial products yields exactly the tuples that pick one item from each list |
| CartesianProducts.CartesianProduct | perft-generator/src/cartprod.rs:51-63 | `cartesian_product` folds the partial products over the lists; its length and members are stated by CartesianProducts.CartesianProductLength and CartesianProducts.CartesianProductMembers |
| CartesianProducts.CartesianProductLength | perft-generator/src/cartprod.rs:51-63 | the product of no lists is empty; otherwise it has as many tuples as the product of the lengths |
| CartesianProducts.EmptyFactor | perft-generator/src/cartprod.rs:51-63 | one empty list makes the product of the lengths zero |
| CartesianProducts.CartesianProductMembers | perft-generator/src/cartprod.rs:51-63 | a tuple is in the product exactly when it has one item per list and its `i`-th item is in the `i`-th list |
| CartesianProducts.PartialCartesianExample | perft-generator/src/cartprod.rs:8-18 | the documented example of `partial_cartesian` yields the eight listed tuples in the listed order |
| CartesianProducts.CartesianProductExample | perft-generator/src/cartprod.rs:40-49 | the documented example of `cartesian_product` yields the eight listed tuples in the listed order |
| MoveGeneration.GenerateMovesYou | perft-generator/src/genmove.rs:6-11 | nothing once `game_over` holds, otherwise `you`'s own moves |
| MoveGeneration.Others | perft-generator/src/genmove.rs:18-22 | the other snakes are board snakes with another id, no more than the board holds |
| MoveGeneration.OthersShape | perft-generator/src/genmove.rs:18-22 | a snake is among the others exactly when it is on the board with an id other than `you`'s, and the others keep their board order |
| MoveGeneration.OtherMoveLists | perft-generator/src/genmove.rs:17-22 | one move list per other snake, in board order |
| MoveGeneration.GenerateMovesAll | perft-generator/src/genmove.rs:13-25 | the push loop and the product give the joint moves: nothing once `game_over` holds, otherwise the product of the other snakes' lists and `[you_move]` |
| MoveGeneration.OthersWithoutYou | perft-generator/src/genmove.rs:18-22 | when no snake carries `you`'s id, every snake is one of the others |
| MoveGeneration.MoveSets | perft-generator/src/genmove.rs:13-25 | `move_sets` builds the joint moves of the other snakes followed by `you_move`; their number and contents are stated by MoveGeneration.MoveSetCount and MoveGeneration.MoveSetMembers |
| MoveGeneration.MoveSetCount | perft-generator/src/genmove.rs:17-24 | there are no joint moves once `game_over` holds, and otherwise as many as the product of the other snakes' move counts |
| MoveGeneration.MoveSetMembers | perft-generator/src/genmove.rs:17-24 | a joint move has one move per other snake from that snake's list, in board order, followed by `you_move`, and every such sequence is one |
| MoveGeneration.UniformMoveSetCount | perft-generator/src/genmove.rs:18-24 | when every snake has `n` moves there are `n` to the number of other snakes joint moves |
| MoveGeneration.YouOnBoardNoMoves | perft-generator/src/genmove.rs:6-16 | as written, while `you` is on the board neither generator proposes anything |
| PerftCounting.Combine | perft-generator/src/perft.rs:14-19 | adding to the running sum keeps a panic already met, takes a panic met now, and otherwise adds |
| PerftCounting.SumRepliesStops | perft-generator/src/perft.rs:14-19 | once one pass of the pending-move loop panics, the loop ends with that panic |
| PerftCounting.SumProposalsStops | perft-generator/src/perft.rs:23-26 | once one pass of the proposing loop panics, the loop ends with that panic |
| PerftCounting.PerftCount | perft-generator/src/perft.rs:6-29 | the leaf count of the two-ply search; its values are stated by PerftCounting.PerftDepthZero, PerftCounting.PerftGameOver, PerftCounting.PerftOneProposal, PerftCounting.PerftOneReply and PerftCounting.PerftNoPanic |
| PerftCounting.Perft | perft-generator/src/perft.rs:6-29 | the method computes `PerftCount` and, having no `modifies` clause, leaves the request unchanged |
| PerftCounting.CountReplies | perft-generator/src/perft.rs:14-19 | the pending-move loop sums the counts below each joint move, in order, stopping at the first panic |
| PerftCounting.PlayReply | perft-generator/src/perft.rs:15-17 | one pass plays the joint move on a clone and counts below it with no pending move |
| PerftCounting.CountProposals | perft-generator/src/perft.rs:23-26 | the proposing loop sums the counts below each move of `you`, in order, stopping at the first panic |
| PerftCounting.PerftDepthZero | perft-generator/src/perft.rs:7-9 | depth 0 counts one leaf |
| PerftCounting.PerftGameOver | perft-generator/src/perft.rs:12-28 | past depth 0, a position where `game_over` holds counts no leaves, in either ply |
| PerftCounting.PerftYouOnBoard | perft-generator/src/perft.rs:6-29 | as written, past depth 0 a position with `you` on the board counts no leaves |
| PerftCounting.PerftOneProposal | perft-generator/src/perft.rs:22-27 | one proposing ply counts the moves of `you` |
| PerftCounting.MoveSetsCover | perft-generator/src/genmove.rs:17-24 | when each snake's move list only holds its own moves, every joint move has a move for every snake on the board |
| PerftCounting.PerftNoPanic | perft-generator/src/perft.rs:6-29 | on a board whose snakes have two cells or more and health left, with move lists holding only each snake's own moves, the search never panics |
| PerftCounting.PerftOneReply | perft-generator/src/perft.rs:13-20 | on such a board one pending-move ply counts the joint moves: the product of the other snakes' move counts |
| StandardRules.Decimal | datagen/src/standard.rs:15 | the decimal form of a number is a non-empty digit string without a leading zero |
| StandardRules.DecimalRoundTrip | datagen/src/standard.rs:15 | reading the digits back gives the number |
| StandardRules.Name | datagen/src/standard.rs:14-16 | the ruleset's name for a number of players; its parts are stated by StandardRules.NameParts, and that it is injective by StandardRules.NamesDistinguishPlayers |
| StandardRules.NameParts | datagen/src/standard.rs:14-16 | the name is `standard_`, then digits that read back as the number of players, then `_players` |
| StandardRules.NamesDistinguishPlayers | datagen/src/standard.rs:14-16 | different numbers of players give different names |
| StandardRules.GameOver | datagen/src/standard.rs:84-86 | the ruleset never ends a game |
| StandardRules.Shift | datagen/src/standard.rs:40-45 | the head offsets as written; what they do per direction is stated by StandardRules.ShiftAsWritten |
| StandardRules.ShiftAsWritten | datagen/src/standard.rs:40-45 | as written, Up leaves the head in place and Right moves it along `y`; only Down and Left agree with the coordinate translation |
| StandardRules.IntendedShiftIsUnitStep | datagen/src/standard.rs:40-45 | the intended offsets move the head exactly one cell, in four different directions |
| StandardRules.Slither | datagen/src/standard.rs:47-48 | the body keeps its length, starts with the new head and continues with the old body without its tail |
| StandardRules.MoveOne | datagen/src/standard.rs:36-48 | a move succeeds exactly when its index is on the board and names a live snake with a body; moving a dead snake panics; success replaces only that snake |
| StandardRules.MoveAll | datagen/src/standard.rs:35-49 | the movement loop keeps the number of snakes, their liveness, body lengths and health |
| StandardRules.MoveAllStopsAtPanic | datagen/src/standard.rs:35-49 | once a move panics, the later moves never run |
| StandardRules.MoveOneOthersUnchanged | datagen/src/standard.rs:47-48 | a move leaves every other snake as it was |
| StandardRules.Drain | datagen/src/standard.rs:52-57 | the health loop keeps the number of snakes, their liveness and body lengths |
| StandardRules.DrainPointwise | datagen/src/standard.rs:52-57 | the health loop panics exactly when a live snake is at -128, with a subtraction panic; otherwise each live snake has one point less and each dead snake is as it was |
| StandardRules.Grow | datagen/src/standard.rs:65-66 | feeding sets health to 100 and appends a copy of the tail cell |
| StandardRules.FeedEach | datagen/src/standard.rs:63-69 | every live snake with its head on the food grows, and every other snake is unchanged |
| StandardRules.FeedAll | datagen/src/standard.rs:61-73 | the feeding loops keep liveness and heads and only lengthen bodies |
| StandardRules.GrowTimesShape | datagen/src/standard.rs:63-69 | growing `n` times appends `n` copies of the tail cell and sets health to 100 when `n > 0` |
| StandardRules.FeedAllCounts | datagen/src/standard.rs:60-74 | each live snake grows once per food item on its head, counted with repetition, and dead snakes are unchanged |
| StandardRules.UneatenShape | datagen/src/standard.rs:60-74 | a food item is kept exactly when no live head is on it, and kept items keep their order |
| StandardRules.StepBoard | datagen/src/standard.rs:21-82 | the method computes `StepOutcome`: the board unchanged for no moves, otherwise validated, moved, starved, fed and topped up with food |
| StandardRules.CheckBodies | datagen/src/standard.rs:26-33 | the validation passes exactly when every live snake has a body |
| StandardRules.MoveSnakes | datagen/src/standard.rs:35-49 | the movement loop computes `MoveAll` |
| StandardRules.ReduceHealth | datagen/src/standard.rs:52-57 | the health loop computes `Drain` |
| StandardRules.FeedSnakes | datagen/src/standard.rs:60-74 | the feeding loops compute the fed snakes and the uneaten food |
| StandardRules.FeedOne | datagen/src/standard.rs:62-72 | the inner loop grows each live snake with its head on the food, and `eaten` holds exactly when there is one |
| StandardRules.StepWithoutMoves | datagen/src/standard.rs:22-24 | no moves return the board unchanged |
| StandardRules.StepPanicsOnEmptyBody | datagen/src/standard.rs:25-33 | with moves, the step panics with "Zero length snake" exactly when a live snake has an empty body |
| StandardRules.MoveAllPanics | datagen/src/standard.rs:35-49 | the movement loop only panics on an index past the snakes or a dead snake |
| StandardRules.StepRejectsDeadSnake | datagen/src/standard.rs:36-38 | a first move aimed at a dead snake makes the step panic with "Tried to move dead snake" |
| StandardRules.StepOutcome | datagen/src/standard.rs:21-82 | the result of one standard step; its cases are stated by StandardRules.StepWithoutMoves, StandardRules.StepPanicsOnEmptyBody, StandardRules.StepRejectsDeadSnake and StandardRules.StepOutcomeShape |
| StandardRules.StepOutcomeShape | datagen/src/standard.rs:21-74 | every snake keeps its liveness; a live snake that reached no food has one health point less and an unchanged length; one that reached food has health 100; a dead snake is unchanged |
| StandardRules.DeadStayPut | datagen/src/standard.rs:35-49 | the movement loop never changes a dead snake |
| ParamBoard.Plus | paramoptimizer/src/board.rs:24-29 | coordinate addition; its algebra is stated by ParamBoard.PlusProperties |
| ParamBoard.PlusProperties | paramoptimizer/src/board.rs:24-29 | coordinate addition is component-wise: it translates by a direction's offset, is commutative and associative, and has the origin as identity |
| ParamBoard.CoordBit | paramoptimizer/src/board.rs:95-99 | the bit of a cell exists exactly when its shift is in `0..128`, and then exactly one bit is set |
| ParamBoard.BitIndexOnBoard | paramoptimizer/src/board.rs:95-99 | on the 11 by 11 board the shift lies in `[0, 120]`, and different cells have different shifts |
| ParamBoard.CoordBitsDistinct | paramoptimizer/src/board.rs:95-99 | two board cells share a bit exactly when they are the same cell |
| ParamBoard.OthersShape | paramoptimizer/src/board.rs:107-112 | the other snakes are exactly the snakes with another id, in board order |
| ParamBoard.Dead | paramoptimizer/src/board.rs:103-135 | an empty own body panics; zero health or a head off the board means dead; the only other panic is an index panic |
| ParamBoard.DeadMatchesRules | paramoptimizer/src/board.rs:103-135 | `dead` applies the perft generator's rules against the first other snake (bounds, body collision, lost head-to-head, own body), and panics exactly when it needs that snake and there is none or its body is empty |
| ParamBoard.DeadFalseExactly | paramoptimizer/src/board.rs:114-134 | `dead` is false exactly for a healthy snake on the board whose head touches neither the first other snake's body nor its own, and which meets no at least as long head |
| ParamBoard.DeadReadsFirstOtherOnly | paramoptimizer/src/board.rs:122-129 | the snakes after the first other snake, and the food, never change the verdict |
| ParamEval.Candidates | paramoptimizer/src/eval.rs:121-132 | four candidate cells |
| ParamEval.Weighted | paramoptimizer/src/eval.rs:149 | every cell is paired with weight 1, in order |
| ParamEval.Successors | paramoptimizer/src/eval.rs:119-150 | the loops return the open candidates, in candidate order, each with weight 1 |
| ParamEval.CandidatesAreNeighbours | paramoptimizer/src/eval.rs:121-132 | the candidates are the four neighbours Up, Down, Left, Right, in that order |
| ParamEval.FilterOpen | paramoptimizer/src/eval.rs:136-147 | the filter over candidate cells; which cells it keeps and in what order is stated by ParamEval.FilterOpenShape |
| ParamEval.FilterOpenShape | paramoptimizer/src/eval.rs:136-147 | a cell is kept exactly when it is a candidate on the board with its bit clear; kept cells keep their order |
| ParamEval.SuccessorsShape | paramoptimizer/src/eval.rs:119-150 | at most four successors in candidate order, each on the board, with its bit clear and at distance 1; a neighbour is a successor exactly when it is on the board with its bit clear |
| LinearAlgebra.New | linalg/src/lib.rs:18-22 | `size` elements, each equal to `item` |
| LinearAlgebra.Add | linalg/src/lib.rs:39-48 | `self`'s length, element `i` is `self[i] + rhs[i]` |
| LinearAlgebra.Sub | linalg/src/lib.rs:57-66 | `self`'s length, element `i` is `self[i] - rhs[i]` |
| LinearAlgebra.Mul | linalg/src/lib.rs:75-84 | `self`'s length, element `i` is `self[i] * rhs[i]` |
| LinearAlgebra.Div | linalg/src/lib.rs:92-101 | `self`'s length, element `i` is `self[i] / rhs[i]` rounded toward zero; every divisor used must be non-zero |
| LinearAlgebra.TruncDiv | linalg/src/lib.rs:98 | Rust's `/` on integers, rounding toward zero; its remainder is stated by LinearAlgebra.TruncDivRemainder |
| LinearAlgebra.TruncDivRemainder | linalg/src/lib.rs:98 | the truncating quotient leaves a remainder with the dividend's sign, smaller than the divisor in magnitude; `-7 / 2` is `-3` |
| LinearAlgebra.TruncDivOfProduct | linalg/src/lib.rs:98 | a product divided by one factor gives back the other |
| LinearAlgebra.SubUndoesAdd | linalg/src/lib.rs:39-66 | subtracting what was added gives the vector back |
| LinearAlgebra.DivUndoesMul | linalg/src/lib.rs:75-101 | dividing by what was multiplied by, with no zero divisor, gives the vector back |
| LinearAlgebra.Dot | linalg/src/lib.rs:24-30 | `dot` over the first `|self|` elements; its value and algebra are stated by LinearAlgebra.DotIsSumOfProducts, LinearAlgebra.DotSymmetric and LinearAlgebra.DotDistributesOverAdd |
| LinearAlgebra.DotIsSumOfProducts | linalg/src/lib.rs:24-30 | `dot` is the sum of the element-wise product, and zero for the empty vector |
| LinearAlgebra.DotSymmetric | linalg/src/lib.rs:24-30 | on equal lengths `dot` is symmetric |
| LinearAlgebra.DotIgnoresTail | linalg/src/lib.rs:24-30 | only the first `|self|` elements of `rhs` matter |
| LinearAlgebra.DotDistributesOverAdd | linalg/src/lib.rs:24-48 | `dot` distributes over vector addition |
| LinearAlgebra.DotWithConstant | linalg/src/lib.rs:18-30 | a constant vector dotted with `v` scales the sum of `v`'s first elements |

## Left out

- `Snake::get_moves` is not part of this model. Every member that needs it takes it as the function parameter `getMoves`, and nothing is assumed about it except, where stated, that a snake's list only holds moves with its own id.
- `Snake` fields `name`, `latency`, `shout` and `squad` are carried unchanged by every operation and are not modelled. Hazards are carried and never read.
- The food placement of `step_board` (`check_food_needed`, `place_food_randomly`) is random and not part of this model. The two calls are the parameters `foodNeeded` and `placeFood`.
- `Board::create_default`, `generate_board`, the data generator's driver and trait objects, the perft command line, and the optimiser's `score`, `optimize`, `Status` conversion and file and database I/O are outside the model: floating point, foreign libraries and I/O.
- Geometry.Translate: coordinates are unbounded integers; the `i32` overflow of a translation is not modelled, because no board coordinate comes near the limit.
- Geometry.Manhattan: the `i32` overflow of `abs` and the sum is not modelled, for the same reason.
- ParamBoard.Plus: the `i32` overflow of the addition is not modelled.
- ParamBoard.CoordBit: a `u128` is modelled as the set of the positions of its one bits. `1 << k` is `{k}` and `bb & b != 0` is a non-empty intersection. The bit-level encoding is not modelled.
- Snakes.Feed: `length` is a `usize` and its overflow is not modelled.
- PerftCounting.Perft: the `u64` sum is an unbounded natural number, and its overflow is not modelled.
- LinearAlgebra.Add, LinearAlgebra.Sub, LinearAlgebra.Mul, LinearAlgebra.Dot: the vectors hold mathematical integers, so `i32` overflow is not modelled.
- LinearAlgebra.Div: at `i32`, `i32::MIN / -1` overflows; at mathematical integers it does not, and the model does not include that panic.
- Boards.Request.MakeMoves: after a panic the contract does not state what the fields hold, because the source's process ends there and nothing reads them.
- Subtraction below the minimum of the `u8` and `i8` health counters (`Snakes.ApplyMove`, `StandardRules.Drain`) is modelled as a panic, as in a debug build. A release build would wrap around instead. The `i32` coordinate arithmetic is not checked for overflow at all (see the lines above and below).
- StandardRules.Shift: the `i32` overflow of the head update (`new_head.y -= 1`, `new_head.x -= 1`, `new_head.y += 1`) is not modelled.
- Snakes.DuplicateTail, Snakes.Feed: require a body of at least one cell instead of modelling the panic of `last().unwrap()` on an empty body; every caller passes a snake that has just moved, whose body has two cells or more.
- Snakes.BodyCollision: requires the other snake's body to have at least one cell instead of modelling the panic of slicing `body[1..]` on an empty body; every caller meets it.
- StandardRules.Slither, StandardRules.Grow: require a body of at least one cell instead of modelling the index and `unwrap` panics; `step_board` panics with "Zero length snake" before any live snake with an empty body reaches them, and `StandardRules.MoveOne` reports that case as an error.
- LinearAlgebra.Add, LinearAlgebra.Sub, LinearAlgebra.Mul, LinearAlgebra.Div, LinearAlgebra.Dot: require `rhs` to be at least as long as `self` (`Fits`) instead of modelling the index panic of `rhs.inner[idx]` past the end.
- LinearAlgebra.Div: requires every divisor it uses to be non-zero (`NonZeroDivisors`) instead of modelling the division-by-zero panic.
- StandardRules.Snake: the `alive` flag is read by `step_board` (datagen/src/standard.rs:27, 36, 53, 64) but not declared in the `Snake` of datagen/src/board.rs:20-23; the model takes the field from its uses.
- ParamEval.Successors: the `board` argument is never read by the source, and the model keeps it only as an unused parameter.

## Findings

The model of the repository follows the code as written. Each finding
below also has a corrected definition, which is proved to have the
evidently intended property and stands beside the as-written model.

| source | as written | input that shows it | evidently intended | confidence | as-written member | corrected member |
|---|---|---|---|---|---|---|
| perft-generator/src/snake.rs:26-31 | `apply_move` moves the body but never the stored `head`, which every later check reads | a snake with body `[(1,1),(1,0)]`, head `(1,1)`, health 5, moving Up: the body becomes `[(1,2),(1,1)]` and the stale head `(1,1)` lies on `body[1..]`, so it collides with itself and the turn removes it (`TurnFacts.StaleHeadExample`); `TurnFacts.StaleHeadEmptiesBoard` shows that every turn then removes every snake | the head moves to the new first cell (`Snakes.ApplyMoveTracked`), and a snake collides with itself only when the new head lands on a cell it keeps (`Snakes.TrackedSelfCollision`) | high; not executed | Snakes.StaleHeadSelfCollision | Snakes.ApplyMoveTracked |
| perft-generator/src/board.rs:36-38 | `game_over` returns true when some snake carries `you`'s id, although the check is meant to detect that `you` is dead | a board with two snakes, one of them `you`: `game_over` holds, both move generators return nothing and `perft` counts 0 past depth 0 (`PerftCounting.PerftYouOnBoard`) | over when `you` is absent or at most one snake is left; `Boards.GameOverInverted` proves the game then goes on exactly while `you` is on the board with an opponent | high; not executed | MoveGeneration.YouOnBoardNoMoves | Boards.GameOverInverted |
| datagen/src/standard.rs:41-44 | Up adds 0 to `y` and Right adds 1 to `y` | a head at `(3,3)` moving Up stays at `(3,3)`; moving Right it goes to `(3,4)`, the cell Up should reach | Up adds 1 to `y` and Right adds 1 to `x`, a unit step in four different directions (`StandardRules.IntendedShiftIsUnitStep`) | medium; not executed | StandardRules.ShiftAsWritten | StandardRules.IntendedShiftIsUnitStep |
