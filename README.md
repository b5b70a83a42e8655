# Snake with levels — a Dafny model of its game logic

`src/snake.jsx` is a single React component: a snake moving on a square grid
of `gridSize` cells a side (20, or 15 on narrow screens). The player picks a
starting level from 1 to 12. Each level has its own wall layout. Eating food
grows the snake and scores one. A level is complete at `3 + 2 * level` points,
and "Next Level" then moves on to the next one. Moving into a wall (as the
unwrapped head sees it) or into the snake's own body ends the game. On levels
1 and 2 the snake wraps around the edges; from level 3 on, the border ring is
walled.

The model has five modules.

- `Grid` (`grid.dfy`): cells and unit moves, the border ring and the wrap that
  levels 1 and 2 apply to a new head.
- `Levels` (`levels.dfy`): the wall layouts of `generateLevelWalls`, in three
  forms:
  - `LevelWalls(lvl, n)` is the exact array the game builds, with the push
    order and the duplicate cells. It is made from one recursive function per
    loop shape.
  - `WallAt(lvl, n, p)` says declaratively which cells are walls.
  - `GenerateLevelWalls` builds the array with the game's loops and is proved
    equal to `LevelWalls`.
- `Placement` (`placement.dfy`):
  - the score target;
  - the safe start search, at most 100 attempts and then the centre;
  - the rejection-sampling food search.
- `Input` (`input.dfy`): how an arrow key or a swipe changes the pending
  direction.
- `Game` (`game.dfy`):
  - `GameState` holds every state variable that the logic reads or writes.
  - `AfterTick`, `AfterStart`, `AfterNextLevel`, `AfterReset`, `AfterKey` and
    `AfterSwipe` say what one interval callback, one button or one input
    event does to it.
  - `ValidState` is the invariant that every reachable state keeps.
  - `SnakeGame` is the component's state as a class. Its methods update the
    fields step by step as the handlers do, and each is proved to produce
    exactly the matching `After…` state.

`Math.random` becomes sequences of draws that the caller supplies. A safe
start draw stands for the pair `Math.floor(Math.random() * (n - 6))`. A food
draw stands for the pair `Math.floor(Math.random() * n)`.
`Math.floor(n * 0.pp)` is written `n * pp / 100` in exact integer arithmetic.

In these places the code behaves in ways a reader might not expect; the
model keeps the behaviour as written:

- The arrow-key and swipe guards compare against the pending direction, not
  against the direction of the last move. Two presses between ticks can
  therefore reverse the snake (`Input.TwoKeysReverse`,
  `Game.QuickReversalCollides`).
- The level-8 plus loops over the half-open range `[c - l, c + l)` and skips
  indices within 2 of the centre. On the 20 grid only the left and upper arms
  get a cell, and on the 15 grid the plus is empty
  (`Levels.Level8PlusAsWritten`).
- The second bracket loop of level 11 puts its vertical arm on rows
  `[m - d - l, m - d)`, not beside the top bar (`Levels.Level11BracketsAsWritten`).
- The wall test looks at the head before the wrap. On level 2 a snake that
  leaves the grid and re-enters on a wall cell of the opposite edge lives on
  (`Game.WallTestBeforeWrap`).
- The food search has no bound. The model runs the same search over the draws
  it is given, and the operations that use it require that a free cell is
  among them (`TickFoodSupplied`, `LevelFoodSupplied`).

## Model

| member | source | states |
|---|---|---|
| Grid.Wrap | src/snake.jsx:388-393 | the wrap of a new head: on a grid of at least one cell the result is always on the grid, and equals the head exactly when the head was already on the grid |
| Levels.LevelWalls | src/snake.jsx:75-312 | the wall array of a level, push order and duplicates included; empty at level 1 and below, and at least the 4 * n border pushes from level 3 up |
| Levels.WallAt | src/snake.jsx:75-312 | which cells are walls of a level: the corner brackets on level 2, the border ring and the level's obstacles from level 3 up, nothing otherwise (tied to the array by `Levels.LevelWallsCells`) |
| Placement.RequiredScore | src/snake.jsx:46-48 | the food a level needs, `3 + 2 * level`: at least 5 from level 1 up, and always odd |
| Placement.FirstSafe | src/snake.jsx:55-70 | the candidate of the first draw that keeps Manhattan distance 4 from every wall; whatever it returns is such a candidate of some draw |
| Placement.SafeStartPosition | src/snake.jsx:50-73 | the start cell: the first safe candidate among the first 100 draws, otherwise the centre; it is never near a wall unless it is the centre |
| Placement.FirstFree | src/snake.jsx:423-435 | the first draw that is neither a snake segment nor a wall, or None when every draw is taken (characterised by `Placement.FirstFreeIsFirst`); with the start cell as the snake it is also the food search of lines 451-460 and 476-485 |
| Input.KeyDirection | src/snake.jsx:325-333 | the pending direction after a key: unchanged for any key but the four arrows, and otherwise either unchanged or that arrow's move |
| Input.SwipeDirection | src/snake.jsx:347-359 | the pending direction after a swipe: unchanged, or the horizontal or vertical unit move in the sign of the swipe |
| Game.AfterTick | src/snake.jsx:374-417 | the state after one interval callback; it never changes the grid size, level, walls or pending direction, and never shortens the snake or lowers the score |
| Game.EnterLevel | src/snake.jsx:437-487 | the state after entering a level: that level, a one-segment snake, zero score and the completion flag cleared |
| Game.AfterStart | src/snake.jsx:437-462 | the state after "Start Game": running, on the selected start level |
| Game.AfterNextLevel | src/snake.jsx:464-487 | the state after "Next Level": the following level, with the started and game-over flags kept |
| Game.AfterReset | src/snake.jsx:489-500 | the state after "Play Again" or "End Game": not running, level 1, start level 1, same grid size |
| Game.AfterKey | src/snake.jsx:318-334 | the state after a key press: at most the pending direction changes, and nothing changes outside the running phase |
| Game.AfterSwipe | src/snake.jsx:318-360 | the state after a swipe: at most the pending direction changes, and nothing changes outside the running phase |
| Grid.WrapStepInBounds | src/snake.jsx:388-393 | a wrapped unit step from a cell of the grid lands on the grid, and a step that stays on the grid is not moved |
| Grid.WrapOppositeEdge | src/snake.jsx:388-393 | a head one cell outside an edge re-enters on the opposite edge; any other coordinate is kept |
| Grid.InteriorStep | src/snake.jsx:94-99 | from a cell off the border ring a unit step stays on the grid and leaves the interior only onto the ring |
| Levels.PerimeterCells | src/snake.jsx:94-99 | the border loop pushes exactly the cells of the border ring |
| Levels.CornersCells | src/snake.jsx:81-93 | the level-2 loop pushes exactly the border-edge cells within `max(2, 15%)` of a corner |
| Levels.Level4Cells | src/snake.jsx:100-112 | the level-4 nested loops push exactly the square of side `max(1, 10%)` whose largest corner is the centre |
| Levels.Level6Cells | src/snake.jsx:124-144 | level 6 adds exactly the bars on rows 30% and 65% over columns [15%, 35%) and [65%, 85%) |
| Levels.Level7Cells | src/snake.jsx:145-165 | level 7 adds exactly the transposed bars, on columns 30% and 65% |
| Levels.Level8Cells | src/snake.jsx:166-187 | level 8 adds exactly the admitted plus cells and the four quarter cells |
| Levels.Level9Cells | src/snake.jsx:188-214 | level 9 adds exactly the bars on rows 35% and 60% and the two-cell nubs on rows 20% and 75% |
| Levels.Level10Cells | src/snake.jsx:215-240 | level 10 adds exactly the bars on rows 30% and 65% and the centre-column cells on rows 40% and 55% |
| Levels.BracketCells | src/snake.jsx:251-269 | the four bracket loops push exactly the eight arm segments where the loops put them |
| Levels.Level11Cells | src/snake.jsx:241-276 | level 11 adds exactly the bracket cells and the centre bar over [30%, 70%) |
| Levels.Level12Cells | src/snake.jsx:277-308 | levels from 12 up add exactly the full bars on rows 20% and 75% and the split bars on rows 40% and 60% |
| Levels.ObstacleCells | src/snake.jsx:100-308 | what a level from 3 up pushes after its ring is exactly its declarative obstacle set |
| Levels.LevelWallsCells | src/snake.jsx:75-312 | a cell is in the wall array of a level exactly when `WallAt` holds for it |
| Levels.Level1Empty | src/snake.jsx:79-80 | level 1, and any level below it, has no walls |
| Levels.PerimeterWalled | src/snake.jsx:94-308 | every level from 3 up walls in every cell of the border ring |
| Levels.Level3IsPerimeter | src/snake.jsx:94-99 | level 3 is 4 * n pushes whose cells are exactly the border ring |
| Levels.Level3DistinctCells | src/snake.jsx:94-99 | those 4 * n pushes name exactly 4 * n - 4 distinct cells |
| Levels.Level3On20Grid | src/snake.jsx:94-99 | on the 20 grid level 3 pushes 80 cells, 76 of them distinct |
| Levels.LaterLevelsRepeat | src/snake.jsx:277-308 | every level from 12 up has exactly the layout of level 12 |
| Levels.Level2OnBorderLines | src/snake.jsx:81-93 | every level-2 wall lies on a border row or column, and on the grid |
| Levels.Level2CoversCorners | src/snake.jsx:81-93 | for each k below the bracket size, all eight cells k from a corner along the edges are walls |
| Levels.Level8PlusClear | src/snake.jsx:172-180 | every plus cell is on the grid and more than Manhattan distance 2 from the centre |
| Levels.Level8PlusAsWritten | src/snake.jsx:172-180 | on the 20 grid the plus has its left and upper cells but not the mirrored ones; on the 15 grid it is empty |
| Levels.Level11BracketsAsWritten | src/snake.jsx:251-259 | on the 20 grid, column 15 has a wall on row 12 but not on row 5, while both top arms reach row 4 |
| Levels.AppendPerimeter | src/snake.jsx:96-99 | the border loop appends exactly `Perimeter(n)` to the array |
| Levels.AppendCorners | src/snake.jsx:83-92 | the level-2 loop appends exactly its eight cells per offset, in order |
| Levels.AppendSquare | src/snake.jsx:106-112 | the level-4 nested loops append exactly the square's columns, in order |
| Levels.AppendLevel6 | src/snake.jsx:130-144 | the level-6 loops append exactly `Level6Walls(n)` |
| Levels.AppendLevel7 | src/snake.jsx:151-165 | the level-7 loops append exactly `Level7Walls(n)` |
| Levels.AppendLevel8 | src/snake.jsx:172-187 | the level-8 loop and pushes append exactly `Level8Walls(n)` |
| Levels.AppendLevel9 | src/snake.jsx:193-214 | the level-9 loops and pushes append exactly `Level9Walls(n)` |
| Levels.AppendLevel10 | src/snake.jsx:220-240 | the level-10 loops and pushes append exactly `Level10Walls(n)` |
| Levels.AppendLevel11 | src/snake.jsx:248-276 | the level-11 loops append exactly `Level11Walls(n)` |
| Levels.AppendLevel12 | src/snake.jsx:283-308 | the level-12 loops append exactly `Level12Walls(n)` |
| Levels.AppendObstacles | src/snake.jsx:100-308 | the loops after the ring append exactly the level's obstacle array |
| Levels.GenerateLevelWalls | src/snake.jsx:75-312 | builds exactly `LevelWalls(lvl, n)`, whose cells are the `WallAt` cells; no walls at level 1 or below; 4 * n cells at level 3 |
| Placement.RequiredScoreValues | src/snake.jsx:46-48 | the target is 5 at level 1 and 13 at level 5, and grows by 2 per level |
| Placement.FirstSafeIsFirst | src/snake.jsx:55-70 | the search finds nothing exactly when every draw's candidate is near a wall; otherwise the first candidate that is not |
| Placement.SafeStartChosen | src/snake.jsx:50-73 | the start is the first of the first 100 candidates at Manhattan distance 4 or more from every wall, or the centre when none of them is |
| Placement.SafeStartInRange | src/snake.jsx:56-59 | with draws as `Math.random` yields them, the start lies in [3, n - 3) on both axes, or is the centre |
| Placement.GenerateSafeStartPosition | src/snake.jsx:50-73 | the attempt loop returns exactly `SafeStartPosition` |
| Placement.FirstFreeIsFirst | src/snake.jsx:423-435 | the food search finds nothing exactly when every draw is taken; otherwise it finds the first free draw |
| Placement.FoodIsFree | src/snake.jsx:423-435 | the food found is neither a snake segment nor a wall, is one of the draws, and is on the grid when the draws are |
| Placement.GenerateFood | src/snake.jsx:423-435 | the retry loop returns exactly the first free draw, or None when the draws run out |
| Input.KeyNeverReverses | src/snake.jsx:321-334 | a key press keeps the pending direction a unit move and never sets it to its reverse |
| Input.KeyTurnsPerpendicular | src/snake.jsx:321-334 | an arrow key takes effect exactly when it is perpendicular to the pending direction, and its move then becomes the pending direction; other keys change nothing |
| Input.TwoKeysReverse | src/snake.jsx:321-334 | "up" then "left" from a rightward pending direction gives leftward, the reverse |
| Input.SwipeNeverReverses | src/snake.jsx:341-360 | a swipe keeps the pending direction a unit move and never sets it to its reverse |
| Input.SwipeTurnsOnDominantAxis | src/snake.jsx:341-360 | a swipe acts only along its strictly larger axis (vertical on a tie), only beyond 30 that way and only perpendicular to the pending direction, and then moves the swipe's way |
| Input.DiagonalSwipeIsVertical | src/snake.jsx:347-359 | an equal horizontal and vertical swipe is read as vertical |
| Game.InitialValid | src/snake.jsx:5-17 | the initial state satisfies the invariant and is not running |
| Game.TickOutcomes | src/snake.jsx:374-417 | nothing happens outside the running phase; a collision sets only game over; otherwise the head moves to the landing cell and the snake grows and scores on food, completing the level exactly at the target, or keeps its length; level, walls, direction and start level never change |
| Game.TickFoodIsFirstFree | src/snake.jsx:400-410 | the food a tick places is a free cell and the first free draw |
| Game.WrappedHeadOnGrid | src/snake.jsx:388-393 | on levels 1 and 2 the new head is always on the grid |
| Game.LeavingInteriorHitsWall | src/snake.jsx:383-386 | from level 3 on, a step onto the border ring is a step into a wall and ends the game |
| Game.TickKeepsValid | src/snake.jsx:376-417 | a tick keeps the invariant: distinct on-grid segments, free food, score below the target while running |
| Game.LevelCompletesAtTarget | src/snake.jsx:402-409 | the level completes exactly on the tick whose food brings the score to the target, and the snake keeps the segment it grew |
| Game.TailCellCollides | src/snake.jsx:395-398 | moving onto the cell the tail is about to leave ends the game |
| Game.WallTestBeforeWrap | src/snake.jsx:383-393 | on level 2 an exit at the left edge lands on a right-edge wall cell without ending the game, because walls are tested before the wrap |
| Game.QuickReversalCollides | src/snake.jsx:321-334 | two key presses between ticks turn a two-segment snake back into its neck, and the next tick ends the game |
| Game.EnterLevelKeepsValid | src/snake.jsx:437-487 | entering a level keeps the invariant and gives a one-segment snake off the border ring, zero score, the start direction, the level's walls and food that is free |
| Game.StartKeepsValid | src/snake.jsx:437-462 | "Start Game" enters the selected level in the running phase and keeps the invariant |
| Game.NextLevelKeepsValid | src/snake.jsx:464-487 | "Next Level" enters the following level, keeps both other flags and the invariant, and runs again after a completed level |
| Game.ResetKeepsValid | src/snake.jsx:489-500 | a reset gives level 1 with no walls, start level 1, zero score and the one-segment snake at (10, 10), and keeps the invariant |
| Game.TurnKeepsValid | src/snake.jsx:321-360 | replacing the pending direction by any unit move keeps the invariant |
| Game.PendingTurnKeepsValid | src/snake.jsx:318-360 | a handler that, only while the game runs, sets the pending direction to a unit move other than its reverse keeps the invariant and changes nothing else |
| Game.KeyKeepsValid | src/snake.jsx:318-334 | a key press changes at most the pending direction, never to its reverse, and keeps the invariant |
| Game.SwipeKeepsValid | src/snake.jsx:341-371 | a swipe changes at most the pending direction, never to its reverse, and keeps the invariant |
| Game.SnakeGame.constructor | src/snake.jsx:5-17 | the new component's state is the initial state, which is valid |
| Game.SnakeGame.SelectStartLevel | src/snake.jsx:516-524 | choosing a level from 1 to 12 sets only the start level |
| Game.SnakeGame.Tick | src/snake.jsx:373-420 | one interval callback produces exactly `AfterTick` of the old state and keeps the invariant |
| Game.SnakeGame.Step | src/snake.jsx:376-417 | the callback body, with its early returns, produces exactly `AfterTick` of a running state |
| Game.SnakeGame.Enter | src/snake.jsx:437-487 | building walls, start cell and food as both buttons do produces exactly `EnterLevel` |
| Game.SnakeGame.StartGame | src/snake.jsx:437-462 | "Start Game" produces exactly `AfterStart` and keeps the invariant |
| Game.SnakeGame.NextLevel | src/snake.jsx:464-487 | "Next Level" produces exactly `AfterNextLevel` and keeps the invariant |
| Game.SnakeGame.Reset | src/snake.jsx:489-500 | "Play Again" and "End Game" produce exactly the initial state and keep the invariant |
| Game.SnakeGame.KeyPress | src/snake.jsx:318-334 | a key press produces exactly `AfterKey` and keeps the invariant |
| Game.SnakeGame.Swipe | src/snake.jsx:341-360 | a swipe produces exactly `AfterSwipe` and keeps the invariant |

## Left out

- Rendering, styling and the DOM wiring of the buttons and the level drop-down are not modelled. Each button becomes a method of `SnakeGame`.
- The window size and `updateDimensions` (lines 20-41) are left out. `gridSize` is a constructor parameter of at least 7 and does not change during a game.
- The cell size is left out, because it only affects drawing.
- React's scheduling is left out: batched state updates, effects that run after a render, and side effects inside the `setSnake` updater. Each handler is one atomic step. The walls effect (lines 314-316) is folded into the invariant `walls == LevelWalls(level, gridSize)`.
- The 400 ms interval timer is left out. Each run of its callback is one call of `Tick`.
- The event-listener plumbing is left out. That the handlers exist only while the game runs is modelled by `AfterKey` and `AfterSwipe` changing nothing outside the running phase.
- `touchStart` and the touch coordinates are left out. A swipe is given directly as its integer displacement `(dx, dy)`.
- The `direction` state variable is written but never read. The model's `direction` is the pending-direction ref that the ticks read.
- `Math.random` is replaced by draws supplied by the caller, as described above.
- Floating-point products `gridSize * 0.pp` are replaced by exact integer fractions. These agree for the grid sizes 15 and 20 that the game uses, but can differ for other sizes.
- Game.SnakeGame.Tick: requires that the food draws hold a free cell when the snake eats without completing the level. The game's search has no bound and would loop forever on a full board.
- Game.SnakeGame.StartGame: requires that the food draws hold a free cell on the new level (`LevelFoodSupplied`), for the same reason.
- Game.SnakeGame.NextLevel: requires that the food draws hold a free cell on the new level (`LevelFoodSupplied`), for the same reason.
- The model does not capture a resize between the two grid sizes during a game.
