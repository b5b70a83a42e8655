/**
 * The game as a state machine. `GameState` holds every state variable the
 * game logic reads or writes; the `After…` functions say what one tick, one
 * button or one input event does to it, and `SnakeGame` is the component's
 * state updated in place by methods proved against those functions.
 */
module Game {
  import opened Grid
  import opened Levels
  import opened Placement
  import opened Input

  /**
   * The component's state. `direction` is the pending-direction slot that
   * ticks read and the input handlers overwrite.
   */
  datatype GameState = GameState(
    gridSize: int,
    gameStarted: bool,
    gameOver: bool,
    showLevelComplete: bool,
    snake: seq<Pos>,
    food: Pos,
    direction: Pos,
    score: int,
    level: int,
    selectedStartLevel: int,
    walls: seq<Pos>)

  const StartDirection := Pos(1, 0)
  const HighestStartLevel := 12

  /** The state before the first game and after "Play Again" / "End Game". */
  function Initial(n: int): GameState {
    GameState(n, false, false, false, [Pos(10, 10)], Pos(15, 15), StartDirection, 0, 1, 1, [])
  }

  /** Ticks run, and input is read, only in this phase. */
  predicate Running(s: GameState) {
    s.gameStarted && !s.gameOver && !s.showLevelComplete
  }

  /** Start draws as `Math.floor(Math.random() * (n - 6))` yields them. */
  predicate StartDrawsInRange(draws: seq<Pos>, n: int) {
    forall i :: 0 <= i < |draws| ==> DrawInRange(draws[i], n)
  }

  /**
   * What every reachable state satisfies: the walls are the level's layout,
   * the snake is a non-empty sequence of distinct cells on the grid whose head
   * is off the border ring once the border is walled, at most one of the two
   * end flags is set and only in a started game, and while the game runs the
   * food is a free cell of the grid and the score is below the target.
   */
  predicate ValidState(s: GameState) {
    s.gridSize >= 7 && |s.snake| >= 1 && s.level >= 1 &&
    1 <= s.selectedStartLevel <= HighestStartLevel &&
    IsUnit(s.direction) && s.score >= 0 &&
    s.walls == LevelWalls(s.level, s.gridSize) &&
    NoDuplicates(s.snake) &&
    !(s.gameOver && s.showLevelComplete) &&
    (!s.gameStarted ==> !s.gameOver && !s.showLevelComplete) &&
    (s.gameStarted ==> OnGrid(s.snake, s.gridSize) && (s.level >= 3 ==> Interior(s.snake[0], s.gridSize))) &&
    (Running(s) ==>
      InBounds(s.food, s.gridSize) && s.food !in s.snake && s.food !in s.walls &&
      s.score < RequiredScore(s.level))
  }

  lemma InitialValid(n: int)
    requires n >= 7
    ensures ValidState(Initial(n)) && !Running(Initial(n))
    ensures Initial(n).walls == LevelWalls(Initial(n).level, n)
  {
  }

  // ---------------------------------------------------------------------
  // One tick.
  // ---------------------------------------------------------------------

  /** The head one step along the pending direction, before any wrap. */
  function RawHead(s: GameState): Pos
    requires |s.snake| >= 1
  {
    Add(s.snake[0], s.direction)
  }

  /** The new head after the wrap of levels 1 and 2. */
  function Landing(s: GameState): Pos
    requires |s.snake| >= 1
  {
    if s.level == 1 || s.level == 2 then Wrap(RawHead(s), s.gridSize) else RawHead(s)
  }

  predicate Collides(s: GameState)
    requires |s.snake| >= 1
  {
    RawHead(s) in s.walls || Landing(s) in s.snake
  }

  predicate Eats(s: GameState)
    requires |s.snake| >= 1
  {
    Running(s) && !Collides(s) && Landing(s) == s.food
  }

  /** The food draws hold a free cell whenever this tick has to place new food. */
  predicate TickFoodSupplied(s: GameState, draws: seq<Pos>)
    requires |s.snake| >= 1
  {
    Eats(s) && s.score + 1 < RequiredScore(s.level) ==>
      FirstFree([Landing(s)] + s.snake, s.walls, draws).Some?
  }

  /** The state after one tick of the game loop. */
  function AfterTick(s: GameState, draws: seq<Pos>): (t: GameState)
    requires |s.snake| >= 1 && TickFoodSupplied(s, draws)
    ensures t.gridSize == s.gridSize && t.level == s.level && t.walls == s.walls && t.direction == s.direction
    ensures |t.snake| >= |s.snake| && t.score >= s.score
  {
    if !Running(s) then s
    else if RawHead(s) in s.walls then s.(gameOver := true)
    else
      var head := Landing(s);
      if head in s.snake then s.(gameOver := true)
      else if head == s.food then
        var grown := [head] + s.snake;
        if s.score + 1 >= RequiredScore(s.level) then
          s.(snake := grown, score := s.score + 1, showLevelComplete := true)
        else
          s.(snake := grown, score := s.score + 1, food := FirstFree(grown, s.walls, draws).value)
      else
        var grown := [head] + s.snake;
        s.(snake := grown[..|grown| - 1])
  }

  /**
   * The outcomes of a tick. Outside the running phase nothing happens. A
   * collision (with a wall, tested on the unwrapped head, or with any segment
   * of the old snake, tail included) ends the game and changes nothing else.
   * Otherwise the snake moves its head to the landing cell: eating grows it
   * by one and scores one, and completes the level exactly when the new score
   * reaches the target, keeping the food; not eating drops the tail.
   */
  lemma TickOutcomes(s: GameState, draws: seq<Pos>)
    requires |s.snake| >= 1 && TickFoodSupplied(s, draws)
    ensures var t := AfterTick(s, draws);
      t.gridSize == s.gridSize && t.level == s.level && t.walls == s.walls &&
      t.direction == s.direction && t.gameStarted == s.gameStarted &&
      t.selectedStartLevel == s.selectedStartLevel &&
      (!Running(s) ==> t == s) &&
      (Running(s) && Collides(s) ==>
        t.gameOver && !t.showLevelComplete && t.snake == s.snake && t.score == s.score && t.food == s.food) &&
      (Running(s) && !Collides(s) ==>
        !t.gameOver && t.snake[0] == Landing(s) &&
        (Eats(s) ==>
          t.snake == [Landing(s)] + s.snake && |t.snake| == |s.snake| + 1 && t.score == s.score + 1 &&
          (t.showLevelComplete <==> t.score >= RequiredScore(s.level)) &&
          (t.showLevelComplete ==> t.food == s.food)) &&
        (!Eats(s) ==>
          t.snake == [Landing(s)] + s.snake[..|s.snake| - 1] && |t.snake| == |s.snake| &&
          t.score == s.score && t.food == s.food && !t.showLevelComplete))
  {
  }

  /** Food placed by a tick is a free cell, drawn as the first free draw. */
  lemma TickFoodIsFirstFree(s: GameState, draws: seq<Pos>)
    requires |s.snake| >= 1 && TickFoodSupplied(s, draws)
    requires Eats(s) && s.score + 1 < RequiredScore(s.level)
    ensures var t := AfterTick(s, draws);
      t.food !in t.snake && t.food !in t.walls &&
      exists i :: 0 <= i < |draws| && t.food == draws[i] &&
        forall j :: 0 <= j < i ==> Taken(t.snake, t.walls, draws[j])
  {
    var grown := [Landing(s)] + s.snake;
    FirstFreeIsFirst(grown, s.walls, draws);
  }

  /** On levels 1 and 2 a step from the grid, once wrapped, is on the grid. */
  lemma WrappedHeadOnGrid(s: GameState)
    requires ValidState(s) && Running(s) && s.level <= 2
    ensures InBounds(Landing(s), s.gridSize)
  {
    WrapStepInBounds(s.snake[0], s.direction, s.gridSize);
  }

  /**
   * From level 3 on, every step that would leave the grid, or reach its
   * border ring, is a step into a wall and ends the game.
   */
  lemma LeavingInteriorHitsWall(s: GameState, draws: seq<Pos>)
    requires ValidState(s) && Running(s) && s.level >= 3 && TickFoodSupplied(s, draws)
    ensures InBounds(RawHead(s), s.gridSize)
    ensures !Interior(RawHead(s), s.gridSize) ==> RawHead(s) in s.walls && AfterTick(s, draws).gameOver
  {
    InteriorStep(s.snake[0], s.direction, s.gridSize);
    if !Interior(RawHead(s), s.gridSize) {
      PerimeterWalled(s.level, s.gridSize, RawHead(s));
    }
  }

  lemma {:induction false} PrefixNoDuplicates(s: seq<Pos>, k: nat)
    requires NoDuplicates(s) && k <= |s|
    ensures NoDuplicates(s[..k])
  {
  }

  lemma ConsNoDuplicates(head: Pos, s: seq<Pos>)
    requires NoDuplicates(s) && head !in s
    ensures NoDuplicates([head] + s)
  {
    var r := [head] + s;
    forall i, j | 0 <= i < j < |r| ensures r[i] != r[j] {
      if i == 0 {
        assert r[j] == s[j - 1];
      } else {
        assert r[i] == s[i - 1] && r[j] == s[j - 1];
      }
    }
  }

  /** A tick keeps every reachable-state property. */
  lemma TickKeepsValid(s: GameState, draws: seq<Pos>)
    requires ValidState(s) && OnGrid(draws, s.gridSize) && TickFoodSupplied(s, draws)
    ensures ValidState(AfterTick(s, draws))
  {
    var t := AfterTick(s, draws);
    if Running(s) && !Collides(s) {
      var head := Landing(s);
      var n := s.gridSize;
      if s.level <= 2 {
        WrappedHeadOnGrid(s);
      } else {
        LeavingInteriorHitsWall(s, draws);
      }
      assert InBounds(head, n);
      var keep := if Eats(s) then s.snake else s.snake[..|s.snake| - 1];
      assert t.snake == [head] + keep;
      PrefixNoDuplicates(s.snake, |keep|);
      assert keep == s.snake[..|keep|];
      ConsNoDuplicates(head, keep);
      assert OnGrid(t.snake, n) by {
        forall i | 0 <= i < |t.snake| ensures InBounds(t.snake[i], n) {
          if i > 0 { assert t.snake[i] == s.snake[i - 1]; }
        }
      }
      if Eats(s) && s.score + 1 < RequiredScore(s.level) {
        FoodIsFree([head] + s.snake, s.walls, draws, n);
      }
      if Running(t) && !Eats(s) {
        assert s.food !in keep;
      }
    }
  }

  /**
   * The level is complete exactly on the tick whose food brings the score to
   * the target, and the snake keeps the segment it just grew.
   */
  lemma LevelCompletesAtTarget(s: GameState, draws: seq<Pos>)
    requires ValidState(s) && Running(s) && TickFoodSupplied(s, draws)
    ensures var t := AfterTick(s, draws);
      t.showLevelComplete <==> Eats(s) && s.score + 1 == RequiredScore(s.level)
    ensures var t := AfterTick(s, draws);
      t.showLevelComplete ==> t.score == RequiredScore(s.level) && |t.snake| == |s.snake| + 1
  {
  }

  /** Moving onto the cell the tail is about to leave still ends the game. */
  lemma TailCellCollides()
    ensures var s := GameState(20, true, false, false, [Pos(5, 5), Pos(6, 5), Pos(6, 6), Pos(5, 6)],
        Pos(0, 0), Pos(0, 1), 0, 1, 1, []);
      RawHead(s) == s.snake[|s.snake| - 1] && AfterTick(s, []).gameOver && AfterTick(s, []).snake == s.snake
  {
  }

  /**
   * The wall test sees the unwrapped head: on level 2, leaving the grid at the
   * left edge and re-entering on a wall cell of the right edge does not end
   * the game.
   */
  lemma WallTestBeforeWrap(n: int)
    requires n >= 7
    ensures var s := GameState(n, true, false, false, [Pos(0, 1)], Centre(n), Pos(-1, 0), 0, 2, 1,
        LevelWalls(2, n));
      Landing(s) == Pos(n - 1, 1) && Landing(s) in s.walls && RawHead(s) !in s.walls &&
      !AfterTick(s, []).gameOver && AfterTick(s, []).snake == [Pos(n - 1, 1)]
  {
    LevelWallsCells(2, n, Pos(n - 1, 1));
    assert WallAt(2, n, Pos(n - 1, 1));
    LevelWallsCells(2, n, Pos(-1, 1));
    assert !WallAt(2, n, Pos(-1, 1));
  }

  /**
   * Two arrow keys between ticks turn a snake of two or more segments back
   * into its own neck, which ends the game on the next tick.
   */
  lemma QuickReversalCollides()
    ensures var s := GameState(20, true, false, false, [Pos(5, 5), Pos(4, 5)], Pos(0, 0), Pos(1, 0), 0, 1, 1, []);
      var turned := AfterKey(AfterKey(s, ArrowUp), ArrowLeft);
      turned.direction == Neg(s.direction) && AfterTick(turned, []).gameOver
  {
  }

  // ---------------------------------------------------------------------
  // Buttons.
  // ---------------------------------------------------------------------

  /** The start cell for a level: its safe start over that level's walls. */
  function LevelStart(lvl: int, n: int, startDraws: seq<Pos>): Pos
    requires |startDraws| >= MaxAttempts
  {
    SafeStartPosition(LevelWalls(lvl, n), n, startDraws)
  }

  /** The food draws hold a cell that is neither the start cell nor a wall of the level. */
  predicate LevelFoodSupplied(lvl: int, n: int, startDraws: seq<Pos>, foodDraws: seq<Pos>)
    requires |startDraws| >= MaxAttempts
  {
    FirstFree([LevelStart(lvl, n, startDraws)], LevelWalls(lvl, n), foodDraws).Some?
  }

  /** Puts a one-segment snake at the level's start cell, food beside it, and clears the score. */
  function EnterLevel(s: GameState, lvl: int, startDraws: seq<Pos>, foodDraws: seq<Pos>): (t: GameState)
    requires |startDraws| >= MaxAttempts && LevelFoodSupplied(lvl, s.gridSize, startDraws, foodDraws)
    ensures t.level == lvl && |t.snake| == 1 && t.score == 0 && !t.showLevelComplete
  {
    var walls := LevelWalls(lvl, s.gridSize);
    var start := LevelStart(lvl, s.gridSize, startDraws);
    s.(level := lvl, walls := walls, snake := [start], direction := StartDirection, score := 0,
       showLevelComplete := false, food := FirstFree([start], walls, foodDraws).value)
  }

  /** "Start Game": enters the selected level and runs. */
  function AfterStart(s: GameState, startDraws: seq<Pos>, foodDraws: seq<Pos>): (t: GameState)
    requires |startDraws| >= MaxAttempts &&
      LevelFoodSupplied(s.selectedStartLevel, s.gridSize, startDraws, foodDraws)
    ensures Running(t) && t.level == s.selectedStartLevel
  {
    EnterLevel(s, s.selectedStartLevel, startDraws, foodDraws).(gameStarted := true, gameOver := false)
  }

  /** "Next Level": enters the following level; the two other flags stay as they are. */
  function AfterNextLevel(s: GameState, startDraws: seq<Pos>, foodDraws: seq<Pos>): (t: GameState)
    requires |startDraws| >= MaxAttempts &&
      LevelFoodSupplied(s.level + 1, s.gridSize, startDraws, foodDraws)
    ensures t.level == s.level + 1 && t.gameStarted == s.gameStarted && t.gameOver == s.gameOver
  {
    EnterLevel(s, s.level + 1, startDraws, foodDraws)
  }

  /** "Play Again" and "End Game". */
  function AfterReset(s: GameState): (t: GameState)
    ensures !Running(t) && t.level == 1 && t.selectedStartLevel == 1 && t.gridSize == s.gridSize
  {
    Initial(s.gridSize)
  }

  /**
   * Entering a level keeps the validity of a state and gives a one-segment
   * snake with the start direction and a zero score, the level's own walls
   * and food that is neither the start cell nor a wall.
   */
  lemma EnterLevelKeepsValid(s: GameState, lvl: int, startDraws: seq<Pos>, foodDraws: seq<Pos>)
    requires ValidState(s) && lvl >= 1
    requires |startDraws| >= MaxAttempts && StartDrawsInRange(startDraws, s.gridSize)
    requires OnGrid(foodDraws, s.gridSize)
    requires LevelFoodSupplied(lvl, s.gridSize, startDraws, foodDraws)
    ensures var t := EnterLevel(s, lvl, startDraws, foodDraws);
      ValidState(t) && t.level == lvl && t.walls == LevelWalls(lvl, s.gridSize) &&
      |t.snake| == 1 && t.score == 0 && t.direction == StartDirection && !t.showLevelComplete &&
      InBounds(t.food, s.gridSize) && t.food != t.snake[0] && t.food !in t.walls &&
      Interior(t.snake[0], s.gridSize)
  {
    var n := s.gridSize;
    var walls := LevelWalls(lvl, n);
    var start := LevelStart(lvl, n, startDraws);
    assert forall i :: 0 <= i < MaxAttempts ==> DrawInRange(startDraws[i], n);
    SafeStartInRange(walls, n, startDraws);
    assert Interior(start, n);
    FoodIsFree([start], walls, foodDraws, n);
  }

  /** Starting a game enters the selected level in the running phase. */
  lemma StartKeepsValid(s: GameState, startDraws: seq<Pos>, foodDraws: seq<Pos>)
    requires ValidState(s)
    requires |startDraws| >= MaxAttempts && StartDrawsInRange(startDraws, s.gridSize)
    requires OnGrid(foodDraws, s.gridSize)
    requires LevelFoodSupplied(s.selectedStartLevel, s.gridSize, startDraws, foodDraws)
    ensures var t := AfterStart(s, startDraws, foodDraws);
      ValidState(t) && Running(t) && t.level == s.selectedStartLevel && |t.snake| == 1 && t.score == 0
  {
    EnterLevelKeepsValid(s, s.selectedStartLevel, startDraws, foodDraws);
  }

  /** Going on from a completed level enters the next one in the running phase. */
  lemma NextLevelKeepsValid(s: GameState, startDraws: seq<Pos>, foodDraws: seq<Pos>)
    requires ValidState(s)
    requires |startDraws| >= MaxAttempts && StartDrawsInRange(startDraws, s.gridSize)
    requires OnGrid(foodDraws, s.gridSize)
    requires LevelFoodSupplied(s.level + 1, s.gridSize, startDraws, foodDraws)
    ensures var t := AfterNextLevel(s, startDraws, foodDraws);
      ValidState(t) && t.level == s.level + 1 && |t.snake| == 1 && t.score == 0 &&
      t.gameOver == s.gameOver && t.gameStarted == s.gameStarted &&
      (s.showLevelComplete ==> Running(t))
  {
    EnterLevelKeepsValid(s, s.level + 1, startDraws, foodDraws);
  }

  /** Resetting returns to the initial state from any state and loses the chosen start level. */
  lemma ResetKeepsValid(s: GameState)
    requires ValidState(s)
    ensures var t := AfterReset(s);
      ValidState(t) && !t.gameStarted && t.level == 1 && t.selectedStartLevel == 1 && t.walls == [] &&
      t.score == 0 && t.snake == [Pos(10, 10)] && t.gridSize == s.gridSize
  {
  }

  // ---------------------------------------------------------------------
  // Input events.
  // ---------------------------------------------------------------------

  /** A key press; the handler is installed only while the game runs. */
  function AfterKey(s: GameState, key: Key): (t: GameState)
    ensures t == s.(direction := t.direction)
    ensures !Running(s) ==> t == s
  {
    if Running(s) then s.(direction := KeyDirection(key, s.direction)) else s
  }

  /** A swipe by (dx, dy); the handler is installed only while the game runs. */
  function AfterSwipe(s: GameState, dx: int, dy: int): (t: GameState)
    ensures t == s.(direction := t.direction)
    ensures !Running(s) ==> t == s
  {
    if Running(s) then s.(direction := SwipeDirection(dx, dy, s.direction)) else s
  }

  /** Replacing the pending direction by another unit move keeps a state valid. */
  lemma TurnKeepsValid(s: GameState, d: Pos)
    requires ValidState(s) && IsUnit(d)
    ensures ValidState(s.(direction := d))
  {
  }

  /**
   * An input handler that, while the game runs, overwrites the pending
   * direction with a unit move other than its reverse keeps a state valid and
   * changes nothing else.
   */
  lemma PendingTurnKeepsValid(s: GameState, d: Pos)
    requires ValidState(s) && IsUnit(d) && d != Neg(s.direction)
    ensures var t := if Running(s) then s.(direction := d) else s;
      ValidState(t) && t == s.(direction := t.direction) && t.direction != Neg(s.direction)
  {
    if Running(s) {
      TurnKeepsValid(s, d);
    }
  }

  /** A key press only ever changes the pending direction, never to its reverse. */
  lemma KeyKeepsValid(s: GameState, key: Key)
    requires ValidState(s)
    ensures ValidState(AfterKey(s, key))
    ensures AfterKey(s, key) == s.(direction := AfterKey(s, key).direction)
    ensures AfterKey(s, key).direction != Neg(s.direction)
  {
    KeyNeverReverses(key, s.direction);
    PendingTurnKeepsValid(s, KeyDirection(key, s.direction));
  }

  /** A swipe only ever changes the pending direction, never to its reverse. */
  lemma SwipeKeepsValid(s: GameState, dx: int, dy: int)
    requires ValidState(s)
    ensures ValidState(AfterSwipe(s, dx, dy))
    ensures AfterSwipe(s, dx, dy) == s.(direction := AfterSwipe(s, dx, dy).direction)
    ensures AfterSwipe(s, dx, dy).direction != Neg(s.direction)
  {
    SwipeNeverReverses(dx, dy, s.direction);
    PendingTurnKeepsValid(s, SwipeDirection(dx, dy, s.direction));
  }

  // ---------------------------------------------------------------------
  // The component.
  // ---------------------------------------------------------------------

  class SnakeGame {
    const gridSize: int
    var gameStarted: bool
    var gameOver: bool
    var showLevelComplete: bool
    var snake: seq<Pos>
    var food: Pos
    var direction: Pos
    var score: int
    var level: int
    var selectedStartLevel: int
    var walls: seq<Pos>

    function State(): GameState
      reads this
    {
      GameState(gridSize, gameStarted, gameOver, showLevelComplete, snake, food, direction, score, level,
        selectedStartLevel, walls)
    }

    predicate Valid()
      reads this
    {
      ValidState(State())
    }

    constructor (n: int)
      requires n >= 7
      ensures State() == Initial(n) && Valid()
    {
      gridSize := n;
      gameStarted, gameOver, showLevelComplete := false, false, false;
      snake, food, direction := [Pos(10, 10)], Pos(15, 15), StartDirection;
      score, level, selectedStartLevel := 0, 1, 1;
      walls := [];
    }

    /** The level chosen on the start screen. */
    method SelectStartLevel(lvl: int)
      requires Valid() && 1 <= lvl <= HighestStartLevel
      modifies this
      ensures State() == old(State()).(selectedStartLevel := lvl) && Valid()
    {
      selectedStartLevel := lvl;
    }

    /**
     * One run of the game loop's interval callback. The loop is installed only
     * while the game runs; otherwise no tick happens.
     */
    method Tick(foodDraws: seq<Pos>)
      requires Valid() && OnGrid(foodDraws, gridSize) && TickFoodSupplied(State(), foodDraws)
      modifies this
      ensures State() == AfterTick(old(State()), foodDraws) && Valid()
    {
      TickKeepsValid(State(), foodDraws);
      if gameStarted && !gameOver && !showLevelComplete {
        Step(foodDraws);
      }
    }

    /** The body of the interval callback: move, collide, eat or drop the tail. */
    method Step(foodDraws: seq<Pos>)
      requires |snake| >= 1 && Running(State()) && TickFoodSupplied(State(), foodDraws)
      modifies this
      ensures State() == AfterTick(old(State()), foodDraws)
    {
      ghost var s := State();
      var x := snake[0].x + direction.x;
      var y := snake[0].y + direction.y;
      assert Pos(x, y) == RawHead(s);
      if Pos(x, y) in walls {
        gameOver := true;
        return;
      }
      if level == 1 || level == 2 {
        if x < 0 { x := gridSize - 1; }
        if x >= gridSize { x := 0; }
        if y < 0 { y := gridSize - 1; }
        if y >= gridSize { y := 0; }
      }
      var newHead := Pos(x, y);
      assert newHead == Landing(s);
      if newHead in snake {
        gameOver := true;
        return;
      }
      var newSnake := [newHead] + snake;
      if newHead == food {
        var newScore := score + 1;
        score := newScore;
        if newScore >= RequiredScore(level) {
          showLevelComplete := true;
          snake := newSnake;
          return;
        }
        assert Eats(s) && s.score + 1 < RequiredScore(s.level);
        var newFood := GenerateFood(newSnake, walls, foodDraws);
        food := newFood.value;
      } else {
        assert !Eats(s);
        newSnake := newSnake[..|newSnake| - 1];
      }
      snake := newSnake;
    }

    /**
     * What "Start Game" and "Next Level" share: build the level's walls, pick
     * the start cell and the food, and put a one-segment snake there.
     */
    method Enter(lvl: int, startDraws: seq<Pos>, foodDraws: seq<Pos>)
      requires |startDraws| >= MaxAttempts && LevelFoodSupplied(lvl, gridSize, startDraws, foodDraws)
      modifies this
      ensures State() == EnterLevel(old(State()), lvl, startDraws, foodDraws)
    {
      var levelWalls := GenerateLevelWalls(lvl, gridSize);
      var startPos := GenerateSafeStartPosition(levelWalls, gridSize, startDraws);
      var found := GenerateFood([startPos], levelWalls, foodDraws);
      level := lvl;
      walls := levelWalls;
      snake := [startPos];
      direction := StartDirection;
      score := 0;
      showLevelComplete := false;
      food := found.value;
    }

    /** "Start Game". */
    method StartGame(startDraws: seq<Pos>, foodDraws: seq<Pos>)
      requires Valid()
      requires |startDraws| >= MaxAttempts && StartDrawsInRange(startDraws, gridSize)
      requires OnGrid(foodDraws, gridSize)
      requires LevelFoodSupplied(selectedStartLevel, gridSize, startDraws, foodDraws)
      modifies this
      ensures State() == AfterStart(old(State()), startDraws, foodDraws) && Valid()
    {
      StartKeepsValid(State(), startDraws, foodDraws);
      Enter(selectedStartLevel, startDraws, foodDraws);
      gameStarted := true;
      gameOver := false;
    }

    /** "Next Level". */
    method NextLevel(startDraws: seq<Pos>, foodDraws: seq<Pos>)
      requires Valid()
      requires |startDraws| >= MaxAttempts && StartDrawsInRange(startDraws, gridSize)
      requires OnGrid(foodDraws, gridSize)
      requires LevelFoodSupplied(level + 1, gridSize, startDraws, foodDraws)
      modifies this
      ensures State() == AfterNextLevel(old(State()), startDraws, foodDraws)
      ensures Valid()
    {
      NextLevelKeepsValid(State(), startDraws, foodDraws);
      var newLevel := level + 1;
      Enter(newLevel, startDraws, foodDraws);
    }

    /** "Play Again" and "End Game". */
    method Reset()
      requires Valid()
      modifies this
      ensures State() == AfterReset(old(State())) && Valid()
    {
      ResetKeepsValid(State());
      gameStarted := false;
      snake := [Pos(10, 10)];
      food := Pos(15, 15);
      direction := StartDirection;
      score := 0;
      level := 1;
      // The level effect then recomputes the walls of level 1, which has none.
      walls := [];
      selectedStartLevel := 1;
      gameOver := false;
      showLevelComplete := false;
    }

    method KeyPress(name: string)
      requires Valid()
      modifies this
      ensures State() == AfterKey(old(State()), KeyOf(name)) && Valid()
    {
      KeyKeepsValid(State(), KeyOf(name));
      if gameStarted && !gameOver && !showLevelComplete {
        direction := KeyDirection(KeyOf(name), direction);
      }
    }

    method Swipe(dx: int, dy: int)
      requires Valid()
      modifies this
      ensures State() == AfterSwipe(old(State()), dx, dy) && Valid()
    {
      SwipeKeepsValid(State(), dx, dy);
      if gameStarted && !gameOver && !showLevelComplete {
        direction := SwipeDirection(dx, dy, direction);
      }
    }
  }
}
