/**
 * The score target, the search for a safe start cell and the search for a
 * food cell. Each random draw is supplied by the caller as a sequence of
 * already floored values, so the retry and fallback rules become plain
 * loops over that sequence.
 */
module Placement {
  import opened Grid

  datatype Option<T> = None | Some(value: T)

  /** Food a level needs before it is complete. */
  function RequiredScore(lvl: int): (r: int)
    ensures lvl >= 1 ==> r >= 5
    ensures r % 2 == 1
  {
    3 + lvl * 2
  }

  lemma RequiredScoreValues(lvl: int)
    ensures RequiredScore(1) == 5 && RequiredScore(5) == 13
    ensures RequiredScore(lvl + 1) == RequiredScore(lvl) + 2
  {
  }

  // ---------------------------------------------------------------------
  // Safe start.
  // ---------------------------------------------------------------------

  const SafePadding := 3
  const MaxAttempts := 100
  const SafeDistance := 4

  /**
   * The cell tried for one draw. A draw d stands for the pair of values
   * `Math.floor(Math.random() * (n - 2 * SafePadding))`, so on a grid of n
   * cells its coordinates lie in [0, n - 6).
   */
  function SafeCandidate(d: Pos): Pos {
    Pos(d.x + SafePadding, d.y + SafePadding)
  }

  predicate DrawInRange(d: Pos, n: int) {
    0 <= d.x < n - 2 * SafePadding && 0 <= d.y < n - 2 * SafePadding
  }

  /** Some wall is closer than Manhattan distance 4. */
  predicate NearWall(walls: seq<Pos>, p: Pos) {
    exists w :: w in walls && Manhattan(w, p) < SafeDistance
  }

  function Centre(n: int): Pos {
    Pos(n / 2, n / 2)
  }

  /** The first draw whose candidate is not near a wall. */
  function FirstSafe(walls: seq<Pos>, draws: seq<Pos>): (r: Option<Pos>)
    ensures r.Some? ==> !NearWall(walls, r.value)
    ensures r.Some? ==> exists i :: 0 <= i < |draws| && r.value == SafeCandidate(draws[i])
  {
    if draws == [] then None
    else if !NearWall(walls, SafeCandidate(draws[0])) then Some(SafeCandidate(draws[0]))
    else FirstSafe(walls, draws[1..])
  }

  /** The start cell: the first safe candidate among the first 100 draws, else the centre. */
  function SafeStartPosition(walls: seq<Pos>, n: int, draws: seq<Pos>): (p: Pos)
    requires |draws| >= MaxAttempts
    ensures p == Centre(n) || !NearWall(walls, p)
  {
    match FirstSafe(walls, draws[..MaxAttempts])
    case Some(p) => p
    case None => Centre(n)
  }

  lemma {:induction false} FirstSafeIsFirst(walls: seq<Pos>, draws: seq<Pos>)
    ensures FirstSafe(walls, draws).None? <==>
      forall i :: 0 <= i < |draws| ==> NearWall(walls, SafeCandidate(draws[i]))
    ensures FirstSafe(walls, draws).Some? ==>
      exists i :: 0 <= i < |draws| && FirstSafe(walls, draws).value == SafeCandidate(draws[i]) &&
        !NearWall(walls, SafeCandidate(draws[i])) &&
        forall j :: 0 <= j < i ==> NearWall(walls, SafeCandidate(draws[j]))
  {
    if draws != [] && NearWall(walls, SafeCandidate(draws[0])) {
      FirstSafeIsFirst(walls, draws[1..]);
      if FirstSafe(walls, draws).Some? {
        var i :| 0 <= i < |draws[1..]| && FirstSafe(walls, draws[1..]).value == SafeCandidate(draws[1..][i]) &&
          !NearWall(walls, SafeCandidate(draws[1..][i])) &&
          forall j :: 0 <= j < i ==> NearWall(walls, SafeCandidate(draws[1..][j]));
        assert forall j :: 0 <= j < i + 1 ==> NearWall(walls, SafeCandidate(draws[j])) by {
          forall j | 0 <= j < i + 1 ensures NearWall(walls, SafeCandidate(draws[j])) {
            if j > 0 { assert draws[j] == draws[1..][j - 1]; }
          }
        }
      } else {
        forall i | 0 <= i < |draws| ensures NearWall(walls, SafeCandidate(draws[i])) {
          if i > 0 { assert draws[i] == draws[1..][i - 1]; }
        }
      }
    }
  }

  /**
   * The start cell is the candidate of the first of the first 100 draws that
   * keeps distance 4 from every wall, and the centre only when none of them
   * does (the centre may then itself be near, or on, a wall).
   */
  lemma SafeStartChosen(walls: seq<Pos>, n: int, draws: seq<Pos>)
    requires |draws| >= MaxAttempts
    ensures var p := SafeStartPosition(walls, n, draws);
      (exists i :: 0 <= i < MaxAttempts && p == SafeCandidate(draws[i]) && !NearWall(walls, p) &&
        forall j :: 0 <= j < i ==> NearWall(walls, SafeCandidate(draws[j]))) ||
      (p == Centre(n) && forall i :: 0 <= i < MaxAttempts ==> NearWall(walls, SafeCandidate(draws[i])))
  {
    var first := draws[..MaxAttempts];
    FirstSafeIsFirst(walls, first);
    if FirstSafe(walls, first).Some? {
      var i :| 0 <= i < |first| && FirstSafe(walls, first).value == SafeCandidate(first[i]) &&
        !NearWall(walls, SafeCandidate(first[i])) &&
        forall j :: 0 <= j < i ==> NearWall(walls, SafeCandidate(first[j]));
      assert forall j :: 0 <= j < i ==> first[j] == draws[j];
    } else {
      assert forall j :: 0 <= j < MaxAttempts ==> first[j] == draws[j];
    }
  }

  /** With draws as `Math.random` yields them the start lies in [3, n - 3) on both axes, or is the centre. */
  lemma SafeStartInRange(walls: seq<Pos>, n: int, draws: seq<Pos>)
    requires |draws| >= MaxAttempts
    requires forall i :: 0 <= i < MaxAttempts ==> DrawInRange(draws[i], n)
    ensures var p := SafeStartPosition(walls, n, draws);
      p == Centre(n) || (SafePadding <= p.x < n - SafePadding && SafePadding <= p.y < n - SafePadding)
  {
    SafeStartChosen(walls, n, draws);
  }

  /** Searches the draws as the game does, trying at most 100 of them. */
  method GenerateSafeStartPosition(walls: seq<Pos>, n: int, draws: seq<Pos>) returns (safePos: Pos)
    requires |draws| >= MaxAttempts
    ensures safePos == SafeStartPosition(walls, n, draws)
  {
    var attempts := 0;
    while attempts < MaxAttempts
      invariant 0 <= attempts <= MaxAttempts
      invariant FirstSafe(walls, draws[..MaxAttempts]) == FirstSafe(walls, draws[attempts..MaxAttempts])
    {
      var candidate := SafeCandidate(draws[attempts]);
      var isSafe := !NearWall(walls, candidate);
      assert draws[attempts..MaxAttempts][0] == draws[attempts];
      assert draws[attempts..MaxAttempts][1..] == draws[attempts + 1..MaxAttempts];
      if isSafe {
        return candidate;
      }
      attempts := attempts + 1;
    }
    return Centre(n);
  }

  // ---------------------------------------------------------------------
  // Food.
  // ---------------------------------------------------------------------

  /** A cell the food may not take: a snake segment or a wall. */
  predicate Taken(snake: seq<Pos>, walls: seq<Pos>, p: Pos) {
    p in snake || p in walls
  }

  /**
   * The first drawn cell that is neither a snake segment nor a wall; None when
   * every supplied draw is taken. Each draw stands for the pair of values
   * `Math.floor(Math.random() * n)`.
   */
  function FirstFree(snake: seq<Pos>, walls: seq<Pos>, draws: seq<Pos>): Option<Pos> {
    if draws == [] then None
    else if !Taken(snake, walls, draws[0]) then Some(draws[0])
    else FirstFree(snake, walls, draws[1..])
  }

  lemma {:induction false} FirstFreeIsFirst(snake: seq<Pos>, walls: seq<Pos>, draws: seq<Pos>)
    ensures FirstFree(snake, walls, draws).None? <==>
      forall i :: 0 <= i < |draws| ==> Taken(snake, walls, draws[i])
    ensures FirstFree(snake, walls, draws).Some? ==>
      exists i :: 0 <= i < |draws| && FirstFree(snake, walls, draws).value == draws[i] &&
        !Taken(snake, walls, draws[i]) &&
        forall j :: 0 <= j < i ==> Taken(snake, walls, draws[j])
  {
    if draws != [] && Taken(snake, walls, draws[0]) {
      FirstFreeIsFirst(snake, walls, draws[1..]);
      if FirstFree(snake, walls, draws).Some? {
        var i :| 0 <= i < |draws[1..]| && FirstFree(snake, walls, draws[1..]).value == draws[1..][i] &&
          !Taken(snake, walls, draws[1..][i]) &&
          forall j :: 0 <= j < i ==> Taken(snake, walls, draws[1..][j]);
        assert forall j :: 0 <= j < i + 1 ==> Taken(snake, walls, draws[j]) by {
          forall j | 0 <= j < i + 1 ensures Taken(snake, walls, draws[j]) {
            if j > 0 { assert draws[j] == draws[1..][j - 1]; }
          }
        }
      } else {
        forall i | 0 <= i < |draws| ensures Taken(snake, walls, draws[i]) {
          if i > 0 { assert draws[i] == draws[1..][i - 1]; }
        }
      }
    }
  }

  /** The food found is free, and on the grid when every draw is. */
  lemma FoodIsFree(snake: seq<Pos>, walls: seq<Pos>, draws: seq<Pos>, n: int)
    requires FirstFree(snake, walls, draws).Some?
    ensures var f := FirstFree(snake, walls, draws).value;
      f !in snake && f !in walls && f in draws
    ensures OnGrid(draws, n) ==> InBounds(FirstFree(snake, walls, draws).value, n)
  {
    FirstFreeIsFirst(snake, walls, draws);
  }

  /**
   * The rejection-sampling loop: draws until a cell is free. The game's loop
   * has no bound; here it stops with None when the supplied draws run out.
   * The start of a level uses the same loop with the start cell as the snake
   * and the new level's walls.
   */
  method GenerateFood(snake: seq<Pos>, walls: seq<Pos>, draws: seq<Pos>) returns (food: Option<Pos>)
    ensures food == FirstFree(snake, walls, draws)
  {
    var i := 0;
    while i < |draws|
      invariant 0 <= i <= |draws|
      invariant FirstFree(snake, walls, draws) == FirstFree(snake, walls, draws[i..])
    {
      var newFood := draws[i];
      assert draws[i..][0] == newFood && draws[i..][1..] == draws[i + 1..];
      if !Taken(snake, walls, newFood) {
        return Some(newFood);
      }
      i := i + 1;
    }
    return None;
  }
}
