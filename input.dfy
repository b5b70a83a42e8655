/**
 * The direction decisions of the arrow-key and swipe handlers. Both read and
 * overwrite one pending-direction slot; the no-reversal test compares against
 * that slot, not against the direction of the last move.
 */
module Input {
  import opened Grid

  const SwipeThreshold := 30

  /** The keys the handler tells apart; every other key name is `OtherKey`. */
  datatype Key = ArrowUp | ArrowDown | ArrowLeft | ArrowRight | OtherKey

  function KeyOf(name: string): Key {
    if name == "ArrowUp" then ArrowUp
    else if name == "ArrowDown" then ArrowDown
    else if name == "ArrowLeft" then ArrowLeft
    else if name == "ArrowRight" then ArrowRight
    else OtherKey
  }

  /** The move an arrow key asks for. */
  function ArrowVector(key: Key): Pos
    requires key != OtherKey
  {
    match key
    case ArrowUp => Pos(0, -1)
    case ArrowDown => Pos(0, 1)
    case ArrowLeft => Pos(-1, 0)
    case ArrowRight => Pos(1, 0)
  }

  /** The pending direction after a key press. */
  function KeyDirection(key: Key, current: Pos): (r: Pos)
    ensures key == OtherKey ==> r == current
    ensures key != OtherKey && r != current ==> r == ArrowVector(key)
  {
    if key == ArrowUp && current.y == 0 then Pos(0, -1)
    else if key == ArrowDown && current.y == 0 then Pos(0, 1)
    else if key == ArrowLeft && current.x == 0 then Pos(-1, 0)
    else if key == ArrowRight && current.x == 0 then Pos(1, 0)
    else current
  }

  /** A key press leaves the pending direction a unit move and never reverses it. */
  lemma KeyNeverReverses(key: Key, current: Pos)
    requires IsUnit(current)
    ensures IsUnit(KeyDirection(key, current))
    ensures KeyDirection(key, current) != Neg(current)
  {
  }

  /**
   * From a unit direction, an arrow key takes effect exactly when its move is
   * perpendicular to the pending one, and then becomes the pending direction;
   * any other key changes nothing.
   */
  lemma KeyTurnsPerpendicular(key: Key, current: Pos)
    requires IsUnit(current)
    ensures var r := KeyDirection(key, current);
      (key == OtherKey ==> r == current) &&
      (key != OtherKey ==> (r != current <==> OtherAxis(ArrowVector(key), current))) &&
      (key != OtherKey && r != current ==> r == ArrowVector(key))
  {
  }

  /** Two presses before the next move reverse the pending direction. */
  lemma TwoKeysReverse()
    ensures KeyDirection(KeyOf("ArrowUp"), Pos(1, 0)) == Pos(0, -1)
    ensures KeyDirection(KeyOf("ArrowLeft"), KeyDirection(KeyOf("ArrowUp"), Pos(1, 0))) == Neg(Pos(1, 0))
  {
  }

  function Sign(a: int): int {
    if a > 0 then 1 else if a < 0 then -1 else 0
  }

  /** The pending direction after a swipe by (dx, dy). */
  function SwipeDirection(dx: int, dy: int, current: Pos): (r: Pos)
    ensures r == current || r == Pos(Sign(dx), 0) || r == Pos(0, Sign(dy))
  {
    if Abs(dx) > Abs(dy) then
      if dx > SwipeThreshold && current.x == 0 then Pos(1, 0)
      else if dx < -SwipeThreshold && current.x == 0 then Pos(-1, 0)
      else current
    else
      if dy > SwipeThreshold && current.y == 0 then Pos(0, 1)
      else if dy < -SwipeThreshold && current.y == 0 then Pos(0, -1)
      else current
  }

  /** A swipe leaves the pending direction a unit move and never reverses it. */
  lemma SwipeNeverReverses(dx: int, dy: int, current: Pos)
    requires IsUnit(current)
    ensures IsUnit(SwipeDirection(dx, dy, current))
    ensures SwipeDirection(dx, dy, current) != Neg(current)
  {
  }

  /**
   * A swipe acts only along its strictly dominant axis (vertical on a tie),
   * only beyond 30 pixels that way, and only to turn perpendicular to the
   * pending direction; then it moves the way of the swipe.
   */
  lemma SwipeTurnsOnDominantAxis(dx: int, dy: int, current: Pos)
    requires IsUnit(current)
    ensures var r := SwipeDirection(dx, dy, current);
      (Abs(dx) > Abs(dy) ==>
        (r != current <==> Abs(dx) > SwipeThreshold && current.x == 0) &&
        (r != current ==> r == Pos(Sign(dx), 0))) &&
      (Abs(dx) <= Abs(dy) ==>
        (r != current <==> Abs(dy) > SwipeThreshold && current.y == 0) &&
        (r != current ==> r == Pos(0, Sign(dy))))
  {
  }

  /** A diagonal swipe counts as vertical. */
  lemma DiagonalSwipeIsVertical()
    ensures SwipeDirection(40, 40, Pos(1, 0)) == Pos(0, 1)
    ensures SwipeDirection(40, -40, Pos(0, 1)) == Pos(0, 1)
  {
  }
}
