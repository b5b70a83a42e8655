/** Grid cells, unit moves and the toroidal wrap that levels 1 and 2 use. */
module Grid {

  /** A cell (or a direction vector, as the game also uses `{x, y}` for those). */
  datatype Pos = Pos(x: int, y: int)

  function Add(p: Pos, d: Pos): Pos {
    Pos(p.x + d.x, p.y + d.y)
  }

  function Neg(d: Pos): Pos {
    Pos(-d.x, -d.y)
  }

  function Abs(a: int): nat {
    if a < 0 then -a else a
  }

  function Manhattan(a: Pos, b: Pos): nat {
    Abs(a.x - b.x) + Abs(a.y - b.y)
  }

  /** Two unit moves on different axes, that is, perpendicular ones. */
  predicate OtherAxis(a: Pos, b: Pos) {
    (a.x == 0) != (b.x == 0)
  }

  /** One of the four moves right, left, down, up. */
  predicate IsUnit(d: Pos) {
    d == Pos(1, 0) || d == Pos(-1, 0) || d == Pos(0, 1) || d == Pos(0, -1)
  }

  predicate InBounds(p: Pos, n: int) {
    0 <= p.x < n && 0 <= p.y < n
  }

  /** Every cell of the sequence is on the grid (the snake, or draws as `Math.floor(Math.random() * n)` yields them). */
  predicate OnGrid(cells: seq<Pos>, n: int) {
    forall i :: 0 <= i < |cells| ==> InBounds(cells[i], n)
  }

  /** A cell of the border ring of an n-by-n grid. */
  predicate OnBorder(p: Pos, n: int) {
    InBounds(p, n) && (p.x == 0 || p.x == n - 1 || p.y == 0 || p.y == n - 1)
  }

  /** A cell of the grid that is not on its border ring. */
  predicate Interior(p: Pos, n: int) {
    1 <= p.x < n - 1 && 1 <= p.y < n - 1
  }

  predicate NoDuplicates(s: seq<Pos>) {
    forall i, j :: 0 <= i < j < |s| ==> s[i] != s[j]
  }

  /** Appending in steps builds the same sequence as appending the joined parts. */
  lemma AppendAssoc(a: seq<Pos>, b: seq<Pos>, c: seq<Pos>)
    ensures (a + b) + c == a + (b + c)
  {
  }

  /**
   * The wrap applied to a new head on levels 1 and 2: a coordinate below 0
   * becomes n - 1 and then a coordinate at or beyond n becomes 0, each axis
   * tested in that order.
   */
  function Wrap(p: Pos, n: int): (r: Pos)
    ensures n >= 1 ==> InBounds(r, n)
    ensures n >= 1 ==> (r == p <==> InBounds(p, n))
  {
    var x1 := if p.x < 0 then n - 1 else p.x;
    var x2 := if x1 >= n then 0 else x1;
    var y1 := if p.y < 0 then n - 1 else p.y;
    var y2 := if y1 >= n then 0 else y1;
    Pos(x2, y2)
  }

  /** A unit step from a cell of the grid, wrapped, is again a cell of the grid. */
  lemma WrapStepInBounds(p: Pos, d: Pos, n: int)
    requires InBounds(p, n) && IsUnit(d)
    ensures InBounds(Wrap(Add(p, d), n), n)
    ensures InBounds(Add(p, d), n) ==> Wrap(Add(p, d), n) == Add(p, d)
  {
  }

  /** Wrapping re-enters on the opposite edge and leaves cells of the grid where they are. */
  lemma WrapOppositeEdge(p: Pos, n: int)
    requires n >= 1 && -1 <= p.x <= n && -1 <= p.y <= n
    ensures InBounds(Wrap(p, n), n)
    ensures Wrap(p, n).x == (if p.x == -1 then n - 1 else if p.x == n then 0 else p.x)
    ensures Wrap(p, n).y == (if p.y == -1 then n - 1 else if p.y == n then 0 else p.y)
  {
  }

  /**
   * From a cell off the border ring, a unit step stays on the grid; it leaves
   * the interior only by landing on the border ring.
   */
  lemma InteriorStep(p: Pos, d: Pos, n: int)
    requires Interior(p, n) && IsUnit(d)
    ensures InBounds(Add(p, d), n)
    ensures !Interior(Add(p, d), n) ==> OnBorder(Add(p, d), n)
  {
  }
}
