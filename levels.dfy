/**
 * The per-level wall layouts. `LevelWalls` is the exact array the game builds
 * (push order and duplicate cells included), assembled from one function per
 * loop shape; `WallAt` says declaratively which cells are walls; and
 * `GenerateLevelWalls` builds the array with loops, as the game does.
 */
module Levels {
  import opened Grid

  function Max(a: int, b: int): int {
    if a < b then b else a
  }

  /**
   * `Math.floor(n * pct / 100)` in exact arithmetic (`/` on int rounds down
   * for a positive divisor).
   */
  function Frac(n: int, pct: int): int {
    n * pct / 100
  }

  // ---------------------------------------------------------------------
  // One function per loop shape: the cells pushed by iterations lo .. hi-1.
  // ---------------------------------------------------------------------

  /** Iterations 0 .. i-1 of the border loop, each pushing (0,k), (m,k), (k,0), (k,m). */
  function PerimeterUpTo(n: int, i: int): (r: seq<Pos>)
    ensures |r| == 4 * Max(i, 0)
    decreases i
  {
    if i <= 0 then []
    else PerimeterUpTo(n, i - 1) + [Pos(0, i - 1), Pos(n - 1, i - 1), Pos(i - 1, 0), Pos(i - 1, n - 1)]
  }

  /** The full border ring, built as 4 * n cells with each corner pushed twice. */
  function Perimeter(n: int): seq<Pos> {
    PerimeterUpTo(n, n)
  }

  /** Either end of a border edge: within i cells of 0 or of m. */
  predicate NearEnd(v: int, m: int, i: int) {
    0 <= v < i || 0 <= m - v < i
  }

  /** Iterations 0 .. i-1 of the level-2 loop: eight cells, k from each corner along both edges. */
  function CornersUpTo(n: int, i: int): seq<Pos>
    decreases i
  {
    if i <= 0 then []
    else
      var m, k := n - 1, i - 1;
      CornersUpTo(n, i - 1) +
      [Pos(k, 0), Pos(m - k, 0), Pos(0, k), Pos(m, k),
       Pos(k, m), Pos(m - k, m), Pos(0, m - k), Pos(m, m - k)]
  }

  /** The inner loop of level 4: (x, c - j') for j' in 0 .. j-1. */
  function SquareColumn(x: int, c: int, j: int): seq<Pos>
    decreases j
  {
    if j <= 0 then [] else SquareColumn(x, c, j - 1) + [Pos(x, c - (j - 1))]
  }

  /** The nested loops of level 4, outer iterations 0 .. i-1: columns c, c-1, ... of height s ending at row c. */
  function Square(c: int, s: int, i: int): seq<Pos>
    decreases i
  {
    if i <= 0 then [] else Square(c, s, i - 1) + SquareColumn(c - (i - 1), c, s)
  }

  /** A loop pushing (i, y1) then (i, y2): two horizontal bars over one column range. */
  function RowPairs(y1: int, y2: int, lo: int, hi: int): seq<Pos>
    decreases hi - lo
  {
    if hi <= lo then [] else RowPairs(y1, y2, lo, hi - 1) + [Pos(hi - 1, y1), Pos(hi - 1, y2)]
  }

  /** A loop pushing (x1, i) then (x2, i): two vertical bars over one row range. */
  function ColPairs(x1: int, x2: int, lo: int, hi: int): seq<Pos>
    decreases hi - lo
  {
    if hi <= lo then [] else ColPairs(x1, x2, lo, hi - 1) + [Pos(x1, hi - 1), Pos(x2, hi - 1)]
  }

  /** The index test of the level-8 plus: on the grid and more than 2 from the centre. */
  predicate PlusIndex(i: int, n: int, c: int) {
    0 <= i < n && Abs(i - c) > 2
  }

  /** The level-8 loop: for each admitted index, (i, c) then (c, i). */
  function PlusArms(n: int, c: int, lo: int, hi: int): seq<Pos>
    decreases hi - lo
  {
    if hi <= lo then []
    else
      var i := hi - 1;
      PlusArms(n, c, lo, hi - 1) + (if PlusIndex(i, n, c) then [Pos(i, c), Pos(c, i)] else [])
  }

  /** A loop pushing (i, y) then (x, i): one horizontal and one vertical arm. */
  function RowCol(y: int, x: int, lo: int, hi: int): seq<Pos>
    decreases hi - lo
  {
    if hi <= lo then [] else RowCol(y, x, lo, hi - 1) + [Pos(hi - 1, y), Pos(x, hi - 1)]
  }

  /** A loop pushing (x, k - i) then (i, y): a vertical arm walked upwards from row k - lo, and a horizontal arm. */
  function MirrorColRow(x: int, k: int, y: int, lo: int, hi: int): seq<Pos>
    decreases hi - lo
  {
    if hi <= lo then [] else MirrorColRow(x, k, y, lo, hi - 1) + [Pos(x, k - (hi - 1)), Pos(hi - 1, y)]
  }

  /** A loop pushing (i, y): one horizontal bar. */
  function Row(y: int, lo: int, hi: int): seq<Pos>
    decreases hi - lo
  {
    if hi <= lo then [] else Row(y, lo, hi - 1) + [Pos(hi - 1, y)]
  }


  // ---------------------------------------------------------------------
  // Which cells each loop shape pushes.
  // ---------------------------------------------------------------------

  predicate InRow(p: Pos, y: int, lo: int, hi: int) { p.y == y && lo <= p.x < hi }
  predicate InCol(p: Pos, x: int, lo: int, hi: int) { p.x == x && lo <= p.y < hi }

  lemma {:induction false} PerimeterUpToCells(n: int, i: int, p: Pos)
    ensures p in PerimeterUpTo(n, i) <==>
      ((p.x == 0 || p.x == n - 1) && 0 <= p.y < i) || ((p.y == 0 || p.y == n - 1) && 0 <= p.x < i)
    decreases i
  {
    if i > 0 { PerimeterUpToCells(n, i - 1, p); }
  }

  lemma PerimeterCells(n: int, p: Pos)
    ensures p in Perimeter(n) <==> OnBorder(p, n)
  {
    PerimeterUpToCells(n, n, p);
  }

  lemma {:induction false} CornersCells(n: int, i: int, p: Pos)
    ensures p in CornersUpTo(n, i) <==>
      ((p.y == 0 || p.y == n - 1) && NearEnd(p.x, n - 1, i)) ||
      ((p.x == 0 || p.x == n - 1) && NearEnd(p.y, n - 1, i))
    decreases i
  {
    if i > 0 { CornersCells(n, i - 1, p); }
  }

  lemma {:induction false} SquareColumnCells(x: int, c: int, j: int, p: Pos)
    ensures p in SquareColumn(x, c, j) <==> p.x == x && 0 <= c - p.y < j
    decreases j
  {
    if j > 0 { SquareColumnCells(x, c, j - 1, p); }
  }

  lemma {:induction false} SquareCells(c: int, s: int, i: int, p: Pos)
    ensures p in Square(c, s, i) <==> 0 <= c - p.x < i && 0 <= c - p.y < s
    decreases i
  {
    if i > 0 {
      SquareCells(c, s, i - 1, p);
      SquareColumnCells(c - (i - 1), c, s, p);
    }
  }

  lemma {:induction false} RowPairsCells(y1: int, y2: int, lo: int, hi: int, p: Pos)
    ensures p in RowPairs(y1, y2, lo, hi) <==> (p.y == y1 || p.y == y2) && lo <= p.x < hi
    decreases hi - lo
  {
    if hi > lo { RowPairsCells(y1, y2, lo, hi - 1, p); }
  }

  lemma {:induction false} ColPairsCells(x1: int, x2: int, lo: int, hi: int, p: Pos)
    ensures p in ColPairs(x1, x2, lo, hi) <==> (p.x == x1 || p.x == x2) && lo <= p.y < hi
    decreases hi - lo
  {
    if hi > lo { ColPairsCells(x1, x2, lo, hi - 1, p); }
  }

  lemma {:induction false} PlusArmsCells(n: int, c: int, lo: int, hi: int, p: Pos)
    ensures p in PlusArms(n, c, lo, hi) <==>
      (p.y == c && lo <= p.x < hi && PlusIndex(p.x, n, c)) ||
      (p.x == c && lo <= p.y < hi && PlusIndex(p.y, n, c))
    decreases hi - lo
  {
    if hi > lo { PlusArmsCells(n, c, lo, hi - 1, p); }
  }

  lemma {:induction false} RowColCells(y: int, x: int, lo: int, hi: int, p: Pos)
    ensures p in RowCol(y, x, lo, hi) <==> InRow(p, y, lo, hi) || InCol(p, x, lo, hi)
    decreases hi - lo
  {
    if hi > lo { RowColCells(y, x, lo, hi - 1, p); }
  }

  lemma {:induction false} MirrorColRowCells(x: int, k: int, y: int, lo: int, hi: int, p: Pos)
    ensures p in MirrorColRow(x, k, y, lo, hi) <==> InCol(p, x, k - hi + 1, k - lo + 1) || InRow(p, y, lo, hi)
    decreases hi - lo
  {
    if hi > lo { MirrorColRowCells(x, k, y, lo, hi - 1, p); }
  }

  lemma {:induction false} RowCells(y: int, lo: int, hi: int, p: Pos)
    ensures p in Row(y, lo, hi) <==> InRow(p, y, lo, hi)
    decreases hi - lo
  {
    if hi > lo { RowCells(y, lo, hi - 1, p); }
  }

  // ---------------------------------------------------------------------
  // Level by level: what is pushed after the border ring (levels 3 up),
  // the same cells stated as a set, and the lemma relating the two.
  // ---------------------------------------------------------------------

  function Level2Size(n: int): int { Max(2, Frac(n, 15)) }

  /** Level 2: cells of a border row or column within `Level2Size(n)` of a corner. */
  predicate CornerBracketCell(p: Pos, n: int) {
    var m, s := n - 1, Level2Size(n);
    ((p.y == 0 || p.y == m) && NearEnd(p.x, m, s)) || ((p.x == 0 || p.x == m) && NearEnd(p.y, m, s))
  }

  function Level4Size(n: int): int { Max(1, Frac(n, 10)) }

  /** Level 4: a square of side `Level4Size(n)` whose corner of largest x and y is the centre. */
  function Level4Walls(n: int): seq<Pos> {
    Square(n / 2, Level4Size(n), Level4Size(n))
  }

  predicate Level4Cell(p: Pos, n: int) {
    0 <= n / 2 - p.x < Level4Size(n) && 0 <= n / 2 - p.y < Level4Size(n)
  }

  lemma Level4Cells(n: int, p: Pos)
    ensures p in Level4Walls(n) <==> Level4Cell(p, n)
  {
    SquareCells(n / 2, Level4Size(n), Level4Size(n), p);
  }

  /** Levels 5 and 8: the four cells at the quarter and three-quarter intersections. */
  function Quarters(n: int): seq<Pos> {
    var q, t := n / 4, 3 * n / 4;
    [Pos(q, q), Pos(t, q), Pos(q, t), Pos(t, t)]
  }

  predicate QuarterCell(p: Pos, n: int) {
    (p.x == n / 4 || p.x == 3 * n / 4) && (p.y == n / 4 || p.y == 3 * n / 4)
  }

  /** Level 6: horizontal bars on rows 30% and 65%, over columns [15%, 35%) and [65%, 85%). */
  function Level6Walls(n: int): seq<Pos> {
    var y1, y2 := Frac(n, 30), Frac(n, 65);
    RowPairs(y1, y2, Frac(n, 15), Frac(n, 35)) + RowPairs(y1, y2, Frac(n, 65), Frac(n, 85))
  }

  predicate Level6Cell(p: Pos, n: int) {
    (p.y == Frac(n, 30) || p.y == Frac(n, 65)) &&
    (Frac(n, 15) <= p.x < Frac(n, 35) || Frac(n, 65) <= p.x < Frac(n, 85))
  }

  lemma Level6Cells(n: int, p: Pos)
    ensures p in Level6Walls(n) <==> Level6Cell(p, n)
  {
    var y1, y2 := Frac(n, 30), Frac(n, 65);
    RowPairsCells(y1, y2, Frac(n, 15), Frac(n, 35), p);
    RowPairsCells(y1, y2, Frac(n, 65), Frac(n, 85), p);
  }

  /** Level 7: level 6 transposed, vertical bars on columns 30% and 65%. */
  function Level7Walls(n: int): seq<Pos> {
    var x1, x2 := Frac(n, 30), Frac(n, 65);
    ColPairs(x1, x2, Frac(n, 15), Frac(n, 35)) + ColPairs(x1, x2, Frac(n, 65), Frac(n, 85))
  }

  predicate Level7Cell(p: Pos, n: int) {
    (p.x == Frac(n, 30) || p.x == Frac(n, 65)) &&
    (Frac(n, 15) <= p.y < Frac(n, 35) || Frac(n, 65) <= p.y < Frac(n, 85))
  }

  lemma Level7Cells(n: int, p: Pos)
    ensures p in Level7Walls(n) <==> Level7Cell(p, n)
  {
    var x1, x2 := Frac(n, 30), Frac(n, 65);
    ColPairsCells(x1, x2, Frac(n, 15), Frac(n, 35), p);
    ColPairsCells(x1, x2, Frac(n, 65), Frac(n, 85), p);
  }

  /** Level 8: the plus through the centre over indices [c - 15%, c + 15%), then the quarter cells. */
  function Level8Walls(n: int): seq<Pos> {
    var c := n / 2;
    PlusArms(n, c, c - Frac(n, 15), c + Frac(n, 15)) + Quarters(n)
  }

  predicate PlusCell(p: Pos, n: int) {
    var c, l := n / 2, Frac(n, 15);
    (p.y == c && c - l <= p.x < c + l && PlusIndex(p.x, n, c)) ||
    (p.x == c && c - l <= p.y < c + l && PlusIndex(p.y, n, c))
  }

  lemma Level8Cells(n: int, p: Pos)
    ensures p in Level8Walls(n) <==> PlusCell(p, n) || QuarterCell(p, n)
  {
    var c := n / 2;
    PlusArmsCells(n, c, c - Frac(n, 15), c + Frac(n, 15), p);
  }

  /**
   * Level 9: horizontal bars on rows 35% and 60% over columns [20%, 40%) and
   * [60%, 80%), and two-cell nubs (c - 1 and c) on rows 20% and 75%.
   */
  function Level9Walls(n: int): seq<Pos> {
    var c, y1, y2 := n / 2, Frac(n, 35), Frac(n, 60);
    RowPairs(y1, y2, Frac(n, 20), Frac(n, 40)) + RowPairs(y1, y2, Frac(n, 60), Frac(n, 80)) +
    [Pos(c, Frac(n, 20)), Pos(c - 1, Frac(n, 20)), Pos(c, Frac(n, 75)), Pos(c - 1, Frac(n, 75))]
  }

  predicate Level9Cell(p: Pos, n: int) {
    ((p.y == Frac(n, 35) || p.y == Frac(n, 60)) &&
     (Frac(n, 20) <= p.x < Frac(n, 40) || Frac(n, 60) <= p.x < Frac(n, 80))) ||
    ((p.y == Frac(n, 20) || p.y == Frac(n, 75)) && (p.x == n / 2 || p.x == n / 2 - 1))
  }

  lemma Level9Cells(n: int, p: Pos)
    ensures p in Level9Walls(n) <==> Level9Cell(p, n)
  {
    var y1, y2 := Frac(n, 35), Frac(n, 60);
    RowPairsCells(y1, y2, Frac(n, 20), Frac(n, 40), p);
    RowPairsCells(y1, y2, Frac(n, 60), Frac(n, 80), p);
  }

  /**
   * Level 10: horizontal bars on rows 30% and 65% over columns [20%, 40%) and
   * [60%, 80%), and the centre column's cells on rows 40% and 55%.
   */
  function Level10Walls(n: int): seq<Pos> {
    var c, y1, y2 := n / 2, Frac(n, 30), Frac(n, 65);
    RowPairs(y1, y2, Frac(n, 20), Frac(n, 40)) + RowPairs(y1, y2, Frac(n, 60), Frac(n, 80)) +
    [Pos(c, Frac(n, 40)), Pos(c, Frac(n, 55))]
  }

  predicate Level10Cell(p: Pos, n: int) {
    ((p.y == Frac(n, 30) || p.y == Frac(n, 65)) &&
     (Frac(n, 20) <= p.x < Frac(n, 40) || Frac(n, 60) <= p.x < Frac(n, 80))) ||
    (p.x == n / 2 && (p.y == Frac(n, 40) || p.y == Frac(n, 55)))
  }

  lemma Level10Cells(n: int, p: Pos)
    ensures p in Level10Walls(n) <==> Level10Cell(p, n)
  {
    var y1, y2 := Frac(n, 30), Frac(n, 65);
    RowPairsCells(y1, y2, Frac(n, 20), Frac(n, 40), p);
    RowPairsCells(y1, y2, Frac(n, 60), Frac(n, 80), p);
  }

  /**
   * Level 11: four loops for the corner brackets, with offset d = 20% and arm
   * length l = 15%, then a bar through the vertical centre over [30%, 70%).
   */
  function Level11Walls(n: int): seq<Pos> {
    Brackets(n - 1, Frac(n, 20), Frac(n, 15)) + Row(n / 2, Frac(n, 30), Frac(n, 70))
  }

  /** The four bracket loops of level 11, for largest index m, offset d and arm length l. */
  function Brackets(m: int, d: int, l: int): seq<Pos> {
    var lo := m - d - l;
    RowCol(d, d, d, d + l) +
    RowCol(d, m - d, lo, m - d) +
    MirrorColRow(d, m, m - d, d, d + l) +
    // the game writes this row as m - (i - lo) - d, that is (m + lo - d) - i
    MirrorColRow(m - d, m + lo - d, m - d, lo, m - d)
  }

  /** The bracket cells, where the four loops put them. */
  predicate BracketCell(p: Pos, m: int, d: int, l: int) {
    // top-left bracket
    InRow(p, d, d, d + l) || InCol(p, d, d, d + l) ||
    // top-right: a bar on row d, and a bar on column m - d just above the bottom-right bracket
    InRow(p, d, m - d - l, m - d) || InCol(p, m - d, m - d - l, m - d) ||
    // bottom-left: column d up from row m - d, and row m - d
    InCol(p, d, m - d - l + 1, m - d + 1) || InRow(p, m - d, d, d + l) ||
    // bottom-right: column m - d up from row m - d, and row m - d
    InCol(p, m - d, m - d - l + 1, m - d + 1) || InRow(p, m - d, m - d - l, m - d)
  }

  lemma BracketCells(m: int, d: int, l: int, p: Pos)
    ensures p in Brackets(m, d, l) <==> BracketCell(p, m, d, l)
  {
    var lo := m - d - l;
    RowColCells(d, d, d, d + l, p);
    RowColCells(d, m - d, lo, m - d, p);
    MirrorColRowCells(d, m, m - d, d, d + l, p);
    MirrorColRowCells(m - d, m + lo - d, m - d, lo, m - d, p);
  }

  /** The level-11 cells: the brackets and the centre bar. */
  predicate Level11Cell(p: Pos, n: int) {
    BracketCell(p, n - 1, Frac(n, 20), Frac(n, 15)) || InRow(p, n / 2, Frac(n, 30), Frac(n, 70))
  }

  lemma Level11Cells(n: int, p: Pos)
    ensures p in Level11Walls(n) <==> Level11Cell(p, n)
  {
    BracketCells(n - 1, Frac(n, 20), Frac(n, 15), p);
    RowCells(n / 2, Frac(n, 30), Frac(n, 70), p);
  }

  /**
   * Levels 12 and up: full bars on rows 20% and 75% over [20%, 80%), and bars
   * on rows 40% and 60% over [20%, 45%) and [55%, 80%).
   */
  function Level12Walls(n: int): seq<Pos> {
    var lo, hi := Frac(n, 20), Frac(n, 80);
    Row(Frac(n, 20), lo, hi) +
    RowPairs(Frac(n, 40), Frac(n, 60), lo, Frac(n, 45)) +
    RowPairs(Frac(n, 40), Frac(n, 60), Frac(n, 55), hi) +
    Row(Frac(n, 75), lo, hi)
  }

  predicate Level12Cell(p: Pos, n: int) {
    var lo, hi := Frac(n, 20), Frac(n, 80);
    InRow(p, Frac(n, 20), lo, hi) ||
    ((p.y == Frac(n, 40) || p.y == Frac(n, 60)) && (lo <= p.x < Frac(n, 45) || Frac(n, 55) <= p.x < hi)) ||
    InRow(p, Frac(n, 75), lo, hi)
  }

  lemma Level12Cells(n: int, p: Pos)
    ensures p in Level12Walls(n) <==> Level12Cell(p, n)
  {
    var lo, hi := Frac(n, 20), Frac(n, 80);
    RowCells(Frac(n, 20), lo, hi, p);
    RowPairsCells(Frac(n, 40), Frac(n, 60), lo, Frac(n, 45), p);
    RowPairsCells(Frac(n, 40), Frac(n, 60), Frac(n, 55), hi, p);
    RowCells(Frac(n, 75), lo, hi, p);
  }

  // ---------------------------------------------------------------------
  // All levels.
  // ---------------------------------------------------------------------

  /** What a level from 3 up pushes after its border ring (nothing for level 3). */
  function ObstacleWalls(lvl: int, n: int): seq<Pos> {
    if lvl == 4 then Level4Walls(n)
    else if lvl == 5 then Quarters(n)
    else if lvl == 6 then Level6Walls(n)
    else if lvl == 7 then Level7Walls(n)
    else if lvl == 8 then Level8Walls(n)
    else if lvl == 9 then Level9Walls(n)
    else if lvl == 10 then Level10Walls(n)
    else if lvl == 11 then Level11Walls(n)
    else if lvl >= 12 then Level12Walls(n)
    else []
  }

  /** The wall array for level lvl on an n-by-n grid; a level below 1 has none. */
  function LevelWalls(lvl: int, n: int): (r: seq<Pos>)
    ensures lvl <= 1 ==> r == []
    ensures lvl >= 3 && n >= 0 ==> |r| >= 4 * n
  {
    if lvl == 1 then []
    else if lvl == 2 then CornersUpTo(n, Level2Size(n))
    else if lvl >= 3 then Perimeter(n) + ObstacleWalls(lvl, n)
    else []
  }

  /** The cells a level from 3 up walls in besides its border ring. */
  predicate ObstacleAt(lvl: int, n: int, p: Pos) {
    if lvl == 4 then Level4Cell(p, n)
    else if lvl == 5 then QuarterCell(p, n)
    else if lvl == 6 then Level6Cell(p, n)
    else if lvl == 7 then Level7Cell(p, n)
    else if lvl == 8 then PlusCell(p, n) || QuarterCell(p, n)
    else if lvl == 9 then Level9Cell(p, n)
    else if lvl == 10 then Level10Cell(p, n)
    else if lvl == 11 then Level11Cell(p, n)
    else if lvl >= 12 then Level12Cell(p, n)
    else false
  }

  /** Whether p is a wall cell of level lvl on an n-by-n grid. */
  predicate WallAt(lvl: int, n: int, p: Pos) {
    if lvl == 2 then CornerBracketCell(p, n)
    else if lvl >= 3 then OnBorder(p, n) || ObstacleAt(lvl, n, p)
    else false
  }

  lemma ObstacleCells(lvl: int, n: int, p: Pos)
    ensures p in ObstacleWalls(lvl, n) <==> ObstacleAt(lvl, n, p)
  {
    if lvl == 4 { Level4Cells(n, p); }
    else if lvl == 6 { Level6Cells(n, p); }
    else if lvl == 7 { Level7Cells(n, p); }
    else if lvl == 8 { Level8Cells(n, p); }
    else if lvl == 9 { Level9Cells(n, p); }
    else if lvl == 10 { Level10Cells(n, p); }
    else if lvl == 11 { Level11Cells(n, p); }
    else if lvl >= 12 { Level12Cells(n, p); }
  }

  /** The array for a level holds exactly the cells `WallAt` describes. */
  lemma LevelWallsCells(lvl: int, n: int, p: Pos)
    ensures p in LevelWalls(lvl, n) <==> WallAt(lvl, n, p)
  {
    if lvl == 2 {
      CornersCells(n, Level2Size(n), p);
    } else if lvl >= 3 {
      PerimeterCells(n, p);
      ObstacleCells(lvl, n, p);
    }
  }

  // ---------------------------------------------------------------------
  // Properties of the layouts.
  // ---------------------------------------------------------------------

  /** Level 1 has no walls, and neither has any level below it. */
  lemma Level1Empty(lvl: int, n: int)
    requires lvl <= 1
    ensures LevelWalls(lvl, n) == []
  {
  }

  /** Every level from 3 up walls in the whole border ring. */
  lemma PerimeterWalled(lvl: int, n: int, p: Pos)
    requires lvl >= 3 && OnBorder(p, n)
    ensures p in LevelWalls(lvl, n)
  {
    LevelWallsCells(lvl, n, p);
  }

  /** Level 3 is the border ring and nothing else, built as 4 * n cells. */
  lemma Level3IsPerimeter(n: int, p: Pos)
    requires n >= 0
    ensures |LevelWalls(3, n)| == 4 * n
    ensures p in LevelWalls(3, n) <==> OnBorder(p, n)
  {
    PerimeterCells(n, p);
  }

  /** Levels from 12 up reuse the level-12 layout. */
  lemma LaterLevelsRepeat(lvl: int, n: int)
    requires lvl >= 12
    ensures LevelWalls(lvl, n) == LevelWalls(12, n)
  {
  }

  /**
   * Level 2: every wall cell lies on a border row or column, and on the grid
   * once the grid has two cells a side.
   */
  lemma Level2OnBorderLines(n: int, p: Pos)
    requires p in LevelWalls(2, n)
    ensures p.x == 0 || p.x == n - 1 || p.y == 0 || p.y == n - 1
    ensures n >= 2 ==> InBounds(p, n)
  {
    CornersCells(n, Level2Size(n), p);
  }

  /** Level 2: the brackets cover the first `Level2Size(n)` cells from each corner along both edges. */
  lemma Level2CoversCorners(n: int, k: int)
    requires 0 <= k < Level2Size(n)
    ensures var m, w := n - 1, LevelWalls(2, n);
      Pos(k, 0) in w && Pos(m - k, 0) in w && Pos(0, k) in w && Pos(m, k) in w &&
      Pos(k, m) in w && Pos(m - k, m) in w && Pos(0, m - k) in w && Pos(m, m - k) in w
  {
    var m := n - 1;
    assert LevelWalls(2, n) == CornersUpTo(n, Level2Size(n));
    CornersCells(n, Level2Size(n), Pos(k, 0));
    CornersCells(n, Level2Size(n), Pos(m - k, 0));
    CornersCells(n, Level2Size(n), Pos(0, k));
    CornersCells(n, Level2Size(n), Pos(m, k));
    CornersCells(n, Level2Size(n), Pos(k, m));
    CornersCells(n, Level2Size(n), Pos(m - k, m));
    CornersCells(n, Level2Size(n), Pos(0, m - k));
    CornersCells(n, Level2Size(n), Pos(m, m - k));
  }

  /** The arms of the level-8 plus stay on the grid and keep off the centre's 2-neighbourhood. */
  lemma Level8PlusClear(n: int, p: Pos)
    requires p in PlusArms(n, n / 2, n / 2 - Frac(n, 15), n / 2 + Frac(n, 15))
    ensures InBounds(p, n)
    ensures Manhattan(p, Pos(n / 2, n / 2)) > 2
  {
    PlusArmsCells(n, n / 2, n / 2 - Frac(n, 15), n / 2 + Frac(n, 15), p);
  }

  function RowSet(y: int, lo: int, hi: int): set<Pos> {
    set x | lo <= x < hi :: Pos(x, y)
  }

  function ColSet(x: int, lo: int, hi: int): set<Pos> {
    set y | lo <= y < hi :: Pos(x, y)
  }

  lemma {:induction false} RowSetSize(y: int, lo: int, hi: int)
    requires lo <= hi
    ensures |RowSet(y, lo, hi)| == hi - lo
    decreases hi - lo
  {
    if lo < hi {
      RowSetSize(y, lo, hi - 1);
      assert RowSet(y, lo, hi) == RowSet(y, lo, hi - 1) + {Pos(hi - 1, y)};
    } else {
      assert RowSet(y, lo, hi) == {};
    }
  }

  lemma {:induction false} ColSetSize(x: int, lo: int, hi: int)
    requires lo <= hi
    ensures |ColSet(x, lo, hi)| == hi - lo
    decreases hi - lo
  {
    if lo < hi {
      ColSetSize(x, lo, hi - 1);
      assert ColSet(x, lo, hi) == ColSet(x, lo, hi - 1) + {Pos(x, hi - 1)};
    } else {
      assert ColSet(x, lo, hi) == {};
    }
  }

  /** The border ring is its top and bottom rows and the rest of its two side columns. */
  lemma BorderAsLines(n: int, p: Pos)
    requires n >= 2
    ensures OnBorder(p, n) <==> p in Ring(n)
  {
    if OnBorder(p, n) {
      if p.y == 0 { assert p in RowSet(0, 0, n); }
      else if p.y == n - 1 { assert p in RowSet(n - 1, 0, n); }
      else if p.x == 0 { assert p in ColSet(0, 1, n - 1); }
      else { assert p in ColSet(n - 1, 1, n - 1); }
    }
  }

  function Ring(n: int): set<Pos> {
    RowSet(0, 0, n) + RowSet(n - 1, 0, n) + ColSet(0, 1, n - 1) + ColSet(n - 1, 1, n - 1)
  }

  /** The four lines of the ring are disjoint, so it has 4 * n - 4 cells. */
  lemma RingSize(n: int)
    requires n >= 2
    ensures |Ring(n)| == 4 * n - 4
  {
    var m := n - 1;
    var top, bottom := RowSet(0, 0, n), RowSet(m, 0, n);
    var left, right := ColSet(0, 1, m), ColSet(m, 1, m);
    RowSetSize(0, 0, n);
    RowSetSize(m, 0, n);
    ColSetSize(0, 1, m);
    ColSetSize(m, 1, m);
    assert top * bottom == {};
    assert (top + bottom) * left == {};
    assert (top + bottom + left) * right == {};
  }

  /**
   * Level 3's 4 * n pushes name 4 * n - 4 distinct cells: the corners are the
   * only duplicates.
   */
  lemma Level3DistinctCells(n: int)
    requires n >= 2
    ensures |set p | p in LevelWalls(3, n)| == 4 * n - 4
  {
    var cells := set p | p in LevelWalls(3, n);
    forall p | true
      ensures p in cells <==> p in Ring(n)
    {
      Level3IsPerimeter(n, p);
      BorderAsLines(n, p);
    }
    assert cells == Ring(n);
    RingSize(n);
  }

  /** On the 20-cell grid level 3 walls in exactly 76 cells. */
  lemma Level3On20Grid(n: int)
    requires n == 20
    ensures |LevelWalls(3, n)| == 80
    ensures |set p | p in LevelWalls(3, n)| == 76
  {
    Level3IsPerimeter(n, Pos(0, 0));
    Level3DistinctCells(n);
  }

  /**
   * The level-8 plus as written: its index range [c - l, c + l) is one-sided,
   * so on the 20 grid only the left and upper arms get a cell, and on the 15
   * grid no index is more than 2 from the centre and the plus is empty.
   */
  lemma Level8PlusAsWritten()
    ensures WallAt(8, 20, Pos(7, 10)) && WallAt(8, 20, Pos(10, 7))
    ensures !WallAt(8, 20, Pos(13, 10)) && !WallAt(8, 20, Pos(10, 13))
    ensures PlusArms(15, 7, 5, 9) == []
  {
  }

  /**
   * The level-11 brackets as written, on the 20 grid: the top-left bracket
   * has its vertical arm at the top (column 4, rows 4 to 6), but the column
   * arm of the top-right loop lies on rows 12 to 14, so column 15 has no wall
   * on rows 4 to 6.
   */
  lemma Level11BracketsAsWritten()
    ensures WallAt(11, 20, Pos(4, 5)) && WallAt(11, 20, Pos(14, 4))
    ensures !WallAt(11, 20, Pos(15, 5)) && WallAt(11, 20, Pos(15, 12))
  {
  }

  // ---------------------------------------------------------------------
  // Building the arrays with loops.
  // ---------------------------------------------------------------------

  method AppendPerimeter(w: seq<Pos>, n: int) returns (r: seq<Pos>)
    ensures r == w + Perimeter(n)
  {
    var m := n - 1;
    r := w;
    var i := 0;
    while i < n
      invariant 0 <= i && (i == 0 || i <= n)
      invariant r == w + PerimeterUpTo(n, i)
    {
      r := r + [Pos(0, i), Pos(m, i)];
      r := r + [Pos(i, 0), Pos(i, m)];
      i := i + 1;
    }
  }

  method AppendCorners(w: seq<Pos>, n: int, size: int) returns (r: seq<Pos>)
    ensures r == w + CornersUpTo(n, size)
  {
    var m := n - 1;
    r := w;
    var i := 0;
    while i < size
      invariant 0 <= i && (i == 0 || i <= size)
      invariant r == w + CornersUpTo(n, i)
    {
      var cells := [Pos(i, 0), Pos(m - i, 0), Pos(0, i), Pos(m, i),
                    Pos(i, m), Pos(m - i, m), Pos(0, m - i), Pos(m, m - i)];
      assert CornersUpTo(n, i + 1) == CornersUpTo(n, i) + cells;
      AppendAssoc(w, CornersUpTo(n, i), cells);
      r := r + cells;
      i := i + 1;
    }
  }

  method AppendSquareColumn(w: seq<Pos>, x: int, c: int, s: int) returns (r: seq<Pos>)
    ensures r == w + SquareColumn(x, c, s)
  {
    r := w;
    var j := 0;
    while j < s
      invariant 0 <= j && (j == 0 || j <= s)
      invariant r == w + SquareColumn(x, c, j)
    {
      r := r + [Pos(x, c - j)];
      j := j + 1;
    }
  }

  method AppendSquare(w: seq<Pos>, c: int, s: int) returns (r: seq<Pos>)
    ensures r == w + Square(c, s, s)
  {
    r := w;
    var i := 0;
    while i < s
      invariant 0 <= i && (i == 0 || i <= s)
      invariant r == w + Square(c, s, i)
    {
      AppendAssoc(w, Square(c, s, i), SquareColumn(c - i, c, s));
      r := AppendSquareColumn(r, c - i, c, s);
      i := i + 1;
    }
  }

  method AppendRowPairs(w: seq<Pos>, y1: int, y2: int, lo: int, hi: int) returns (r: seq<Pos>)
    ensures r == w + RowPairs(y1, y2, lo, hi)
  {
    r := w;
    var i := lo;
    while i < hi
      invariant lo <= i && (i == lo || i <= hi)
      invariant r == w + RowPairs(y1, y2, lo, i)
    {
      r := r + [Pos(i, y1), Pos(i, y2)];
      i := i + 1;
    }
  }

  method AppendColPairs(w: seq<Pos>, x1: int, x2: int, lo: int, hi: int) returns (r: seq<Pos>)
    ensures r == w + ColPairs(x1, x2, lo, hi)
  {
    r := w;
    var i := lo;
    while i < hi
      invariant lo <= i && (i == lo || i <= hi)
      invariant r == w + ColPairs(x1, x2, lo, i)
    {
      r := r + [Pos(x1, i), Pos(x2, i)];
      i := i + 1;
    }
  }

  method AppendPlusArms(w: seq<Pos>, n: int, c: int, lo: int, hi: int) returns (r: seq<Pos>)
    ensures r == w + PlusArms(n, c, lo, hi)
  {
    r := w;
    var i := lo;
    while i < hi
      invariant lo <= i && (i == lo || i <= hi)
      invariant r == w + PlusArms(n, c, lo, i)
    {
      if i >= 0 && i < n && Abs(i - c) > 2 {
        r := r + [Pos(i, c), Pos(c, i)];
      }
      i := i + 1;
    }
  }

  method AppendRowCol(w: seq<Pos>, y: int, x: int, lo: int, hi: int) returns (r: seq<Pos>)
    ensures r == w + RowCol(y, x, lo, hi)
  {
    r := w;
    var i := lo;
    while i < hi
      invariant lo <= i && (i == lo || i <= hi)
      invariant r == w + RowCol(y, x, lo, i)
    {
      r := r + [Pos(i, y), Pos(x, i)];
      i := i + 1;
    }
  }

  method AppendMirrorColRow(w: seq<Pos>, x: int, k: int, y: int, lo: int, hi: int) returns (r: seq<Pos>)
    ensures r == w + MirrorColRow(x, k, y, lo, hi)
  {
    r := w;
    var i := lo;
    while i < hi
      invariant lo <= i && (i == lo || i <= hi)
      invariant r == w + MirrorColRow(x, k, y, lo, i)
    {
      r := r + [Pos(x, k - i), Pos(i, y)];
      i := i + 1;
    }
  }

  method AppendRow(w: seq<Pos>, y: int, lo: int, hi: int) returns (r: seq<Pos>)
    ensures r == w + Row(y, lo, hi)
  {
    r := w;
    var i := lo;
    while i < hi
      invariant lo <= i && (i == lo || i <= hi)
      invariant r == w + Row(y, lo, i)
    {
      r := r + [Pos(i, y)];
      i := i + 1;
    }
  }

  /** The loops that follow the border ring on a level from 3 up. */
  method AppendLevel6(w: seq<Pos>, n: int) returns (r: seq<Pos>)
    ensures r == w + Level6Walls(n)
  {
    var barY1, barY2 := Frac(n, 30), Frac(n, 65);
    r := AppendRowPairs(w, barY1, barY2, Frac(n, 15), Frac(n, 35));
    r := AppendRowPairs(r, barY1, barY2, Frac(n, 65), Frac(n, 85));
  }

  method AppendLevel7(w: seq<Pos>, n: int) returns (r: seq<Pos>)
    ensures r == w + Level7Walls(n)
  {
    var barX1, barX2 := Frac(n, 30), Frac(n, 65);
    r := AppendColPairs(w, barX1, barX2, Frac(n, 15), Frac(n, 35));
    r := AppendColPairs(r, barX1, barX2, Frac(n, 65), Frac(n, 85));
  }

  method AppendLevel8(w: seq<Pos>, n: int) returns (r: seq<Pos>)
    ensures r == w + Level8Walls(n)
  {
    var center, barLength := n / 2, Frac(n, 15);
    r := AppendPlusArms(w, n, center, center - barLength, center + barLength);
    r := r + Quarters(n);
  }

  method AppendLevel9(w: seq<Pos>, n: int) returns (r: seq<Pos>)
    ensures r == w + Level9Walls(n)
  {
    var barY1, barY2 := Frac(n, 35), Frac(n, 60);
    r := AppendRowPairs(w, barY1, barY2, Frac(n, 20), Frac(n, 40));
    r := AppendRowPairs(r, barY1, barY2, Frac(n, 60), Frac(n, 80));
    var center, topY, bottomY := n / 2, Frac(n, 20), Frac(n, 75);
    r := r + [Pos(center, topY), Pos(center - 1, topY)];
    r := r + [Pos(center, bottomY), Pos(center - 1, bottomY)];
  }

  method AppendLevel10(w: seq<Pos>, n: int) returns (r: seq<Pos>)
    ensures r == w + Level10Walls(n)
  {
    var barY1, barY2 := Frac(n, 30), Frac(n, 65);
    r := AppendRowPairs(w, barY1, barY2, Frac(n, 20), Frac(n, 40));
    r := AppendRowPairs(r, barY1, barY2, Frac(n, 60), Frac(n, 80));
    var center := n / 2;
    r := r + [Pos(center, Frac(n, 40)), Pos(center, Frac(n, 55))];
  }

  method AppendLevel11(w: seq<Pos>, n: int) returns (r: seq<Pos>)
    ensures r == w + Level11Walls(n)
  {
    var maxIndex, cornerDist, cornerLen := n - 1, Frac(n, 20), Frac(n, 15);
    var lo := maxIndex - cornerDist - cornerLen;
    ghost var a := RowCol(cornerDist, cornerDist, cornerDist, cornerDist + cornerLen);
    ghost var b := RowCol(cornerDist, maxIndex - cornerDist, lo, maxIndex - cornerDist);
    ghost var c := MirrorColRow(cornerDist, maxIndex, maxIndex - cornerDist, cornerDist, cornerDist + cornerLen);
    ghost var d := MirrorColRow(maxIndex - cornerDist, maxIndex + lo - cornerDist, maxIndex - cornerDist, lo, maxIndex - cornerDist);
    ghost var e := Row(n / 2, Frac(n, 30), Frac(n, 70));
    r := AppendRowCol(w, cornerDist, cornerDist, cornerDist, cornerDist + cornerLen);
    r := AppendRowCol(r, cornerDist, maxIndex - cornerDist, lo, maxIndex - cornerDist);
    AppendAssoc(w, a, b);
    r := AppendMirrorColRow(r, cornerDist, maxIndex, maxIndex - cornerDist, cornerDist, cornerDist + cornerLen);
    AppendAssoc(w, a + b, c);
    r := AppendMirrorColRow(r, maxIndex - cornerDist, maxIndex + lo - cornerDist, maxIndex - cornerDist, lo, maxIndex - cornerDist);
    AppendAssoc(w, a + b + c, d);
    assert r == w + Brackets(maxIndex, cornerDist, cornerLen);
    r := AppendRow(r, n / 2, Frac(n, 30), Frac(n, 70));
    AppendAssoc(w, Brackets(maxIndex, cornerDist, cornerLen), e);
  }

  method AppendLevel12(w: seq<Pos>, n: int) returns (r: seq<Pos>)
    ensures r == w + Level12Walls(n)
  {
    var lo, hi := Frac(n, 20), Frac(n, 80);
    r := AppendRow(w, Frac(n, 20), lo, hi);
    r := AppendRowPairs(r, Frac(n, 40), Frac(n, 60), lo, Frac(n, 45));
    r := AppendRowPairs(r, Frac(n, 40), Frac(n, 60), Frac(n, 55), hi);
    r := AppendRow(r, Frac(n, 75), lo, hi);
  }

  /** The loops that follow the border ring on a level from 3 up. */
  method AppendObstacles(w: seq<Pos>, lvl: int, n: int) returns (r: seq<Pos>)
    ensures r == w + ObstacleWalls(lvl, n)
  {
    r := w;
    if lvl == 4 {
      r := AppendSquare(w, n / 2, Level4Size(n));
    } else if lvl == 5 {
      r := w + Quarters(n);
    } else if lvl == 6 {
      r := AppendLevel6(w, n);
    } else if lvl == 7 {
      r := AppendLevel7(w, n);
    } else if lvl == 8 {
      r := AppendLevel8(w, n);
    } else if lvl == 9 {
      r := AppendLevel9(w, n);
    } else if lvl == 10 {
      r := AppendLevel10(w, n);
    } else if lvl == 11 {
      r := AppendLevel11(w, n);
    } else if lvl >= 12 {
      r := AppendLevel12(w, n);
    }
  }

  /**
   * Builds the wall array of a level with the game's loops. Level 1 (and any
   * level below it) has no walls; level 3 is the border ring alone, 4 * n
   * cells with every corner twice.
   */
  method GenerateLevelWalls(lvl: int, n: int) returns (walls: seq<Pos>)
    ensures walls == LevelWalls(lvl, n)
    ensures forall p :: p in walls <==> WallAt(lvl, n, p)
    ensures lvl <= 1 ==> walls == []
    ensures lvl == 3 && n >= 0 ==> |walls| == 4 * n
  {
    walls := [];
    if lvl == 2 {
      walls := AppendCorners(walls, n, Level2Size(n));
    } else if lvl >= 3 {
      walls := AppendPerimeter(walls, n);
      walls := AppendObstacles(walls, lvl, n);
    }
    forall p | true
      ensures p in walls <==> WallAt(lvl, n, p)
    {
      LevelWallsCells(lvl, n, p);
    }
  }
}
