/** Which empty cell a run of three is extended into, and how diagonal
    runs are found from a start cell through its diagonal neighbours. */
module Slots {
  import opened Board

  /** Three cells in a row, one column apart, left to right. */
  predicate HorizontalRun(t: seq<Cell>) {
    |t| == 3 && t[1] == Cell(t[0].row, t[0].col + 1) && t[2] == Cell(t[0].row, t[0].col + 2)
  }

  /** Three cells in a column, one row apart, top to bottom. */
  predicate VerticalRun(t: seq<Cell>) {
    |t| == 3 && t[1] == Cell(t[0].row + 1, t[0].col) && t[2] == Cell(t[0].row + 2, t[0].col)
  }

  /** Three cells on a diagonal: each one diagonal step from the previous
      one, in the same direction. */
  predicate DiagonalRun(t: seq<Cell>) {
    |t| == 3 &&
    (t[1].row - t[0].row == 1 || t[1].row - t[0].row == -1) &&
    (t[1].col - t[0].col == 1 || t[1].col - t[0].col == -1) &&
    t[2] == Cell(2 * t[1].row - t[0].row, 2 * t[1].col - t[0].col)
  }

  /** A run of three along `align`. */
  predicate IsRun(t: seq<Cell>, align: Alignment) {
    match align
    case Horizontal => HorizontalRun(t)
    case Vertical => VerticalRun(t)
    case Diagonal => DiagonalRun(t)
  }

  /** The cell one step before the first cell of a run. */
  function BeforeRun(t: seq<Cell>): Cell
    requires |t| == 3
  {
    Cell(2 * t[0].row - t[1].row, 2 * t[0].col - t[1].col)
  }

  /** The cell one step after the last cell of a run. */
  function AfterRun(t: seq<Cell>): Cell
    requires |t| == 3
  {
    Cell(2 * t[2].row - t[1].row, 2 * t[2].col - t[1].col)
  }

  /** Reference rule: the first free extension of a run, the cell before
      it preferred, else NoSlot. */
  function OpenExtension(g: Grid, t: seq<Cell>): Cell
    requires Full(g) && |t| == 3
  {
    var b, a := BeforeRun(t), AfterRun(t);
    if IsFreeSlot(g, b.row, b.col) then b
    else if IsFreeSlot(g, a.row, a.col) then a
    else NoSlot
  }

  /** The free cell next to a run that the game reports, or NoSlot.
      Horizontal: left of the front, then right of the back.
      Vertical: above the front, then below the back (in the front's column).
      Diagonal: above the front and below the back, the column chosen by
      comparing the middle cell's column with that end's column. */
  function FindFreeSlot(g: Grid, t: seq<Cell>, align: Alignment): (slot: Cell)
    requires Full(g) && |t| >= 2
    ensures slot == NoSlot || (InBounds(slot) && g[slot.row - 1][slot.col - 1] == 'x')
  {
    var front, mid, back := t[0], t[1], t[|t| - 1];
    match align
    case Vertical =>
      if front.row > 1 && IsFreeSlot(g, front.row - 1, front.col) then Cell(front.row - 1, front.col)
      else if back.row < 6 && IsFreeSlot(g, back.row + 1, front.col) then Cell(back.row + 1, front.col)
      else NoSlot
    case Horizontal =>
      if front.col > 1 && IsFreeSlot(g, front.row, front.col - 1) then Cell(front.row, front.col - 1)
      else if back.col < 7 && IsFreeSlot(g, front.row, back.col + 1) then Cell(front.row, back.col + 1)
      else NoSlot
    case Diagonal =>
      if front.row > 1 && mid.col < front.col && IsFreeSlot(g, front.row - 1, front.col + 1) then
        Cell(front.row - 1, front.col + 1)
      else if front.row > 1 && mid.col > front.col && IsFreeSlot(g, front.row - 1, front.col - 1) then
        Cell(front.row - 1, front.col - 1)
      else if back.row < 6 && mid.col < back.col && IsFreeSlot(g, back.row + 1, back.col + 1) then
        Cell(back.row + 1, back.col + 1)
      else if back.row < 6 && mid.col > back.col && IsFreeSlot(g, back.row + 1, back.col - 1) then
        Cell(back.row + 1, back.col - 1)
      else NoSlot
  }

  /** On a horizontal or vertical run, and on a diagonal run that goes
      down the board, the reported slot is the first free extension of
      the run: the game's probing agrees with the reference rule. */
  lemma {:induction false} SlotExtendsRun(g: Grid, t: seq<Cell>, align: Alignment)
    requires Full(g) && IsRun(t, align)
    requires align == Diagonal ==> t[1].row == t[0].row + 1
    ensures FindFreeSlot(g, t, align) == OpenExtension(g, t)
  {
  }

  /** On a diagonal run that goes up the board, a reported slot is never
      one of the two cells that would extend the run. */
  lemma {:induction false} UpwardDiagonalSlotOffLine(g: Grid, t: seq<Cell>)
    requires Full(g) && DiagonalRun(t) && t[1].row == t[0].row - 1
    ensures var slot := FindFreeSlot(g, t, Diagonal);
      slot == NoSlot || (slot != BeforeRun(t) && slot != AfterRun(t))
  {
  }

  /** The board of the counterexample: R at (3,3), (4,4), (5,5); Y at
      (2,2) and (6,6); every other cell empty. */
  function UpwardExampleGrid(): Grid {
    [ "xxxxxxx",
      "xYxxxxx",
      "xxRxxxx",
      "xxxRxxx",
      "xxxxRxx",
      "xxxxxYx" ]
  }

  /** The upward run (5,5), (4,4), (3,3) is given the slot (4,6), which
      does not complete four in a row. */
  lemma {:induction false} UpwardDiagonalExample()
    ensures Full(UpwardExampleGrid())
    ensures FindFreeSlot(UpwardExampleGrid(), [Cell(5, 5), Cell(4, 4), Cell(3, 3)], Diagonal) == Cell(4, 6)
    ensures OpenExtension(UpwardExampleGrid(), [Cell(5, 5), Cell(4, 4), Cell(3, 3)]) == NoSlot
  {
    var g := UpwardExampleGrid();
    assert Full(g);
    assert g[3][5] == 'x' && g[1][1] == 'Y' && g[5][5] == 'Y';
  }

  // ---------------------------------------------------------------------
  // Diagonal neighbours
  // ---------------------------------------------------------------------

  /** m is one diagonal step from s. */
  predicate DiagonalNeighbour(s: Cell, m: Cell) {
    (m.row - s.row == 1 || m.row - s.row == -1) && (m.col - s.col == 1 || m.col - s.col == -1)
  }

  /** The diagonal neighbours of `start` whose entry equals the entry of
      `start`, in the order up-left, up-right, down-left, down-right. */
  function SecondDPairs(g: Grid, start: Cell): (mids: seq<Cell>)
    requires Full(g)
    ensures |mids| <= 4
    ensures forall m :: m in mids ==>
      DiagonalNeighbour(start, m) && GetBoardEntry(g, m.row, m.col) == GetBoardEntry(g, start.row, start.col)
  {
    var x, y := start.row, start.col;
    var player := GetBoardEntry(g, x, y);
    (if x > 1 && y > 1 && player == GetBoardEntry(g, x - 1, y - 1) then [Cell(x - 1, y - 1)] else []) +
    (if x > 1 && y < 7 && player == GetBoardEntry(g, x - 1, y + 1) then [Cell(x - 1, y + 1)] else []) +
    (if x < 7 && y > 1 && player == GetBoardEntry(g, x + 1, y - 1) then [Cell(x + 1, y - 1)] else []) +
    (if x < 7 && y < 7 && player == GetBoardEntry(g, x + 1, y + 1) then [Cell(x + 1, y + 1)] else [])
  }

  /** The guard the source tests before looking at a neighbour: a row above
      needs start.row > 1, a row below start.row < 7, a column to the left
      start.col > 1 and a column to the right start.col < 7. */
  predicate NeighbourGuard(start: Cell, m: Cell) {
    (m.row < start.row ==> start.row > 1) && (m.row > start.row ==> start.row < 7) &&
    (m.col < start.col ==> start.col > 1) && (m.col > start.col ==> start.col < 7)
  }

  /** A cell is returned exactly when it is a diagonal neighbour of the
      start that passes the guard of its direction and has the start's entry. */
  lemma {:induction false} SecondDPairsExact(g: Grid, start: Cell, m: Cell)
    requires Full(g)
    ensures m in SecondDPairs(g, start) <==>
      DiagonalNeighbour(start, m) && NeighbourGuard(start, m) &&
      GetBoardEntry(g, m.row, m.col) == GetBoardEntry(g, start.row, start.col)
  {
  }

  /** So every same-entry diagonal neighbour of a cell in columns 1..6 of
      the board is returned. */
  lemma {:induction false} SecondDPairsComplete(g: Grid, start: Cell, m: Cell)
    requires Full(g) && DiagonalNeighbour(start, m) && 1 <= start.row <= Rows && 1 <= start.col <= EntryCols
    requires GetBoardEntry(g, m.row, m.col) == GetBoardEntry(g, start.row, start.col)
    ensures m in SecondDPairs(g, start)
  {
    SecondDPairsExact(g, start, m);
  }

  /** The cell that continues start -> mid one more step, when the middle
      cell is below row 1 and in columns 2..6 and that cell's entry equals
      the entry of `start`; NoSlot otherwise. */
  function GetThirdDPairOf(g: Grid, start: Cell, mid: Cell): (end: Cell)
    requires Full(g)
    ensures end == NoSlot || (end.row >= 1 && 1 <= end.col <= Cols)
  {
    var x, y, mx, my := start.row, start.col, mid.row, mid.col;
    var player := GetBoardEntry(g, x, y);
    if mx > 1 && my < y then
      if mx > x then
        (if my > 1 && my < 7 && player == GetBoardEntry(g, mx + 1, my - 1) then Cell(mx + 1, my - 1) else NoSlot)
      else
        (if my > 1 && my < 7 && player == GetBoardEntry(g, mx - 1, my - 1) then Cell(mx - 1, my - 1) else NoSlot)
    else if mx > 1 && my > y then
      if mx > x then
        (if my > 1 && my < 7 && player == GetBoardEntry(g, mx + 1, my + 1) then Cell(mx + 1, my + 1) else NoSlot)
      else
        (if my > 1 && my < 7 && player == GetBoardEntry(g, mx - 1, my + 1) then Cell(mx - 1, my + 1) else NoSlot)
    else NoSlot
  }

  /** For a diagonal neighbour, the third cell is found exactly when the
      middle cell lies below row 1 and in columns 2..6 and the continuing
      cell has the start's entry, and it is then that continuing cell. */
  lemma {:induction false} ThirdContinuesDiagonal(g: Grid, start: Cell, mid: Cell)
    requires Full(g) && DiagonalNeighbour(start, mid)
    ensures var next := Cell(2 * mid.row - start.row, 2 * mid.col - start.col);
      var end := GetThirdDPairOf(g, start, mid);
      (end != NoSlot <==>
        mid.row > 1 && 2 <= mid.col <= 6 &&
        GetBoardEntry(g, next.row, next.col) == GetBoardEntry(g, start.row, start.col)) &&
      (end != NoSlot ==> end == next)
  {
  }
}
