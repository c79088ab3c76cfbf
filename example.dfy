/** The board the program evaluates: the input is well formed, R's cells
    are found in row-major order, and the answer begins with the
    horizontal token "(6x4)". */
module Example {
  import opened Board
  import opened Slots
  import opened Sorting
  import opened Scan
  import opened Format
  import opened Solver

  /** Player R; R at (4,5) (4,6) (5,2) (5,5) (5,6) (6,1) (6,2) (6,3) (6,5);
      Y at (4,3) (5,3) (5,7) (6,6) (6,7). */
  function GameInput(): seq<string> {
    [ "R",
      "(x,x,x,x,x,x,x)",
      "(x,x,x,x,x,x,x)",
      "(x,x,x,x,x,x,x)",
      "(x,x,Y,x,R,R,x)",
      "(x,R,Y,x,R,R,Y)",
      "(R,R,R,x,R,Y,Y)" ]
  }

  function GameGrid(): Grid {
    [ "xxxxxxx",
      "xxxxxxx",
      "xxxxxxx",
      "xxYxRRx",
      "xRYxRRY",
      "RRRxRYY" ]
  }

  /** R's cells, in row-major order. */
  function RedCells(): seq<Cell> {
    [Cell(4, 5), Cell(4, 6), Cell(5, 2), Cell(5, 5), Cell(5, 6),
     Cell(6, 1), Cell(6, 2), Cell(6, 3), Cell(6, 5)]
  }

  lemma GameInputWellFormed()
    ensures WellFormedInput(GameInput())
  {
    var input := GameInput();
    forall k | 1 <= k < 7
      ensures |input[k]| == RowTextLength
      ensures forall j :: 0 <= j < RowTextLength && j % 2 == 1 ==> IsMark(input[k][j])
    {
    }
  }

  lemma GameRow(k: int)
    requires 1 <= k <= Rows
    ensures |GameInput()[k]| == RowTextLength && RowOf(GameInput()[k]) == GameGrid()[k - 1]
  {
    var text, row := GameInput()[k], GameGrid()[k - 1];
    forall c | 0 <= c < Cols ensures RowOf(text)[c] == row[c] {
    }
  }

  /** The input is well formed and builds GameGrid. */
  lemma GameParses()
    ensures WellFormedInput(GameInput())
    ensures CreatedRows(GameInput()) == GameGrid()
  {
    GameInputWellFormed();
    InputValidity(GameInput());
    var g := CreatedRows(GameInput());
    forall k | 0 <= k < Rows ensures g[k] == GameGrid()[k] {
      GameRow(k + 1);
    }
    assert |g| == |GameGrid()|;
  }

  lemma RedRowCells()
    ensures Full(GameGrid())
    ensures RowCells(GameGrid(), "R", 3, Cols) == [Cell(4, 5), Cell(4, 6)]
    ensures RowCells(GameGrid(), "R", 4, Cols) == [Cell(5, 2), Cell(5, 5), Cell(5, 6)]
    ensures RowCells(GameGrid(), "R", 5, Cols) == [Cell(6, 1), Cell(6, 2), Cell(6, 3), Cell(6, 5)]
  {
    assert Full(GameGrid());
  }

  /** R's cells on the board are RedCells. */
  lemma RedCellsFound()
    ensures Full(GameGrid())
    ensures PlayerCells(GameGrid(), "R") == RedCells()
  {
    var g := GameGrid();
    RedRowCells();
    var row4, row5, row6 := RowCells(g, "R", 3, Cols), RowCells(g, "R", 4, Cols), RowCells(g, "R", 5, Cols);
    assert RowCells(g, "R", 0, Cols) == [] && CellsUpTo(g, "R", 1) == [];
    assert RowCells(g, "R", 1, Cols) == [] && CellsUpTo(g, "R", 2) == [];
    assert RowCells(g, "R", 2, Cols) == [] && CellsUpTo(g, "R", 3) == [];
    assert CellsUpTo(g, "R", 4) == row4;
    assert CellsUpTo(g, "R", 5) == row4 + row5;
    assert CellsUpTo(g, "R", 6) == row4 + row5 + row6;
    assert row4 + row5 + row6 == RedCells();
  }

  lemma RedRowMajor()
    ensures StrictlyRowMajor(RedCells())
  {
    var s := RedCells();
    forall i, j | 0 <= i < j < |s| ensures Before(s[i], s[j]) {
      assert forall k :: 0 <= k < |s| - 1 ==> Before(s[k], s[k + 1]);
      if j > i + 1 {
        assert Before(s[i], s[i + 1]);
      }
    }
  }

  /** The horizontal scan of RedCells finds (6,1) (6,2) (6,3) only. */
  lemma RedHorizontalRuns()
    ensures LineRuns(RedCells(), Horizontal, 0) == [[Cell(6, 1), Cell(6, 2), Cell(6, 3)]]
  {
    var s := RedCells();
    assert LineRuns(s, Horizontal, 8) == [];
    assert s[5..8] == [Cell(6, 1), Cell(6, 2), Cell(6, 3)];
    assert LineRuns(s, Horizontal, 5) == [s[5..8]] + LineRuns(s, Horizontal, 8);
    assert LineRuns(s, Horizontal, 4) == LineRuns(s, Horizontal, 5);
    assert LineRuns(s, Horizontal, 3) == LineRuns(s, Horizontal, 4);
    assert LineRuns(s, Horizontal, 2) == LineRuns(s, Horizontal, 3);
    assert LineRuns(s, Horizontal, 1) == LineRuns(s, Horizontal, 2);
    assert LineRuns(s, Horizontal, 0) == LineRuns(s, Horizontal, 1);
  }

  /** The run (6,1) (6,2) (6,3) has no cell to its left and (6,4) free to its right. */
  lemma BottomRunSlot()
    ensures Full(GameGrid())
    ensures FindFreeSlot(GameGrid(), [Cell(6, 1), Cell(6, 2), Cell(6, 3)], Horizontal) == Cell(6, 4)
  {
    var g := GameGrid();
    assert Full(g);
    assert g[5][3] == 'x';
  }

  /** Horizontally R is answered with (6,4). */
  lemma GameHorizontal()
    ensures Full(GameGrid()) && OrientationSlot(GameGrid(), RedCells(), Horizontal) == Cell(6, 4)
  {
    var run := [Cell(6, 1), Cell(6, 2), Cell(6, 3)];
    BottomRunSlot();
    RedRowMajor();
    RedHorizontalRuns();
    OnlyHorizontalRun(GameGrid(), RedCells(), run);
  }

  /** The whole answer for the hard-coded input begins with "(6x4)". */
  lemma GameAnswerStart()
    ensures |Evaluate(GameInput())| >= 5 && Evaluate(GameInput())[..5] == "(6x4)"
  {
    GameParses();
    RedCellsFound();
    GameHorizontal();
    ResultOnBoard(Cell(6, 4));
    assert OrientationResult(GameGrid(), RedCells(), Horizontal) == "(6x4)";
    HorizontalLeads(GameInput(), "(6x4)");
  }
}
