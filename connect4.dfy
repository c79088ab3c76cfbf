/** The game object: it stores the player, the board rows and each
    player's cells, and answers one evaluation by calling its operations
    in turn. Every method is proved against the functions of Board, Slots,
    Scan and Solver. */
module Game {
  import opened Board
  import opened Slots
  import opened Sorting
  import opened Scan
  import opened Format
  import opened Solver

  /** The cells recorded for `player`, or none when it has no entry. */
  function CoordinatesOf(coordinates: map<string, seq<Cell>>, player: string): seq<Cell> {
    if player in coordinates then coordinates[player] else []
  }

  /** The marks of one 15-character row text: the characters at the odd
      positions 1, 3, ..., 13. */
  method ReadRow(tmp: string) returns (row: seq<char>)
    requires |tmp| == RowTextLength
    ensures row == RowOf(tmp)
  {
    row := [];
    var j := 1;
    while j < RowTextLength
      invariant 1 <= j <= RowTextLength
      invariant |row| == j / 2
      invariant forall k :: 0 <= k < |row| ==> row[k] == tmp[2 * k + 1]
    {
      if j % 2 == 1 {
        row := row + [tmp[j]];
      }
      j := j + 1;
    }
  }

  /** The loop of createBoard over strArr[1..]: row k + 1 of `before` is
      overwritten (or appended) by the marks of text k, until the first
      text whose length is not 15. */
  method StoreRows(strArr: seq<string>, before: Grid) returns (b: Grid)
    requires |strArr| >= 1
    ensures b == Overlay(ParseRows(strArr[1..]), before)
  {
    ghost var texts := strArr[1..];
    ghost var written: Grid := [];
    b := before;
    var i := 2;
    assert texts[i - 2..] == texts;
    while i < |strArr| + 1
      invariant 2 <= i <= |strArr| + 1
      invariant |written| == i - 2 && Shaped(written)
      invariant b == Overlay(written, before)
      invariant ParseRows(texts) == written + ParseRows(texts[i - 2..])
    {
      var tmp := strArr[i - 1];
      assert tmp == texts[i - 2];
      if tmp == [] || |tmp| != RowTextLength {
        ParseRowsAdvance(texts, i - 2, written);
        return;
      }
      var row := ReadRow(tmp);
      WriteRowAdvance(texts, i - 2, written, before, b);
      assert texts[i - 1..] == texts[i - 2 + 1..];
      b := PutRow(b, i - 2, row);
      written := written + [row];
      i := i + 1;
    }
    assert texts[i - 2..] == [];
  }

  /** The find_if walk over one row: the columns of row i + 1 that hold
      `p`, left to right. */
  method RowPlayerCells(g: Grid, p: string, i: nat) returns (rowPairs: seq<Cell>)
    requires Shaped(g) && i < |g|
    ensures rowPairs == RowCells(g, p, i, Cols)
  {
    var row := g[i];
    rowPairs := [];
    var j := 0;
    while j < |row|
      invariant 0 <= j <= |row| == Cols
      invariant rowPairs == RowCells(g, p, i, j)
    {
      if IsMarkOf(p, row[j]) {
        rowPairs := rowPairs + [Cell(i + 1, j + 1)];
      }
      j := j + 1;
    }
  }

  /** The cells holding `p`, row by row and each row left to right. */
  method CollectPlayerCells(g: Grid, p: string) returns (pairs: seq<Cell>)
    requires Shaped(g)
    ensures pairs == PlayerCells(g, p)
  {
    pairs := [];
    var i := 0;
    while i < |g|
      invariant 0 <= i <= |g|
      invariant pairs == CellsUpTo(g, p, i)
    {
      var rowPairs := RowPlayerCells(g, p, i);
      pairs := pairs + rowPairs;
      i := i + 1;
    }
  }

  class Connect4 {
    var player: string
    /** Row k of the board (its map key k) is board[k - 1]. */
    var board: Grid
    var coordinates: map<string, seq<Cell>>

    ghost predicate Valid()
      reads this
    {
      Shaped(board)
    }

    constructor ()
      ensures Valid()
      ensures board == [] && coordinates == map[]
    {
      player := "";
      board := [];
      coordinates := map[];
    }

    /** Stores the rows of strArr[1..]: nothing when there are fewer than
        seven strings or the player is not R or Y, and otherwise row after
        row until the first string whose length is not 15. Rows of an
        earlier board beyond the ones written stay. */
    method CreateBoard(strArr: seq<string>)
      requires Valid()
      modifies this
      ensures Valid()
      ensures board == Overlay(CreatedRows(strArr), old(board))
      ensures player == (if |strArr| >= 7 then strArr[0] else old(player))
      ensures coordinates == old(coordinates)
    {
      if |strArr| < 7 {
        return;
      }
      player := strArr[0];
      if player != "R" && player != "Y" {
        return;
      }
      board := StoreRows(strArr, board);
    }

    /** At least six rows, and every mark of rows 1..6 is x, R or Y. */
    method IsValidBoard() returns (r: bool)
      requires Valid()
      ensures r == ValidGrid(board)
    {
      if |board| < Rows {
        return false;
      }
      var row := 1;
      while row <= Rows
        invariant 1 <= row <= Rows + 1
        invariant forall r, c :: 0 <= r < row - 1 && 0 <= c < Cols ==> IsMark(board[r][c])
      {
        var line := board[row - 1];
        var col := 1;
        while col <= Cols
          invariant 1 <= col <= Cols + 1
          invariant forall c :: 0 <= c < col - 1 ==> IsMark(line[c])
        {
          var entry := line[col - 1];
          if entry != 'x' && entry != 'R' && entry != 'Y' {
            return false;
          }
          col := col + 1;
        }
        row := row + 1;
      }
      return true;
    }

    /** Records the cells holding `p`, row by row and left to right, when
        there is at least one; otherwise leaves the record as it was. */
    method PopulatePlayerCoordinates(p: string)
      requires Valid()
      modifies this
      ensures Valid() && board == old(board) && player == old(player)
      ensures coordinates ==
        (if PlayerCells(board, p) == [] then old(coordinates) else old(coordinates)[p := PlayerCells(board, p)])
    {
      var pairs := CollectPlayerCells(board, p);
      if pairs != [] {
        coordinates := coordinates[p := pairs];
      }
    }

    /** Appends `pair` to the cells of a player that has a record. */
    method UpdatePlayerCoordinates(pair: Cell, p: string)
      modifies this
      ensures board == old(board) && player == old(player)
      ensures coordinates ==
        (if p in old(coordinates) then old(coordinates)[p := old(coordinates)[p] + [pair]] else old(coordinates))
    {
      if p in coordinates {
        coordinates := coordinates[p := coordinates[p] + [pair]];
      }
    }

    /** A copy of the cells of `p`; looking up a player without a record
        gives it an empty one. */
    method GetCordinates(p: string) returns (cords: seq<Cell>)
      modifies this
      ensures cords == CoordinatesOf(old(coordinates), p)
      ensures board == old(board) && player == old(player)
      ensures coordinates == (if p in old(coordinates) then old(coordinates) else old(coordinates)[p := []])
    {
      if p !in coordinates {
        coordinates := coordinates[p := []];
      }
      cords := coordinates[p];
    }

    /** The diagonal neighbours of `start` with the same entry. */
    method GetSecondDPairsOf(start: Cell) returns (sPairs: seq<Cell>)
      requires Valid() && Full(board)
      ensures sPairs == SecondDPairs(board, start)
    {
      var g := board;
      var x, y := start.row, start.col;
      var p := GetBoardEntry(g, x, y);
      ghost var upLeft := if x > 1 && y > 1 && p == GetBoardEntry(g, x - 1, y - 1) then [Cell(x - 1, y - 1)] else [];
      ghost var upRight := if x > 1 && y < 7 && p == GetBoardEntry(g, x - 1, y + 1) then [Cell(x - 1, y + 1)] else [];
      ghost var downLeft := if x < 7 && y > 1 && p == GetBoardEntry(g, x + 1, y - 1) then [Cell(x + 1, y - 1)] else [];
      ghost var downRight := if x < 7 && y < 7 && p == GetBoardEntry(g, x + 1, y + 1) then [Cell(x + 1, y + 1)] else [];
      assert SecondDPairs(g, start) == upLeft + upRight + downLeft + downRight;
      sPairs := [];
      if x > 1 && y > 1 && p == GetBoardEntry(g, x - 1, y - 1) {
        sPairs := sPairs + [Cell(x - 1, y - 1)];
      }
      assert sPairs == upLeft;
      if x > 1 && y < 7 && p == GetBoardEntry(g, x - 1, y + 1) {
        sPairs := sPairs + [Cell(x - 1, y + 1)];
      }
      assert sPairs == upLeft + upRight;
      if x < 7 && y > 1 && p == GetBoardEntry(g, x + 1, y - 1) {
        sPairs := sPairs + [Cell(x + 1, y - 1)];
      }
      assert sPairs == upLeft + upRight + downLeft;
      if x < 7 && y < 7 && p == GetBoardEntry(g, x + 1, y + 1) {
        sPairs := sPairs + [Cell(x + 1, y + 1)];
      }
    }

    /** The diagonal runs [start, mid, end] found from `start`, one per
        neighbour `mid` whose third cell exists. */
    method DiagonalRunsFrom(start: Cell) returns (runs: seq<seq<Cell>>)
      requires Valid() && Full(board)
      ensures runs == RunsFrom(board, start)
    {
      runs := [];
      var sPairs := GetSecondDPairsOf(start);
      var m := 0;
      assert sPairs[m..] == sPairs;
      while m < |sPairs|
        invariant 0 <= m <= |sPairs|
        invariant runs + DiagRunsAt(board, start, sPairs[m..]) == DiagRunsAt(board, start, sPairs)
      {
        var end := GetThirdDPairOf(board, start, sPairs[m]);
        DiagRunsAtAdvance(board, start, sPairs, m, runs);
        if end.row != 0 && end.col != 0 {
          runs := runs + [[start, sPairs[m], end]];
        }
        m := m + 1;
      }
    }

    /** The runs of three along `align` in the sorted list `cords`. */
    method FindConsecutivePairs(cords: seq<Cell>, align: Alignment) returns (listCons: seq<seq<Cell>>)
      requires Valid() && Full(board)
      ensures listCons == ConsecutivePairs(board, cords, align)
    {
      listCons := [];
      var k := 0;
      while k < |cords|
        invariant 0 <= k <= |cords|
        invariant align != Diagonal ==> listCons + LineRuns(cords, align, k) == LineRuns(cords, align, 0)
        invariant align == Diagonal ==> listCons + DiagRuns(board, cords, k) == DiagRuns(board, cords, 0)
      {
        if align != Diagonal {
          // Fewer than three entries left: no match.
          var matched := false;
          if align == Vertical {
            var i := cords[k].row;
            matched := k + 2 < |cords| && i + 1 == cords[k + 1].row && i + 2 == cords[k + 2].row &&
              cords[k].col == cords[k + 1].col && cords[k].col == cords[k + 2].col;
          } else {
            var i := cords[k].col;
            matched := k + 2 < |cords| && i + 1 == cords[k + 1].col && i + 2 == cords[k + 2].col &&
              cords[k].row == cords[k + 1].row && cords[k].row == cords[k + 2].row;
          }
          assert matched == LineMatch(cords, k, align);
          LineRunsAdvance(cords, align, k, listCons);
          if matched {
            listCons := listCons + [cords[k..k + 3]];
            k := k + 2;
          }
        } else {
          DiagRunsAdvance(board, cords, k, listCons);
          var runs := DiagonalRunsFrom(cords[k]);
          listCons := listCons + runs;
        }
        k := k + 1;
      }
    }

    /** The token of the first run of three that has a slot, or "". */
    method FirstResult(lConsecutives: seq<seq<Cell>>, align: Alignment) returns (r: string)
      requires Valid() && Full(board)
      ensures r == (var slot := FirstFreeSlot(board, lConsecutives, align);
                    if slot == NoSlot then "" else CreateResult(slot))
    {
      var n := 0;
      while n < |lConsecutives|
        invariant 0 <= n <= |lConsecutives|
        invariant FirstFreeSlot(board, lConsecutives, align) == FirstFreeSlot(board, lConsecutives[n..], align)
      {
        var consecutives := lConsecutives[n];
        if |consecutives| == 3 {
          var pair := FindFreeSlot(board, consecutives, align);
          if pair.row != 0 && pair.col != 0 {
            return CreateResult(pair);
          }
        }
        n := n + 1;
      }
      return "";
    }

    method GetHorizontal(p: string) returns (r: string)
      requires Valid() && Full(board)
      modifies this
      ensures Valid() && board == old(board) && player == old(player)
      ensures coordinates == (if p in old(coordinates) then old(coordinates) else old(coordinates)[p := []])
      ensures r == OrientationResult(board, CoordinatesOf(old(coordinates), p), Horizontal)
    {
      var cordinates := GetCordinates(p);
      cordinates := Sort(RowMajor, cordinates);
      var lConsecutives := FindConsecutivePairs(cordinates, Horizontal);
      r := FirstResult(lConsecutives, Horizontal);
    }

    method GetVertical(p: string) returns (r: string)
      requires Valid() && Full(board)
      modifies this
      ensures Valid() && board == old(board) && player == old(player)
      ensures coordinates == (if p in old(coordinates) then old(coordinates) else old(coordinates)[p := []])
      ensures r == OrientationResult(board, CoordinatesOf(old(coordinates), p), Vertical)
    {
      var cordinates := GetCordinates(p);
      cordinates := Sort(ByColumn, cordinates);
      var lConsecutives := FindConsecutivePairs(cordinates, Vertical);
      r := FirstResult(lConsecutives, Vertical);
    }

    method GetDiagonal(p: string) returns (r: string)
      requires Valid() && Full(board)
      modifies this
      ensures Valid() && board == old(board) && player == old(player)
      ensures coordinates == (if p in old(coordinates) then old(coordinates) else old(coordinates)[p := []])
      ensures r == OrientationResult(board, CoordinatesOf(old(coordinates), p), Diagonal)
    {
      var cordinates := GetCordinates(p);
      cordinates := Sort(RowMajor, cordinates);
      var lConsecutives := FindConsecutivePairs(cordinates, Diagonal);
      r := FirstResult(lConsecutives, Diagonal);
    }
  }

  /** One evaluation on a fresh game object. */
  method GameChallenge(strArr: seq<string>) returns (r: string)
    ensures r == Evaluate(strArr)
  {
    if |strArr| != 7 {
      return "";
    }
    ghost var g := CreatedRows(strArr);
    var con4 := new Connect4();
    con4.CreateBoard(strArr);
    assert con4.board == g;
    var valid := con4.IsValidBoard();
    if !valid {
      assert Evaluate(strArr) == "";
      return "";
    }
    var player := strArr[0];
    con4.PopulatePlayerCoordinates(player);
    ghost var cells := PlayerCells(g, player);
    assert CoordinatesOf(con4.coordinates, player) == cells;
    assert Evaluate(strArr) == OrientationResult(g, cells, Horizontal) + OrientationResult(g, cells, Vertical) +
      OrientationResult(g, cells, Diagonal);
    var pairH := con4.GetHorizontal(player);
    assert pairH == OrientationResult(g, cells, Horizontal);
    var pairV := con4.GetVertical(player);
    assert pairV == OrientationResult(g, cells, Vertical);
    var pairD := con4.GetDiagonal(player);
    assert pairD == OrientationResult(g, cells, Diagonal);
    ghost var h := pairH;
    if pairV != "" {
      pairH := pairH + pairV;
    } else {
      assert h + pairV == h;
    }
    ghost var hv := pairH;
    if pairD != "" {
      pairH := pairH + pairD;
    } else {
      assert hv + pairD == hv;
    }
    assert pairH == h + pairV + pairD;
    r := pairH;
  }
}
