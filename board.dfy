/** The 6-row by 7-column board of a four-in-a-row game, how it is built
    from its row strings, and the bounds-checked cell queries on it. */
module Board {

  /** A 1-based (row, column) coordinate. Cell(0, 0) stands for "no slot". */
  datatype Cell = Cell(row: int, col: int)

  const NoSlot: Cell := Cell(0, 0)

  /** The three directions along which a run of three discs is looked for. */
  datatype Alignment = Horizontal | Vertical | Diagonal

  const Rows: int := 6
  const Cols: int := 7
  /** The columns getBoardEntry accepts: 1..6, one fewer than the board has. */
  const EntryCols: int := 6
  /** Length of the text of one row, "(m,m,m,m,m,m,m)". */
  const RowTextLength: int := 15

  /** Row k of the board (1-based) is g[k - 1]; cell (r, c) holds g[r - 1][c - 1]. */
  type Grid = seq<seq<char>>

  /** Every stored row holds seven marks. */
  predicate Shaped(g: Grid) {
    forall k :: 0 <= k < |g| ==> |g[k]| == Cols
  }

  /** All six rows are present. */
  predicate Full(g: Grid) {
    Shaped(g) && |g| >= Rows
  }

  predicate InBounds(c: Cell) {
    1 <= c.row <= Rows && 1 <= c.col <= Cols
  }

  predicate IsMark(m: char) {
    m == 'x' || m == 'R' || m == 'Y'
  }

  predicate IsPlayer(p: string) {
    p == "R" || p == "Y"
  }

  /** The one-character string `player` equals the mark m. */
  predicate IsMarkOf(player: string, m: char) {
    |player| == 1 && player[0] == m
  }

  /** (a.row, a.col) < (b.row, b.col) lexicographically: row-major order. */
  predicate Before(a: Cell, b: Cell) {
    a.row < b.row || (a.row == b.row && a.col < b.col)
  }

  predicate StrictlyRowMajor(s: seq<Cell>) {
    forall i, j :: 0 <= i < j < |s| ==> Before(s[i], s[j])
  }

  // ---------------------------------------------------------------------
  // Building the board from its row strings
  // ---------------------------------------------------------------------

  /** The marks of one row text: the characters at positions 1, 3, ..., 13. */
  function RowOf(text: string): seq<char>
    requires |text| == RowTextLength
  {
    seq(Cols, k requires 0 <= k < Cols => text[2 * k + 1])
  }

  /** The rows that are stored from `texts`: one per text, stopping at the
      first text whose length is not 15. */
  function ParseRows(texts: seq<string>): (g: Grid)
    ensures Shaped(g) && |g| <= |texts|
  {
    if texts == [] || |texts[0]| != RowTextLength then []
    else [RowOf(texts[0])] + ParseRows(texts[1..])
  }

  /** The rows that building from `strArr` stores: nothing when there are
      fewer than seven strings or the player is not R or Y. */
  function CreatedRows(strArr: seq<string>): (g: Grid)
    ensures Shaped(g)
  {
    if |strArr| < 7 || !IsPlayer(strArr[0]) then [] else ParseRows(strArr[1..])
  }

  /** Writing rows 1..|written| over a board whose rows were `before`. */
  function Overlay(written: Grid, before: Grid): Grid {
    written + (if |before| > |written| then before[|written|..] else [])
  }

  /** Assigning row k + 1 of a board, as std::map's operator[] does:
      the row is replaced when it exists and added otherwise. */
  function PutRow(g: Grid, k: nat, row: seq<char>): Grid
    requires k <= |g|
  {
    if |g| > k then g[k := row] else g + [row]
  }

  lemma {:induction false} AppendAssoc<T>(a: seq<T>, b: seq<T>, c: seq<T>)
    ensures a + (b + c) == (a + b) + c
  {
  }

  lemma {:induction false} SuffixHead<T>(s: seq<T>, k: int)
    requires 0 <= k < |s|
    ensures s[k] in s[k..]
  {
    assert s[k..][0] == s[k];
  }

  lemma {:induction false} SuffixGrows<T>(s: seq<T>, k: int, x: T)
    requires 0 <= k < |s| && x in s[k + 1..]
    ensures x in s[k..]
  {
    var j :| 0 <= j < |s[k + 1..]| && s[k + 1..][j] == x;
    assert s[k..][j + 1] == x;
  }

  lemma {:induction false} SuffixShrinks<T>(s: seq<T>, k: int, x: T)
    requires 0 <= k < |s| && x in s[k..] && x != s[k]
    ensures x in s[k + 1..]
  {
    var j :| 0 <= j < |s[k..]| && s[k..][j] == x;
    assert j > 0 && s[k + 1..][j - 1] == x;
  }

  /** Writing one more row after |written| rows: it replaces the old row at
      that position, or is appended when there is none. */
  lemma {:induction false} OverlayAppend(written: Grid, before: Grid, row: seq<char>)
    ensures Overlay(written + [row], before) ==
      (if |before| > |written| then Overlay(written, before)[|written| := row] else Overlay(written, before) + [row])
  {
    if |before| > |written| {
      assert before[|written|..] == [before[|written|]] + before[|written| + 1..];
    }
  }

  /** One step of a loop that parses the texts one by one. */
  lemma {:induction false} ParseRowsAdvance(texts: seq<string>, k: int, written: Grid)
    requires 0 <= k < |texts| && ParseRows(texts) == written + ParseRows(texts[k..])
    ensures |texts[k]| != RowTextLength ==> ParseRows(texts) == written
    ensures |texts[k]| == RowTextLength ==>
      ParseRows(texts) == (written + [RowOf(texts[k])]) + ParseRows(texts[k + 1..])
  {
    assert texts[k..][1..] == texts[k + 1..];
  }

  /** One step of a loop that stores the rows parsed from `texts` over the
      rows `before`: row k + 1 is written in place or appended. */
  lemma {:induction false} WriteRowAdvance(texts: seq<string>, k: int, written: Grid, before: Grid, board: Grid)
    requires 0 <= k < |texts| && |texts[k]| == RowTextLength && |written| == k && Shaped(written)
    requires board == Overlay(written, before) && ParseRows(texts) == written + ParseRows(texts[k..])
    ensures Shaped(written + [RowOf(texts[k])])
    ensures var row := RowOf(texts[k]);
      PutRow(board, k, row) == Overlay(written + [row], before) &&
      ParseRows(texts) == (written + [row]) + ParseRows(texts[k + 1..])
  {
    ParseRowsAdvance(texts, k, written);
    OverlayAppend(written, before, RowOf(texts[k]));
    var w := written + [RowOf(texts[k])];
    assert forall j :: 0 <= j < |w| ==> w[j] == (if j < k then written[j] else RowOf(texts[k]));
  }

  /** At least six rows, and every mark of rows 1..6 is x, R or Y. */
  predicate ValidGrid(g: Grid)
    requires Shaped(g)
  {
    |g| >= Rows && forall r, c :: 0 <= r < Rows && 0 <= c < Cols ==> IsMark(g[r][c])
  }

  /** The input a game evaluation accepts: a player R or Y, then six row
      texts of fifteen characters whose odd positions all hold marks. */
  predicate WellFormedInput(strArr: seq<string>) {
    |strArr| == 7 && IsPlayer(strArr[0]) &&
    forall k :: 1 <= k < 7 ==>
      |strArr[k]| == RowTextLength &&
      forall j :: 0 <= j < RowTextLength && j % 2 == 1 ==> IsMark(strArr[k][j])
  }

  lemma {:induction false} ParseRowsRows(texts: seq<string>)
    ensures |ParseRows(texts)| == |texts| <==> forall k :: 0 <= k < |texts| ==> |texts[k]| == RowTextLength
    ensures forall k :: 0 <= k < |ParseRows(texts)| ==>
      |texts[k]| == RowTextLength && ParseRows(texts)[k] == RowOf(texts[k])
  {
    if texts != [] && |texts[0]| == RowTextLength {
      ParseRowsRows(texts[1..]);
      var g := ParseRows(texts);
      assert g == [RowOf(texts[0])] + ParseRows(texts[1..]);
      forall k | 0 <= k < |g| ensures |texts[k]| == RowTextLength && g[k] == RowOf(texts[k]) {
        if k > 0 { assert texts[k] == texts[1..][k - 1]; }
      }
      if forall k :: 0 <= k < |texts| ==> |texts[k]| == RowTextLength {
        forall k | 0 <= k < |texts[1..]| ensures |texts[1..][k]| == RowTextLength {
          assert texts[1..][k] == texts[k + 1];
        }
      }
    }
  }

  /** Seven strings give a valid board exactly when they are well formed,
      and then row k of the board is the marks of strArr[k]. */
  lemma {:induction false} InputValidity(strArr: seq<string>)
    requires |strArr| == 7
    ensures ValidGrid(CreatedRows(strArr)) <==> WellFormedInput(strArr)
    ensures WellFormedInput(strArr) ==>
      |CreatedRows(strArr)| == Rows &&
      forall k :: 1 <= k <= Rows ==> CreatedRows(strArr)[k - 1] == RowOf(strArr[k])
  {
    var g := CreatedRows(strArr);
    if IsPlayer(strArr[0]) {
      var texts := strArr[1..];
      ParseRowsRows(texts);
      assert g == ParseRows(texts);
      if ValidGrid(g) {
        forall k | 1 <= k < 7
          ensures |strArr[k]| == RowTextLength
          ensures forall j :: 0 <= j < RowTextLength && j % 2 == 1 ==> IsMark(strArr[k][j])
        {
          assert texts[k - 1] == strArr[k];
          forall j | 0 <= j < RowTextLength && j % 2 == 1 ensures IsMark(strArr[k][j]) {
            var c := (j - 1) / 2;
            assert 2 * c + 1 == j;
            assert g[k - 1][c] == strArr[k][j];
          }
        }
      }
      if WellFormedInput(strArr) {
        forall k | 0 <= k < |texts| ensures |texts[k]| == RowTextLength {
          assert texts[k] == strArr[k + 1];
        }
        forall r, c | 0 <= r < Rows && 0 <= c < Cols ensures IsMark(g[r][c]) {
          assert texts[r] == strArr[r + 1];
          assert g[r][c] == strArr[r + 1][2 * c + 1];
        }
        forall k | 1 <= k <= Rows ensures g[k - 1] == RowOf(strArr[k]) {
          assert texts[k - 1] == strArr[k];
        }
      }
    }
  }

  // ---------------------------------------------------------------------
  // Cell queries
  // ---------------------------------------------------------------------

  /** The mark at (x, y) as a one-character string, or "" when x is not in
      1..6 or y is not in 1..6: column 7 counts as out of range here. */
  function GetBoardEntry(g: Grid, x: int, y: int): (e: string)
    requires Full(g)
    ensures e == "" <==> !(1 <= x <= Rows && 1 <= y <= EntryCols)
    ensures e != "" ==> e == [g[x - 1][y - 1]]
  {
    if x > 6 || x < 1 || y < 1 || y > 6 then "" else [g[x - 1][y - 1]]
  }

  /** (row, col) lies on the board and holds the empty mark x. */
  function IsFreeSlot(g: Grid, row: int, col: int): (free: bool)
    requires Full(g)
    ensures free <==> InBounds(Cell(row, col)) && g[row - 1][col - 1] == 'x'
  {
    if row < 1 || row > 6 || col < 1 || col > 7 then false
    else g[row - 1][col - 1] == 'x'
  }

  /** The two queries agree on columns 1..6 and differ on column 7, where
      a free cell is still reported as free but its entry is "". */
  lemma {:induction false} FreeSlotAndEntry(g: Grid, row: int, col: int)
    requires Full(g)
    ensures 1 <= col <= EntryCols ==> (IsFreeSlot(g, row, col) <==> GetBoardEntry(g, row, col) == "x")
    ensures col == 7 ==>
      (GetBoardEntry(g, row, col) == "" &&
       (IsFreeSlot(g, row, col) <==> 1 <= row <= Rows && g[row - 1][6] == 'x'))
  {
  }

  // ---------------------------------------------------------------------
  // A player's cells
  // ---------------------------------------------------------------------

  /** (r, c) is a cell of the stored rows whose mark equals `player`. */
  predicate Owns(g: Grid, player: string, c: Cell)
    requires Shaped(g)
  {
    1 <= c.row <= |g| && 1 <= c.col <= Cols && IsMarkOf(player, g[c.row - 1][c.col - 1])
  }

  /** The cells of row i + 1 holding `player` in columns 1..j, left to right. */
  function RowCells(g: Grid, player: string, i: nat, j: nat): seq<Cell>
    requires Shaped(g) && i < |g| && j <= Cols
  {
    if j == 0 then []
    else RowCells(g, player, i, j - 1) + (if IsMarkOf(player, g[i][j - 1]) then [Cell(i + 1, j)] else [])
  }

  /** The cells holding `player` in rows 1..i, in row-major order. */
  function CellsUpTo(g: Grid, player: string, i: nat): seq<Cell>
    requires Shaped(g) && i <= |g|
  {
    if i == 0 then [] else CellsUpTo(g, player, i - 1) + RowCells(g, player, i - 1, Cols)
  }

  /** The cells holding `player`, row by row and each row left to right. */
  function PlayerCells(g: Grid, player: string): seq<Cell>
    requires Shaped(g)
  {
    CellsUpTo(g, player, |g|)
  }

  lemma {:induction false} RowCellsSound(g: Grid, player: string, i: nat, j: nat)
    requires Shaped(g) && i < |g| && j <= Cols
    ensures forall c :: c in RowCells(g, player, i, j) ==> Owns(g, player, c) && c.row == i + 1 && c.col <= j
  {
    if j > 0 {
      RowCellsSound(g, player, i, j - 1);
    }
  }

  lemma {:induction false} RowCellsOrdered(g: Grid, player: string, i: nat, j: nat)
    requires Shaped(g) && i < |g| && j <= Cols
    ensures StrictlyRowMajor(RowCells(g, player, i, j))
  {
    if j > 0 {
      RowCellsOrdered(g, player, i, j - 1);
      RowCellsSound(g, player, i, j - 1);
      var here := if IsMarkOf(player, g[i][j - 1]) then [Cell(i + 1, j)] else [];
      RowMajorConcat(RowCells(g, player, i, j - 1), here);
    }
  }

  lemma {:induction false} RowCellsComplete(g: Grid, player: string, i: nat, j: nat, c: Cell)
    requires Shaped(g) && i < |g| && j <= Cols
    requires Owns(g, player, c) && c.row == i + 1 && c.col <= j
    ensures c in RowCells(g, player, i, j)
  {
    if c.col < j {
      RowCellsComplete(g, player, i, j - 1, c);
    }
  }

  /** Row-major sequences concatenate to a row-major sequence when every
      cell of the first comes before every cell of the second. */
  lemma {:induction false} RowMajorConcat(head: seq<Cell>, rest: seq<Cell>)
    requires StrictlyRowMajor(head) && StrictlyRowMajor(rest)
    requires forall x, y :: x in head && y in rest ==> Before(x, y)
    ensures StrictlyRowMajor(head + rest)
  {
    var s := head + rest;
    forall a, b | 0 <= a < b < |s| ensures Before(s[a], s[b]) {
      if b < |head| {
        assert s[a] == head[a] && s[b] == head[b];
      } else if a < |head| {
        assert s[a] == head[a] && s[a] in head;
        assert s[b] == rest[b - |head|] && s[b] in rest;
      } else {
        assert s[a] == rest[a - |head|] && s[b] == rest[b - |head|];
      }
    }
  }

  lemma {:induction false} CellsUpToSound(g: Grid, player: string, i: nat)
    requires Shaped(g) && i <= |g|
    ensures forall c :: c in CellsUpTo(g, player, i) ==> Owns(g, player, c) && c.row <= i
  {
    if i > 0 {
      CellsUpToSound(g, player, i - 1);
      RowCellsSound(g, player, i - 1, Cols);
    }
  }

  lemma {:induction false} CellsUpToOrdered(g: Grid, player: string, i: nat)
    requires Shaped(g) && i <= |g|
    ensures StrictlyRowMajor(CellsUpTo(g, player, i))
  {
    if i > 0 {
      var head, here := CellsUpTo(g, player, i - 1), RowCells(g, player, i - 1, Cols);
      assert forall x, y :: x in head && y in here ==> Before(x, y) by {
        CellsUpToSound(g, player, i - 1);
        RowCellsSound(g, player, i - 1, Cols);
      }
      CellsUpToOrdered(g, player, i - 1);
      RowCellsOrdered(g, player, i - 1, Cols);
      RowMajorConcat(head, here);
    }
  }

  lemma {:induction false} CellsUpToComplete(g: Grid, player: string, i: nat, c: Cell)
    requires Shaped(g) && i <= |g|
    requires Owns(g, player, c) && c.row <= i
    ensures c in CellsUpTo(g, player, i)
  {
    if c.row == i {
      RowCellsComplete(g, player, i - 1, Cols, c);
    } else {
      CellsUpToComplete(g, player, i - 1, c);
    }
  }

  /** The collected cells are exactly the player's cells, in row-major
      order (so each appears once). */
  lemma {:induction false} PlayerCellsExact(g: Grid, player: string)
    requires Shaped(g)
    ensures forall c :: c in PlayerCells(g, player) <==> Owns(g, player, c)
    ensures StrictlyRowMajor(PlayerCells(g, player))
  {
    CellsUpToSound(g, player, |g|);
    CellsUpToOrdered(g, player, |g|);
    forall c | Owns(g, player, c) ensures c in PlayerCells(g, player) {
      CellsUpToComplete(g, player, |g|, c);
    }
  }
}
