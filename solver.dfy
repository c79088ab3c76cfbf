/** What one evaluation answers, as functions of the input strings: per
    orientation, the slot of the first run of three that has one, and the
    tokens of the three orientations joined in the order H, V, D. */
module Solver {
  import opened Board
  import opened Slots
  import opened Sorting
  import opened Scan
  import opened Format

  /** The slot of the first run of three, in list order, that has a
      non-(0,0) slot; NoSlot when none has. */
  function FirstFreeSlot(g: Grid, runs: seq<seq<Cell>>, align: Alignment): (slot: Cell)
    requires Full(g)
    ensures slot == NoSlot || (InBounds(slot) && g[slot.row - 1][slot.col - 1] == 'x')
  {
    if runs == [] then NoSlot
    else if |runs[0]| == 3 && FindFreeSlot(g, runs[0], align).row != 0 && FindFreeSlot(g, runs[0], align).col != 0 then
      FindFreeSlot(g, runs[0], align)
    else FirstFreeSlot(g, runs[1..], align)
  }

  /** No run of three before index i has a slot. */
  predicate NoSlotBefore(g: Grid, runs: seq<seq<Cell>>, align: Alignment, i: int)
    requires Full(g) && i <= |runs|
  {
    forall j :: 0 <= j < i && |runs[j]| == 3 ==> FindFreeSlot(g, runs[j], align) == NoSlot
  }

  /** FirstFreeSlot is NoSlot exactly when no run of three has a slot. */
  lemma {:induction false} FirstFreeSlotNone(g: Grid, runs: seq<seq<Cell>>, align: Alignment)
    requires Full(g)
    ensures FirstFreeSlot(g, runs, align) == NoSlot <==> NoSlotBefore(g, runs, align, |runs|)
  {
    if runs != [] {
      FirstFreeSlotNone(g, runs[1..], align);
      var tail := runs[1..];
      assert forall j :: 0 < j < |runs| ==> runs[j] == tail[j - 1];
    }
  }

  /** Otherwise it is the slot of the first run of three that has one. */
  lemma {:induction false} FirstFreeSlotIsFirst(g: Grid, runs: seq<seq<Cell>>, align: Alignment)
    requires Full(g)
    ensures FirstFreeSlot(g, runs, align) != NoSlot ==>
      exists i :: 0 <= i < |runs| && |runs[i]| == 3 &&
        FindFreeSlot(g, runs[i], align) == FirstFreeSlot(g, runs, align) && NoSlotBefore(g, runs, align, i)
  {
    if runs != [] {
      var tail := runs[1..];
      if |runs[0]| == 3 && FindFreeSlot(g, runs[0], align) != NoSlot {
        assert NoSlotBefore(g, runs, align, 0);
      } else if FirstFreeSlot(g, tail, align) != NoSlot {
        FirstFreeSlotIsFirst(g, tail, align);
        var i :| 0 <= i < |tail| && |tail[i]| == 3 &&
          FindFreeSlot(g, tail[i], align) == FirstFreeSlot(g, tail, align) && NoSlotBefore(g, tail, align, i);
        assert forall j :: 0 < j <= i ==> runs[j] == tail[j - 1];
        assert NoSlotBefore(g, runs, align, i + 1);
      }
    }
  }

  /** The list each orientation scans: sorted by (row, column) for
      Horizontal and Diagonal, by column only for Vertical. */
  function SortFor(align: Alignment, cells: seq<Cell>): seq<Cell> {
    if align == Vertical then Sort(ByColumn, cells) else Sort(RowMajor, cells)
  }

  /** The slot one orientation reports for the player's cells. */
  function OrientationSlot(g: Grid, cells: seq<Cell>, align: Alignment): Cell
    requires Full(g)
  {
    FirstFreeSlot(g, ConsecutivePairs(g, SortFor(align, cells), align), align)
  }

  /** The token one orientation contributes, "" when it has no slot. */
  function OrientationResult(g: Grid, cells: seq<Cell>, align: Alignment): string
    requires Full(g)
  {
    var slot := OrientationSlot(g, cells, align);
    if slot.row != 0 && slot.col != 0 then CreateResult(slot) else ""
  }

  /** The answer to one evaluation: "" unless there are exactly seven
      strings making a valid board, else the tokens of the three
      orientations for the player strArr[0], joined H, V, D. */
  function Evaluate(strArr: seq<string>): string {
    if |strArr| != 7 then ""
    else
      var g := CreatedRows(strArr);
      if !ValidGrid(g) then ""
      else
        var cells := PlayerCells(g, strArr[0]);
        OrientationResult(g, cells, Horizontal) + OrientationResult(g, cells, Vertical) +
        OrientationResult(g, cells, Diagonal)
  }

  /** Input that is not well formed gives "". */
  lemma {:induction false} EvaluateRejects(strArr: seq<string>)
    ensures !WellFormedInput(strArr) ==> Evaluate(strArr) == ""
  {
    if |strArr| == 7 {
      InputValidity(strArr);
    }
  }

  /** Well-formed input is answered with the tokens of the player's cells,
      joined H, V, D. */
  lemma {:induction false} EvaluateAccepts(strArr: seq<string>)
    requires WellFormedInput(strArr)
    ensures var g := CreatedRows(strArr);
      Full(g) && var cells := PlayerCells(g, strArr[0]);
      Evaluate(strArr) == OrientationResult(g, cells, Horizontal) + OrientationResult(g, cells, Vertical) +
        OrientationResult(g, cells, Diagonal)
  {
    InputValidity(strArr);
  }

  /** On well-formed input the answer begins with the horizontal token. */
  lemma {:induction false} HorizontalLeads(strArr: seq<string>, token: string)
    requires WellFormedInput(strArr) && Full(CreatedRows(strArr))
    requires OrientationResult(CreatedRows(strArr), PlayerCells(CreatedRows(strArr), strArr[0]), Horizontal) == token
    ensures |Evaluate(strArr)| >= |token| && Evaluate(strArr)[..|token|] == token
  {
    EvaluateAccepts(strArr);
    var g := CreatedRows(strArr);
    var cells := PlayerCells(g, strArr[0]);
    var v, d := OrientationResult(g, cells, Vertical), OrientationResult(g, cells, Diagonal);
    AppendAssoc(token, v, d);
    var whole := token + (v + d);
    assert Evaluate(strArr) == whole;
    assert whole[..|token|] == token;
  }

  /** A non-empty token reads back as the reported slot, which is a free
      cell of the board. */
  lemma {:induction false} ResultIsSlotToken(g: Grid, cells: seq<Cell>, align: Alignment)
    requires Full(g)
    ensures var slot := OrientationSlot(g, cells, align);
      var r := OrientationResult(g, cells, align);
      (r == "" <==> slot == NoSlot) &&
      (r != "" ==> |r| == 5 && ParseResult(r) == Some(slot) && IsFreeSlot(g, slot.row, slot.col))
  {
    var slot := OrientationSlot(g, cells, align);
    if slot != NoSlot {
      ResultRoundTrip(slot);
      ResultOnBoard(slot);
    }
  }

  /** A horizontal or vertical slot extends three of the player's cells
      that lie in a row along that orientation: it is the free cell just
      before or just after them. */
  lemma {:induction false} LineSlotExtendsPlayerRun(g: Grid, cells: seq<Cell>, align: Alignment)
    requires Full(g) && align != Diagonal
    ensures var slot := OrientationSlot(g, cells, align);
      slot != NoSlot ==>
        IsFreeSlot(g, slot.row, slot.col) &&
        exists t: seq<Cell> :: IsRun(t, align) && t[0] in cells && t[1] in cells && t[2] in cells &&
          (slot == BeforeRun(t) || slot == AfterRun(t))
  {
    var sorted := SortFor(align, cells);
    var runs := ConsecutivePairs(g, sorted, align);
    var slot := OrientationSlot(g, cells, align);
    if slot != NoSlot {
      FirstFreeSlotIsFirst(g, runs, align);
      var i :| 0 <= i < |runs| && |runs[i]| == 3 &&
        FindFreeSlot(g, runs[i], align) == slot && NoSlotBefore(g, runs, align, i);
      var t := runs[i];
      LineRunsFromList(sorted, align, i);
      SlotExtendsRun(g, t, align);
      var o := if align == Vertical then ByColumn else RowMajor;
      assert sorted == Sort(o, cells);
      SortedMember(o, cells, t[0]);
      SortedMember(o, cells, t[1]);
      SortedMember(o, cells, t[2]);
    }
  }

  /** A diagonal slot belongs to a diagonal run found from one of the
      player's cells. It extends the run when the run goes down the board
      and never does when the run goes up. */
  lemma {:induction false} DiagonalSlotOfRun(g: Grid, cells: seq<Cell>)
    requires Full(g)
    ensures var slot := OrientationSlot(g, cells, Diagonal);
      slot != NoSlot ==>
        IsFreeSlot(g, slot.row, slot.col) &&
        exists t: seq<Cell> :: DiagonalRun(t) && t[0] in cells && FindFreeSlot(g, t, Diagonal) == slot &&
          (t[1].row == t[0].row + 1 ==> slot == BeforeRun(t) || slot == AfterRun(t)) &&
          (t[1].row == t[0].row - 1 ==> slot != BeforeRun(t) && slot != AfterRun(t))
  {
    var sorted := SortFor(Diagonal, cells);
    var runs := ConsecutivePairs(g, sorted, Diagonal);
    var slot := OrientationSlot(g, cells, Diagonal);
    if slot != NoSlot {
      FirstFreeSlotIsFirst(g, runs, Diagonal);
      var i :| 0 <= i < |runs| && |runs[i]| == 3 &&
        FindFreeSlot(g, runs[i], Diagonal) == slot && NoSlotBefore(g, runs, Diagonal, i);
      var t := runs[i];
      assert t in DiagRuns(g, sorted, 0);
      DiagRunsShape(g, sorted);
      SortedMember(RowMajor, cells, t[0]);
      if t[1].row == t[0].row + 1 {
        SlotExtendsRun(g, t, Diagonal);
      } else {
        UpwardDiagonalSlotOffLine(g, t);
      }
    }
  }

  /** A diagonal run from a cell of the player that has a slot holds the
      player's mark in all three cells: a start in column 7 has the entry
      "", and the only run it can give, (6,7) (7,6) (8,5), has no slot. */
  lemma {:induction false} OwnedRunEntries(g: Grid, player: string, t: seq<Cell>)
    requires Full(g) && |g| == Rows && IsPlayer(player) && DiagonalRun(t) && Owns(g, player, t[0])
    requires t[1].row > 1 && 2 <= t[1].col <= 6
    requires GetBoardEntry(g, t[1].row, t[1].col) == GetBoardEntry(g, t[0].row, t[0].col)
    requires GetBoardEntry(g, t[2].row, t[2].col) == GetBoardEntry(g, t[0].row, t[0].col)
    requires FindFreeSlot(g, t, Diagonal) != NoSlot
    ensures GetBoardEntry(g, t[0].row, t[0].col) == player
    ensures GetBoardEntry(g, t[1].row, t[1].col) == player
    ensures GetBoardEntry(g, t[2].row, t[2].col) == player
  {
    if t[0].col == Cols {
      assert false;
    }
  }

  /** On a six-row board, for the cells of player R or Y: a diagonal
      answer is the slot of a collected diagonal run whose three cells all
      hold the player's mark. It extends the run when the run goes down the
      board and never does when the run goes up. */
  lemma {:induction false} DiagonalSlotOfPlayerRun(g: Grid, player: string)
    requires Full(g) && |g| == Rows && IsPlayer(player)
    ensures var cells := PlayerCells(g, player);
      var slot := OrientationSlot(g, cells, Diagonal);
      slot != NoSlot ==>
        IsFreeSlot(g, slot.row, slot.col) &&
        exists t: seq<Cell> :: t in ConsecutivePairs(g, SortFor(Diagonal, cells), Diagonal) &&
          DiagonalRun(t) && t[0] in cells && FindFreeSlot(g, t, Diagonal) == slot &&
          GetBoardEntry(g, t[0].row, t[0].col) == player &&
          GetBoardEntry(g, t[1].row, t[1].col) == player &&
          GetBoardEntry(g, t[2].row, t[2].col) == player &&
          (t[1].row == t[0].row + 1 ==> slot == BeforeRun(t) || slot == AfterRun(t)) &&
          (t[1].row == t[0].row - 1 ==> slot != BeforeRun(t) && slot != AfterRun(t))
  {
    var cells := PlayerCells(g, player);
    var sorted := SortFor(Diagonal, cells);
    var runs := ConsecutivePairs(g, sorted, Diagonal);
    var slot := OrientationSlot(g, cells, Diagonal);
    if slot != NoSlot {
      FirstFreeSlotIsFirst(g, runs, Diagonal);
      var i :| 0 <= i < |runs| && |runs[i]| == 3 &&
        FindFreeSlot(g, runs[i], Diagonal) == slot && NoSlotBefore(g, runs, Diagonal, i);
      var t := runs[i];
      assert t in DiagRuns(g, sorted, 0);
      DiagRunsShape(g, sorted);
      SortedMember(RowMajor, cells, t[0]);
      PlayerCellsExact(g, player);
      assert Owns(g, player, t[0]);
      OwnedRunEntries(g, player, t);
      if t[1].row == t[0].row + 1 {
        SlotExtendsRun(g, t, Diagonal);
      } else {
        UpwardDiagonalSlotOffLine(g, t);
      }
    }
  }

  /** For a list in strict row-major order, as a player's cells are:
      when the horizontal scan yields a single run, its slot is the answer. */
  lemma {:induction false} OnlyHorizontalRun(g: Grid, cells: seq<Cell>, run: seq<Cell>)
    requires Full(g) && StrictlyRowMajor(cells) && |run| == 3
    requires LineRuns(cells, Horizontal, 0) == [run]
    ensures OrientationSlot(g, cells, Horizontal) == FindFreeSlot(g, run, Horizontal)
  {
    SortKeepsRowMajor(cells);
    assert SortFor(Horizontal, cells) == cells;
    assert ConsecutivePairs(g, cells, Horizontal) == [run];
    assert [run][1..] == [];
    assert FirstFreeSlot(g, [], Horizontal) == NoSlot;
  }
}
