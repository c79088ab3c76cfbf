# Connect4 "free slot" solver, modelled in Dafny

The program reads a four-in-a-row position as seven strings. The first
string is the player, `R` or `Y`. Each of the others is one board row
written as `(m,m,m,m,m,m,m)`, where every mark `m` is `x` (empty), `R` or
`Y`. Rows are numbered 1 (top) to 6 (bottom) and columns 1 to 7.

One evaluation runs these steps:

1. It builds the board and checks it.
2. It collects the player's cells in row-major order.
3. It looks for runs of three of those cells: horizontal, vertical and
   diagonal.
4. For each orientation, it reports the first empty cell next to a run as
   a token `(rxc)`.
5. It joins the horizontal, vertical and diagonal tokens in that order.

The model has eight modules.

- `Board`: cells, the grid, parsing rows, the bounds-checked queries
  `getBoardEntry` and `isFreeSlot`, and the reference definition of a
  player's cells.
- `Slots`: `findFreeSlot`, `getSecondDPairsOf` and `getThirdDPairOf` as
  functions of the grid.
- `Sorting`: the two orderings the game sorts by, given by a reference
  insertion sort.
- `Scan`: the runs `findConsecutivePairs` collects, as recursive
  functions, with their properties.
- `Format`: `createResult` and a reader for its tokens.
- `Solver`: the whole evaluation as one function, `Evaluate`, with its
  properties.
- `Game`: class `Connect4` and the free function `GameChallenge`. The
  scanning methods contain loops, and each is proved equal to a function
  above. The other methods state the new state exactly.
- `Example`: the input hard-coded in `main`, worked through to its
  horizontal answer.

The board is a field of type `seq<seq<char>>`: row k is element k - 1.
The source stores it in a `std::map` keyed by row number. Its keys are
always 1..n with no gaps, so a sequence is exact. The per-player cell
lists are a field of type `map<string, seq<Cell>>`.

A row string is modelled as the bytes of the `std::string`, one Dafny
`char` per byte. The length test `size()!=15` (connect4.cpp:127) counts
bytes, and so does `|s|` on that sequence of characters.

Behaviour the model reproduces exactly as the code has it:

- `getBoardEntry` treats column 7 as out of range (connect4.cpp:344).
  `Board.FreeSlotAndEntry` states where it and `isFreeSlot` disagree.
- `getThirdDPairOf` restricts the middle cell's column to 2..6, not the
  third cell's (connect4.cpp:379-389).
- The diagonal rule of `findFreeSlot` probes one row above the front and
  one row below the back of a run. The column is chosen by comparing
  with the middle cell (connect4.cpp:250-269).
  - On a run that goes down the board, this gives the cell that extends
    the run (`Slots.SlotExtendsRun`).
  - On a run that goes up the board, a reported cell is never one that
    extends it (`Slots.UpwardDiagonalSlotOffLine`).
  - `Slots.UpwardDiagonalExample` is a board where the run
    (5,5) (4,4) (3,3) is answered with (4,6), although neither end of the
    run is free.
- A start cell in column 7 has the entry "". Its off-board neighbours
  also have "", so the diagonal scan can collect triples such as
  (6,7) (7,6) (8,5).
  - These triples never receive a slot.
  - `Slots.GetThirdDPairOf` states only that the third cell's column is in
    1..7.
- `getCordinates` looks up the player with `std::map::operator[]`.
  For a player with no record, this inserts an empty list
  (`Game.Connect4.GetCordinates`).
- `createBoard` sets the player before checking it. Rows written before a
  bad row string stay written, and rows of an earlier board that were not
  rewritten stay too (`Game.Connect4.CreateBoard`).

## Model

| member | source | states |
|---|---|---|
| Board.ParseRows | connect4.cpp:126-134 | the rows stored from the row strings are seven marks each, at most one per string |
| Board.ParseRowsRows | connect4.cpp:126-134 | every string is parsed exactly when all have length 15, and stored row k is the marks at positions 1, 3, ..., 13 of string k |
| Board.InputValidity | connect4.cpp:119-148 | seven strings build a valid board if and only if the player is R or Y, every row string has 15 characters and every mark is x, R or Y; row k is then the odd-position marks of strArr[k] |
| Board.GetBoardEntry | connect4.cpp:342-351 | the entry is "" exactly when x is outside 1..6 or y is outside 1..6 (column 7 included), and otherwise the one-character mark of the cell |
| Board.IsFreeSlot | connect4.cpp:219-224 | true exactly when (row, col) is inside 6 x 7 and holds x |
| Board.FreeSlotAndEntry | connect4.cpp:219-224 | isFreeSlot agrees with getBoardEntry == "x" on columns 1..6; on column 7 getBoardEntry is "" |
| Board.PlayerCellsExact | connect4.cpp:150-163 | the collected cells are exactly the cells whose mark is the player's, in strict row-major order and therefore without duplicates |
| Board.RowCellsSound | connect4.cpp:154-160 | every cell collected from a row holds the player and lies in that row |
| Board.RowCellsComplete | connect4.cpp:154-160 | every cell of the row that holds the player is collected |
| Board.CellsUpToComplete | connect4.cpp:153-161 | every player cell in the rows scanned so far is collected |
| Slots.FindFreeSlot | connect4.cpp:226-273 | the slot is (0,0) or an on-board cell holding x |
| Slots.SlotExtendsRun | connect4.cpp:228-249 | on a horizontal or vertical run, and on a downward diagonal run, the slot is the cell before the run when free, else the cell after it when free, else (0,0) |
| Slots.UpwardDiagonalSlotOffLine | connect4.cpp:250-269 | on an upward diagonal run, a reported slot is neither of the two cells that extend the run |
| Slots.UpwardDiagonalExample | connect4.cpp:250-269 | a concrete board where an upward run gets the slot (4,6) although the run has no free extension |
| Slots.SecondDPairs | connect4.cpp:353-367 | at most four middle cells, each a diagonal neighbour of the start with the start's entry |
| Slots.SecondDPairsExact | connect4.cpp:360-363 | a cell is returned if and only if it is a diagonal neighbour of the start that passes its direction's guard and has the start's entry |
| Slots.SecondDPairsComplete | connect4.cpp:360-363 | every same-entry diagonal neighbour of a start in rows 1..6 and columns 1..6 is returned |
| Slots.GetThirdDPairOf | connect4.cpp:369-393 | the third cell is (0,0) or lies at row 1 or below, in columns 1..7 |
| Slots.ThirdContinuesDiagonal | connect4.cpp:369-393 | for a diagonal neighbour, a third cell is found if and only if the middle cell is below row 1, in columns 2..6, and the continuing cell has the start's entry; it is then that continuing cell |
| Sorting.Sort | connect4.cpp:174-204 | the sort applied at lines 174, 189 and 204: a stable insertion sort by (row, column) or by column only, whose result is a permutation of its input; SortSorted proves it sorted |
| Sorting.SortSorted | connect4.cpp:174 | each sort returns its input, permuted, in order: (row, column) lexicographically, or by column only as sortBySecond compares |
| Sorting.SortKeepsRowMajor | connect4.cpp:204 | the (row, column) sort leaves a list already in strict row-major order unchanged, as the collected cells are |
| Sorting.SortedMember | connect4.cpp:189 | every cell of a sorted list is a cell of its input |
| Scan.LineMatchIsRun | connect4.cpp:292-310 | a match is three cells in one row with columns c, c+1, c+2, or in one column with rows r, r+1, r+2 |
| Scan.LineRunsAdjacent | connect4.cpp:285-321 | every horizontal or vertical run is three adjacent entries of the sorted list that match, starting at the scan position or later |
| Scan.LineRunsFromList | connect4.cpp:285-321 | each collected run is a run along its orientation and consists of cells of the list |
| Scan.LineRunsDisjoint | connect4.cpp:303-318 | runs are collected left to right and do not overlap, because the scan resumes after a run's third entry |
| Scan.LineRunsGreedy | connect4.cpp:290-321 | every position where a run of three starts overlaps one of the collected runs |
| Scan.DiagRunsMembers | connect4.cpp:322-336 | the diagonal runs are exactly the triples [start, mid, end] with start in the list, mid a same-entry diagonal neighbour of start, and end the third cell found for them |
| Scan.DiagRunsShape | connect4.cpp:322-336 | every diagonal run is a diagonal line starting at an entry of the list; mid is below row 1 and in columns 2..6; all three cells have the start's entry |
| Format.IntToString | connect4.cpp:74-76 | to_string of an int: decimal digits that read back as the number, after a minus sign when it is negative |
| Format.CreateResult | connect4.cpp:72-78 | the token "(" + to_string(row) + "x" + to_string(col) + ")": at least five characters between "(" and ")", no spaces, and an "x" right after the row |
| Format.NatRoundTrip | connect4.cpp:74-76 | the decimal digits written for a number read back as that number |
| Format.ResultRoundTrip | connect4.cpp:72-78 | a token "(" row "x" col ")" reads back as its cell, so distinct cells give distinct tokens |
| Format.ResultOnBoard | connect4.cpp:72-78 | the token of a board cell is five characters, with no spaces |
| Solver.FirstFreeSlot | connect4.cpp:177-182 | the chosen slot is (0,0) or an on-board cell holding x |
| Solver.FirstFreeSlotNone | connect4.cpp:177-183 | there is no slot exactly when no run of three has one |
| Solver.FirstFreeSlotIsFirst | connect4.cpp:177-182 | otherwise the slot is that of the first run of three, in list order, that has one |
| Solver.EvaluateRejects | connect4.cpp:395-402 | an input that is not seven strings forming a valid board is answered with "" |
| Solver.EvaluateAccepts | connect4.cpp:404-419 | a well-formed input is answered with the horizontal, vertical and diagonal tokens of the player's cells, in that order |
| Solver.HorizontalLeads | connect4.cpp:416-419 | a well-formed input's answer begins with the horizontal token |
| Solver.ResultIsSlotToken | connect4.cpp:177-183 | an orientation's token is "" exactly when it has no slot; otherwise it is five characters and reads back as a free cell |
| Solver.LineSlotExtendsPlayerRun | connect4.cpp:171-199 | a horizontal or vertical answer is a free cell just before or just after three of the player's cells in a line |
| Solver.DiagonalSlotOfRun | connect4.cpp:201-217 | a diagonal answer is a free cell given to a diagonal run found from a player's cell; it extends a downward run and never an upward one |
| Solver.OwnedRunEntries | connect4.cpp:322-336 | on a six-row board, a collected diagonal run from a player's cell that has a slot holds the player's mark in all three cells |
| Solver.DiagonalSlotOfPlayerRun | connect4.cpp:201-217 | for player R or Y on a six-row board, a diagonal answer is the slot of a collected diagonal run whose three cells hold the player's mark; it extends a downward run and never an upward one |
| Solver.OnlyHorizontalRun | connect4.cpp:171-184 | when the horizontal scan of a row-major list yields one run, its slot is the horizontal answer |
| Game.ReadRow | connect4.cpp:128-132 | the row read from a 15-character string is its marks at the odd positions |
| Game.StoreRows | connect4.cpp:126-134 | the board after the row loop is the parsed rows written over the old board, stopping at the first string whose length is not 15 |
| Game.RowPlayerCells | connect4.cpp:154-160 | the scan of one row returns the row's player cells left to right |
| Game.CollectPlayerCells | connect4.cpp:152-161 | the scan of all rows returns the player's cells in row-major order |
| Game.Connect4.constructor | connect4.cpp:87 | a new game has no rows and no recorded cells |
| Game.Connect4.CreateBoard | connect4.cpp:119-136 | the new board is the created rows over the old board; the player is set when there are at least seven strings; the records are kept |
| Game.Connect4.IsValidBoard | connect4.cpp:138-148 | true exactly when there are at least six rows and every mark of rows 1..6 is x, R or Y |
| Game.Connect4.PopulatePlayerCoordinates | connect4.cpp:150-163 | the player's cells are recorded when there is at least one, and nothing changes otherwise |
| Game.Connect4.UpdatePlayerCoordinates | connect4.cpp:165-169 | the cell is appended to the record of a player that has one; nothing changes otherwise |
| Game.Connect4.GetCordinates | connect4.cpp:105 | returns the player's record, or an empty list that is then recorded |
| Game.Connect4.GetSecondDPairsOf | connect4.cpp:353-367 | returns the same-entry diagonal neighbours in the order up-left, up-right, down-left, down-right |
| Game.Connect4.DiagonalRunsFrom | connect4.cpp:323-335 | returns the diagonal runs found from one start cell |
| Game.Connect4.FindConsecutivePairs | connect4.cpp:285-340 | returns the runs of the reference scan for the orientation; getConsecutives (connect4.cpp:275-283) is the three entries from the current one |
| Game.Connect4.FirstResult | connect4.cpp:177-183 | returns the token of the first run of three with a slot, or "" |
| Game.Connect4.GetHorizontal | connect4.cpp:171-184 | the horizontal token of the player's recorded cells; the records are unchanged, except that a player without one gets an empty record (connect4.cpp:105) |
| Game.Connect4.GetVertical | connect4.cpp:186-199 | the vertical token of the player's recorded cells; the records are unchanged, except that a player without one gets an empty record (connect4.cpp:105) |
| Game.Connect4.GetDiagonal | connect4.cpp:201-217 | the diagonal token of the player's recorded cells; the records are unchanged, except that a player without one gets an empty record (connect4.cpp:105) |
| Game.GameChallenge | connect4.cpp:395-420 | one evaluation on a new game object returns exactly the answer `Evaluate` defines |
| Example.GameParses | connect4.cpp:429-435 | the hard-coded input is well formed and builds the expected board |
| Example.RedCellsFound | connect4.cpp:429-435 | R's cells on that board are the nine expected cells, in row-major order |
| Example.GameHorizontal | connect4.cpp:429-435 | horizontally, R is answered with (6,4) |
| Example.GameAnswerStart | connect4.cpp:429-437 | the answer for the hard-coded input begins with "(6x4)" |

## Left out

- Logging and printing are not modelled, because they do not affect any
  result. This covers `LOG`, `log`, `PRINT_PAIRS`, `PRINT_BOARD`, the
  `printf` traces and `main` with its `cout` (connect4.cpp:15-46,
  221-271, 338, 422-439).
- The destructor (connect4.cpp:88) only clears the containers.
- Game.Connect4.GetVertical assumes a stable sort by column. `std::sort`
  with `sortBySecond` (connect4.cpp:189) is not stable, so the order of
  cells within a column is unspecified in the source. `Sorting.Sort`
  keeps cells with equal columns in their input order, which is row-major.
  `Sorting.SortSorted` states only what any such sort guarantees: the
  result is ordered by column and is a permutation.
- Game.Connect4.FindConsecutivePairs finds no match when fewer than three
  entries remain at the scan position. The source reads `*(it+1)` and
  `*(it+2)` past the end of the list there (connect4.cpp:294, 309), which
  is undefined behaviour. The `if(it==cordinates.end()) break;` after a
  match can never fire, because a match needs a third entry.
- Game.Connect4.IsValidBoard reads rows 1..6 of the sequence directly.
  The source's `_board[row]` would insert an empty row for a missing key.
  A board with at least six rows always has keys 1..6, so nothing is
  inserted.
- Game.StoreRows builds the new board as a value, which
  `Game.Connect4.CreateBoard` assigns once. The source writes
  `_board[i-1]` row by row. Nothing reads the board during that loop, so
  the final state is the same. The state between two row writes is not
  modelled.
- Integers are unbounded. Every coordinate is a small board position, so
  32-bit overflow does not arise.
- Example.GameAnswerStart states only the horizontal token for the
  hard-coded board, not the vertical and diagonal ones after it.
