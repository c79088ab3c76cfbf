/** The runs of three that the game finds in a sorted list of a player's
    cells: a greedy left-to-right scan for horizontal and vertical runs,
    and a neighbour search from every cell for diagonal ones. */
module Scan {
  import opened Board
  import opened Slots

  /** Entries k, k + 1, k + 2 exist and are consecutive along `align`:
      rows r, r + 1, r + 2 in one column for Vertical, columns c, c + 1,
      c + 2 in one row for Horizontal. With fewer than three entries left
      there is no match. */
  predicate LineMatch(s: seq<Cell>, k: int, align: Alignment)
    requires align != Diagonal
  {
    0 <= k && k + 2 < |s| &&
    if align == Vertical then
      s[k].row + 1 == s[k + 1].row && s[k].row + 2 == s[k + 2].row &&
      s[k].col == s[k + 1].col && s[k].col == s[k + 2].col
    else
      s[k].col + 1 == s[k + 1].col && s[k].col + 2 == s[k + 2].col &&
      s[k].row == s[k + 1].row && s[k].row == s[k + 2].row
  }

  /** The runs the scan collects from entry k on; after a match it goes on
      after the third entry of the match. */
  function LineRuns(s: seq<Cell>, align: Alignment, k: nat): seq<seq<Cell>>
    requires align != Diagonal
    decreases |s| - k
  {
    if k >= |s| then []
    else if LineMatch(s, k, align) then [s[k..k + 3]] + LineRuns(s, align, k + 3)
    else LineRuns(s, align, k + 1)
  }

  /** Where each run of LineRuns(s, align, k) starts in s. */
  ghost function LineStarts(s: seq<Cell>, align: Alignment, k: nat): seq<nat>
    requires align != Diagonal
    decreases |s| - k
  {
    if k >= |s| then []
    else if LineMatch(s, k, align) then [k] + LineStarts(s, align, k + 3)
    else LineStarts(s, align, k + 1)
  }

  /** One step of a loop that collects the runs entry by entry. */
  lemma {:induction false} LineRunsAdvance(s: seq<Cell>, align: Alignment, k: nat, acc: seq<seq<Cell>>)
    requires align != Diagonal && k < |s| && acc + LineRuns(s, align, k) == LineRuns(s, align, 0)
    ensures LineMatch(s, k, align) ==> (acc + [s[k..k + 3]]) + LineRuns(s, align, k + 3) == LineRuns(s, align, 0)
    ensures !LineMatch(s, k, align) ==> acc + LineRuns(s, align, k + 1) == LineRuns(s, align, 0)
  {
  }

  /** A match is a run of three along `align`. */
  lemma {:induction false} LineMatchIsRun(s: seq<Cell>, k: int, align: Alignment)
    requires align != Diagonal && LineMatch(s, k, align)
    ensures IsRun(s[k..k + 3], align)
  {
    var t := s[k..k + 3];
    assert t[0] == s[k] && t[1] == s[k + 1] && t[2] == s[k + 2];
  }

  /** `run` is the match of three entries starting at entry `at`. */
  predicate RunAt(s: seq<Cell>, align: Alignment, at: int, run: seq<Cell>)
    requires align != Diagonal
  {
    LineMatch(s, at, align) && run == s[at..at + 3]
  }

  /** Every run collected from entry k on is three adjacent entries of s
      that match, starting at k or later. */
  lemma {:induction false} LineRunsAdjacent(s: seq<Cell>, align: Alignment, k: nat)
    requires align != Diagonal
    ensures |LineRuns(s, align, k)| == |LineStarts(s, align, k)|
    ensures forall i :: 0 <= i < |LineStarts(s, align, k)| ==>
      k <= LineStarts(s, align, k)[i] && RunAt(s, align, LineStarts(s, align, k)[i], LineRuns(s, align, k)[i])
    decreases |s| - k
  {
    if k < |s| {
      var runs, ks := LineRuns(s, align, k), LineStarts(s, align, k);
      if LineMatch(s, k, align) {
        var rest, restKs := LineRuns(s, align, k + 3), LineStarts(s, align, k + 3);
        assert runs == [s[k..k + 3]] + rest && ks == [k] + restKs;
        LineRunsAdjacent(s, align, k + 3);
        forall i | 0 <= i < |ks| ensures k <= ks[i] && RunAt(s, align, ks[i], runs[i]) {
          if i > 0 {
            assert ks[i] == restKs[i - 1] && runs[i] == rest[i - 1];
          }
        }
      } else {
        assert runs == LineRuns(s, align, k + 1) && ks == LineStarts(s, align, k + 1);
        LineRunsAdjacent(s, align, k + 1);
      }
    }
  }

  /** Each collected run is a run of three along `align` made of entries of s. */
  lemma {:induction false} LineRunsFromList(s: seq<Cell>, align: Alignment, i: int)
    requires align != Diagonal && 0 <= i < |LineRuns(s, align, 0)|
    ensures IsRun(LineRuns(s, align, 0)[i], align)
    ensures forall c :: c in LineRuns(s, align, 0)[i] ==> c in s
  {
    LineRunsAdjacent(s, align, 0);
    var at := LineStarts(s, align, 0)[i];
    LineMatchIsRun(s, at, align);
  }

  /** The collected runs lie in s in order and do not overlap. */
  lemma {:induction false} LineRunsDisjoint(s: seq<Cell>, align: Alignment, k: nat)
    requires align != Diagonal
    ensures forall i :: 0 <= i < |LineStarts(s, align, k)| ==> LineStarts(s, align, k)[i] >= k
    ensures forall i :: 0 <= i < |LineStarts(s, align, k)| - 1 ==>
      LineStarts(s, align, k)[i] + 3 <= LineStarts(s, align, k)[i + 1]
    decreases |s| - k
  {
    if k < |s| {
      if LineMatch(s, k, align) {
        LineRunsDisjoint(s, align, k + 3);
        var ks, restKs := LineStarts(s, align, k), LineStarts(s, align, k + 3);
        assert ks == [k] + restKs;
        forall i | 0 < i < |ks| ensures ks[i] == restKs[i - 1] { }
      } else {
        LineRunsDisjoint(s, align, k + 1);
      }
    }
  }

  /** The scan is greedy: every position where a run of three starts,
      from k on, lies inside one of the runs it collects. */
  lemma {:induction false} LineRunsGreedy(s: seq<Cell>, align: Alignment, k: nat, j: int)
    requires align != Diagonal && k <= j && LineMatch(s, j, align)
    ensures exists i :: (0 <= i < |LineStarts(s, align, k)| &&
      LineStarts(s, align, k)[i] <= j < LineStarts(s, align, k)[i] + 3)
    decreases |s| - k
  {
    var ks := LineStarts(s, align, k);
    if LineMatch(s, k, align) {
      assert ks == [k] + LineStarts(s, align, k + 3);
      if j < k + 3 {
        assert ks[0] <= j < ks[0] + 3;
      } else {
        LineRunsGreedy(s, align, k + 3, j);
        var rest := LineStarts(s, align, k + 3);
        var i :| 0 <= i < |rest| && rest[i] <= j < rest[i] + 3;
        assert ks[i + 1] == rest[i];
      }
    } else {
      LineRunsGreedy(s, align, k + 1, j);
    }
  }

  // ---------------------------------------------------------------------
  // Diagonal runs
  // ---------------------------------------------------------------------

  /** The runs [start, mid, end] for the middle cells `mids`, keeping those
      whose third cell is found. */
  function DiagRunsAt(g: Grid, start: Cell, mids: seq<Cell>): seq<seq<Cell>>
    requires Full(g)
  {
    if mids == [] then []
    else
      var end := GetThirdDPairOf(g, start, mids[0]);
      (if end.row != 0 && end.col != 0 then [[start, mids[0], end]] else []) + DiagRunsAt(g, start, mids[1..])
  }

  /** One step of a loop that appends the runs of DiagRunsAt(g, start,
      mids) middle cell by middle cell. */
  lemma {:induction false} DiagRunsAtAdvance(g: Grid, start: Cell, mids: seq<Cell>, m: int, runs: seq<seq<Cell>>)
    requires Full(g) && 0 <= m < |mids|
    requires runs + DiagRunsAt(g, start, mids[m..]) == DiagRunsAt(g, start, mids)
    ensures var end := GetThirdDPairOf(g, start, mids[m]);
      (if end.row != 0 && end.col != 0 then runs + [[start, mids[m], end]] else runs) +
        DiagRunsAt(g, start, mids[m + 1..]) == DiagRunsAt(g, start, mids)
  {
    assert mids[m..][1..] == mids[m + 1..];
  }

  /** The diagonal runs found from one entry: one per same-entry diagonal
      neighbour whose third cell exists. */
  function RunsFrom(g: Grid, start: Cell): seq<seq<Cell>>
    requires Full(g)
  {
    DiagRunsAt(g, start, SecondDPairs(g, start))
  }

  /** The diagonal runs found from the entries of s from k on, in order. */
  function DiagRuns(g: Grid, s: seq<Cell>, k: nat): seq<seq<Cell>>
    requires Full(g)
    decreases |s| - k
  {
    if k >= |s| then [] else RunsFrom(g, s[k]) + DiagRuns(g, s, k + 1)
  }

  /** DiagRuns from entry k is the runs found from entry k, then the rest. */
  lemma {:induction false} DiagRunsUnfold(g: Grid, s: seq<Cell>, k: nat)
    requires Full(g) && k < |s|
    ensures DiagRuns(g, s, k) == RunsFrom(g, s[k]) + DiagRuns(g, s, k + 1)
  {
  }

  /** One step of a loop that appends the diagonal runs entry by entry. */
  lemma {:induction false} DiagRunsAdvance(g: Grid, s: seq<Cell>, k: nat, acc: seq<seq<Cell>>)
    requires Full(g) && k < |s| && acc + DiagRuns(g, s, k) == DiagRuns(g, s, 0)
    ensures (acc + RunsFrom(g, s[k])) + DiagRuns(g, s, k + 1) == DiagRuns(g, s, 0)
  {
    DiagRunsUnfold(g, s, k);
    AppendAssoc(acc, RunsFrom(g, s[k]), DiagRuns(g, s, k + 1));
  }

  /** A run is found from `start` exactly for each middle cell whose third
      cell exists. */
  predicate FoundFrom(g: Grid, t: seq<Cell>, start: Cell, mids: seq<Cell>)
    requires Full(g)
  {
    |t| == 3 && t[0] == start && t[1] in mids &&
    t[2] == GetThirdDPairOf(g, start, t[1]) && t[2] != NoSlot
  }

  lemma {:induction false} DiagRunsAtMember(g: Grid, start: Cell, mids: seq<Cell>, t: seq<Cell>)
    requires Full(g)
    ensures t in DiagRunsAt(g, start, mids) <==> FoundFrom(g, t, start, mids)
  {
    if mids != [] {
      DiagRunsAtMember(g, start, mids[1..], t);
      var end := GetThirdDPairOf(g, start, mids[0]);
      var first := if end.row != 0 && end.col != 0 then [[start, mids[0], end]] else [];
      assert DiagRunsAt(g, start, mids) == first + DiagRunsAt(g, start, mids[1..]);
      if FoundFrom(g, t, start, mids) {
        if t[1] != mids[0] {
          assert t[1] in mids[1..];
        } else {
          assert t == [start, mids[0], end];
          assert t in first;
        }
      }
      if t in first {
        assert t == [start, mids[0], end];
      }
    }
  }

  /** The runs found from `start` for the middle cells `mids` are exactly
      the triples [start, mid, end] with mid in mids and end its third cell. */
  lemma {:induction false} DiagRunsAtMembers(g: Grid, start: Cell, mids: seq<Cell>)
    requires Full(g)
    ensures forall t: seq<Cell> :: t in DiagRunsAt(g, start, mids) <==> FoundFrom(g, t, start, mids)
  {
    forall t: seq<Cell> ensures t in DiagRunsAt(g, start, mids) <==> FoundFrom(g, t, start, mids) {
      DiagRunsAtMember(g, start, mids, t);
    }
  }

  lemma {:induction false} DiagRunsSound(g: Grid, s: seq<Cell>, k: nat, t: seq<Cell>)
    requires Full(g) && t in DiagRuns(g, s, k)
    ensures |t| == 3 && k < |s| && t[0] in s[k..] && FoundFrom(g, t, t[0], SecondDPairs(g, t[0]))
    decreases |s| - k
  {
    DiagRunsUnfold(g, s, k);
    if t in RunsFrom(g, s[k]) {
      DiagRunsAtMember(g, s[k], SecondDPairs(g, s[k]), t);
      SuffixHead(s, k);
    } else {
      DiagRunsSound(g, s, k + 1, t);
      SuffixGrows(s, k, t[0]);
    }
  }

  lemma {:induction false} DiagRunsComplete(g: Grid, s: seq<Cell>, k: nat, t: seq<Cell>)
    requires Full(g) && |t| == 3 && k < |s| && t[0] in s[k..] && FoundFrom(g, t, t[0], SecondDPairs(g, t[0]))
    ensures t in DiagRuns(g, s, k)
    decreases |s| - k
  {
    DiagRunsUnfold(g, s, k);
    if t[0] == s[k] {
      DiagRunsAtMember(g, s[k], SecondDPairs(g, s[k]), t);
    } else {
      SuffixShrinks(s, k, t[0]);
      DiagRunsComplete(g, s, k + 1, t);
    }
  }

  lemma {:induction false} DiagRunsMember(g: Grid, s: seq<Cell>, k: nat, t: seq<Cell>)
    requires Full(g)
    ensures t in DiagRuns(g, s, k) <==>
      |t| == 3 && k < |s| && t[0] in s[k..] && FoundFrom(g, t, t[0], SecondDPairs(g, t[0]))
  {
    if t in DiagRuns(g, s, k) {
      DiagRunsSound(g, s, k, t);
    }
    if |t| == 3 && k < |s| && t[0] in s[k..] && FoundFrom(g, t, t[0], SecondDPairs(g, t[0])) {
      DiagRunsComplete(g, s, k, t);
    }
  }

  /** The diagonal runs from entry k on are exactly the triples [start,
      mid, end] with start an entry of s[k..], mid one of its same-entry
      diagonal neighbours and end the third cell found for them. */
  lemma {:induction false} DiagRunsMembers(g: Grid, s: seq<Cell>, k: nat)
    requires Full(g)
    ensures forall t: seq<Cell> :: t in DiagRuns(g, s, k) <==>
      |t| == 3 && k < |s| && t[0] in s[k..] && FoundFrom(g, t, t[0], SecondDPairs(g, t[0]))
  {
    forall t: seq<Cell> ensures t in DiagRuns(g, s, k) <==>
      |t| == 3 && k < |s| && t[0] in s[k..] && FoundFrom(g, t, t[0], SecondDPairs(g, t[0]))
    {
      DiagRunsMember(g, s, k, t);
    }
  }

  /** Each diagonal run starts at an entry of s, its middle cell is a
      diagonal neighbour of the start below row 1 and in columns 2..6,
      its end continues start -> mid by one step, and all three cells
      have the start's entry. */
  lemma {:induction false} DiagRunsShape(g: Grid, s: seq<Cell>)
    requires Full(g)
    ensures forall t: seq<Cell> :: t in DiagRuns(g, s, 0) ==>
      DiagonalRun(t) && t[0] in s &&
      DiagonalNeighbour(t[0], t[1]) && t[1].row > 1 && 2 <= t[1].col <= 6 &&
      GetBoardEntry(g, t[1].row, t[1].col) == GetBoardEntry(g, t[0].row, t[0].col) &&
      GetBoardEntry(g, t[2].row, t[2].col) == GetBoardEntry(g, t[0].row, t[0].col)
  {
    forall t: seq<Cell> | t in DiagRuns(g, s, 0)
      ensures DiagonalRun(t) && t[0] in s && DiagonalNeighbour(t[0], t[1]) &&
        t[1].row > 1 && 2 <= t[1].col <= 6 &&
        GetBoardEntry(g, t[1].row, t[1].col) == GetBoardEntry(g, t[0].row, t[0].col) &&
        GetBoardEntry(g, t[2].row, t[2].col) == GetBoardEntry(g, t[0].row, t[0].col)
    {
      DiagRunsMember(g, s, 0, t);
      assert s[0..] == s;
      ThirdContinuesDiagonal(g, t[0], t[1]);
    }
  }

  /** The runs found along `align` in the (already sorted) list s. */
  function ConsecutivePairs(g: Grid, s: seq<Cell>, align: Alignment): seq<seq<Cell>>
    requires align == Diagonal ==> Full(g)
  {
    if align == Diagonal then DiagRuns(g, s, 0) else LineRuns(s, align, 0)
  }
}
