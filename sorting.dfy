/** The two sorts the game applies to a player's cells before scanning:
    by (row, column), and by column only. Each is given by a reference
    insertion sort whose outcome is proved sorted and a permutation. */
module Sorting {
  import opened Board

  datatype Order = RowMajor | ByColumn

  /** The strict comparison each sort uses: pair order, or column only. */
  predicate Less(o: Order, a: Cell, b: Cell) {
    match o
    case RowMajor => Before(a, b)
    case ByColumn => a.col < b.col
  }

  predicate Sorted(o: Order, s: seq<Cell>) {
    forall i, j :: 0 <= i < j < |s| ==> !Less(o, s[j], s[i])
  }

  /** Puts x before the first cell that is not less than x. */
  function Insert(o: Order, x: Cell, s: seq<Cell>): (r: seq<Cell>)
    ensures multiset(r) == multiset{x} + multiset(s)
  {
    if s == [] || !Less(o, s[0], x) then [x] + s
    else
      assert s == [s[0]] + s[1..];
      [s[0]] + Insert(o, x, s[1..])
  }

  /** Insertion sort: each cell goes in front of the sorted cells after it
      that are not less than it, so cells with equal keys keep their order.
      The result is a permutation of the input. */
  function Sort(o: Order, s: seq<Cell>): (r: seq<Cell>)
    ensures multiset(r) == multiset(s)
  {
    if s == [] then []
    else
      assert s == [s[0]] + s[1..];
      Insert(o, s[0], Sort(o, s[1..]))
  }

  lemma {:induction false} InsertSorted(o: Order, x: Cell, s: seq<Cell>)
    requires Sorted(o, s)
    ensures Sorted(o, Insert(o, x, s))
  {
    if s != [] && Less(o, s[0], x) {
      InsertSorted(o, x, s[1..]);
      var tail := Insert(o, x, s[1..]);
      var r := [s[0]] + tail;
      forall j | 0 < j < |r| ensures !Less(o, r[j], s[0]) {
        assert r[j] == tail[j - 1] && r[j] in multiset(tail);
        if r[j] != x {
          assert r[j] in multiset(s[1..]);
          var k :| 0 <= k < |s[1..]| && s[1..][k] == r[j];
          assert s[k + 1] == r[j];
        }
      }
      assert Insert(o, x, s) == r;
    }
  }

  /** Each sort returns a sorted permutation of its input. */
  lemma {:induction false} SortSorted(o: Order, s: seq<Cell>)
    ensures Sorted(o, Sort(o, s)) && multiset(Sort(o, s)) == multiset(s)
  {
    if s != [] {
      SortSorted(o, s[1..]);
      InsertSorted(o, s[0], Sort(o, s[1..]));
    }
  }

  /** A list already in strict row-major order is left as it is by the
      row-major sort, as the player's cells are. */
  lemma {:induction false} SortKeepsRowMajor(s: seq<Cell>)
    requires StrictlyRowMajor(s)
    ensures Sort(RowMajor, s) == s
  {
    if s != [] {
      assert StrictlyRowMajor(s[1..]) by {
        forall i, j | 0 <= i < j < |s[1..]| ensures Before(s[1..][i], s[1..][j]) {
          assert s[1..][i] == s[i + 1] && s[1..][j] == s[j + 1];
        }
      }
      SortKeepsRowMajor(s[1..]);
      if |s| > 1 {
        assert Before(s[0], s[1]);
      }
    }
  }

  /** A cell of a sorted list is a cell of the input. */
  lemma {:induction false} SortedMember(o: Order, s: seq<Cell>, c: Cell)
    requires c in Sort(o, s)
    ensures c in s
  {
    SortSorted(o, s);
    assert c in multiset(Sort(o, s));
  }
}
