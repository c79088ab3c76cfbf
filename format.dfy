/** The text form of a reported cell: "(" + row + "x" + column + ")",
    the numbers written in decimal as std::to_string writes an int. */
module Format {
  import opened Board

  datatype Option<T> = None | Some(value: T)

  predicate IsDigit(ch: char) {
    '0' <= ch <= '9'
  }

  predicate AllDigits(s: string) {
    forall i :: 0 <= i < |s| ==> IsDigit(s[i])
  }

  function DigitChar(d: int): char
    requires 0 <= d <= 9
  {
    (48 + d) as char
  }

  function DigitValue(ch: char): int
    requires IsDigit(ch)
  {
    ch as int - 48
  }

  /** The decimal digits of n, most significant first, without leading zeros. */
  function NatToString(n: nat): (s: string)
    ensures |s| >= 1 && AllDigits(s)
    decreases n
  {
    if n < 10 then [DigitChar(n)] else NatToString(n / 10) + [DigitChar(n % 10)]
  }

  /** The number a string of decimal digits denotes. */
  function ParseNat(s: string): nat
    requires AllDigits(s)
    decreases |s|
  {
    if s == [] then 0 else ParseNat(s[..|s| - 1]) * 10 + DigitValue(s[|s| - 1])
  }

  lemma {:induction false} NatRoundTrip(n: nat)
    ensures ParseNat(NatToString(n)) == n
    decreases n
  {
    if n >= 10 {
      NatRoundTrip(n / 10);
      var s := NatToString(n);
      assert s[..|s| - 1] == NatToString(n / 10);
    }
  }

  predicate NoSpace(s: string) {
    forall i :: 0 <= i < |s| ==> s[i] != ' '
  }

  /** std::to_string of an int: a minus sign before the digits of |n|. */
  function IntToString(n: int): (s: string)
    ensures |s| >= 1 && NoSpace(s)
    ensures n >= 0 ==> AllDigits(s) && ParseNat(s) == n
    ensures n < 0 ==> |s| >= 2 && s[0] == '-' && AllDigits(s[1..]) && ParseNat(s[1..]) == -n
  {
    if n < 0 then
      NatRoundTrip(-n);
      assert ("-" + NatToString(-n))[1..] == NatToString(-n);
      "-" + NatToString(-n)
    else
      NatRoundTrip(n);
      NatToString(n)
  }

  /** The shape of "(" + a + "x" + b + ")" for non-empty a and b without spaces. */
  lemma {:induction false} TokenShape(a: string, b: string)
    requires |a| >= 1 && |b| >= 1 && NoSpace(a) && NoSpace(b)
    ensures var r := "(" + a + "x" + b + ")";
      |r| >= 5 && r[0] == '(' && r[|r| - 1] == ')' && NoSpace(r) && r[|a| + 1] == 'x'
  {
    var r := "(" + a + "x" + b + ")";
    assert forall i :: 0 <= i < |a| ==> r[i + 1] == a[i];
    assert forall i :: 0 <= i < |b| ==> r[|a| + 2 + i] == b[i];
  }

  /** The token for a cell, e.g. "(6x4)": the row and the column between
      "(" and ")", separated by "x", with no spaces. */
  function CreateResult(p: Cell): (r: string)
    ensures |r| >= 5 && r[0] == '(' && r[|r| - 1] == ')' && NoSpace(r)
    ensures |IntToString(p.row)| + 1 < |r| - 1 && r[|IntToString(p.row)| + 1] == 'x'
  {
    TokenShape(IntToString(p.row), IntToString(p.col));
    "(" + IntToString(p.row) + "x" + IntToString(p.col) + ")"
  }

  /** The position of the first 'x' in s, or |s| when there is none. */
  function IndexOfX(s: string): (k: nat)
    ensures k <= |s| && (k < |s| ==> s[k] == 'x') && forall i :: 0 <= i < k ==> s[i] != 'x'
  {
    if s == [] then 0 else if s[0] == 'x' then 0 else 1 + IndexOfX(s[1..])
  }

  /** Reads a token "(" digits "x" digits ")" back into a cell. */
  function ParseResult(r: string): Option<Cell> {
    if |r| < 2 || r[0] != '(' || r[|r| - 1] != ')' then None
    else
      var body := r[1..|r| - 1];
      var k := IndexOfX(body);
      if k == |body| || !AllDigits(body[..k]) || !AllDigits(body[k + 1..]) then None
      else Some(Cell(ParseNat(body[..k]), ParseNat(body[k + 1..])))
  }

  lemma {:induction false} IndexOfXAfterDigits(a: string, b: string)
    requires AllDigits(a)
    ensures IndexOfX(a + "x" + b) == |a|
  {
    if a != [] {
      assert (a + "x" + b)[1..] == a[1..] + "x" + b;
      IndexOfXAfterDigits(a[1..], b);
    }
  }

  lemma {:induction false} ParseToken(a: string, b: string)
    requires AllDigits(a) && AllDigits(b)
    ensures ParseResult("(" + a + "x" + b + ")") == Some(Cell(ParseNat(a), ParseNat(b)))
  {
    var body := a + "x" + b;
    var r := "(" + body + ")";
    assert r == "(" + a + "x" + b + ")";
    assert |r| == |body| + 2 && r[0] == '(' && r[|r| - 1] == ')';
    assert r[1..|r| - 1] == body;
    IndexOfXAfterDigits(a, b);
    assert body[..|a|] == a;
    assert body[|a| + 1..] == b;
  }

  /** A token of a cell with non-negative coordinates reads back as that
      cell, so distinct cells give distinct tokens. */
  lemma {:induction false} ResultRoundTrip(p: Cell)
    requires p.row >= 0 && p.col >= 0
    ensures ParseResult(CreateResult(p)) == Some(p)
  {
    ParseToken(NatToString(p.row), NatToString(p.col));
    NatRoundTrip(p.row);
    NatRoundTrip(p.col);
  }

  /** A cell of the board gives a five-character token. */
  lemma {:induction false} ResultOnBoard(p: Cell)
    requires InBounds(p)
    ensures CreateResult(p) == ['(', DigitChar(p.row), 'x', DigitChar(p.col), ')']
  {
  }
}
