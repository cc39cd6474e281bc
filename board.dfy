/** The board of the game: nine cells in row-major order, each holding the
    empty string or one of the two players' markers, and the fixed table of
    the eight winning lines. */
module Board {

  datatype Option<T> = None | Some(value: T)

  /** The contents of a cell nobody has played on. */
  const Empty: string := ""

  /** A cell position on the 3x3 grid. */
  type Index = i: int | 0 <= i < 9

  /** A fresh board, as the game starts and as it is reset. */
  const EmptyBoard: seq<string> := ["", "", "", "", "", "", "", "", ""]

  /** The eight index triples a player must fill to win. */
  const WinningCombinations: seq<(Index, Index, Index)> := [
    (0, 1, 2), (3, 4, 5),
    (6, 7, 8), (0, 3, 6),
    (1, 4, 7), (2, 5, 8),
    (0, 4, 8), (2, 4, 6)
  ]

  /** The human's and the engine's markers: distinct, and neither is the
      empty cell. */
  predicate Symbols(user: string, ai: string) {
    user != Empty && ai != Empty && user != ai
  }

  /** All three cells of `line` hold `symbol`. */
  predicate LineIs(b: seq<string>, line: (Index, Index, Index), symbol: string)
    requires |b| == 9
  {
    b[line.0] == symbol && b[line.1] == symbol && b[line.2] == symbol
  }

  /** Some winning combination is filled with `symbol`. */
  predicate HasLine(b: seq<string>, symbol: string)
    requires |b| == 9
  {
    exists k :: 0 <= k < |WinningCombinations| && LineIs(b, WinningCombinations[k], symbol)
  }

  /** No cell is empty. */
  predicate IsFull(b: seq<string>) {
    forall i :: 0 <= i < |b| ==> b[i] != Empty
  }

  /** How many cells hold `symbol`. */
  function Count(b: seq<string>, symbol: string): nat {
    multiset(b)[symbol]
  }

  /** How many cells are still free; every tentative move lowers it. */
  function EmptyCount(b: seq<string>): nat {
    Count(b, Empty)
  }

  /** Row `r` of the grid is filled with `s`. */
  predicate RowFilled(b: seq<string>, r: int, s: string)
    requires |b| == 9 && 0 <= r < 3
  {
    b[3 * r] == s && b[3 * r + 1] == s && b[3 * r + 2] == s
  }

  /** Column `c` of the grid is filled with `s`. */
  predicate ColumnFilled(b: seq<string>, c: int, s: string)
    requires |b| == 9 && 0 <= c < 3
  {
    b[c] == s && b[c + 3] == s && b[c + 6] == s
  }

  /** Some row, column or diagonal of the grid is filled with `s`, stated on
      the geometry of the grid rather than on the table. */
  predicate GridLine(b: seq<string>, s: string)
    requires |b| == 9
  {
    (exists r :: 0 <= r < 3 && RowFilled(b, r, s)) ||
    (exists c :: 0 <= c < 3 && ColumnFilled(b, c, s)) ||
    (b[0] == s && b[4] == s && b[8] == s) ||
    (b[2] == s && b[4] == s && b[6] == s)
  }

  /** The table of winning combinations is exactly the three rows, the three
      columns and the two diagonals of the grid. */
  lemma WinningLinesAreRowsColumnsDiagonals(b: seq<string>, s: string)
    requires |b| == 9
    ensures HasLine(b, s) <==> GridLine(b, s)
  {
    if HasLine(b, s) {
      TableLineIsGridLine(b, s);
    } else {
      forall r | 0 <= r < 3 ensures !RowFilled(b, r, s) {
        assert !LineIs(b, WinningCombinations[r], s);
      }
      forall c | 0 <= c < 3 ensures !ColumnFilled(b, c, s) {
        assert !LineIs(b, WinningCombinations[c + 3], s);
      }
      assert !LineIs(b, WinningCombinations[6], s);
      assert !LineIs(b, WinningCombinations[7], s);
    }
  }

  lemma TableLineIsGridLine(b: seq<string>, s: string)
    requires |b| == 9 && HasLine(b, s)
    ensures GridLine(b, s)
  {
    var k :| 0 <= k < |WinningCombinations| && LineIs(b, WinningCombinations[k], s);
    if k < 3 {
      assert RowFilled(b, k, s);
    } else if k < 6 {
      assert ColumnFilled(b, k - 3, s);
    }
  }

  /** The empty board holds no line for any marker. */
  lemma EmptyBoardHasNoLine(s: string)
    requires s != Empty
    ensures !HasLine(EmptyBoard, s)
  {
  }

  /** Overwriting a cell that does not hold `s` leaves every line of `s` in
      place. */
  lemma {:induction false} LineSurvivesOtherCell(b: seq<string>, s: string, m: Index, x: string)
    requires |b| == 9 && b[m] != s && HasLine(b, s)
    ensures forall k :: 0 <= k < |WinningCombinations| && LineIs(b, WinningCombinations[k], s) ==>
      LineIs(b[m := x], WinningCombinations[k], s)
    ensures HasLine(b[m := x], s)
  {
    var k :| 0 <= k < |WinningCombinations| && LineIs(b, WinningCombinations[k], s);
    assert LineIs(b[m := x], WinningCombinations[k], s);
  }

  /** Writing a marker other than `s` creates no line of `s`. */
  lemma {:induction false} NoLineFromOtherMark(b: seq<string>, s: string, m: Index, x: string)
    requires |b| == 9 && x != s && !HasLine(b, s)
    ensures !HasLine(b[m := x], s)
  {
    forall k | 0 <= k < |WinningCombinations|
      ensures !LineIs(b[m := x], WinningCombinations[k], s)
    {
      assert !LineIs(b, WinningCombinations[k], s);
    }
  }

  /** Filling an empty cell with a marker uses up exactly one free cell and
      adds exactly one of that marker. */
  lemma {:induction false} PlaceCounts(b: seq<string>, m: Index, x: string, s: string)
    requires |b| == 9 && b[m] == Empty && x != Empty
    ensures EmptyCount(b[m := x]) == EmptyCount(b) - 1
    ensures Count(b[m := x], s) == Count(b, s) + (if s == x then 1 else if s == Empty then -1 else 0)
  {
    assert multiset(b[m := x]) == multiset(b) - multiset{Empty} + multiset{x};
  }

  /** `checkWinForSymbol`: scans the winning combinations in order and stops
      at the first one whose three cells all hold `symbol`. The board is the
      game's shared state array. */
  method CheckWinForSymbol(gameState: array<string>, symbol: string) returns (won: bool)
    requires gameState.Length == 9
    ensures won <==> HasLine(gameState[..], symbol)
  {
    for k := 0 to |WinningCombinations|
      invariant forall j :: 0 <= j < k ==> !LineIs(gameState[..], WinningCombinations[j], symbol)
    {
      var (a, b, c) := WinningCombinations[k];
      if gameState[a] == symbol && gameState[a] == gameState[b] && gameState[a] == gameState[c] {
        assert LineIs(gameState[..], WinningCombinations[k], symbol);
        return true;
      }
    }
    return false;
  }
}
