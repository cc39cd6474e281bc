/** What the move chosen by the engine means: the first empty cell of
    greatest minimax value, which is the value of the position, and what this
    implies for immediate wins and for the human's threats. */
module Strategy {
  import opened Board
  import opened Search

  /** Cell `m` is the first empty cell, among those below `k`, whose value
      for the engine no other cell beats. */
  predicate FirstBest(b: seq<string>, user: string, ai: string, k: nat, m: Index)
    requires |b| == 9 && Symbols(user, ai) && k <= 9
  {
    && m < k && b[m] == Empty
    && Unbeaten(b, true, user, ai, k, ChildValue(b, m, true, user, ai))
    && forall j: Index :: j < m && b[j] == Empty ==>
         ChildValue(b, j, true, user, ai) < ChildValue(b, m, true, user, ai)
  }

  /** No empty cell scanned so far scores above the running best. */
  lemma {:induction false} BestFromBeats(b: seq<string>, user: string, ai: string, k: nat, j: Index)
    requires |b| == 9 && Symbols(user, ai) && k <= 9
    requires j < k && b[j] == Empty
    ensures ChildValue(b, j, true, user, ai) <= BestFrom(b, user, ai, k).0
  {
    if j < k - 1 {
      BestFromBeats(b, user, ai, k - 1, j);
      assert BestFrom(b, user, ai, k - 1).0 <= BestFrom(b, user, ai, k).0;
    }
  }

  lemma BestFromUnbeaten(b: seq<string>, user: string, ai: string, k: nat)
    requires |b| == 9 && Symbols(user, ai) && k <= 9
    ensures Unbeaten(b, true, user, ai, k, BestFrom(b, user, ai, k).0)
  {
    forall j: Index | j < k && b[j] == Empty
      ensures ChildValue(b, j, true, user, ai) <= BestFrom(b, user, ai, k).0
    {
      BestFromBeats(b, user, ai, k, j);
    }
  }

  /** Every empty cell before the kept one scored strictly less: a later
      cell replaces the kept one only on a strictly greater score. */
  lemma {:induction false} BestFromStrictlyFirst(b: seq<string>, user: string, ai: string, k: nat)
    requires |b| == 9 && Symbols(user, ai) && k <= 9
    ensures BestFrom(b, user, ai, k).1.Some? ==>
      forall j: Index :: j < BestFrom(b, user, ai, k).1.value && b[j] == Empty ==>
        ChildValue(b, j, true, user, ai) < BestFrom(b, user, ai, k).0
  {
    if k > 0 {
      BestFromStrictlyFirst(b, user, ai, k - 1);
      BestFromUnbeaten(b, user, ai, k - 1);
    }
  }

  /** `getBestMove` answers no move exactly when the board is full, and
      otherwise the first empty cell of greatest value. */
  lemma BestMoveIsFirstBest(b: seq<string>, user: string, ai: string)
    requires |b| == 9 && Symbols(user, ai)
    ensures BestMove(b, user, ai) == None <==> IsFull(b)
    ensures BestMove(b, user, ai).Some? ==> FirstBest(b, user, ai, 9, BestMove(b, user, ai).value)
  {
    BestFromUnbeaten(b, user, ai, 9);
    BestFromStrictlyFirst(b, user, ai, 9);
  }

  /** Conversely, the first empty cell of greatest value is the one
      `getBestMove` answers: the characterisation determines the move. */
  lemma FirstBestIsBestMove(b: seq<string>, user: string, ai: string, m: Index)
    requires |b| == 9 && Symbols(user, ai)
    requires FirstBest(b, user, ai, 9, m)
    ensures BestMove(b, user, ai) == Some(m)
  {
    BestMoveIsFirstBest(b, user, ai);
    assert !IsFull(b);
    var chosen := BestMove(b, user, ai).value;
    assert FirstBest(b, user, ai, 9, chosen);
    assert ChildValue(b, m, true, user, ai) == ChildValue(b, chosen, true, user, ai);
    assert !(m < chosen) && !(chosen < m);
  }

  /** In a position that is not over, the chosen cell is worth the
      position's own minimax value for the engine: the choice is optimal. */
  lemma BestMoveIsOptimal(b: seq<string>, user: string, ai: string)
    requires |b| == 9 && Symbols(user, ai)
    requires !HasLine(b, user) && !HasLine(b, ai) && !IsFull(b)
    ensures BestMove(b, user, ai).Some? && b[BestMove(b, user, ai).value] == Empty
    ensures ChildValue(b, BestMove(b, user, ai).value, true, user, ai) == MinimaxValue(b, true, user, ai)
  {
    BestMoveIsFirstBest(b, user, ai);
    MinimaxValueIsOptimal(b, true, user, ai);
    var m := BestMove(b, user, ai).value;
    assert FirstBest(b, user, ai, 9, m);
    var j: Index :| b[j] == Empty && MinimaxValue(b, true, user, ai) == ChildValue(b, j, true, user, ai);
  }

  /** When the engine can complete a line at once, the cell it chooses is
      worth a win (+1), though it need not be that cell: the search ignores
      depth, so a lower-indexed cell leading to a later forced win ties. */
  lemma ImmediateWinIsWinningChoice(b: seq<string>, user: string, ai: string, w: Index)
    requires |b| == 9 && Symbols(user, ai)
    requires !HasLine(b, user) && b[w] == Empty && HasLine(b[w := ai], ai)
    ensures BestMove(b, user, ai).Some? && b[BestMove(b, user, ai).value] == Empty
    ensures ChildValue(b, BestMove(b, user, ai).value, true, user, ai) == 1
  {
    NoLineFromOtherMark(b, user, w, ai);
    assert ChildValue(b, w, true, user, ai) == 1;
    BestMoveIsFirstBest(b, user, ai);
    assert !IsFull(b);
  }

  /** The engine leaves open a cell where the human would complete a line
      only when its own move wins at once or every move loses. */
  lemma UnblockedThreatMeansLoss(b: seq<string>, user: string, ai: string, t: Index)
    requires |b| == 9 && Symbols(user, ai)
    requires !HasLine(b, user) && b[t] == Empty && HasLine(b[t := user], user)
    requires BestMove(b, user, ai).Some? && BestMove(b, user, ai).value != t
    ensures var m := BestMove(b, user, ai).value;
      HasLine(b[m := ai], ai) ||
      forall j: Index :: b[j] == Empty ==> ChildValue(b, j, true, user, ai) == -1
  {
    var m := BestMove(b, user, ai).value;
    BestMoveIsFirstBest(b, user, ai);
    assert FirstBest(b, user, ai, 9, m);
    var c := Child(b, m, true, user, ai);
    if !HasLine(c, ai) {
      NoLineFromOtherMark(b, user, m, ai);
      assert c[t] == Empty;
      // The human's reply at `t` completes the threatened line.
      assert b[t := user][m] == Empty;
      LineSurvivesOtherCell(b[t := user], user, m, ai);
      assert b[t := user][m := ai] == c[t := user];
      assert ChildValue(c, t, false, user, ai) == -1;
      ScanChildrenUnbeaten(c, false, user, ai, 9);
      assert ChildValue(b, m, true, user, ai) == -1;
    }
  }

  /** With the engine to move, a cell that completes its line at once makes
      the position a win (+1), whatever else is on the board. */
  lemma EngineWinNowIsWin(g: seq<string>, user: string, ai: string, w: Index)
    requires |g| == 9 && Symbols(user, ai)
    requires !HasLine(g, user) && g[w] == Empty && HasLine(g[w := ai], ai)
    ensures MinimaxValue(g, true, user, ai) == 1
  {
    if !HasLine(g, ai) {
      NoLineFromOtherMark(g, user, w, ai);
      assert ChildValue(g, w, true, user, ai) == 1;
      ScanChildrenBeats(g, true, user, ai, 9, w);
    }
  }

  /** A position where the engine (O) can win at once at cell 8, and can
      instead fork at cell 1, threatening cells 2, 7 and 8. */
  const ForkBoard: seq<string> := ["O", "", "", "X", "O", "X", "X", "", ""]

  /** With the human to move, a reply after which the engine can complete a
      line at once is worth a win for the engine. */
  lemma ReplyLeavingWinIsWin(c: seq<string>, user: string, ai: string, j: Index, w: Index)
    requires |c| == 9 && Symbols(user, ai) && c[j] == Empty
    requires !HasLine(c[j := user], user) && c[j := user][w] == Empty
    requires HasLine(c[j := user][w := ai], ai)
    ensures ChildValue(c, j, false, user, ai) == 1
  {
    EngineWinNowIsWin(c[j := user], user, ai, w);
  }

  /** With the human to move on a position that is not over, if every reply
      is worth a win for the engine, so is the position. */
  lemma AllRepliesLoseIsWin(c: seq<string>, user: string, ai: string)
    requires |c| == 9 && Symbols(user, ai)
    requires !HasLine(c, user) && !HasLine(c, ai) && !IsFull(c)
    requires forall j: Index :: c[j] == Empty ==> ChildValue(c, j, false, user, ai) == 1
    ensures MinimaxValue(c, false, user, ai) == 1
  {
    MinimaxValueIsOptimal(c, false, user, ai);
  }

  /** The board after the fork: O at cells 0, 1 and 4 holds no line yet. */
  const Forked: seq<string> := ["O", "O", "", "X", "O", "X", "X", "", ""]

  lemma ForkedHasNoLine()
    ensures !HasLine(Forked, "X") && !HasLine(Forked, "O") && !IsFull(Forked)
  {
    WinningLinesAreRowsColumnsDiagonals(Forked, "X");
    WinningLinesAreRowsColumnsDiagonals(Forked, "O");
    assert Forked[2] == Empty;
  }

  /** Each human reply to the fork (cells 2, 7 or 8) leaves the engine a line
      to complete, so each is worth a win for the engine. */
  lemma ForkRepliesLose()
    ensures forall j: Index :: Forked[j] == Empty ==> ChildValue(Forked, j, false, "X", "O") == 1
  {
    forall j: Index | Forked[j] == Empty
      ensures ChildValue(Forked, j, false, "X", "O") == 1
    {
      assert j == 2 || j == 7 || j == 8;
      var g := Forked[j := "X"];
      WinningLinesAreRowsColumnsDiagonals(g, "X");
      var w: Index := if j == 2 then 7 else 2;
      assert LineIs(g[w := "O"], WinningCombinations[if j == 2 then 4 else 0], "O");
      ReplyLeavingWinIsWin(Forked, "X", "O", j, w);
    }
  }

  /** Because scores ignore depth, the fork at cell 1 is worth a win as much
      as the immediate win at cell 8, and the strict `>` keeps the first of
      them: the engine plays the fork, which does not win at once. */
  lemma ForkOutranksImmediateWin()
    ensures HasLine(ForkBoard[8 := "O"], "O")
    ensures !HasLine(ForkBoard[1 := "O"], "O")
    ensures BestMove(ForkBoard, "X", "O") == Some(1)
  {
    assert LineIs(ForkBoard[8 := "O"], WinningCombinations[6], "O");
    assert ForkBoard[1 := "O"] == Forked;
    ForkedHasNoLine();
    ForkRepliesLose();
    AllRepliesLoseIsWin(Forked, "X", "O");
    assert ChildValue(ForkBoard, 1, true, "X", "O") == 1;
    FirstBestIsBestMove(ForkBoard, "X", "O", 1);
  }
}
