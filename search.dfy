/** The opponent engine: minimax with alpha-beta pruning over the shared
    board array, and the top-level move chooser. Each is proved against an
    unpruned minimax value defined as a function of the board. */
module Search {
  import opened Board

  /** Finite stand-ins for -Infinity and Infinity: every real score lies in
      -1..1, so these are only ever initial values. */
  const NegInf: int := -2
  const PosInf: int := 2

  function Max(x: int, y: int): int { if x >= y then x else y }
  function Min(x: int, y: int): int { if x <= y then x else y }

  /** The marker placed by the side to move: the engine maximises, the human
      minimises. */
  function Mark(maximizing: bool, user: string, ai: string): string {
    if maximizing then ai else user
  }

  /** The board after the side to move takes the empty cell `j`. */
  function Child(b: seq<string>, j: Index, maximizing: bool, user: string, ai: string): (c: seq<string>)
    requires |b| == 9 && Symbols(user, ai) && b[j] == Empty
    ensures |c| == 9 && EmptyCount(c) == EmptyCount(b) - 1
  {
    PlaceCounts(b, j, Mark(maximizing, user, ai), Empty);
    b[j := Mark(maximizing, user, ai)]
  }

  /** The minimax value of `b` without pruning: a human line scores -1 (it
      is looked for first), an engine line +1, a full board 0, and otherwise
      the best child for the side to move. The search depth plays no part. */
  function MinimaxValue(b: seq<string>, maximizing: bool, user: string, ai: string): (v: int)
    requires |b| == 9 && Symbols(user, ai)
    ensures -1 <= v <= 1
    decreases EmptyCount(b), 1
  {
    if HasLine(b, user) then -1
    else if HasLine(b, ai) then 1
    else if IsFull(b) then 0
    else ScanChildren(b, maximizing, user, ai, 9)
  }

  /** The value of the child reached by playing the empty cell `j`. */
  function ChildValue(b: seq<string>, j: Index, maximizing: bool, user: string, ai: string): (v: int)
    requires |b| == 9 && Symbols(user, ai) && b[j] == Empty
    ensures -1 <= v <= 1
    decreases EmptyCount(b), 0, 0
  {
    MinimaxValue(Child(b, j, maximizing, user, ai), !maximizing, user, ai)
  }

  /** The running best over the empty cells below `k`, folded in the order
      the search loop visits them, starting from the sentinel. */
  function ScanChildren(b: seq<string>, maximizing: bool, user: string, ai: string, k: nat): (best: int)
    requires |b| == 9 && Symbols(user, ai) && k <= 9
    ensures (forall j :: 0 <= j < k ==> b[j] != Empty) ==> best == (if maximizing then NegInf else PosInf)
    ensures (exists j :: 0 <= j < k && b[j] == Empty) ==> -1 <= best <= 1
    decreases EmptyCount(b), 0, k
  {
    if k == 0 then (if maximizing then NegInf else PosInf)
    else
      var rest := ScanChildren(b, maximizing, user, ai, k - 1);
      if b[k - 1] == Empty then
        var v := ChildValue(b, k - 1, maximizing, user, ai);
        if maximizing then Max(v, rest) else Min(v, rest)
      else rest
  }

  /** `x` is at least as good as `y` for the side to move. */
  predicate AtLeastAsGood(maximizing: bool, x: int, y: int) {
    if maximizing then y <= x else x <= y
  }

  /** No empty cell below `k` gives the side to move a better child than
      `best`. */
  predicate Unbeaten(b: seq<string>, maximizing: bool, user: string, ai: string, k: nat, best: int)
    requires |b| == 9 && Symbols(user, ai) && k <= 9
  {
    forall j: Index :: j < k && b[j] == Empty ==>
      AtLeastAsGood(maximizing, best, ChildValue(b, j, maximizing, user, ai))
  }

  /** Some empty cell below `k`, if there is one, has a child worth `best`. */
  predicate Attained(b: seq<string>, maximizing: bool, user: string, ai: string, k: nat, best: int)
    requires |b| == 9 && Symbols(user, ai) && k <= 9
  {
    (exists j: Index :: j < k && b[j] == Empty) ==>
      exists j: Index :: j < k && b[j] == Empty && best == ChildValue(b, j, maximizing, user, ai)
  }

  /** The best value for the side to move among the empty cells below `k`. */
  predicate IsBestOf(b: seq<string>, maximizing: bool, user: string, ai: string, k: nat, best: int)
    requires |b| == 9 && Symbols(user, ai) && k <= 9
  {
    Unbeaten(b, maximizing, user, ai, k, best) && Attained(b, maximizing, user, ai, k, best)
  }

  /** No child scanned so far beats the running fold. */
  lemma {:induction false} ScanChildrenBeats(b: seq<string>, maximizing: bool, user: string, ai: string, k: nat, j: Index)
    requires |b| == 9 && Symbols(user, ai) && k <= 9
    requires j < k && b[j] == Empty
    ensures AtLeastAsGood(maximizing, ScanChildren(b, maximizing, user, ai, k), ChildValue(b, j, maximizing, user, ai))
  {
    var rest := ScanChildren(b, maximizing, user, ai, k - 1);
    if j < k - 1 {
      ScanChildrenBeats(b, maximizing, user, ai, k - 1, j);
      assert AtLeastAsGood(maximizing, ScanChildren(b, maximizing, user, ai, k), rest);
    }
  }

  lemma ScanChildrenUnbeaten(b: seq<string>, maximizing: bool, user: string, ai: string, k: nat)
    requires |b| == 9 && Symbols(user, ai) && k <= 9
    ensures Unbeaten(b, maximizing, user, ai, k, ScanChildren(b, maximizing, user, ai, k))
  {
    forall j: Index | j < k && b[j] == Empty
      ensures AtLeastAsGood(maximizing, ScanChildren(b, maximizing, user, ai, k), ChildValue(b, j, maximizing, user, ai))
    {
      ScanChildrenBeats(b, maximizing, user, ai, k, j);
    }
  }

  /** The fold over the children is the value of one of them. */
  lemma {:induction false} ScanChildrenAttained(b: seq<string>, maximizing: bool, user: string, ai: string, k: nat)
    requires |b| == 9 && Symbols(user, ai) && k <= 9
    ensures Attained(b, maximizing, user, ai, k, ScanChildren(b, maximizing, user, ai, k))
  {
    if k > 0 {
      ScanChildrenAttained(b, maximizing, user, ai, k - 1);
      var rest := ScanChildren(b, maximizing, user, ai, k - 1);
      if b[k - 1] == Empty && exists j: Index :: j < k - 1 && b[j] == Empty {
        var j: Index :| j < k - 1 && b[j] == Empty && rest == ChildValue(b, j, maximizing, user, ai);
        var last: Index := k - 1;
        assert ScanChildren(b, maximizing, user, ai, k) in {rest, ChildValue(b, last, maximizing, user, ai)};
      } else if b[k - 1] == Empty {
        var last: Index := k - 1;
        assert ScanChildren(b, maximizing, user, ai, k) == ChildValue(b, last, maximizing, user, ai);
      }
    }
  }

  /** A position that is not over is worth exactly the best move for the side
      to move: the engine's best child, or the human's best reply. */
  lemma MinimaxValueIsOptimal(b: seq<string>, maximizing: bool, user: string, ai: string)
    requires |b| == 9 && Symbols(user, ai)
    requires !HasLine(b, user) && !HasLine(b, ai) && !IsFull(b)
    ensures IsBestOf(b, maximizing, user, ai, 9, MinimaxValue(b, maximizing, user, ai))
  {
    ScanChildrenUnbeaten(b, maximizing, user, ai, 9);
    ScanChildrenAttained(b, maximizing, user, ai, 9);
  }

  /** What a pruned search with window (alpha, beta) may return in place of
      the true value `v`: inside the window it is exact; at or below alpha it
      is an upper bound on `v`; at or above beta a lower bound. */
  predicate FailSoft(r: int, alpha: int, beta: int, v: int) {
    (alpha < r < beta ==> r == v) &&
    (r <= alpha ==> v <= r) &&
    (beta <= r ==> r <= v)
  }

  /** One engine move of the pruned loop keeps its running best fail-soft
      against the unpruned fold over the cells visited so far; a cut-off
      happens only on a score no better than that child's true value. */
  lemma {:induction false} MaximizingStep(b: seq<string>, user: string, ai: string, i: Index,
                                          alpha: int, beta: int, bestScore: int, score: int)
    requires |b| == 9 && Symbols(user, ai) && b[i] == Empty
    requires Max(alpha, bestScore) < beta
    requires FailSoft(bestScore, alpha, beta, ScanChildren(b, true, user, ai, i))
    requires FailSoft(score, Max(alpha, bestScore), beta, ChildValue(b, i, true, user, ai))
    ensures Max(score, bestScore) < beta ==>
      FailSoft(Max(score, bestScore), alpha, beta, ScanChildren(b, true, user, ai, i + 1))
    ensures beta <= Max(score, bestScore) ==> score == Max(score, bestScore) <= ChildValue(b, i, true, user, ai)
  {
    assert ScanChildren(b, true, user, ai, i + 1)
      == Max(ChildValue(b, i, true, user, ai), ScanChildren(b, true, user, ai, i));
  }

  /** The same for a human move, with the roles of alpha and beta swapped. */
  lemma {:induction false} MinimizingStep(b: seq<string>, user: string, ai: string, i: Index,
                                          alpha: int, beta: int, bestScore: int, score: int)
    requires |b| == 9 && Symbols(user, ai) && b[i] == Empty
    requires alpha < Min(beta, bestScore)
    requires FailSoft(bestScore, alpha, beta, ScanChildren(b, false, user, ai, i))
    requires FailSoft(score, alpha, Min(beta, bestScore), ChildValue(b, i, false, user, ai))
    ensures alpha < Min(score, bestScore) ==>
      FailSoft(Min(score, bestScore), alpha, beta, ScanChildren(b, false, user, ai, i + 1))
    ensures Min(score, bestScore) <= alpha ==> score == Min(score, bestScore) >= ChildValue(b, i, false, user, ai)
  {
    assert ScanChildren(b, false, user, ai, i + 1)
      == Min(ChildValue(b, i, false, user, ai), ScanChildren(b, false, user, ai, i));
  }

  /** When the loop runs to the end, its fold covers every move, so the
      fail-soft relation holds with the position's value. */
  lemma ScanCompleteIsValue(b: seq<string>, maximizing: bool, user: string, ai: string,
                            alpha: int, beta: int, bestScore: int)
    requires |b| == 9 && Symbols(user, ai)
    requires !HasLine(b, user) && !HasLine(b, ai) && !IsFull(b)
    requires FailSoft(bestScore, alpha, beta, ScanChildren(b, maximizing, user, ai, 9))
    ensures FailSoft(bestScore, alpha, beta, MinimaxValue(b, maximizing, user, ai))
  {
  }

  /** A cut-off on a score no better than some child's value is a sound
      bound on the position's value. */
  lemma CutoffIsBound(b: seq<string>, maximizing: bool, user: string, ai: string, i: Index, bestScore: int)
    requires |b| == 9 && Symbols(user, ai) && b[i] == Empty
    requires !HasLine(b, user) && !HasLine(b, ai)
    requires AtLeastAsGood(maximizing, ChildValue(b, i, maximizing, user, ai), bestScore)
    ensures AtLeastAsGood(maximizing, MinimaxValue(b, maximizing, user, ai), bestScore)
  {
    ScanChildrenUnbeaten(b, maximizing, user, ai, 9);
  }

  /** `minimax`: alpha-beta search over the shared board array. A position
      already won by the human scores -1 (checked first), one won by the
      engine +1, a full board 0; otherwise the side to move searches its
      moves. The result is exact inside the window (alpha, beta) and a bound
      outside it, the array is as it was on entry, and `depth` is passed
      along and never read. */
  method Minimax(board: array<string>, depth: nat, isMaximizing: bool, alpha: int, beta: int,
                 user: string, ai: string) returns (score: int)
    requires board.Length == 9 && Symbols(user, ai)
    requires NegInf <= alpha < beta <= PosInf
    modifies board
    ensures board[..] == old(board[..])
    ensures -1 <= score <= 1
    ensures HasLine(old(board[..]), user) ==> score == -1
    ensures !HasLine(old(board[..]), user) && HasLine(old(board[..]), ai) ==> score == 1
    ensures !HasLine(old(board[..]), user) && !HasLine(old(board[..]), ai) && IsFull(old(board[..])) ==> score == 0
    ensures FailSoft(score, alpha, beta, MinimaxValue(old(board[..]), isMaximizing, user, ai))
    decreases EmptyCount(board[..]), 2
  {
    var userWon := CheckWinForSymbol(board, user);
    if userWon { return -1; }
    var aiWon := CheckWinForSymbol(board, ai);
    if aiWon { return 1; }
    if IsFull(board[..]) { return 0; }
    if isMaximizing {
      score := MaximizingBranch(board, depth, alpha, beta, user, ai);
    } else {
      score := MinimizingBranch(board, depth, alpha, beta, user, ai);
    }
  }

  /** The tentative move shared by every search loop: the side to move
      writes its marker into the empty cell `i`, the position is searched
      with the other side to move, and the cell is cleared again. */
  method TryMove(board: array<string>, i: Index, childDepth: nat, maximizing: bool, alpha: int, beta: int,
                 user: string, ai: string) returns (score: int)
    requires board.Length == 9 && Symbols(user, ai) && board[i] == Empty
    requires NegInf <= alpha < beta <= PosInf
    modifies board
    ensures board[..] == old(board[..])
    ensures -1 <= score <= 1
    ensures FailSoft(score, alpha, beta, ChildValue(old(board[..]), i, maximizing, user, ai))
    decreases EmptyCount(board[..]), 0
  {
    ghost var b := board[..];
    board[i] := Mark(maximizing, user, ai);
    assert board[..] == Child(b, i, maximizing, user, ai);
    score := Minimax(board, childDepth, !maximizing, alpha, beta, user, ai);
    board[i] := Empty;
    assert board[..] == b;
  }

  /** The engine's turn inside `minimax`: each empty cell in index order
      takes the engine's marker, is searched with the human to reply, and is
      cleared again; alpha rises to the best score so far, and the loop stops
      as soon as beta <= alpha. */
  method MaximizingBranch(board: array<string>, depth: nat, alpha: int, beta: int,
                          user: string, ai: string) returns (bestScore: int)
    requires board.Length == 9 && Symbols(user, ai)
    requires NegInf <= alpha < beta <= PosInf
    requires !HasLine(board[..], user) && !HasLine(board[..], ai) && !IsFull(board[..])
    modifies board
    ensures board[..] == old(board[..])
    ensures -1 <= bestScore <= 1
    ensures FailSoft(bestScore, alpha, beta, MinimaxValue(old(board[..]), true, user, ai))
    decreases EmptyCount(board[..]), 1
  {
    ghost var b := board[..];
    bestScore := NegInf;
    var alphaNow := alpha;
    var i := 0;
    while i < board.Length
      invariant 0 <= i <= 9
      invariant board[..] == b
      invariant alphaNow == Max(alpha, bestScore) && alphaNow < beta
      invariant FailSoft(bestScore, alpha, beta, ScanChildren(b, true, user, ai, i))
    {
      if board[i] == Empty {
        var score := TryMove(board, i, depth + 1, true, alphaNow, beta, user, ai);
        MaximizingStep(b, user, ai, i, alpha, beta, bestScore, score);
        bestScore := Max(score, bestScore);
        alphaNow := Max(alphaNow, bestScore);
        if beta <= alphaNow {
          CutoffIsBound(b, true, user, ai, i, bestScore);
          break;
        }
      }
      i := i + 1;
    }
    if i == 9 {
      ScanCompleteIsValue(b, true, user, ai, alpha, beta, bestScore);
    }
  }

  /** The human's turn inside `minimax`: symmetric, placing the human's
      marker, keeping the least score and lowering beta. */
  method MinimizingBranch(board: array<string>, depth: nat, alpha: int, beta: int,
                          user: string, ai: string) returns (bestScore: int)
    requires board.Length == 9 && Symbols(user, ai)
    requires NegInf <= alpha < beta <= PosInf
    requires !HasLine(board[..], user) && !HasLine(board[..], ai) && !IsFull(board[..])
    modifies board
    ensures board[..] == old(board[..])
    ensures -1 <= bestScore <= 1
    ensures FailSoft(bestScore, alpha, beta, MinimaxValue(old(board[..]), false, user, ai))
    decreases EmptyCount(board[..]), 1
  {
    ghost var b := board[..];
    bestScore := PosInf;
    var betaNow := beta;
    var i := 0;
    while i < board.Length
      invariant 0 <= i <= 9
      invariant board[..] == b
      invariant betaNow == Min(beta, bestScore) && alpha < betaNow
      invariant FailSoft(bestScore, alpha, beta, ScanChildren(b, false, user, ai, i))
    {
      if board[i] == Empty {
        var score := TryMove(board, i, depth + 1, false, alpha, betaNow, user, ai);
        MinimizingStep(b, user, ai, i, alpha, beta, bestScore, score);
        bestScore := Min(score, bestScore);
        betaNow := Min(betaNow, bestScore);
        if betaNow <= alpha {
          CutoffIsBound(b, false, user, ai, i, bestScore);
          break;
        }
      }
      i := i + 1;
    }
    if i == 9 {
      ScanCompleteIsValue(b, false, user, ai, alpha, beta, bestScore);
    }
  }

  /** The unpruned top-level scan: each empty cell is scored by the human's
      best reply to the engine playing it, and the running best is replaced
      only by a strictly greater score. */
  function BestFrom(b: seq<string>, user: string, ai: string, k: nat): (r: (int, Option<Index>))
    requires |b| == 9 && Symbols(user, ai) && k <= 9
    ensures r.1 == None <==> r.0 == NegInf
    ensures r.0 == NegInf || -1 <= r.0 <= 1
    ensures r.1 == None <==> forall j :: 0 <= j < k ==> b[j] != Empty
    ensures r.1.Some? ==> r.1.value < k && b[r.1.value] == Empty && r.0 == ChildValue(b, r.1.value, true, user, ai)
  {
    if k == 0 then (NegInf, None)
    else
      var (score, move) := BestFrom(b, user, ai, k - 1);
      if b[k - 1] == Empty && ChildValue(b, k - 1, true, user, ai) > score then
        (ChildValue(b, k - 1, true, user, ai), Some(k - 1))
      else (score, move)
  }

  /** The move the engine should make on `b`, by unpruned minimax. */
  function BestMove(b: seq<string>, user: string, ai: string): Option<Index>
    requires |b| == 9 && Symbols(user, ai)
  {
    BestFrom(b, user, ai, 9).1
  }

  /** One cell of the top-level loop: an occupied cell changes nothing, and
      for an empty one the pruned score, searched with alpha at the best so
      far and beta at Infinity, beats the best exactly when its true value
      does. */
  lemma {:induction false} TopLevelStep(b: seq<string>, user: string, ai: string, i: Index,
                                        bestScore: int, bestMove: Option<Index>, score: int)
    requires |b| == 9 && Symbols(user, ai)
    requires (bestScore, bestMove) == BestFrom(b, user, ai, i)
    requires b[i] == Empty ==> -1 <= score <= 1 && FailSoft(score, bestScore, PosInf, ChildValue(b, i, true, user, ai))
    ensures BestFrom(b, user, ai, i + 1) ==
      if b[i] == Empty && score > bestScore then (score, Some(i)) else (bestScore, bestMove)
  {
  }

  /** `getBestMove`: tries every empty cell with the engine's marker, scores
      it with a minimising search, undoes it, and keeps the first cell with a
      strictly higher score. Alpha follows the best score so far and beta
      stays at Infinity, so the cut-off never fires and every score that
      could improve the choice is exact. The array is left as it was. */
  method GetBestMove(gameState: array<string>, user: string, ai: string) returns (bestMove: Option<Index>)
    requires gameState.Length == 9 && Symbols(user, ai)
    modifies gameState
    ensures gameState[..] == old(gameState[..])
    ensures bestMove == BestMove(old(gameState[..]), user, ai)
  {
    ghost var b := gameState[..];
    var bestScore := NegInf;
    bestMove := None;
    var alpha := NegInf;
    var beta := PosInf;
    for i := 0 to gameState.Length
      invariant gameState[..] == b
      invariant (bestScore, bestMove) == BestFrom(b, user, ai, i)
      invariant alpha == bestScore && beta == PosInf
    {
      if gameState[i] == Empty {
        var score := TryMove(gameState, i, 0, true, alpha, beta, user, ai);
        TopLevelStep(b, user, ai, i, bestScore, bestMove, score);
        if score > bestScore {
          bestScore := score;
          bestMove := Some(i);
        }
        alpha := Max(alpha, bestScore);
        if beta <= alpha { break; }
      } else {
        TopLevelStep(b, user, ai, i, bestScore, bestMove, 0);
      }
    }
  }
}
