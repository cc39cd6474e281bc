/** The page's game state with rendering, dialogs and storage stripped: the
    shared board array, the two markers, whose turn it is, and the three
    score counters, updated by the human's cell clicks and the engine's
    replies. */
module Game {
  import opened Board
  import opened Search
  import opened Strategy

  datatype Player = Human | Engine

  /** The engine takes whichever marker the human did not pick. */
  function OtherSymbol(symbol: string): (other: string)
    ensures symbol == "X" ==> other == "O"
    ensures symbol == "O" ==> other == "X"
  {
    if symbol == "X" then "O" else "X"
  }

  /** The whole state as a value. */
  datatype Snapshot = Snapshot(
    board: seq<string>,
    userSymbol: string,
    aiSymbol: string,
    currentPlayer: Player,
    humanScore: nat,
    engineScore: nat,
    tieScore: nat)

  predicate WellFormed(s: Snapshot) {
    |s.board| == 9 && Symbols(s.userSymbol, s.aiSymbol)
  }

  /** `checkWin`: whether the player whose turn it is has a line. */
  predicate HasWon(s: Snapshot)
    requires WellFormed(s)
  {
    HasLine(s.board, if s.currentPlayer == Human then s.userSymbol else s.aiSymbol)
  }

  /** `resetGame`: a fresh board, and the human to move. */
  function AfterReset(s: Snapshot): Snapshot {
    s.(board := EmptyBoard, currentPlayer := Human)
  }

  /** `updateScore`: one more win for `winner`. */
  function WithWin(s: Snapshot, winner: Player): Snapshot {
    if winner == Human then s.(humanScore := s.humanScore + 1)
    else s.(engineScore := s.engineScore + 1)
  }

  /** `updateTieCount`: one more tie. */
  function WithTie(s: Snapshot): Snapshot {
    s.(tieScore := s.tieScore + 1)
  }

  /** `aiMove`: the engine plays its chosen cell, then the game ends in its
      win or a tie (and is reset), or the turn passes to the human. With no
      move available nothing changes. */
  function AfterAiMove(s: Snapshot): Snapshot
    requires WellFormed(s)
  {
    match BestMove(s.board, s.userSymbol, s.aiSymbol)
    case None => s
    case Some(m) =>
      var placed := s.(board := s.board[m := s.aiSymbol]);
      if HasWon(placed) then AfterReset(WithWin(placed, Engine))
      else if IsFull(placed.board) then AfterReset(WithTie(placed))
      else placed.(currentPlayer := Human)
  }

  /** The cell-click handler: only on an empty cell and on the human's turn
      does the human's marker go down; then the game ends in the human's win
      or a tie (and is reset), or the engine replies. */
  function AfterHumanMove(s: Snapshot, cellIndex: Index): Snapshot
    requires WellFormed(s)
  {
    if s.board[cellIndex] == Empty && s.currentPlayer == Human then
      var placed := s.(board := s.board[cellIndex := s.userSymbol]);
      if HasWon(placed) then AfterReset(WithWin(placed, Human))
      else if IsFull(placed.board) then AfterReset(WithTie(placed))
      else AfterAiMove(placed.(currentPlayer := Engine))
    else s
  }

  /** Between clicks while a game is in progress: the human is to move,
      nobody has a line, a cell is free, and, the human having moved first,
      both have placed equally many markers. */
  predicate AwaitingHuman(s: Snapshot) {
    && WellFormed(s)
    && s.currentPlayer == Human
    && !HasLine(s.board, s.userSymbol) && !HasLine(s.board, s.aiSymbol)
    && !IsFull(s.board)
    && Count(s.board, s.userSymbol) == Count(s.board, s.aiSymbol)
  }

  /** A reset game awaits the human's first move. */
  lemma ResetAwaitsHuman(s: Snapshot)
    requires WellFormed(s)
    ensures AwaitingHuman(AfterReset(s))
  {
    EmptyBoardHasNoLine(s.userSymbol);
    EmptyBoardHasNoLine(s.aiSymbol);
    assert EmptyBoard[0] == Empty;
    assert multiset(EmptyBoard) == multiset{Empty, Empty, Empty, Empty, Empty, Empty, Empty, Empty, Empty};
  }

  /** After the engine's reply to a move that did not end the game, the
      engine's cell was free, and either the game ended and was reset or it
      is the human's turn again with the invariant restored. */
  lemma {:induction false} EngineReplyKeepsGameInPlay(s: Snapshot, idx: Index)
    requires AwaitingHuman(s) && s.board[idx] == Empty
    requires var p := s.board[idx := s.userSymbol]; !HasLine(p, s.userSymbol) && !IsFull(p)
    ensures AwaitingHuman(AfterAiMove(s.(board := s.board[idx := s.userSymbol], currentPlayer := Engine)))
  {
    var user, ai := s.userSymbol, s.aiSymbol;
    var e := s.(board := s.board[idx := user], currentPlayer := Engine);
    NoLineFromOtherMark(s.board, ai, idx, user);
    PlaceCounts(s.board, idx, user, user);
    PlaceCounts(s.board, idx, user, ai);
    BestMoveIsFirstBest(e.board, user, ai);
    var m := BestMove(e.board, user, ai).value;
    var after := e.(board := e.board[m := ai]);
    if HasWon(after) || IsFull(after.board) {
      ResetAwaitsHuman(if HasWon(after) then WithWin(after, Engine) else WithTie(after));
    } else {
      NoLineFromOtherMark(e.board, user, m, ai);
      PlaceCounts(e.board, m, ai, user);
      PlaceCounts(e.board, m, ai, ai);
    }
  }

  /** A click never breaks the invariant: an occupied cell or the engine's
      turn changes nothing, a finished game is reset, and otherwise the
      engine replies on a free cell and play goes on. */
  lemma HumanMoveKeepsGameInPlay(s: Snapshot, idx: Index)
    requires AwaitingHuman(s)
    ensures AwaitingHuman(AfterHumanMove(s, idx))
  {
    if s.board[idx] == Empty {
      var placed := s.(board := s.board[idx := s.userSymbol]);
      if HasWon(placed) || IsFull(placed.board) {
        ResetAwaitsHuman(if HasWon(placed) then WithWin(placed, Human) else WithTie(placed));
      } else {
        EngineReplyKeepsGameInPlay(s, idx);
      }
    }
  }

  function Total(s: Snapshot): nat {
    s.humanScore + s.engineScore + s.tieScore
  }

  /** The counters only grow, and by one point in all exactly when a game
      ends: then the board is cleared; otherwise either nothing changed or
      each side has placed one more marker. */
  lemma {:induction false} HumanMoveScoresFinishedGames(s: Snapshot, idx: Index)
    requires AwaitingHuman(s)
    ensures var t := AfterHumanMove(s, idx);
      && t.humanScore >= s.humanScore && t.engineScore >= s.engineScore && t.tieScore >= s.tieScore
      && t.userSymbol == s.userSymbol && t.aiSymbol == s.aiSymbol
      && ((Total(t) == Total(s) + 1 && t.board == EmptyBoard) ||
          t == s ||
          (Total(t) == Total(s) &&
           Count(t.board, s.userSymbol) == Count(s.board, s.userSymbol) + 1 &&
           Count(t.board, s.aiSymbol) == Count(s.board, s.aiSymbol) + 1))
  {
    var user, ai := s.userSymbol, s.aiSymbol;
    var t := AfterHumanMove(s, idx);
    if s.board[idx] == Empty {
      var placed := s.(board := s.board[idx := user]);
      if !HasWon(placed) && !IsFull(placed.board) {
        var e := placed.(currentPlayer := Engine);
        assert t == AfterAiMove(e);
        PlaceCounts(s.board, idx, user, user);
        PlaceCounts(s.board, idx, user, ai);
        BestMoveIsFirstBest(e.board, user, ai);
        var m := BestMove(e.board, user, ai).value;
        var after := e.(board := e.board[m := ai]);
        if HasWon(after) {
          assert t == AfterReset(WithWin(after, Engine));
        } else if IsFull(after.board) {
          assert t == AfterReset(WithTie(after));
        } else {
          assert t == after.(currentPlayer := Human);
          PlaceCounts(e.board, m, ai, user);
          PlaceCounts(e.board, m, ai, ai);
        }
      }
    }
  }

  /** A point for the human follows the human's move completing a line; a
      point for the engine follows the engine's chosen cell completing one
      after the human's move did not; a tie follows the human's move, or the
      engine's reply to it, filling the board without a line for the mover. */
  lemma PointsFollowLines(s: Snapshot, idx: Index)
    requires AwaitingHuman(s)
    ensures var t := AfterHumanMove(s, idx);
      var p := s.board[idx := s.userSymbol];
      && (t.humanScore > s.humanScore ==> s.board[idx] == Empty && HasLine(p, s.userSymbol))
      && (t.engineScore > s.engineScore ==>
            s.board[idx] == Empty && !HasLine(p, s.userSymbol) &&
            BestMove(p, s.userSymbol, s.aiSymbol).Some? &&
            HasLine(p[BestMove(p, s.userSymbol, s.aiSymbol).value := s.aiSymbol], s.aiSymbol))
      && (t.tieScore > s.tieScore ==>
            s.board[idx] == Empty && !HasLine(p, s.userSymbol) &&
            (IsFull(p) ||
             (BestMove(p, s.userSymbol, s.aiSymbol).Some? &&
              !HasLine(p[BestMove(p, s.userSymbol, s.aiSymbol).value := s.aiSymbol], s.aiSymbol) &&
              IsFull(p[BestMove(p, s.userSymbol, s.aiSymbol).value := s.aiSymbol]))))
  {
  }

  /** The game and its counters as the page holds them. */
  class TicTacToe {
    var gameState: array<string>
    var userSymbol: string
    var aiSymbol: string
    var currentPlayer: Player
    var humanScore: nat
    var engineScore: nat
    var tieScore: nat

    ghost predicate Valid()
      reads this
    {
      gameState.Length == 9 && Symbols(userSymbol, aiSymbol)
    }

    ghost function State(): Snapshot
      reads this, gameState
    {
      Snapshot(gameState[..], userSymbol, aiSymbol, currentPlayer, humanScore, engineScore, tieScore)
    }

    /** Page load followed by the human picking `symbol`: an empty board, the
        stored counters (zero when absent), and the human to move. */
    constructor (symbol: string, storedHuman: nat, storedEngine: nat, storedTies: nat)
      requires symbol == "X" || symbol == "O"
      ensures Valid() && fresh(gameState)
      ensures State() == Snapshot(EmptyBoard, symbol, OtherSymbol(symbol), Human, storedHuman, storedEngine, storedTies)
    {
      gameState := new string[9](_ => Empty);
      userSymbol := symbol;
      aiSymbol := OtherSymbol(symbol);
      currentPlayer := Human;
      humanScore, engineScore, tieScore := storedHuman, storedEngine, storedTies;
      new;
      assert gameState[..] == EmptyBoard;
    }

    /** A symbol button: the human takes `symbol`, the engine the other one,
        and the human moves next. */
    method SelectSymbol(symbol: string)
      requires Valid() && (symbol == "X" || symbol == "O")
      modifies this
      ensures Valid() && gameState == old(gameState)
      ensures State() == old(State()).(userSymbol := symbol, aiSymbol := OtherSymbol(symbol), currentPlayer := Human)
    {
      userSymbol := symbol;
      aiSymbol := OtherSymbol(symbol);
      currentPlayer := Human;
    }

    /** `checkWin`: looks for a line of the current player's marker. */
    method CheckWin() returns (won: bool)
      requires Valid()
      ensures won == HasWon(State())
    {
      won := CheckWinForSymbol(gameState, if currentPlayer == Human then userSymbol else aiSymbol);
    }

    /** `resetGame`: a new, empty board array and the human to move. */
    method ResetGame()
      requires Valid()
      modifies this
      ensures Valid() && fresh(gameState)
      ensures State() == AfterReset(old(State()))
    {
      gameState := new string[9](_ => Empty);
      currentPlayer := Human;
      assert gameState[..] == EmptyBoard;
    }

    /** `updateScore`: increments the winner's counter only. */
    method UpdateScore(winner: Player)
      requires Valid()
      modifies this
      ensures Valid() && gameState == old(gameState)
      ensures State() == WithWin(old(State()), winner)
    {
      if winner == Human {
        humanScore := humanScore + 1;
      } else if winner == Engine {
        engineScore := engineScore + 1;
      }
    }

    /** `updateTieCount`: increments the tie counter. */
    method UpdateTieCount()
      requires Valid()
      modifies this
      ensures Valid() && gameState == old(gameState)
      ensures State() == WithTie(old(State()))
    {
      tieScore := tieScore + 1;
    }

    /** The reset-data button, once confirmed: all three counters back to
        zero; the board and turn are left alone. */
    method ResetData()
      requires Valid()
      modifies this
      ensures Valid() && gameState == old(gameState)
      ensures State() == old(State()).(humanScore := 0, engineScore := 0, tieScore := 0)
    {
      humanScore := 0;
      engineScore := 0;
      tieScore := 0;
    }

    /** `aiMove`: asks the search for a cell and plays it. */
    method AiMove()
      requires Valid()
      modifies this, gameState
      ensures Valid()
      ensures State() == AfterAiMove(old(State()))
    {
      var aiMoveIndex := GetBestMove(gameState, userSymbol, aiSymbol);
      if aiMoveIndex.Some? {
        gameState[aiMoveIndex.value] := aiSymbol;
        var won := CheckWin();
        if won {
          UpdateScore(Engine);
          ResetGame();
        } else if IsFull(gameState[..]) {
          UpdateTieCount();
          ResetGame();
        } else {
          currentPlayer := Human;
        }
      }
    }

    /** A click on cell `cellIndex`. */
    method HumanMove(cellIndex: Index)
      requires Valid()
      modifies this, gameState
      ensures Valid()
      ensures State() == AfterHumanMove(old(State()), cellIndex)
    {
      if gameState[cellIndex] == Empty && currentPlayer == Human {
        gameState[cellIndex] := userSymbol;
        var won := CheckWin();
        if won {
          UpdateScore(Human);
          ResetGame();
        } else if IsFull(gameState[..]) {
          UpdateTieCount();
          ResetGame();
        } else {
          currentPlayer := Engine;
          AiMove();
        }
      }
    }
  }
}
