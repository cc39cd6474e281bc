# Tic-tac-toe minimax opponent, modelled and verified in Dafny

This project models the opponent engine of a browser tic-tac-toe game
(`index.js`): the win detector, minimax search with alpha-beta pruning, the
top-level move chooser, and the page's turn and score state with the DOM,
dialogs and storage removed.

- `board.dfy`, module `Board`: cells are strings (`""`, or a player's
  marker), a board is nine of them in row-major order, and
  `WinningCombinations` is the table of eight index triples. `HasLine` says a
  triple is filled with a marker. `CheckWinForSymbol` is the source's scan
  over that table, with its early return.
- `search.dfy`, module `Search`: `MinimaxValue` is the unpruned minimax
  value of a board. A human line gives -1 and is checked first, an engine
  line +1, a full board 0. Otherwise it folds the children in index order,
  from the same ±Infinity sentinel as the source. The method `Minimax` is the
  source's alpha-beta search. It writes each tentative move into the shared
  `array<string>`, recurses, and clears it again. It is proved to restore the
  array and to be fail-soft against `MinimaxValue`: exact inside
  (alpha, beta), an upper bound at or below alpha, a lower bound at or above
  beta. `GetBestMove` is proved to return exactly `BestMove`. `BestMove` is
  the unpruned top-level scan, which keeps a cell only on a strictly greater
  score.
- `strategy.dfy`, module `Strategy`: what the chosen move means. It is none
  exactly on a full board. Otherwise it is the first empty cell of greatest
  value, and that value is the position's minimax value. The module also
  proves what this implies for immediate wins and for the human's threats.
- `game.dfy`, module `Game`: the class `TicTacToe` holds `gameState` (an
  array that `resetGame` replaces with a fresh one), the two markers,
  `currentPlayer` and the three counters. Each method is tied to a
  transition function on a `Snapshot` value. Lemmas show three things.
  Between clicks the game stays playable: the human is to move, nobody has a
  line, a cell is free, and both sides have placed equally many markers. The
  counters grow by one point exactly when a game ends. A point goes only to
  a side whose move completed a line.

Structure that differs from the source's text but not its behaviour:

- The two branches of `minimax` are the methods `MaximizingBranch` and
  `MinimizingBranch`.
- The place / search / undo step that all three loops share is the method
  `TryMove`.
- `minimax` reads the global `gameState` through `checkWinForSymbol`. Its
  `board` argument is always that same array, so the model passes one array
  to both.
- The global `userSymbol` and `aiSymbol` are parameters of the search. The
  search accepts any two distinct, non-empty markers. The page only ever
  uses "X" and "O" (index.js:40).
- -Infinity and Infinity are the integers -2 and 2. Every real score is -1, 0 or 1.

What the code does not do, and what is proved instead:

- `checkWinForSymbol("")` is true whenever some line is still empty, because
  the comparisons at index.js:185-187 accept `""` like any marker. `HasLine`
  keeps this behaviour, and the engine never asks about `""`.
- Scores ignore `depth`, so an immediate win and a forced win later in the
  game are both worth +1. With the strict `>` at index.js:137 the engine
  takes whichever comes first in cell order, which need not be the
  immediate win. `ForkOutranksImmediateWin` proves this on a concrete
  position. The engine could win at once on cell 8, but it plays a fork on
  cell 1. What holds in general (`ImmediateWinIsWinningChoice`) is that
  the chosen cell is worth +1.
- The engine does not always block a human threat.
  `UnblockedThreatMeansLoss` proves that it leaves a threat open only when
  its own move wins at once or every move loses.
- The top-level `break` at index.js:142 never fires, because `beta` stays at
  Infinity. Alpha only narrows the children's windows, and `TopLevelStep`
  shows that this never changes the choice.

## Model

| member | source | states |
|---|---|---|
| Board.CheckWinForSymbol | index.js:182-192 | returns true exactly when all three cells of some winning combination equal the symbol |
| Board.WinningLinesAreRowsColumnsDiagonals | index.js:5-10 | a line from the table exists exactly when some row, column or diagonal of the 3x3 grid is filled with the marker |
| Board.EmptyBoardHasNoLine | index.js:4 | the starting board holds no line for any non-empty marker |
| Board.NoLineFromOtherMark | index.js:182-192 | writing one marker into a cell never creates a line for a different marker |
| Board.LineSurvivesOtherCell | index.js:182-192 | writing into a cell that does not hold a marker keeps every line of that marker, so the marker still has a line |
| Board.PlaceCounts | index.js:157 | filling an empty cell uses up one free cell and adds one of that marker, so the search terminates |
| Search.MinimaxValue | index.js:148-180 | the unpruned value of any board is -1, 0 or 1 |
| Search.Child | index.js:156-158 | the board after a tentative move has nine cells and one free cell fewer |
| Search.ChildValue | index.js:158 | the value of a tentative move is -1, 0 or 1 |
| Search.ScanChildren | index.js:153-179 | the loop's running best stays at the ±Infinity sentinel until the first empty cell and lies in -1..1 from then on |
| Search.ScanChildrenBeats | index.js:160 | no child visited so far beats the running best for the side to move |
| Search.ScanChildrenUnbeaten | index.js:155-164 | no child beats the fold over all children |
| Search.ScanChildrenAttained | index.js:160 | when there is an empty cell, the fold equals the value of one of the children |
| Search.MinimaxValueIsOptimal | index.js:153-179 | a position that is not over is worth the engine's best child, or the human's best reply, and some child attains it |
| Search.MaximizingStep | index.js:156-162 | one engine iteration keeps the running best fail-soft against the unpruned fold, and a cut-off score is at most that child's true value |
| Search.MinimizingStep | index.js:169-175 | one human iteration keeps the running best fail-soft against the unpruned fold, and a cut-off score is at least that child's true value |
| Search.ScanCompleteIsValue | index.js:151-179 | once every cell is scanned, being fail-soft against the fold is being fail-soft against the position's value |
| Search.CutoffIsBound | index.js:160-175 | breaking out on a score no better than one child's true value gives a sound bound on the position's value |
| Search.Minimax | index.js:148-180 | user line gives -1 even if the engine also has one, engine line +1, full board 0; the result is in -1..1, fail-soft for the window, the array is restored, and depth has no effect |
| Search.TryMove | index.js:156-159 | placing a marker, searching and clearing the cell leaves the array as it was and returns a fail-soft score for that child |
| Search.MaximizingBranch | index.js:153-165 | the engine's loop with alpha updates and break returns a fail-soft score in -1..1 and restores the array |
| Search.MinimizingBranch | index.js:166-179 | the human's loop with beta updates and break returns a fail-soft score in -1..1 and restores the array |
| Search.BestFrom | index.js:131-144 | the top-level scan holds no cell exactly when no empty cell has been seen, and otherwise holds an empty cell together with that cell's value |
| Search.TopLevelStep | index.js:132-142 | with beta at Infinity and alpha at the best so far, a pruned score beats the best exactly when the true value does |
| Search.GetBestMove | index.js:125-146 | returns exactly the unpruned first-best cell, or none, and leaves the array as it was |
| Strategy.BestFromBeats | index.js:137-141 | no empty cell scanned so far beats the top-level best score |
| Strategy.BestFromUnbeaten | index.js:137-141 | every empty cell's value is at most the top-level best score |
| Strategy.BestFromStrictlyFirst | index.js:137-140 | every empty cell before the kept one scored strictly less, because the best changes only on a strictly greater score |
| Strategy.BestMoveIsFirstBest | index.js:125-146 | no move exactly when the board is full; otherwise an empty cell that no cell beats and every earlier empty cell is worse than |
| Strategy.FirstBestIsBestMove | index.js:125-146 | the first empty cell of greatest value is the move returned, so the tie-break determines the move |
| Strategy.BestMoveIsOptimal | index.js:125-146 | on a position that is not over, the chosen cell's value equals the position's minimax value for the engine |
| Strategy.ImmediateWinIsWinningChoice | index.js:125-146 | if the engine can complete a line now, the chosen cell is worth +1 |
| Strategy.EngineWinNowIsWin | index.js:148-165 | with the engine to move and no human line, a cell that completes the engine's line makes the position worth +1 |
| Strategy.ReplyLeavingWinIsWin | index.js:166-179 | a human reply after which the engine can complete a line at once is worth +1 to the engine |
| Strategy.AllRepliesLoseIsWin | index.js:166-179 | a position with the human to move is worth +1 to the engine when every reply is |
| Strategy.ForkOutranksImmediateWin | index.js:125-146 | on a concrete position where the engine could win at once on cell 8, it chooses cell 1, a fork that does not win at once, because both are worth +1 and cell 1 comes first |
| Strategy.UnblockedThreatMeansLoss | index.js:125-146 | if the engine does not block a human threat, its move wins at once or every move loses |
| Game.OtherSymbol | index.js:40 | the engine takes "O" when the human picks "X" and "X" when the human picks "O" |
| Game.TicTacToe.constructor | index.js:4-14 | the game starts with an empty board, the stored counters, the chosen markers and the human to move |
| Game.TicTacToe.SelectSymbol | index.js:38-41 | picking a marker sets both markers and gives the human the turn, and nothing else changes |
| Game.TicTacToe.CheckWin | index.js:194-196 | reports a line of the marker of the player whose turn it is |
| Game.TicTacToe.ResetGame | index.js:198-203 | installs a fresh array of nine empty cells and gives the human the turn |
| Game.TicTacToe.UpdateScore | index.js:211-221 | increments only the named winner's counter |
| Game.TicTacToe.UpdateTieCount | index.js:223-227 | increments only the tie counter |
| Game.TicTacToe.ResetData | index.js:78-80 | sets all three counters to zero and changes nothing else |
| Game.TicTacToe.AiMove | index.js:102-123 | plays the chosen cell; a win or tie is scored and the game reset, otherwise the human moves next; with no move nothing changes |
| Game.TicTacToe.HumanMove | index.js:53-70 | acts only on an empty cell on the human's turn; a win or tie is scored and the game reset, otherwise the engine replies |
| Game.ResetAwaitsHuman | index.js:198-203 | a reset game is playable: human to move, no lines, free cells, equal counts |
| Game.EngineReplyKeepsGameInPlay | index.js:102-123 | after a move that did not end the game, the engine's reply leaves the game playable or ends and resets it |
| Game.HumanMoveKeepsGameInPlay | index.js:53-70 | every click keeps the game playable |
| Game.HumanMoveScoresFinishedGames | index.js:53-123 | counters never decrease; one point in total is added exactly when the board is cleared, otherwise nothing changed or each side placed one marker |
| Game.PointsFollowLines | index.js:53-123 | a human point follows the human completing a line; an engine point follows the engine's chosen cell completing one; a tie point follows the human's move, or the engine's reply to it, filling the board without a line for the side that moved |

## Left out

- Rendering and events: every `document.*` call, `innerText`, `classList`, the listener registration and `showResetButton` (index.js:16-51, 75-100, 107, 200-208). These are presentation only, with one exception. After a game reset (index.js:206-208) or a data reset (index.js:92-93), the page hides the grid and shows the marker buttons, so it accepts no cell click until a marker is picked again. The model lets `HumanMove` follow `ResetGame` at once. No behaviour is lost: picking the same marker again with `SelectSymbol` leaves a reset state unchanged, and picking the other one is `SelectSymbol` with that marker.
- The `alert` and `confirm` dialogs. `ResetData` models the confirmed branch.
- Persistence: the `localStorage` reads and writes and `parseInt` of stored scores. The stored counters are constructor parameters, already read and defaulted to zero.
- The state before a marker is picked, when `userSymbol`, `aiSymbol` and `currentPlayer` are `null`. The constructor combines page load with the first pick.
- `cellIndex` is read from a `data-index` attribute string. It is modelled as an index 0..8.
- Floating-point `Infinity`, `Math.max` and `Math.min`. They are integer sentinels -2/+2 and integer max/min, which gives the same results because all scores are -1, 0 or 1.
- Search.Minimax: requires `NegInf <= alpha < beta <= PosInf`. Every call site passes such a window. The fail-soft property does not hold for an empty window.
- The number of positions the pruned search visits is not modelled. Only its result is.
- The engine's move on the empty board (index 0, by the tie-break) is not proved. The proof would have to evaluate the whole game tree.
- That the engine never loses is not proved, for the same reason.
