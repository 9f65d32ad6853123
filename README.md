# Tic-tac-toe engine: a verified model

This project models the game engine of the browser tic-tac-toe in `script.js`:

- the 3x3 board, the eight winning lines and win/draw detection;
- the minimax opponent and its move choice;
- the turn and outcome state machine;
- the statistics counters;
- the achievement evaluator;
- the replay recorder and its cursor;
- the rules of the three twist modes: sudden death, blind play and the daily challenge.

The modules follow the program's parts:

- `Board` (board.dfy) holds the board, marks, lines, `getWinner`, `getEmptyCells` and the outcome decision.
- `AI` (ai.dfy) holds `minimax`, `getOptimalAIMove` and the move policy of `handleAITurn`.
- `Stats` (stats.dfy) holds `gameStats` and the counter updates of `checkResult`, `initializeGame` and `handleSuddenDeathTimeout`.
- `Achievements` (achievements.dfy) holds the achievement list and the `updateAchievements` / `unlockAchievement` rules.
- `Replay` (replay.dfy) holds the replay snapshot and the cursor functions.
- `Modes` (modes.dfy) holds the daily-challenge boards and date rule, the blind-play schedule and cell pick, and the sudden-death expiry test.
- `Game` (game.dfy) is a class holding the page's global state: the board as an `array`, the flags, the timers as booleans, the history, the statistics and the achievements. Its methods are the handlers that change that state.
- `Wrappers`, `Chance` (common.dfy) and `Settings` (settings.dfy) are small shared definitions.

Inputs the page takes from the environment become parameters:

- `Date.now()` is an integer timestamp `now` in milliseconds.
- Every `Math.random()` is an explicit real draw `u` with `0 <= u < 1`. `Math.floor(u * n)` is `Chance.RandomIndex`.
- Today's ISO date is a string `today`.
- The theme test of the `themesUnlocked` rule reads browser storage and the page. It is the boolean `themesSeen`.
- An installed interval (`suddenDeathInterval`, `blindCellsInterval`, `replayInterval`) is a boolean field. One firing of an interval is a method (`SuddenDeathTick`, `BlindTick`, `ReplayTick`) that the environment calls.

Two choices of representation:

- `isNewDailyChallenge` (script.js:901-904) is never called. `initializeGame` uses its own test (script.js:376), which also draws a new board when the stored date is empty. `Modes.NeedsNewDaily` models the test that is called. `Modes.NeedsNewDailyExactly` shows that the two tests differ only for an empty stored date.
- The fastest sudden-death win is stored in seconds in the source. The model keeps it in milliseconds as `Option<int>`, with `None` for `Infinity`. This preserves the "strictly smaller" comparison.

Where the code departs from its evident intent, both versions are modelled (see "## Findings"). The class `Game` takes the corrected side in two places:

- `Game.Game.ReplayTick` uses the corrected `Replay.Tick`.
- The achievements it unlocks come from `Achievements.EarnedInOrder`, whose `WinEarned` uses the corrected `breakingFlow` and `luckyStrike` rules.

Everywhere else the class follows the code as written. A `Game` object is one page session, so no reload happens inside it. What a reload does to the daily rule is modelled in `Modes` alone, in both versions.

## Model

| member | source | states |
|---|---|---|
| Board.WinnerFrom | script.js:709-717 | The scan of `getWinner` from line `i`. It returns none exactly when no line from `i` on has three equal non-empty cells. Otherwise it returns the first such line in `WINNING_COMBOS` order, with that line's cells and its (non-empty) owner. |
| Board.ResultOf | script.js:506-568 | The decision of `checkResult`. It is a player win iff the winner is X and an AI win iff the winner is O. It is a draw iff the board is full and no line is won, and ongoing iff no line is won and an empty cell remains. So a full board with a line is a win. |
| Board.TopRowScenario | script.js:5-9 | Example: X completing the top row is the winner, with cells (0,1,2). |
| Board.GetEmptyCells | script.js:665-673 | The push loop of `getEmptyCells` returns exactly the empty-cell list `EmptyCells` of the array's contents. |
| Board.CellsFromExact | script.js:665-673 | An index is in the empty (or occupied) cell list iff that cell is empty (or occupied). |
| Board.CellsFromSorted | script.js:665-673 | The cell lists are strictly increasing, so they have no repeats. |
| Board.CellsFromSplit | script.js:866-867 | Every cell is in exactly one of the empty list and the occupied list, so their lengths add up to 9. |
| Board.EmptyCellsNonEmpty | script.js:665-673 | The empty-cell list is empty iff the board is full (`!board.includes('')`). |
| Board.PlaceDecreasesEmpty | script.js:480-481 | Writing a mark on an empty cell removes exactly one empty cell. |
| Chance.RandomIndex | script.js:877 | `Math.floor(Math.random() * n)` with a draw in [0,1) is an index below `n`. |
| Chance.EveryIndexReachable | script.js:877 | Every index below `n` is the image of some draw. |
| AI.Score | script.js:675-707 | The value of `minimax` is always 10, -10 or 0. |
| AI.WinBeforeDraw | script.js:676-685 | A full board that holds a line scores as that line's win (10 for O, -10 for X), never as a draw. |
| AI.BestChildBounds | script.js:688-706 | Every child score is at most (when maximizing) or at least (when minimizing) the folded best score. |
| AI.Minimax | script.js:675-707 | The recursive in-place search returns `Score` of the input board. Every placed mark is cleared again, so the array is unchanged on exit. |
| AI.TryCell | script.js:691-694 | One loop body of `minimax`: it returns the score of the child with the mover's mark on the cell and restores the array. |
| AI.OrderedEmptyCells | script.js:758-759 | The filtered preference order `[4,0,2,6,8,1,3,5,7]` holds exactly the empty cells, in that order. |
| AI.FilterEmpty | script.js:759 | `order.filter(idx => board[idx] === '')` keeps exactly the listed cells that are empty, in their order in the list (a subsequence). |
| AI.BestMovesExact | script.js:752-775 | `bestMoves` is exactly the set of empty cells whose child score equals `bestScore`. `bestScore` bounds every empty cell's child score, and `bestMoves` is never empty. |
| AI.ScanRestart | script.js:766-768 | A candidate scoring above the running best (or the first candidate) restarts the list with that cell alone. The loop state is still "maximum of the scanned prefix, with all cells attaining it". |
| AI.ScanKeep | script.js:769-771 | A candidate scoring at most the running best keeps the maximum. It joins the list iff it ties. |
| AI.ScannedAll | script.js:761-772 | After the whole candidate list the kept list is `BestMoves`. |
| AI.ScoreCandidate | script.js:762-764 | One candidate: O goes on the cell, `minimax` runs on a copy with X to reply, and the cell is cleared. It returns the cell's child score and leaves the board unchanged. |
| AI.ScanCandidates | script.js:761-772 | The candidate loop leaves the board unchanged. It ends holding the maximum score and every candidate attaining it. |
| AI.ScanOne | script.js:761-772 | One pass of the candidate loop keeps the loop state "maximum of the prefix with all its ties" and leaves the board unchanged. |
| AI.GetOptimalAIMove | script.js:752-775 | On a board with an empty cell it returns an empty cell that the tie draw picks from `BestMoves`. Its child score is the maximum over all empty cells. The board is unchanged. |
| AI.AIMove | script.js:720-750 | The move `handleAITurn` plays is always an empty cell. Outside Zen, or when the Zen coin draw is 0.3 or more, it is one of the best moves. |
| Stats.DifficultyWins.Bump | script.js:521 | `playerWinsByDifficulty[d]++` raises that entry by one and leaves the others. |
| Stats.ModeWins.Bump | script.js:522 | `playerWinsByMode[m]++` raises that entry by one and leaves the others. |
| Stats.DefaultStats | script.js:52-63 | The initial counters satisfy the statistics invariant `Consistent`. |
| Stats.StartGame | script.js:332-334 | `totalGames` goes up by one iff a new game is asked for, and nothing else changes. `Consistent` is preserved. |
| Stats.ApplyOutcome | script.js:509-565 | An X win raises `playerWins` and the win streak, raises exactly the game's entry in each win table (`Bump`), and zeroes the loss streak. An O win raises `aiWins` and the loss streak, and zeroes the win streak. A draw raises `draws` and zeroes both streaks. Untouched counters stay the same, and `Consistent` is preserved. |
| Stats.RecordFastestWin | script.js:527-533 | The record becomes the new duration iff that is strictly smaller than the old record (or there is none). The record never grows, and nothing else changes. |
| Stats.FinishGame | script.js:509-533 | All of `checkResult`'s counter updates: the outcome update. On a sudden-death win the record becomes the duration iff there is none or the duration is strictly smaller. On any other result the record is unchanged. `Consistent` is preserved. |
| Stats.RecordTimeout | script.js:810-826 | A timeout on X's turn is an AI win and a timeout on O's turn is a player win. Draws, totals, both win tables, the record and the daily date are untouched, and `Consistent` is preserved. |
| Stats.HumanTimeoutIsAIWin | script.js:816-819 | A human timeout changes the counters exactly as an AI win through `checkResult` would. |
| Stats.AITimeoutSkipsTables | script.js:821-824 | An AI timeout counts as a player win except that the per-difficulty and per-mode tables are not raised. |
| Achievements.Catalog | script.js:66-91 | The fresh achievement list has an entry for every id and none unlocked. |
| Achievements.IndexIn | script.js:66-90 | Each id sits at its position in `ACHIEVEMENTS_DATA`. |
| Achievements.Unlock | script.js:974-987 | `unlockAchievement` keeps the ids and length of the list, never locks an entry, and changes no entry with another id. |
| Achievements.UnlockAdds | script.js:978-987 | Unlocking adds exactly that id to the unlocked set when it has an entry, and nothing otherwise. |
| Achievements.UnlockIdempotent | script.js:980 | A second unlock of the same id is a no-op. |
| Achievements.UnlockEachAdds | script.js:909-967 | A run of unlocks adds exactly the listed ids to the unlocked set. |
| Achievements.LockAll | script.js:1058 | `resetStats` locks every entry and changes nothing else, so no id remains unlocked. |
| Achievements.NeverGiveUpRule | script.js:914 | The two-part `neverGiveUp` condition is equivalent to `totalGames >= 10 && playerWins == 0` (the second disjunct is redundant). |
| Achievements.EarnedExactly | script.js:909-967 | `updateAchievements` unlocks an id exactly when that id's own rule (`Rule`) holds, for all 17 ids. |
| Achievements.EarnedSound | script.js:909-967 | Every id the evaluator unlocks satisfies its rule. |
| Achievements.EarnedComplete | script.js:909-967 | Every id whose rule holds is unlocked. |
| Achievements.GeneralMembers | script.js:911-916 | The general rules unlock exactly `firstWin` (a win), `drawSpecialist` (3 draws), `unstoppableForce` (a streak of 3) and `neverGiveUp`. |
| Achievements.DespairMembers | script.js:919-923 | A `masterOfDespair` tier is unlocked iff the Strategist count or the Punisher count reaches its threshold (1, 5, 10, 25). |
| Achievements.ModeMembers | script.js:926-930 | A mode achievement is unlocked iff that mode's win count reaches its threshold. |
| Achievements.WinMembers | script.js:933-954 | `perfectGame`, `breakingFlow` (corrected), `luckyStrike` (corrected) and `tacticalGenius` are unlocked exactly on their win conditions. |
| Achievements.DespairNotSummed | script.js:920 | The tiers test each count on its own: with fewer than 5 Strategist wins and fewer than 5 Punisher wins the 5-win tier stays locked, whatever their sum. |
| Achievements.OutcomeRulesNeedWin | script.js:933-954 | No event other than a win unlocks `perfectGame`, `breakingFlow`, `luckyStrike` or `tacticalGenius`. |
| Achievements.BreakingFlowUnreachableAsWritten | script.js:518-520 | As written, `breakingFlow` never holds on a win that `checkResult` has just recorded. The corrected rule fires on that win iff the loss streak before it was two or more. |
| Achievements.LuckyStrikeAlwaysAsWritten | script.js:943-948 | As written, `luckyStrike` holds on every sudden-death win measured 0 ms after the clock reset (`Game.Game.MakeMove` shows that the clock reads `now` at the check). The corrected rule holds iff at most 1.5 s were left, so a win made 2 s into the turn does not unlock it. |
| Replay.Settle | script.js:1108-1123 | `updateReplayControls` keeps the step. The playback stays installed iff it was installed and the step is before the last snapshot. |
| Replay.Next | script.js:1151-1157 | `nextReplayStep` moves forward one step iff a later snapshot exists, and keeps the cursor in range. |
| Replay.Prev | script.js:1159-1165 | `prevReplayStep` moves back one step iff the step is above 0, and keeps the cursor in range. |
| Replay.Play | script.js:1125-1135 | Pressing play pauses a running playback. Otherwise it starts one, from the first snapshot when at the end, and keeps the cursor in range. |
| Replay.TickAsWritten | script.js:1137-1148 | The interval as written always increments the step. It stays installed iff the new step is before the last snapshot. |
| Replay.Tick | script.js:1137-1148 | The intended tick advances iff a later snapshot exists, keeps the cursor in range, and stops at the last snapshot. |
| Replay.TickOverrunsSingleSnapshot | script.js:1137-1148 | Replaying a one-snapshot history with the written tick puts the cursor past the end. |
| Replay.TicksAgree | script.js:1137-1148 | Whenever a later snapshot exists, the intended and the written tick agree. |
| Replay.PlayLeavesRoom | script.js:1131-1133 | With two or more snapshots, every playback that play starts has a later snapshot, so the written tick only overruns single-snapshot histories. |
| Replay.PlaybackEnds | script.js:1137-1148 | A playback started at any snapshot reaches the last snapshot after exactly the remaining number of ticks, and stops there. |
| Replay.StepRoundTrip | script.js:1151-1165 | Next then previous returns to the same step, and so does previous then next. |
| Modes.DailyBoardsPlayable | script.js:20-34 | Every challenge board is undecided, has an empty cell, and holds both an X and an O. |
| Modes.NeedsNewDailyExactly | script.js:376-384 | The stored board is kept exactly when the stored date is today's and is not empty. |
| Modes.DailyIndex | script.js:378 | The drawn index is a valid index of the six challenge boards. |
| Modes.EveryDailyBoardReachable | script.js:378 | Every challenge board can be drawn. |
| Modes.DailyNext | script.js:376-385 | The daily rule: when the date test asks for a new board, the index is the drawn one and the stored date is today's. Otherwise date and index stay as they were. |
| Modes.ReloadAsWritten | script.js:49 | A reload as written: the stored date survives with the saved statistics (script.js:245-249), and the index restarts at 0. |
| Modes.Reload | script.js:376-385 | A reload that keeps the index with the date leaves the daily state as it was. |
| Modes.SameDayBoardLostAsWritten | script.js:376-385 | As written, a first game with draw 0.5 gets board 3. After a reload the same day, the next game gets board 0. |
| Modes.SameDayBoardKept | script.js:376-385 | With the index kept, every later game on the same non-empty date gets the first game's board, whatever the later draw. |
| Modes.ToggleAlternates | script.js:842 | From turn 3 on, blinding and unblinding alternate. |
| Modes.BlindPool | script.js:866-870 | A cell is in the pool iff it is occupied (when more than three cells are occupied) or empty (otherwise). The pool is strictly increasing, so its entries are distinct. |
| Modes.BlindPoolSize | script.js:870-875 | On a 9-cell board the pool always has at least four cells, so two cells are blinded and the empty-pool return is never taken. |
| Modes.NumToBlind | script.js:875 | `min(2, floor(n/2))`: at most 2 and at most half the pool, and the largest such value. |
| Modes.PickBlindCells | script.js:874-885 | The retry loop returns exactly `NumToBlind(|pool|)` distinct cells, all from the pool. |
| Modes.TurnExpiredExactly | script.js:787-794 | The test `10 - elapsed/1000 <= 0` holds exactly when 10 000 ms have passed. |
| Game.HistoryCountsPlies | script.js:1088-1094 | In a move-by-move history, the snapshot count is the number of marks placed since the first snapshot plus one. |
| Game.MoveByMoveAppend | script.js:1088-1094 | Appending a snapshot that adds one mark keeps the history move-by-move. |
| Game.EmptyBoardOpen | script.js:336 | The cleared board is undecided, has empty cells and holds no O. |
| Game.Game.constructor | script.js:37-63 | The initial page state: an empty inactive board, X to move, no history, default counters, and the full locked catalog. A flawless win is possible, the replay cursor is at step 0 and not playing, the turn clock reads 0 and the challenge index is 0. No interval is installed, the blind turn count is 0, and no cell is blind or hidden. The invariant holds. |
| Game.Game.RecordMove | script.js:1088-1094 | Appends exactly one snapshot: the board, the current player and the time. |
| Game.Game.PlaceMark | script.js:480-497 | Writes only `board[index]`. The flawless flag is cleared iff O moved. The turn clock restarts iff in sudden death. |
| Game.Game.ChangePlayer | script.js:499-504 | Toggles the player between X and O. |
| Game.Game.StopSuddenDeathTimer | script.js:803-808 | The sudden-death interval is no longer installed. |
| Game.Game.StopBlindCellsTimer | script.js:853-863 | The blind interval is cleared, every cell unblinded, and the blind list emptied. |
| Game.Game.UnlockAchievement | script.js:978-987 | The achievement list becomes `Unlock` of the old one. |
| Game.Game.UpdateAchievements | script.js:909-972 | The list becomes the old list with every earned id unlocked, in source order. |
| Game.Game.RecordOutcome | script.js:509-565 | Counts the result (`FinishGame`, the game's duration measured from the first snapshot), then evaluates the achievements on the updated counters, with the loss streak from before the update. |
| Game.Game.CountResult | script.js:509-558 | The counters become `FinishGame` of the old counters. |
| Game.Game.EndGame | script.js:510-554 | The game is over and both twist timers are stopped. |
| Game.Game.ConcludeGame | script.js:509-565 | `Concluded` from the old counters and list: the game is over, both timers are stopped and nothing is hidden. The counters become `FinishGame` of the old ones, the game's duration measured from the first snapshot. The list becomes the old list with every id unlocked that `EarnedInOrder` gives on the final board, the new counters, and the loss streak from before. |
| Game.Game.CheckResult | script.js:506-568 | The outcome is `ResultOf` the board, and the board is unchanged. An undecided board only passes the turn, with counters, achievements and timers unchanged. A decided board keeps the turn and leaves the state `Concluded` describes, and the invariant (an active game is undecided) holds again. |
| Game.Game.MakeMove | script.js:436-437 | Placement then `recordMove`: only the cell changes, and one snapshot is appended. The history stays move-by-move and the flawless flag matches "no O on the board". In sudden death the clock now reads `now`, so the as-written `luckyStrike` test holds for every sudden-death win context. |
| Game.Game.HandleCellClick | script.js:426-446 | A click on an occupied cell, after the game or on O's turn changes nothing. Otherwise X is placed and recorded, the sudden-death clock restarts at `now` (in that mode only), and the board is judged. The AI moves next iff the game is still undecided. Then counters, achievements and timers are unchanged. Otherwise X's turn is kept and the game is `Concluded`: over, both timers stopped, the counters `FinishGame` of the old ones and the achievements are `UnlockEach` of the old list with `EarnedInOrder` of the final board, the event of the result, the loss streak from before the move and the turn's elapsed time. |
| Game.Game.PlayClick | script.js:435-445 | Past the guard: X is placed and recorded, the sudden-death clock restarts at `now` (in that mode only), and the AI moves next iff the board is undecided. An undecided board leaves counters, achievements and timers unchanged. A decided one stops both timers and makes the counters `FinishGame` of the old ones and the achievements are `UnlockEach` of the old list with `EarnedInOrder` of the final board, the event of the result, the loss streak from before the move and the turn's elapsed time. |
| Game.Game.PlayMove | script.js:436-438 | Place, record and judge. An ongoing game passes the turn with counters, achievements, timers and hidden cells unchanged. A decided one keeps the mover and is `Concluded`: over, both timers stopped, the counters `FinishGame` of the old ones and the achievements are `UnlockEach` of the old list with `EarnedInOrder` of the final board, the event of the result, the loss streak from before the move and the turn's elapsed time. The sudden-death clock is reset to `now`. |
| Game.Game.ChooseAIMove | script.js:723-741 | The chosen move is `AIMove` of the board: an empty cell. The board is left as it was. |
| Game.Game.HandleAITurn | script.js:720-750 | Nothing changes unless the game is active and it is O's turn. Otherwise O plays `AIMove`, one snapshot is appended, and the sudden-death clock restarts at `now` (in that mode only). An undecided board passes the turn to X with counters, achievements and timers unchanged. A decided one stops both timers and makes the counters `FinishGame` of the old ones and the achievements are `UnlockEach` of the old list with `EarnedInOrder` of the final board, the event of the result, the loss streak from before the move and the turn's elapsed time. |
| Game.Game.PlayAITurn | script.js:723-749 | Past the guard: O plays `AIMove`, the move is recorded, and the sudden-death clock restarts at `now` (in that mode only). The judged board has the same two cases as in `HandleAITurn`. |
| Game.Game.StartSuddenDeathTimer | script.js:780-783 | The turn clock restarts at `now` and the interval is installed. |
| Game.Game.HandleSuddenDeathTimeout | script.js:810-831 | The clock stops and the game ends. The counters become `RecordTimeout` for the player to move, and the achievements are evaluated with the timeout event. |
| Game.Game.EndByTimeout | script.js:811-813 | The clock is stopped and the game is inactive. |
| Game.Game.RecordTimedOut | script.js:815-829 | The forfeit is counted, then the achievements are evaluated with the timeout event. |
| Game.Game.SuddenDeathTick | script.js:786-796 | The turn times out iff 10 000 ms have passed. Then the game ends with the forfeit counted by `RecordTimeout` and the achievements evaluated with the timeout event; otherwise nothing changes. |
| Game.Game.StartBlindCellsTimer | script.js:834-837 | A fresh blind interval with turn count 0 and nothing blinded. |
| Game.Game.ToggleBlindCells | script.js:865-898 | Exactly two distinct cells from the pool become the blind cells, and exactly those are hidden. |
| Game.Game.BlindTick | script.js:837-850 | Ignored once the game is over. Otherwise the turn count goes up by one. On a toggle turn two distinct cells of `BlindPool` are blinded, and on any other turn every cell is unblinded. |
| Game.Game.ResetStats | script.js:1043-1066 | The counters return to their defaults, and every achievement is locked with the ids kept. |
| Game.Game.HandleGameEnd | script.js:570-577 | The replay cursor opens at the first snapshot, in range. |
| Game.Game.NextReplayStep | script.js:1151-1157 | The cursor becomes `Next` of the old cursor. |
| Game.Game.PrevReplayStep | script.js:1159-1165 | The cursor becomes `Prev` of the old cursor. |
| Game.Game.PlayReplay | script.js:1125-1149 | The cursor becomes `Play` of the old cursor. |
| Game.Game.ReplayTick | script.js:1137-1148 | The cursor becomes the intended `Tick` of the old cursor. |
| Game.Game.StartRound | script.js:331-340 | `totalGames` rises iff a new game is asked for. A fresh empty board, the game active, flawless possible, no history, and the clock at `now`. |
| Game.Game.SetUpTimers | script.js:355-370 | The sudden-death interval is installed iff in sudden death, and the blind interval iff in blind play. Nothing is blinded. |
| Game.Game.SetUpDailyChallenge | script.js:373-399 | The stored date and the index move as `Modes.DailyNext` says: a new index is drawn and today's date stored iff the date test asks for a new board. The challenge board is copied in, and a flawless win is ruled out. |
| Game.Game.SetUpMode | script.js:355-399 | The timer set-up, plus the daily-challenge set-up in that mode only. |
| Game.Game.BeginPlay | script.js:404-415 | The first mover is X iff the draw is below 0.5, and the initial snapshot is recorded. |
| Game.Game.InitializeGame | script.js:331-416 | A new active game on the empty board (or today's challenge board). The count rises iff a new game is asked for. The mode's timers are installed and the others stopped. Outside daily-challenge mode the challenge index is unchanged. The first mover is drawn and the single initial snapshot recorded, after which the invariant holds. |

## Left out

- Rendering, modals, notifications, keyboard navigation, the winning-line animation (`highlightWinningCells`), audio and the countdown display: presentation and I/O only.
- `loadGameData`, `saveGameData` and `applyTheme`: browser storage and JSON plumbing. The `Game` object stands for one page session; what survives a reload is modelled only for the daily rule, by `Modes.ReloadAsWritten`. The source saves the settings, the statistics and the achievement list, but not `dailyChallengeIndex` (script.js:49, 245-249).
- The theme test of `themesUnlocked` (script.js:959-967) reads browser storage and the page. It is the boolean parameter `themesSeen`.
- Scheduling by `setTimeout` and `setInterval` is not modelled; only the decision each firing takes is. This covers the AI's reply after a click, `handleGameEnd` after a result, and the AI's first move (script.js:412-414), which is scheduled before the initial `recordMove` and runs after it. The interleaving of firings is the environment's choice.
- Changing settings, the settings and statistics modals, and `autoPlayNextRound` (script.js:579-585) are not modelled. Difficulty and mode are fixed per game object.
- There is no proof that optimal play never loses from the empty board. It would need an exhaustive search over the game tree, which is too costly to prove here.
- The display of `fastestSuddenDeathWinTime` as seconds (`toFixed`) and the win-rate percentages are floating-point presentation. The record itself is kept in milliseconds.
- Modes.PickBlindCells: the source redraws until it finds a fresh cell. The model takes a finite sequence of draws, and if that sequence runs out mid-redraw any fresh pool cell stands in for the draw that would have found it.
- Game.Game.HandleAITurn: the early return for a board with no empty cell (script.js:724) and the missing-cell test (script.js:744) are never taken in an active game, so they are not modelled as separate branches.
- Game.Game.ToggleBlindCells: the early return for an empty pool (script.js:872) is never taken (`Modes.BlindPoolSize`).
- Game.Game.InitializeGame: requires only the statistics part of the invariant. A replay cursor left over from the previous game is not reset, and the cursor's range is not a class invariant.
- AI.ScoreCandidate: `minimax` runs on a fresh copy (`[...board]`) as in the source, and the candidate loop restores the board's cell itself.
- Game.Game.ReplayTick: uses the corrected tick (see Findings). The written tick is `Replay.TickAsWritten`.
- Achievements.WinEarned: `breakingFlow` and `luckyStrike` are the corrected rules (see Findings). The written rules are `BreakingFlowAsWritten` and `LuckyStrikeAsWritten`.

## Findings

| source | as written | input that shows it | evidently intended | confidence | as-written member | corrected member |
|---|---|---|---|---|---|---|
| script.js:1137-1148 | The playback interval increments `replayCurrentStep` before any bound test, then clears itself once the step is at or past the last snapshot | A sudden-death game whose first mover times out before moving leaves a one-snapshot history. Pressing play restarts at step 0, and the first tick moves the cursor to step 1, past the end | Advance only while a later snapshot exists, and stop at the last one | not executed | Replay.TickAsWritten, Replay.TickOverrunsSingleSnapshot | Replay.Tick, Replay.PlaybackEnds |
| script.js:938-940 | `breakingFlow` tests `consecutivePlayerLosses >= 2` after the win has set it to 0 (script.js:520) | Any player win after two or more straight losses | Unlock on a win that ends a losing streak of two or more: the streak as it stood before the win | not executed | Achievements.BreakingFlowAsWritten, Achievements.BreakingFlowUnreachableAsWritten | Achievements.WinMembers, Achievements.EarnedExactly |
| script.js:943-948 | `luckyStrike` tests the time since `currentTurnStartTime` is at most 1.5 s, but the winning move's `placeMark` has just reset that clock (script.js:494) | A sudden-death win made 2 s into the turn, with 8 s left | Unlock when at most 1.5 s were left on the clock when the winning move was made | not executed | Achievements.LuckyStrikeAsWritten, Achievements.LuckyStrikeAlwaysAsWritten, Game.Game.MakeMove | Achievements.WinMembers, Achievements.EarnedExactly |
| script.js:376-385 (also 49, 245-249) | The daily index is a page global that `saveGameData` does not save, while the stored date is saved with the statistics | A first daily game draws board 3; the page is reloaded the same day; the date test finds today's date, keeps the index, and the next game shows board 0 | The same board for the whole day | not executed | Modes.ReloadAsWritten, Modes.SameDayBoardLostAsWritten | Modes.Reload, Modes.SameDayBoardKept |
