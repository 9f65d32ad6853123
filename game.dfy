/** The page's global game state and the handlers that change it, as one
    object: the board, the turn, the mode timers, the replay history, the
    statistics and the achievement list. */
module Game {
  import opened Wrappers
  import opened Chance
  import opened Board
  import opened Settings
  import opened AI
  import opened Stats
  import opened Achievements
  import opened Replay
  import opened Modes

  /** Board `after` is board `before` with one empty cell given to `p`. */
  predicate OneMove(before: Board, after: Board, p: Mark) {
    p != Empty && exists i :: 0 <= i < 9 && before[i] == Empty && after == before[i := p]
  }

  /** Each recorded snapshot after the first adds the mark of the player
      recorded with it. */
  predicate MoveByMove(h: seq<ReplayEntry>) {
    forall k :: 0 < k < |h| ==> OneMove(h[k - 1].board, h[k].board, h[k].player)
  }

  lemma MoveByMoveAppend(h: seq<ReplayEntry>, e: ReplayEntry)
    requires MoveByMove(h) && |h| > 0 && OneMove(h[|h| - 1].board, e.board, e.player)
    ensures MoveByMove(h + [e])
  {
    var h' := h + [e];
    forall k | 0 < k < |h'| ensures OneMove(h'[k - 1].board, h'[k].board, h'[k].player) {
      if k < |h| {
        assert h'[k - 1] == h[k - 1] && h'[k] == h[k];
      }
    }
  }

  /** Every snapshot after the first is one ply, so the history holds one
      more snapshot than the number of marks placed since the first. */
  lemma {:induction false} HistoryCountsPlies(h: seq<ReplayEntry>)
    requires |h| > 0 && MoveByMove(h)
    ensures Count(h[0].board, Empty) - Count(h[|h| - 1].board, Empty) == |h| - 1
  {
    if |h| > 1 {
      var h' := h[..|h| - 1];
      forall k | 0 < k < |h'| ensures OneMove(h'[k - 1].board, h'[k].board, h'[k].player) {
        assert h'[k - 1] == h[k - 1] && h'[k] == h[k];
      }
      HistoryCountsPlies(h');
      var before, after := h[|h| - 2], h[|h| - 1];
      assert OneMove(before.board, after.board, after.player);
      var i :| 0 <= i < 9 && before.board[i] == Empty && after.board == before.board[i := after.player];
      PlaceDecreasesEmpty(before.board, i, after.player);
    }
  }

  /** A placed mark other than `m` on an empty cell does not change whether
      `m` is on the board. */
  lemma PlacePreservesAbsence(b: seq<Mark>, i: int, v: Mark, m: Mark)
    requires 0 <= i < |b| && b[i] == Empty && v != m && m != Empty
    ensures m in b[i := v] <==> m in b
  {
    if m in b {
      var j :| 0 <= j < |b| && b[j] == m;
      assert b[i := v][j] == m;
    }
    if m in b[i := v] {
      var j :| 0 <= j < |b| && b[i := v][j] == m;
      assert b[j] == m;
    }
  }

  /** The event string `checkResult` passes for a decided board. */
  function EventOf(o: Outcome): GameEvent {
    if o == PlayerWin then Won else if o == AIWin then Lost else Drawn
  }

  lemma EmptyBoardOpen()
    ensures Winner(EmptyBoard).None? && !IsFull(EmptyBoard) && O !in EmptyBoard
  {
    var b := EmptyBoard;
    assert !LineWon(b, WinningCombos[0]) && !LineWon(b, WinningCombos[1]) && !LineWon(b, WinningCombos[2]);
    assert !LineWon(b, WinningCombos[3]) && !LineWon(b, WinningCombos[4]) && !LineWon(b, WinningCombos[5]);
    assert !LineWon(b, WinningCombos[6]) && !LineWon(b, WinningCombos[7]);
    assert b[0] == Empty;
  }

  class Game {
    var board: array<Mark>
    var currentPlayer: Mark
    var isGameActive: bool
    var difficulty: Difficulty
    var mode: Mode
    var flawlessVictoryPossible: bool
    var gameHistory: seq<ReplayEntry>
    /** `replayCurrentStep` and whether `replayInterval` is installed. */
    var replay: Cursor
    var currentTurnStartTime: int
    /** Whether `suddenDeathInterval` is installed. */
    var suddenDeathRunning: bool
    /** Whether `blindCellsInterval` is installed, and its `turnCount`. */
    var blindRunning: bool
    var blindTurnCount: nat
    var blindCells: seq<int>
    /** The cells currently carrying the `blind` class on the page. */
    var hiddenCells: set<int>
    var dailyChallengeIndex: nat
    var stats: GameStats
    var achievements: seq<Achievement>

    /** The board and its history: each snapshot after the first adds one
        mark, the last one is the board, and the flawless flag says that no O
        is on the board. */
    predicate BoardRecorded()
      reads this`board, board, this`currentPlayer, this`flawlessVictoryPossible, this`gameHistory
    {
      && board.Length == 9
      && currentPlayer != Empty
      && (flawlessVictoryPossible <==> O !in board[..])
      && (|gameHistory| > 0 ==> gameHistory[|gameHistory| - 1].board == board[..])
      && MoveByMove(gameHistory)
    }

    /** The timers: an active game has a history, the sudden-death clock only
        runs in an active game, and only chosen blind cells are hidden. */
    predicate TimersRecorded()
      reads this`isGameActive, this`gameHistory, this`suddenDeathRunning, this`blindCells, this`hiddenCells
    {
      && (isGameActive ==> |gameHistory| > 0)
      && (suddenDeathRunning ==> isGameActive)
      && (forall k :: 0 <= k < |blindCells| ==> 0 <= blindCells[k] < 9)
      && (forall c :: c in hiddenCells ==> c in blindCells)
    }

    /** The persistent records: consistent statistics, an entry for every
        achievement and a daily index into the board list. */
    predicate StatsRecorded()
      reads this`stats, this`achievements, this`dailyChallengeIndex
    {
      Consistent(stats) && HasAll(achievements) && dailyChallengeIndex < |DailyChallengeBoards|
    }

    /** Everything that holds between handlers, except that an active game
        is undecided (which is false between a move and `checkResult`). */
    predicate Recorded()
      reads this, board
    {
      BoardRecorded() && TimersRecorded() && StatsRecorded()
    }

    /** The object invariant: also, a game still in progress has neither a
        winner nor a full board. */
    predicate Valid()
      reads this, board
    {
      Recorded() && (isGameActive ==> Winner(board[..]).None? && !IsFull(board[..]))
    }

    /** The time stamp of the first snapshot of the game. */
    function StartedAt(): int
      reads this`gameHistory
    {
      if |gameHistory| > 0 then gameHistory[0].timestamp else 0
    }

    /** The rule inputs of `updateAchievements` in the current state. */
    function ContextNow(event: GameEvent, lossStreakBefore: nat, turnElapsedMs: int, themesSeen: bool): Context
      requires board.Length == 9
      reads this`stats, this`flawlessVictoryPossible, this`mode, this`board, board
    {
      Context(stats, event, flawlessVictoryPossible, mode, Count(board[..], X), Count(board[..], O),
              lossStreakBefore, turnElapsedMs, themesSeen)
    }

    /** What a game-ending branch of `checkResult` leaves behind, from the
        statistics `before` and the achievements `unlockedBefore` it found:
        the game is over, both timers are stopped and no cell is hidden; the
        result is counted (a sudden-death win lasting from the first
        snapshot to `now`); and the achievements are evaluated on the final
        board with the loss streak of `before`. */
    predicate Concluded(before: GameStats, unlockedBefore: seq<Achievement>, outcome: Outcome,
                        now: int, turnElapsedMs: int, themesSeen: bool)
      requires board.Length == 9
      reads this`isGameActive, this`suddenDeathRunning, this`blindRunning, this`blindCells,
        this`hiddenCells, this`stats, this`achievements, this`difficulty, this`gameHistory,
        this`flawlessVictoryPossible, this`mode, this`board, board
    {
      && !isGameActive && !suddenDeathRunning && !blindRunning && blindCells == [] && hiddenCells == {}
      && stats == FinishGame(before, outcome, difficulty, mode, now - StartedAt())
      && achievements == UnlockEach(unlockedBefore,
           EarnedInOrder(ContextNow(EventOf(outcome), before.consecutivePlayerLosses, turnElapsedMs, themesSeen)))
    }

    /** The state the page starts in, with the saved settings. */
    constructor (difficulty: Difficulty, mode: Mode)
      ensures Valid() && !isGameActive && fresh(board)
      ensures board[..] == EmptyBoard && currentPlayer == X && gameHistory == []
      ensures this.difficulty == difficulty && this.mode == mode
      ensures stats == DefaultStats() && achievements == Catalog()
      ensures flawlessVictoryPossible && replay == Cursor(0, false) && currentTurnStartTime == 0 && dailyChallengeIndex == 0
      ensures !suddenDeathRunning && !blindRunning && blindTurnCount == 0 && blindCells == [] && hiddenCells == {}
    {
      board := new Mark[9](_ => Empty);
      currentPlayer := X;
      isGameActive := false;
      this.difficulty := difficulty;
      this.mode := mode;
      flawlessVictoryPossible := true;
      gameHistory := [];
      replay := Cursor(0, false);
      currentTurnStartTime := 0;
      suddenDeathRunning := false;
      blindRunning := false;
      blindTurnCount := 0;
      blindCells := [];
      hiddenCells := {};
      dailyChallengeIndex := 0;
      stats := DefaultStats();
      achievements := Catalog();
      new;
      assert board[..] == EmptyBoard;
      EmptyBoardOpen();
    }

    /** `recordMove`: appends a snapshot of the board and the current player. */
    method RecordMove(now: int)
      requires board.Length == 9
      modifies this`gameHistory
      ensures gameHistory == old(gameHistory) + [ReplayEntry(board[..], currentPlayer, now)]
    {
      gameHistory := gameHistory + [ReplayEntry(board[..], currentPlayer, now)];
    }

    /** `placeMark`: writes the mark, clears the flawless flag for an O, and
        restarts the sudden-death turn clock. */
    method PlaceMark(index: int, player: Mark, now: int)
      requires board.Length == 9 && 0 <= index < 9
      modifies board, this`flawlessVictoryPossible, this`currentTurnStartTime
      ensures board[..] == old(board[..])[index := player]
      ensures flawlessVictoryPossible == (old(flawlessVictoryPossible) && player != O)
      ensures currentTurnStartTime == if mode == SuddenDeath then now else old(currentTurnStartTime)
    {
      board[index] := player;
      if player == O {
        flawlessVictoryPossible := false;
      }
      if mode == SuddenDeath {
        currentTurnStartTime := now;
      }
    }

    /** `changePlayer`. */
    method ChangePlayer()
      requires BoardRecorded()
      modifies this`currentPlayer
      ensures BoardRecorded()
      ensures currentPlayer == if old(currentPlayer) == X then O else X
    {
      currentPlayer := if currentPlayer == X then O else X;
    }

    /** `stopSuddenDeathTimer`. */
    method StopSuddenDeathTimer()
      modifies this`suddenDeathRunning
      ensures !suddenDeathRunning
    {
      suddenDeathRunning := false;
    }

    /** `stopBlindCellsTimer`: clears the interval, unblinds every cell and
        empties the blind list. */
    method StopBlindCellsTimer()
      modifies this`blindRunning, this`blindCells, this`hiddenCells
      ensures !blindRunning && blindCells == [] && hiddenCells == {}
    {
      blindRunning := false;
      hiddenCells := {};
      blindCells := [];
    }

    /** `unlockAchievement`. */
    method UnlockAchievement(id: AchievementId)
      modifies this`achievements
      ensures achievements == Unlock(old(achievements), id)
    {
      achievements := Unlock(achievements, id);
    }

    /** `updateAchievements`: one `unlockAchievement` call per rule that holds,
        in source order. */
    method UpdateAchievements(event: GameEvent, lossStreakBefore: nat, turnElapsedMs: int, themesSeen: bool)
      requires board.Length == 9 && StatsRecorded()
      modifies this`achievements
      ensures StatsRecorded()
      ensures achievements == UnlockEach(old(achievements), EarnedInOrder(ContextNow(event, lossStreakBefore, turnElapsedMs, themesSeen)))
    {
      var ids := EarnedInOrder(ContextNow(event, lossStreakBefore, turnElapsedMs, themesSeen));
      ghost var target := UnlockEach(achievements, ids);
      UnlockEachAdds(achievements, ids);
      for i := 0 to |ids|
        invariant UnlockEach(achievements, ids[i..]) == target
      {
        assert ids[i..][1..] == ids[i + 1..];
        UnlockAchievement(ids[i]);
      }
      assert ids[|ids|..] == [];
    }

    /** The bookkeeping of a game-ending branch of `checkResult`: record the
        result (the duration of a sudden-death win runs from the first
        snapshot), then evaluate the achievements. */
    method RecordOutcome(outcome: Outcome, now: int, turnElapsedMs: int, themesSeen: bool)
      requires board.Length == 9 && StatsRecorded()
      modifies this`stats, this`achievements
      ensures StatsRecorded()
      ensures stats == FinishGame(old(stats), outcome, difficulty, mode, now - StartedAt())
      ensures achievements == UnlockEach(old(achievements),
        EarnedInOrder(ContextNow(EventOf(outcome), old(stats.consecutivePlayerLosses), turnElapsedMs, themesSeen)))
    {
      var lossStreakBefore := stats.consecutivePlayerLosses;
      ghost var unlockedBefore := achievements;
      CountResult(outcome, now);
      assert achievements == unlockedBefore;
      UpdateAchievements(EventOf(outcome), lossStreakBefore, turnElapsedMs, themesSeen);
    }

    /** The counter updates of a game-ending branch of `checkResult`. */
    method CountResult(outcome: Outcome, now: int)
      requires StatsRecorded()
      modifies this`stats
      ensures StatsRecorded()
      ensures stats == FinishGame(old(stats), outcome, difficulty, mode, now - StartedAt())
    {
      stats := FinishGame(stats, outcome, difficulty, mode, now - StartedAt());
    }

    /** The first statements of both game-ending branches of `checkResult`. */
    method EndGame()
      requires Recorded()
      modifies this`isGameActive, this`suddenDeathRunning, this`blindRunning, this`blindCells, this`hiddenCells
      ensures Recorded()
      ensures !isGameActive && !suddenDeathRunning && !blindRunning && blindCells == [] && hiddenCells == {}
    {
      isGameActive := false;
      StopSuddenDeathTimer();
      StopBlindCellsTimer();
    }

    /** The common tail of both game-ending branches of `checkResult`. */
    method ConcludeGame(outcome: Outcome, now: int, turnElapsedMs: int, themesSeen: bool)
      requires Recorded() && isGameActive && outcome != Ongoing
      modifies this`isGameActive, this`suddenDeathRunning, this`blindRunning, this`blindCells,
        this`hiddenCells, this`stats, this`achievements
      ensures Recorded()
      ensures Concluded(old(stats), old(achievements), outcome, now, turnElapsedMs, themesSeen)
    {
      ghost var before, unlockedBefore := stats, achievements;
      ghost var lossStreakBefore := stats.consecutivePlayerLosses;
      EndGame();
      assert stats == before && achievements == unlockedBefore;
      RecordOutcome(outcome, now, turnElapsedMs, themesSeen);
      assert stats == FinishGame(before, outcome, difficulty, mode, now - StartedAt());
      assert achievements == UnlockEach(old(achievements),
        EarnedInOrder(ContextNow(EventOf(outcome), lossStreakBefore, turnElapsedMs, themesSeen)));
      assert Concluded(before, unlockedBefore, outcome, now, turnElapsedMs, themesSeen);
    }

    /** `checkResult`: a line ends the game as a win for its owner, a full
        board as a draw, and otherwise the turn passes. `turnElapsedMs` is how
        far into the deciding turn its move was made. */
    method CheckResult(now: int, turnElapsedMs: int, themesSeen: bool) returns (outcome: Outcome)
      requires Recorded() && isGameActive
      modifies this`isGameActive, this`suddenDeathRunning, this`blindRunning, this`blindCells,
        this`hiddenCells, this`stats, this`achievements, this`currentPlayer
      ensures Valid()
      ensures board[..] == old(board[..])
      ensures outcome == ResultOf(board[..])
      ensures outcome == Ongoing ==>
        && isGameActive && currentPlayer == (if old(currentPlayer) == X then O else X)
        && stats == old(stats) && achievements == old(achievements)
        && suddenDeathRunning == old(suddenDeathRunning) && blindRunning == old(blindRunning)
        && blindCells == old(blindCells) && hiddenCells == old(hiddenCells)
      ensures outcome != Ongoing ==>
        currentPlayer == old(currentPlayer) && Concluded(old(stats), old(achievements), outcome, now, turnElapsedMs, themesSeen)
    {
      outcome := ResultOf(board[..]);
      if outcome != Ongoing {
        ConcludeGame(outcome, now, turnElapsedMs, themesSeen);
      } else {
        ChangePlayer();
      }
    }

    /** `placeMark` followed by `recordMove`, as both movers do it: the
        invariants hold again with the move on the board and in the history.
        In sudden death the turn clock now reads `now`, and `checkResult`
        does not touch it, so the as-written `luckyStrike` test, which
        measures from this reset, holds for every sudden-death win. */
    method MakeMove(index: int, player: Mark, now: int)
      requires Valid() && isGameActive && player == currentPlayer
      requires 0 <= index < 9 && board[index] == Empty
      modifies board, this`flawlessVictoryPossible, this`currentTurnStartTime, this`gameHistory
      ensures Recorded() && isGameActive
      ensures board[..] == old(board[..])[index := player]
      ensures gameHistory == old(gameHistory) + [ReplayEntry(board[..], player, now)]
      ensures currentTurnStartTime == if mode == SuddenDeath then now else old(currentTurnStartTime)
      ensures mode == SuddenDeath ==>
        forall c: Context :: c.event == Won && c.mode == SuddenDeath ==> LuckyStrikeAsWritten(c, now - currentTurnStartTime)
    {
      ghost var b := board[..];
      PlaceMark(index, player, now);
      RecordMove(now);
      if player != O {
        PlacePreservesAbsence(b, index, player, O);
      } else {
        assert board[..][index] == O;
      }
      MoveByMoveAppend(old(gameHistory), gameHistory[|gameHistory| - 1]);
      assert gameHistory == old(gameHistory) + [gameHistory[|gameHistory| - 1]];
    }

    /** `handleCellClick` on cell `index`: ignored on an occupied cell, after
        the game or on the AI's turn; otherwise X moves, the move is recorded
        and judged. The result says whether the AI is to move next. */
    method HandleCellClick(index: int, now: int, themesSeen: bool) returns (aiTurnNext: bool)
      requires Valid() && 0 <= index < 9
      modifies board, this`flawlessVictoryPossible, this`currentTurnStartTime, this`gameHistory,
        this`isGameActive, this`suddenDeathRunning, this`blindRunning, this`blindCells,
        this`hiddenCells, this`stats, this`achievements, this`currentPlayer
      ensures Valid()
      ensures old(board[index] != Empty || !isGameActive || currentPlayer != X) ==>
        !aiTurnNext && unchanged(this) && unchanged(board)
      ensures old(board[index] == Empty && isGameActive && currentPlayer == X) ==>
        && board[..] == old(board[..])[index := X]
        && gameHistory == old(gameHistory) + [ReplayEntry(board[..], X, now)]
        && (currentTurnStartTime == (if mode == SuddenDeath then now else old(currentTurnStartTime)))
        && (aiTurnNext <==> ResultOf(board[..]) == Ongoing)
        && (ResultOf(board[..]) == Ongoing ==>
              && isGameActive && currentPlayer == O && stats == old(stats) && achievements == old(achievements)
              && suddenDeathRunning == old(suddenDeathRunning) && blindRunning == old(blindRunning)
              && blindCells == old(blindCells) && hiddenCells == old(hiddenCells))
        && (ResultOf(board[..]) != Ongoing ==>
              && currentPlayer == X
              && Concluded(old(stats), old(achievements), ResultOf(board[..]), now, now - old(currentTurnStartTime), themesSeen))
    {
      if board[index] != Empty || !isGameActive || currentPlayer != X {
        return false;
      }
      aiTurnNext := PlayClick(index, now, themesSeen);
    }

    /** The part of `handleCellClick` past its guard: X moves, and the AI is
        to move next exactly when the game is still active. */
    method PlayClick(index: int, now: int, themesSeen: bool) returns (aiTurnNext: bool)
      requires Valid() && isGameActive && currentPlayer == X
      requires 0 <= index < 9 && board[index] == Empty
      modifies board, this`flawlessVictoryPossible, this`currentTurnStartTime, this`gameHistory,
        this`isGameActive, this`suddenDeathRunning, this`blindRunning, this`blindCells,
        this`hiddenCells, this`stats, this`achievements, this`currentPlayer
      ensures Valid()
      ensures board[..] == old(board[..])[index := X]
      ensures gameHistory == old(gameHistory) + [ReplayEntry(board[..], X, now)]
      ensures currentTurnStartTime == (if mode == SuddenDeath then now else old(currentTurnStartTime))
      ensures aiTurnNext <==> ResultOf(board[..]) == Ongoing
      ensures ResultOf(board[..]) == Ongoing ==>
        && isGameActive && currentPlayer == O && stats == old(stats) && achievements == old(achievements)
        && suddenDeathRunning == old(suddenDeathRunning) && blindRunning == old(blindRunning)
        && blindCells == old(blindCells) && hiddenCells == old(hiddenCells)
      ensures ResultOf(board[..]) != Ongoing ==>
        && !isGameActive && currentPlayer == X
        && !suddenDeathRunning && !blindRunning && blindCells == [] && hiddenCells == {}
        && stats == FinishGame(old(stats), ResultOf(board[..]), difficulty, mode, now - StartedAt())
        && achievements == UnlockEach(old(achievements),
             EarnedInOrder(ContextNow(EventOf(ResultOf(board[..])), old(stats).consecutivePlayerLosses, now - old(currentTurnStartTime), themesSeen)))
    {
      var outcome := PlayMove(index, X, now, themesSeen);
      aiTurnNext := isGameActive;
    }

    /** The common tail of both movers: the turn's elapsed time is taken,
        the mark placed and recorded, and the board judged. */
    method PlayMove(index: int, player: Mark, now: int, themesSeen: bool) returns (outcome: Outcome)
      requires Valid() && isGameActive && player == currentPlayer
      requires 0 <= index < 9 && board[index] == Empty
      modifies board, this`flawlessVictoryPossible, this`currentTurnStartTime, this`gameHistory,
        this`isGameActive, this`suddenDeathRunning, this`blindRunning, this`blindCells,
        this`hiddenCells, this`stats, this`achievements, this`currentPlayer
      ensures Valid()
      ensures board[..] == old(board[..])[index := player]
      ensures gameHistory == old(gameHistory) + [ReplayEntry(board[..], player, now)]
      ensures outcome == ResultOf(board[..])
      ensures outcome == Ongoing ==>
        && isGameActive && currentPlayer == (if player == X then O else X)
        && stats == old(stats) && achievements == old(achievements)
        && suddenDeathRunning == old(suddenDeathRunning) && blindRunning == old(blindRunning)
        && blindCells == old(blindCells) && hiddenCells == old(hiddenCells)
      ensures outcome != Ongoing ==>
        currentPlayer == player && Concluded(old(stats), old(achievements), outcome, now, now - old(currentTurnStartTime), themesSeen)
      ensures currentTurnStartTime == if mode == SuddenDeath then now else old(currentTurnStartTime)
    {
      var turnElapsedMs := now - currentTurnStartTime;
      MakeMove(index, player, now);
      outcome := CheckResult(now, turnElapsedMs, themesSeen);
    }

    /** The move choice of `handleAITurn` in an active game (so on a board
        with an empty cell). The search marks and clears cells of the board
        itself, which is left as it was. */
    method ChooseAIMove(zenDraw: real, randomDraw: real, tieDraw: real) returns (aiMove: int)
      requires Valid() && isGameActive
      requires IsDraw(zenDraw) && IsDraw(randomDraw) && IsDraw(tieDraw)
      modifies board
      ensures board[..] == old(board[..])
      ensures aiMove == AIMove(old(board[..]), old(difficulty), zenDraw, randomDraw, tieDraw)
      ensures 0 <= aiMove < 9 && old(board[..])[aiMove] == Empty
      ensures Valid()
    {
      var emptyCells := GetEmptyCells(board);
      EmptyCellsNonEmpty(board[..]);
      match difficulty
      case Zen =>
        if zenDraw < 0.3 {
          aiMove := emptyCells[RandomIndex(randomDraw, |emptyCells|)];
        } else {
          aiMove := GetOptimalAIMove(board, tieDraw);
        }
      case Strategist =>
        aiMove := GetOptimalAIMove(board, tieDraw);
      case Punisher =>
        aiMove := GetOptimalAIMove(board, tieDraw);
    }

    /** `handleAITurn`: only in an active game on O's turn, and only with an
        empty cell left; O plays the chosen cell, the move is recorded and
        judged (the source's early return for a board without an empty cell
        is never taken, since an active game is undecided). The draws are the
        `Math.random` values of the Zen coin, of its
        random cell and of the tie break among the best moves. */
    method HandleAITurn(zenDraw: real, randomDraw: real, tieDraw: real, now: int, themesSeen: bool) returns (aiMove: int)
      requires Valid() && IsDraw(zenDraw) && IsDraw(randomDraw) && IsDraw(tieDraw)
      modifies board, this`flawlessVictoryPossible, this`currentTurnStartTime, this`gameHistory,
        this`isGameActive, this`suddenDeathRunning, this`blindRunning, this`blindCells,
        this`hiddenCells, this`stats, this`achievements, this`currentPlayer
      ensures Valid()
      ensures old(!isGameActive || currentPlayer != O) ==> unchanged(this) && unchanged(board)
      ensures old(isGameActive && currentPlayer == O) ==>
        && aiMove == AIMove(old(board[..]), old(difficulty), zenDraw, randomDraw, tieDraw)
        && 0 <= aiMove < 9 && board[..] == old(board[..])[aiMove := O]
        && gameHistory == old(gameHistory) + [ReplayEntry(board[..], O, now)]
        && (currentTurnStartTime == (if mode == SuddenDeath then now else old(currentTurnStartTime)))
        && (ResultOf(board[..]) == Ongoing ==>
              && isGameActive && currentPlayer == X && stats == old(stats) && achievements == old(achievements)
              && suddenDeathRunning == old(suddenDeathRunning) && blindRunning == old(blindRunning)
              && blindCells == old(blindCells) && hiddenCells == old(hiddenCells))
        && (ResultOf(board[..]) != Ongoing ==>
              && !isGameActive && currentPlayer == O
              && !suddenDeathRunning && !blindRunning && blindCells == [] && hiddenCells == {}
              && stats == FinishGame(old(stats), ResultOf(board[..]), difficulty, mode, now - StartedAt())
              && achievements == UnlockEach(old(achievements),
                   EarnedInOrder(ContextNow(EventOf(ResultOf(board[..])), old(stats).consecutivePlayerLosses, now - old(currentTurnStartTime), themesSeen))))
    {
      if !isGameActive || currentPlayer != O {
        return -1;
      }
      aiMove := PlayAITurn(zenDraw, randomDraw, tieDraw, now, themesSeen);
    }

    /** The part of `handleAITurn` past its guard: choose, place, check. */
    method PlayAITurn(zenDraw: real, randomDraw: real, tieDraw: real, now: int, themesSeen: bool) returns (aiMove: int)
      requires Valid() && isGameActive && currentPlayer == O
      requires IsDraw(zenDraw) && IsDraw(randomDraw) && IsDraw(tieDraw)
      modifies board, this`flawlessVictoryPossible, this`currentTurnStartTime, this`gameHistory,
        this`isGameActive, this`suddenDeathRunning, this`blindRunning, this`blindCells,
        this`hiddenCells, this`stats, this`achievements, this`currentPlayer
      ensures Valid()
      ensures aiMove == AIMove(old(board[..]), old(difficulty), zenDraw, randomDraw, tieDraw)
      ensures 0 <= aiMove < 9 && board[..] == old(board[..])[aiMove := O]
      ensures gameHistory == old(gameHistory) + [ReplayEntry(board[..], O, now)]
      ensures currentTurnStartTime == (if mode == SuddenDeath then now else old(currentTurnStartTime))
      ensures ResultOf(board[..]) == Ongoing ==>
        && isGameActive && currentPlayer == X && stats == old(stats) && achievements == old(achievements)
        && suddenDeathRunning == old(suddenDeathRunning) && blindRunning == old(blindRunning)
        && blindCells == old(blindCells) && hiddenCells == old(hiddenCells)
      ensures ResultOf(board[..]) != Ongoing ==>
        && !isGameActive && currentPlayer == O
        && !suddenDeathRunning && !blindRunning && blindCells == [] && hiddenCells == {}
        && stats == FinishGame(old(stats), ResultOf(board[..]), difficulty, mode, now - StartedAt())
        && achievements == UnlockEach(old(achievements),
             EarnedInOrder(ContextNow(EventOf(ResultOf(board[..])), old(stats).consecutivePlayerLosses, now - old(currentTurnStartTime), themesSeen)))
    {
      aiMove := ChooseAIMove(zenDraw, randomDraw, tieDraw);
      var outcome := PlayMove(aiMove, O, now, themesSeen);
    }

    /** `startSuddenDeathTimer`: the turn clock restarts and the interval is
        installed. */
    method StartSuddenDeathTimer(now: int)
      modifies this`suddenDeathRunning, this`currentTurnStartTime
      ensures suddenDeathRunning && currentTurnStartTime == now
    {
      StopSuddenDeathTimer();
      currentTurnStartTime := now;
      suddenDeathRunning := true;
    }

    /** `handleSuddenDeathTimeout`: the clock stops, the game ends and the
        player whose turn it was forfeits; the achievements are evaluated
        with the `'timeout'` event. The blind timer is not stopped. */
    method HandleSuddenDeathTimeout(now: int, themesSeen: bool)
      requires Valid()
      modifies this`suddenDeathRunning, this`isGameActive, this`stats, this`achievements
      ensures Valid() && !isGameActive && !suddenDeathRunning
      ensures stats == RecordTimeout(old(stats), currentPlayer)
      ensures achievements == UnlockEach(old(achievements),
        EarnedInOrder(ContextNow(TimedOutEvent, old(stats.consecutivePlayerLosses), now - currentTurnStartTime, themesSeen)))
    {
      ghost var before, unlockedBefore := stats, achievements;
      ghost var lossStreakBefore := stats.consecutivePlayerLosses;
      EndByTimeout();
      assert BoardRecorded() && TimersRecorded();
      assert stats == before && achievements == unlockedBefore;
      RecordTimedOut(now, themesSeen);
      assert BoardRecorded() && TimersRecorded();
      assert stats == RecordTimeout(before, currentPlayer);
      assert achievements == UnlockEach(old(achievements),
        EarnedInOrder(ContextNow(TimedOutEvent, lossStreakBefore, now - currentTurnStartTime, themesSeen)));
    }

    /** The first statements of `handleSuddenDeathTimeout`: the clock stops
        and the game ends. */
    method EndByTimeout()
      requires Recorded()
      modifies this`suddenDeathRunning, this`isGameActive
      ensures Recorded() && !isGameActive && !suddenDeathRunning
    {
      StopSuddenDeathTimer();
      isGameActive := false;
    }

    /** The bookkeeping of `handleSuddenDeathTimeout`: the forfeit is counted,
        then the achievements are evaluated with the `'timeout'` event. */
    method RecordTimedOut(now: int, themesSeen: bool)
      requires board.Length == 9 && StatsRecorded()
      modifies this`stats, this`achievements
      ensures StatsRecorded()
      ensures stats == RecordTimeout(old(stats), currentPlayer)
      ensures achievements == UnlockEach(old(achievements),
        EarnedInOrder(ContextNow(TimedOutEvent, old(stats.consecutivePlayerLosses), now - currentTurnStartTime, themesSeen)))
    {
      var lossStreakBefore := stats.consecutivePlayerLosses;
      stats := RecordTimeout(stats, currentPlayer);
      UpdateAchievements(TimedOutEvent, lossStreakBefore, now - currentTurnStartTime, themesSeen);
    }

    /** One firing of the sudden-death interval at time `now`: the turn
        times out once ten seconds have passed since it began. The countdown
        display and tick sounds are not modelled. */
    method SuddenDeathTick(now: int, themesSeen: bool) returns (timedOut: bool)
      requires Valid() && suddenDeathRunning
      modifies this`suddenDeathRunning, this`isGameActive, this`stats, this`achievements
      ensures Valid()
      ensures timedOut <==> now - currentTurnStartTime >= 10000
      ensures timedOut ==> !isGameActive && !suddenDeathRunning && stats == RecordTimeout(old(stats), currentPlayer)
      ensures timedOut ==> achievements == UnlockEach(old(achievements),
        EarnedInOrder(ContextNow(TimedOutEvent, old(stats.consecutivePlayerLosses), now - currentTurnStartTime, themesSeen)))
      ensures !timedOut ==> unchanged(this)
    {
      TurnExpiredExactly(now - currentTurnStartTime);
      timedOut := TurnExpired(now - currentTurnStartTime);
      if timedOut {
        HandleSuddenDeathTimeout(now, themesSeen);
      }
    }

    /** `startBlindCellsTimer`: a fresh interval with its turn count at zero. */
    method StartBlindCellsTimer()
      modifies this`blindRunning, this`blindCells, this`hiddenCells, this`blindTurnCount
      ensures blindRunning && blindTurnCount == 0 && blindCells == [] && hiddenCells == {}
    {
      StopBlindCellsTimer();
      blindTurnCount := 0;
      blindRunning := true;
    }

    /** `toggleBlindCells`: two distinct cells drawn from the pool (occupied
        cells once more than three are occupied, empty cells otherwise)
        become the blind cells and are hidden. The pool is never empty, so the
        source's early return is never taken. */
    method ToggleBlindCells(draws: seq<real>)
      requires board.Length == 9 && forall k :: 0 <= k < |draws| ==> IsDraw(draws[k])
      modifies this`blindCells, this`hiddenCells
      ensures |blindCells| == 2 && Distinct(blindCells)
      ensures forall k :: 0 <= k < |blindCells| ==> blindCells[k] in BlindPool(board[..])
      ensures hiddenCells == set k | 0 <= k < |blindCells| :: blindCells[k]
    {
      var pool := BlindPool(board[..]);
      BlindPoolSize(board[..]);
      var chosen := PickBlindCells(pool, draws);
      blindCells := chosen;
      hiddenCells := set k | 0 <= k < |chosen| :: chosen[k];
    }

    /** One firing of the blind interval: ignored once the game is over;
        otherwise the turn count advances and, from turn 3 on every other
        turn, cells are blinded, while every other firing unblinds them. */
    method BlindTick(draws: seq<real>)
      requires Valid() && blindRunning && forall k :: 0 <= k < |draws| ==> IsDraw(draws[k])
      modifies this`blindTurnCount, this`blindCells, this`hiddenCells
      ensures Valid()
      ensures !old(isGameActive) ==> unchanged(this)
      ensures old(isGameActive) ==> blindTurnCount == old(blindTurnCount) + 1
      ensures old(isGameActive) && ToggleTick(blindTurnCount) ==>
        |blindCells| == 2 && Distinct(blindCells) && hiddenCells == set k | 0 <= k < |blindCells| :: blindCells[k]
      ensures old(isGameActive) && ToggleTick(blindTurnCount) ==>
        forall k :: 0 <= k < |blindCells| ==> blindCells[k] in BlindPool(board[..])
      ensures old(isGameActive) && !ToggleTick(blindTurnCount) ==> blindCells == old(blindCells) && hiddenCells == {}
    {
      if !isGameActive {
        return;
      }
      blindTurnCount := blindTurnCount + 1;
      if ToggleTick(blindTurnCount) {
        ToggleBlindCells(draws);
      } else {
        hiddenCells := {};
      }
    }

    /** `resetStats`, once confirmed: default counters and every achievement
        locked again. */
    method ResetStats()
      requires Valid()
      modifies this`stats, this`achievements
      ensures Valid()
      ensures stats == DefaultStats()
      ensures Ids(achievements) == Ids(old(achievements)) && UnlockedIds(achievements) == {}
      ensures achievements == LockAll(old(achievements))
    {
      stats := DefaultStats();
      achievements := LockAll(achievements);
    }

    /** `handleGameEnd`: the replay opens at the first snapshot; a playback
        still installed is cleared when that is also the last one. */
    method HandleGameEnd()
      requires |gameHistory| > 0
      modifies this`replay
      ensures replay == Settle(Cursor(0, old(replay.playing)), |gameHistory|)
      ensures replay.step == 0 && InRange(replay, |gameHistory|)
    {
      replay := Settle(replay.(step := 0), |gameHistory|);
    }

    /** `nextReplayStep`. */
    method NextReplayStep()
      modifies this`replay
      ensures replay == Next(old(replay), |gameHistory|)
    {
      replay := Next(replay, |gameHistory|);
    }

    /** `prevReplayStep`. */
    method PrevReplayStep()
      modifies this`replay
      ensures replay == Prev(old(replay), |gameHistory|)
    {
      replay := Prev(replay, |gameHistory|);
    }

    /** `playReplay`. */
    method PlayReplay()
      modifies this`replay
      ensures replay == Play(old(replay), |gameHistory|)
    {
      replay := Play(replay, |gameHistory|);
    }

    /** One firing of the playback interval, with the bound test the source
        intends (see `TickAsWritten`). */
    method ReplayTick()
      requires replay.playing
      modifies this`replay
      ensures replay == Tick(old(replay), |gameHistory|)
    {
      replay := Tick(replay, |gameHistory|);
    }

    /** A board a game can start or go on from: no O when (and only when) a
        flawless win is still possible, no line and an empty cell. */
    predicate Playable()
      reads this`board, board, this`flawlessVictoryPossible
    {
      && board.Length == 9
      && (flawlessVictoryPossible <==> O !in board[..])
      && Winner(board[..]).None? && !IsFull(board[..])
    }

    /** The opening statements of `initializeGame`: the game count goes up
        when a new game is asked for, then a fresh empty board, the game
        active, flawless still possible, no history, the clock at `now`. */
    method StartRound(startNew: bool, now: int)
      requires StatsRecorded()
      modifies this`stats, this`board, this`isGameActive, this`flawlessVictoryPossible, this`gameHistory,
        this`currentTurnStartTime
      ensures StatsRecorded() && stats == StartGame(old(stats), startNew)
      ensures fresh(board) && board.Length == 9 && board[..] == EmptyBoard && Playable()
      ensures isGameActive && flawlessVictoryPossible && gameHistory == [] && currentTurnStartTime == now
    {
      stats := StartGame(stats, startNew);
      board := new Mark[9](_ => Empty);
      isGameActive := true;
      flawlessVictoryPossible := true;
      gameHistory := [];
      currentTurnStartTime := now;
      assert board[..] == EmptyBoard;
      EmptyBoardOpen();
    }

    /** The timer part of `initializeGame`: the current mode's interval is
        started, the other one stopped. */
    method SetUpTimers(now: int)
      modifies this`suddenDeathRunning, this`currentTurnStartTime, this`blindRunning, this`blindTurnCount,
        this`blindCells, this`hiddenCells
      ensures suddenDeathRunning <==> mode == SuddenDeath
      ensures currentTurnStartTime == if mode == SuddenDeath then now else old(currentTurnStartTime)
      ensures blindRunning <==> mode == BlindPlay
      ensures blindTurnCount == if mode == BlindPlay then 0 else old(blindTurnCount)
      ensures blindCells == [] && hiddenCells == {}
    {
      if mode == SuddenDeath {
        StartSuddenDeathTimer(now);
      } else {
        StopSuddenDeathTimer();
      }
      if mode == BlindPlay {
        StartBlindCellsTimer();
      } else {
        StopBlindCellsTimer();
      }
    }

    /** The daily-challenge part of `initializeGame`: a new board index is
        drawn, and today's date stored, when the stored date is not today's;
        then the challenge board is copied in and a flawless win is ruled out. */
    method SetUpDailyChallenge(today: string, dailyDraw: real)
      requires IsDraw(dailyDraw) && dailyChallengeIndex < |DailyChallengeBoards|
      modifies this`dailyChallengeIndex, this`stats, this`board, this`flawlessVictoryPossible
      ensures NeedsNewDaily(old(stats.lastDailyChallengeDate), today) ==>
        dailyChallengeIndex == DailyIndex(dailyDraw) && stats == old(stats).(lastDailyChallengeDate := Some(today))
      ensures !NeedsNewDaily(old(stats.lastDailyChallengeDate), today) ==>
        dailyChallengeIndex == old(dailyChallengeIndex) && stats == old(stats)
      ensures DailyState(stats.lastDailyChallengeDate, dailyChallengeIndex)
        == DailyNext(DailyState(old(stats.lastDailyChallengeDate), old(dailyChallengeIndex)), today, dailyDraw)
      ensures dailyChallengeIndex < |DailyChallengeBoards|
      ensures fresh(board) && board.Length == 9 && board[..] == DailyChallengeBoards[dailyChallengeIndex]
      ensures !flawlessVictoryPossible && Playable()
    {
      if NeedsNewDaily(stats.lastDailyChallengeDate, today) {
        dailyChallengeIndex := DailyIndex(dailyDraw);
        stats := stats.(lastDailyChallengeDate := Some(today));
      }
      var challenge := DailyChallengeBoards[dailyChallengeIndex];
      board := new Mark[9](i requires 0 <= i < 9 => challenge[i]);
      assert board[..] == challenge;
      flawlessVictoryPossible := false;
      DailyBoardsPlayable(dailyChallengeIndex);
    }

    /** The mode-dependent part of `initializeGame`: the timers, and in
        daily-challenge mode the challenge board. */
    method SetUpMode(now: int, today: string, dailyDraw: real)
      requires StatsRecorded() && Playable() && IsDraw(dailyDraw)
      modifies this`suddenDeathRunning, this`currentTurnStartTime, this`blindRunning, this`blindTurnCount,
        this`blindCells, this`hiddenCells, this`dailyChallengeIndex, this`stats, this`board,
        this`flawlessVictoryPossible
      ensures StatsRecorded() && Playable()
      ensures suddenDeathRunning <==> mode == SuddenDeath
      ensures currentTurnStartTime == if mode == SuddenDeath then now else old(currentTurnStartTime)
      ensures blindRunning <==> mode == BlindPlay
      ensures blindTurnCount == if mode == BlindPlay then 0 else old(blindTurnCount)
      ensures blindCells == [] && hiddenCells == {}
      ensures mode != DailyChallenge ==>
        board == old(board) && flawlessVictoryPossible == old(flawlessVictoryPossible)
        && stats == old(stats) && dailyChallengeIndex == old(dailyChallengeIndex)
      ensures mode == DailyChallenge ==>
        fresh(board) && board[..] == DailyChallengeBoards[dailyChallengeIndex] && !flawlessVictoryPossible
      ensures mode == DailyChallenge && NeedsNewDaily(old(stats.lastDailyChallengeDate), today) ==>
        dailyChallengeIndex == DailyIndex(dailyDraw) && stats == old(stats).(lastDailyChallengeDate := Some(today))
      ensures mode == DailyChallenge && !NeedsNewDaily(old(stats.lastDailyChallengeDate), today) ==>
        dailyChallengeIndex == old(dailyChallengeIndex) && stats == old(stats)
    {
      SetUpTimers(now);
      if mode == DailyChallenge {
        SetUpDailyChallenge(today, dailyDraw);
      }
    }

    /** The closing statements of `initializeGame`: the first mover is drawn
        and the initial snapshot recorded, after which every invariant holds. */
    method BeginPlay(now: int, firstDraw: real) returns (aiFirst: bool)
      requires Playable() && StatsRecorded() && isGameActive && gameHistory == []
      requires blindCells == [] && hiddenCells == {}
      modifies this`currentPlayer, this`gameHistory
      ensures Valid()
      ensures currentPlayer == (if firstDraw < 0.5 then X else O) && aiFirst == (currentPlayer == O)
      ensures gameHistory == [ReplayEntry(board[..], currentPlayer, now)]
    {
      currentPlayer := if firstDraw < 0.5 then X else O;
      RecordMove(now);
      aiFirst := currentPlayer == O;
    }

    /** `initializeGame(startNew)` at time `now` on date `today`: a new game
        on an empty board (or today's challenge board), the mode's timers
        installed and the others stopped, the first mover drawn, the initial
        snapshot recorded. The result says whether the AI moves first. */
    method InitializeGame(startNew: bool, now: int, today: string, dailyDraw: real, firstDraw: real)
      returns (aiFirst: bool)
      requires StatsRecorded() && IsDraw(dailyDraw) && IsDraw(firstDraw)
      modifies this`board, this`isGameActive, this`flawlessVictoryPossible, this`gameHistory,
        this`currentTurnStartTime, this`suddenDeathRunning, this`blindRunning, this`blindTurnCount,
        this`blindCells, this`hiddenCells, this`dailyChallengeIndex, this`stats, this`currentPlayer
      ensures Valid() && isGameActive && fresh(board)
      ensures mode != DailyChallenge ==>
        board[..] == EmptyBoard && flawlessVictoryPossible && stats == StartGame(old(stats), startNew)
      ensures mode == DailyChallenge ==>
        board[..] == DailyChallengeBoards[dailyChallengeIndex] && !flawlessVictoryPossible
      ensures mode == DailyChallenge && NeedsNewDaily(old(stats.lastDailyChallengeDate), today) ==>
        dailyChallengeIndex == DailyIndex(dailyDraw)
        && stats == StartGame(old(stats), startNew).(lastDailyChallengeDate := Some(today))
      ensures mode == DailyChallenge && !NeedsNewDaily(old(stats.lastDailyChallengeDate), today) ==>
        dailyChallengeIndex == old(dailyChallengeIndex) && stats == StartGame(old(stats), startNew)
      ensures currentPlayer == (if firstDraw < 0.5 then X else O) && aiFirst == (currentPlayer == O)
      ensures gameHistory == [ReplayEntry(board[..], currentPlayer, now)]
      ensures currentTurnStartTime == now
      ensures suddenDeathRunning <==> mode == SuddenDeath
      ensures blindRunning <==> mode == BlindPlay
      ensures blindCells == [] && hiddenCells == {} && (mode == BlindPlay ==> blindTurnCount == 0)
      ensures mode != DailyChallenge ==> dailyChallengeIndex == old(dailyChallengeIndex)
    {
      StartRound(startNew, now);
      SetUpMode(now, today, dailyDraw);
      aiFirst := BeginPlay(now, firstDraw);
    }
  }
}
