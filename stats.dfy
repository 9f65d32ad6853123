/** `gameStats`: the persisted counters and the rules that update them at
    the end of a game. */
module Stats {
  import opened Wrappers
  import opened Board
  import opened Settings

  datatype DifficultyWins = DifficultyWins(zen: nat, strategist: nat, punisher: nat) {
    function Get(d: Difficulty): nat {
      match d
      case Zen => zen
      case Strategist => strategist
      case Punisher => punisher
    }

    function Total(): nat { zen + strategist + punisher }

    /** `playerWinsByDifficulty[d]++`. */
    function Bump(d: Difficulty): (r: DifficultyWins)
      ensures r.Get(d) == Get(d) + 1
      ensures forall e :: e != d ==> r.Get(e) == Get(e)
      ensures r.Total() == Total() + 1
    {
      match d
      case Zen => this.(zen := zen + 1)
      case Strategist => this.(strategist := strategist + 1)
      case Punisher => this.(punisher := punisher + 1)
    }
  }

  datatype ModeWins = ModeWins(standard: nat, suddenDeath: nat, blindPlay: nat, dailyChallenge: nat) {
    function Get(m: Mode): nat {
      match m
      case Standard => standard
      case SuddenDeath => suddenDeath
      case BlindPlay => blindPlay
      case DailyChallenge => dailyChallenge
    }

    function Total(): nat { standard + suddenDeath + blindPlay + dailyChallenge }

    /** `playerWinsByMode[m]++`. */
    function Bump(m: Mode): (r: ModeWins)
      ensures r.Get(m) == Get(m) + 1
      ensures forall n :: n != m ==> r.Get(n) == Get(n)
      ensures r.Total() == Total() + 1
    {
      match m
      case Standard => this.(standard := standard + 1)
      case SuddenDeath => this.(suddenDeath := suddenDeath + 1)
      case BlindPlay => this.(blindPlay := blindPlay + 1)
      case DailyChallenge => this.(dailyChallenge := dailyChallenge + 1)
    }
  }

  /** The fastest sudden-death win is kept in milliseconds; `None` is the
      source's `Infinity`. */
  datatype GameStats = GameStats(
    totalGames: nat,
    playerWins: nat,
    aiWins: nat,
    draws: nat,
    consecutivePlayerLosses: nat,
    consecutivePlayerWins: nat,
    fastestSuddenDeathWinMs: Option<int>,
    playerWinsByDifficulty: DifficultyWins,
    playerWinsByMode: ModeWins,
    lastDailyChallengeDate: Option<string>)

  /** The initial value, also restored by `resetStats`. */
  function DefaultStats(): (s: GameStats)
    ensures Consistent(s)
  {
    GameStats(0, 0, 0, 0, 0, 0, None, DifficultyWins(0, 0, 0), ModeWins(0, 0, 0, 0), None)
  }

  /** What every update below keeps: at most one streak is running, a streak
      never exceeds its total, and the per-difficulty and per-mode win tables
      count the same wins, none of them more than `playerWins`. */
  predicate Consistent(s: GameStats) {
    && (s.consecutivePlayerWins == 0 || s.consecutivePlayerLosses == 0)
    && s.consecutivePlayerWins <= s.playerWins
    && s.consecutivePlayerLosses <= s.aiWins
    && s.playerWinsByDifficulty.Total() == s.playerWinsByMode.Total()
    && s.playerWinsByMode.Total() <= s.playerWins
  }

  /** `initializeGame(startNew)`'s counter update. */
  function StartGame(s: GameStats, startNew: bool): (r: GameStats)
    ensures r.totalGames == s.totalGames + (if startNew then 1 else 0)
    ensures r.(totalGames := s.totalGames) == s
    ensures Consistent(s) ==> Consistent(r)
  {
    if startNew then s.(totalGames := s.totalGames + 1) else s
  }

  /** The counter updates of `checkResult` for a decided game. */
  function ApplyOutcome(s: GameStats, outcome: Outcome, d: Difficulty, m: Mode): (r: GameStats)
    ensures outcome == PlayerWin ==>
      && r.playerWins == s.playerWins + 1
      && r.consecutivePlayerWins == s.consecutivePlayerWins + 1
      && r.consecutivePlayerLosses == 0
      && r.playerWinsByDifficulty == s.playerWinsByDifficulty.Bump(d)
      && r.playerWinsByMode == s.playerWinsByMode.Bump(m)
      && r.aiWins == s.aiWins && r.draws == s.draws
    ensures outcome == AIWin ==>
      && r.aiWins == s.aiWins + 1
      && r.consecutivePlayerLosses == s.consecutivePlayerLosses + 1
      && r.consecutivePlayerWins == 0
      && r.playerWins == s.playerWins && r.draws == s.draws
      && r.playerWinsByDifficulty == s.playerWinsByDifficulty && r.playerWinsByMode == s.playerWinsByMode
    ensures outcome == Draw ==>
      && r.draws == s.draws + 1
      && r.consecutivePlayerWins == 0 && r.consecutivePlayerLosses == 0
      && r.playerWins == s.playerWins && r.aiWins == s.aiWins
      && r.playerWinsByDifficulty == s.playerWinsByDifficulty && r.playerWinsByMode == s.playerWinsByMode
    ensures outcome == Ongoing ==> r == s
    ensures r.totalGames == s.totalGames && r.lastDailyChallengeDate == s.lastDailyChallengeDate
    ensures r.fastestSuddenDeathWinMs == s.fastestSuddenDeathWinMs
    ensures Consistent(s) ==> Consistent(r)
  {
    match outcome
    case PlayerWin =>
      s.(playerWins := s.playerWins + 1,
         consecutivePlayerWins := s.consecutivePlayerWins + 1,
         consecutivePlayerLosses := 0,
         playerWinsByDifficulty := s.playerWinsByDifficulty.Bump(d),
         playerWinsByMode := s.playerWinsByMode.Bump(m))
    case AIWin =>
      s.(aiWins := s.aiWins + 1,
         consecutivePlayerLosses := s.consecutivePlayerLosses + 1,
         consecutivePlayerWins := 0)
    case Draw =>
      s.(draws := s.draws + 1, consecutivePlayerWins := 0, consecutivePlayerLosses := 0)
    case Ongoing => s
  }

  /** The fastest-win record: kept when the new duration is strictly smaller. */
  function RecordFastestWin(s: GameStats, durationMs: int): (r: GameStats)
    ensures r.fastestSuddenDeathWinMs.Some?
    ensures r.fastestSuddenDeathWinMs.value <= durationMs
    ensures s.fastestSuddenDeathWinMs.Some? ==> r.fastestSuddenDeathWinMs.value <= s.fastestSuddenDeathWinMs.value
    ensures r.fastestSuddenDeathWinMs.value == durationMs || r.fastestSuddenDeathWinMs == s.fastestSuddenDeathWinMs
    ensures r.(fastestSuddenDeathWinMs := s.fastestSuddenDeathWinMs) == s
  {
    if s.fastestSuddenDeathWinMs.None? || durationMs < s.fastestSuddenDeathWinMs.value
    then s.(fastestSuddenDeathWinMs := Some(durationMs))
    else s
  }

  /** Everything `checkResult` does to the counters: the outcome, then, for a
      sudden-death win, the record of the game's duration. */
  function FinishGame(s: GameStats, outcome: Outcome, d: Difficulty, m: Mode, durationMs: int): (r: GameStats)
    ensures Consistent(s) ==> Consistent(r)
    ensures r.(fastestSuddenDeathWinMs := s.fastestSuddenDeathWinMs) == ApplyOutcome(s, outcome, d, m)
    ensures outcome == PlayerWin && m == SuddenDeath ==>
      r.fastestSuddenDeathWinMs ==
        if s.fastestSuddenDeathWinMs.None? || durationMs < s.fastestSuddenDeathWinMs.value
        then Some(durationMs) else s.fastestSuddenDeathWinMs
    ensures !(outcome == PlayerWin && m == SuddenDeath) ==> r.fastestSuddenDeathWinMs == s.fastestSuddenDeathWinMs
  {
    var a := ApplyOutcome(s, outcome, d, m);
    if outcome == PlayerWin && m == SuddenDeath then RecordFastestWin(a, durationMs) else a
  }

  /** `handleSuddenDeathTimeout`: the player whose turn it was forfeits. */
  function RecordTimeout(s: GameStats, timedOut: Mark): (r: GameStats)
    ensures timedOut == X ==>
      && r.aiWins == s.aiWins + 1
      && r.consecutivePlayerLosses == s.consecutivePlayerLosses + 1
      && r.consecutivePlayerWins == 0
      && r.playerWins == s.playerWins
    ensures timedOut != X ==>
      && r.playerWins == s.playerWins + 1
      && r.consecutivePlayerWins == s.consecutivePlayerWins + 1
      && r.consecutivePlayerLosses == 0
      && r.aiWins == s.aiWins
    ensures r.draws == s.draws && r.totalGames == s.totalGames
    ensures r.playerWinsByDifficulty == s.playerWinsByDifficulty
    ensures r.playerWinsByMode == s.playerWinsByMode
    ensures r.fastestSuddenDeathWinMs == s.fastestSuddenDeathWinMs
    ensures r.lastDailyChallengeDate == s.lastDailyChallengeDate
    ensures Consistent(s) ==> Consistent(r)
  {
    if timedOut == X then
      s.(aiWins := s.aiWins + 1, consecutivePlayerLosses := s.consecutivePlayerLosses + 1,
         consecutivePlayerWins := 0)
    else
      s.(playerWins := s.playerWins + 1, consecutivePlayerWins := s.consecutivePlayerWins + 1,
         consecutivePlayerLosses := 0)
  }

  /** A human timeout counts exactly as an AI win from `checkResult` would. */
  lemma HumanTimeoutIsAIWin(s: GameStats, d: Difficulty, m: Mode)
    ensures RecordTimeout(s, X) == ApplyOutcome(s, AIWin, d, m)
  {
  }

  /** An AI timeout scores a player win but, unlike `checkResult`, leaves the
      per-difficulty and per-mode tables alone. */
  lemma AITimeoutSkipsTables(s: GameStats, d: Difficulty, m: Mode)
    ensures RecordTimeout(s, O) ==
      ApplyOutcome(s, PlayerWin, d, m).(playerWinsByDifficulty := s.playerWinsByDifficulty,
                                         playerWinsByMode := s.playerWinsByMode)
  {
  }
}
