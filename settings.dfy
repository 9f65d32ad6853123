/** The two game settings the core reads. */
module Settings {
  /** `'zen'`, `'strategist'`, `'punisher'`. */
  datatype Difficulty = Zen | Strategist | Punisher

  /** `'standard'`, `'suddenDeath'`, `'blindPlay'`, `'dailyChallenge'`. */
  datatype Mode = Standard | SuddenDeath | BlindPlay | DailyChallenge
}
