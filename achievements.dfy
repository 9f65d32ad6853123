/** The achievement list and its rule evaluator (`updateAchievements`,
    `unlockAchievement`). */
module Achievements {
  import opened Board
  import opened Settings
  import opened Stats

  datatype AchievementId =
    | FirstWin
    | MasterOfDespairBronze | MasterOfDespairSilver | MasterOfDespairGold | MasterOfDespairPlatinum
    | UnstoppableForce | PerfectGame | BreakingFlow | DrawSpecialist | NeverGiveUp
    | SuddenDeathSurvivor | SuddenDeathChampion | BlindPlayInitiate | DailyChallengeConqueror
    | TacticalGenius | LuckyStrike | ThemesUnlocked

  /** One entry of the `achievements` array; names, descriptions and icons are
      presentation only. */
  datatype Achievement = Achievement(id: AchievementId, unlocked: bool)

  /** The ids of `ACHIEVEMENTS_DATA`, in its order. */
  const CatalogIds: seq<AchievementId> := [
    FirstWin, MasterOfDespairBronze, MasterOfDespairSilver, MasterOfDespairGold,
    MasterOfDespairPlatinum, UnstoppableForce, PerfectGame, BreakingFlow, DrawSpecialist,
    NeverGiveUp, SuddenDeathSurvivor, SuddenDeathChampion, BlindPlayInitiate,
    DailyChallengeConqueror, TacticalGenius, LuckyStrike, ThemesUnlocked
  ]

  /** The tiered difficulty achievements with their thresholds. */
  const DespairTiers: seq<(AchievementId, nat)> := [
    (MasterOfDespairBronze, 1), (MasterOfDespairSilver, 5),
    (MasterOfDespairGold, 10), (MasterOfDespairPlatinum, 25)
  ]

  /** The mode-scoped achievements with their modes and thresholds. */
  const ModeRules: seq<(AchievementId, Mode, nat)> := [
    (SuddenDeathSurvivor, SuddenDeath, 1), (SuddenDeathChampion, SuddenDeath, 5),
    (BlindPlayInitiate, BlindPlay, 1), (DailyChallengeConqueror, DailyChallenge, 1)
  ]

  /** A fresh copy of the catalog, everything locked. */
  function Catalog(): (a: seq<Achievement>)
    ensures HasAll(a) && UnlockedIds(a) == {}
  {
    var a := seq(|CatalogIds|, k requires 0 <= k < |CatalogIds| => Achievement(CatalogIds[k], false));
    forall id: AchievementId ensures id in Ids(a) {
      IdAt(a, IndexIn(id));
    }
    NoneUnlocked(a);
    a
  }

  /** Where each id sits in the catalog. */
  function IndexIn(id: AchievementId): (k: nat)
    ensures k < |CatalogIds| && CatalogIds[k] == id
  {
    match id
    case FirstWin => 0
    case MasterOfDespairBronze => 1
    case MasterOfDespairSilver => 2
    case MasterOfDespairGold => 3
    case MasterOfDespairPlatinum => 4
    case UnstoppableForce => 5
    case PerfectGame => 6
    case BreakingFlow => 7
    case DrawSpecialist => 8
    case NeverGiveUp => 9
    case SuddenDeathSurvivor => 10
    case SuddenDeathChampion => 11
    case BlindPlayInitiate => 12
    case DailyChallengeConqueror => 13
    case TacticalGenius => 14
    case LuckyStrike => 15
    case ThemesUnlocked => 16
  }

  /** Ids that have an entry in the list. */
  function Ids(a: seq<Achievement>): set<AchievementId> {
    if a == [] then {} else {a[0].id} + Ids(a[1..])
  }

  /** Ids whose entry in the list is unlocked. */
  function UnlockedIds(a: seq<Achievement>): set<AchievementId> {
    if a == [] then {} else (if a[0].unlocked then {a[0].id} else {}) + UnlockedIds(a[1..])
  }

  lemma {:induction false} IdAt(a: seq<Achievement>, k: nat)
    requires k < |a|
    ensures a[k].id in Ids(a)
  {
    if k > 0 { IdAt(a[1..], k - 1); }
  }

  lemma {:induction false} NoneUnlocked(a: seq<Achievement>)
    requires forall k :: 0 <= k < |a| ==> !a[k].unlocked
    ensures UnlockedIds(a) == {}
  {
    if a != [] { NoneUnlocked(a[1..]); }
  }

  /** Every id has an entry, so `getAchievement` always finds one. */
  predicate HasAll(a: seq<Achievement>) {
    forall id: AchievementId :: id in Ids(a)
  }

  /** `unlockAchievement`: the first entry with that id (`find`) is set to
      unlocked if it was locked; nothing else changes. */
  function Unlock(a: seq<Achievement>, id: AchievementId): (r: seq<Achievement>)
    ensures |r| == |a|
    ensures forall k :: 0 <= k < |a| ==> r[k].id == a[k].id
    ensures forall k :: 0 <= k < |a| && a[k].unlocked ==> r[k].unlocked
    ensures forall k :: 0 <= k < |a| && a[k].id != id ==> r[k] == a[k]
  {
    if a == [] then []
    else if a[0].id == id then
      if !a[0].unlocked then [a[0].(unlocked := true)] + a[1..] else a
    else [a[0]] + Unlock(a[1..], id)
  }

  /** Unlocking adds exactly `id` to the unlocked ids, when `id` has an entry. */
  lemma {:induction false} UnlockAdds(a: seq<Achievement>, id: AchievementId)
    ensures UnlockedIds(Unlock(a, id)) == UnlockedIds(a) + (if id in Ids(a) then {id} else {})
    ensures Ids(Unlock(a, id)) == Ids(a)
  {
    if a != [] {
      var r := Unlock(a, id);
      if a[0].id == id {
        assert r[1..] == a[1..];
      } else {
        assert r[1..] == Unlock(a[1..], id);
        UnlockAdds(a[1..], id);
      }
    }
  }

  /** A second unlock of the same id changes nothing. */
  lemma {:induction false} UnlockIdempotent(a: seq<Achievement>, id: AchievementId)
    ensures Unlock(Unlock(a, id), id) == Unlock(a, id)
  {
    if a != [] && a[0].id != id {
      UnlockIdempotent(a[1..], id);
      assert Unlock(a, id)[1..] == Unlock(a[1..], id);
    }
  }

  /** `resetStats`: every entry locked again, nothing else changed. */
  function LockAll(a: seq<Achievement>): (r: seq<Achievement>)
    ensures |r| == |a| && forall k :: 0 <= k < |a| ==> r[k] == a[k].(unlocked := false)
    ensures UnlockedIds(r) == {} && Ids(r) == Ids(a)
  {
    if a == [] then [] else [a[0].(unlocked := false)] + LockAll(a[1..])
  }

  /** Unlocks applied one after another, in the given order. */
  function UnlockEach(a: seq<Achievement>, ids: seq<AchievementId>): seq<Achievement>
    decreases |ids|
  {
    if ids == [] then a else UnlockEach(Unlock(a, ids[0]), ids[1..])
  }

  /** A run of unlocks adds exactly the listed ids that have an entry. */
  lemma {:induction false} UnlockEachAdds(a: seq<Achievement>, ids: seq<AchievementId>)
    decreases |ids|
    ensures Ids(UnlockEach(a, ids)) == Ids(a)
    ensures UnlockedIds(UnlockEach(a, ids)) == UnlockedIds(a) + (set id | id in ids && id in Ids(a))
  {
    if ids != [] {
      UnlockAdds(a, ids[0]);
      UnlockEachAdds(Unlock(a, ids[0]), ids[1..]);
      assert forall id :: id in ids <==> id == ids[0] || id in ids[1..];
    }
  }

  /** What `updateAchievements` is called with: `'win'`, `'lose'`, `'draw'`
      or `'timeout'`. */
  datatype GameEvent = Won | Lost | Drawn | TimedOutEvent

  /** Everything the rules read: the statistics after the result was
      recorded, the event, the flawless flag, the mode and the mark counts of
      the final board. `lossStreakBefore` is the loss streak as it stood before
      the result was recorded and `turnElapsedMs` the time into the deciding
      turn at which its move was made (the two inputs of the corrected
      `breakingFlow` and `luckyStrike` rules); `themesSeen` is the theme
      check's result, which reads browser storage and the page. */
  datatype Context = Context(
    stats: GameStats, event: GameEvent, flawless: bool, mode: Mode,
    xMarks: nat, oMarks: nat, lossStreakBefore: nat, turnElapsedMs: int, themesSeen: bool)

  /** The `neverGiveUp` condition as written, a disjunction. */
  function NeverGiveUpRule(s: GameStats): (r: bool)
    ensures r <==> s.totalGames >= 10 && s.playerWins == 0
  {
    (s.totalGames >= 10 && s.playerWins == 0) ||
    (s.totalGames - s.playerWins - s.aiWins - s.draws >= 10 && s.playerWins == 0)
  }

  /** The tiers whose threshold either counter reaches, in order. */
  function DespairEarned(s: GameStats, tiers: seq<(AchievementId, nat)>): seq<AchievementId> {
    if tiers == [] then []
    else
      (if s.playerWinsByDifficulty.strategist >= tiers[0].1 || s.playerWinsByDifficulty.punisher >= tiers[0].1
       then [tiers[0].0] else []) + DespairEarned(s, tiers[1..])
  }

  /** The mode achievements whose mode counter reaches the threshold, in order. */
  function ModeEarned(s: GameStats, rules: seq<(AchievementId, Mode, nat)>): seq<AchievementId> {
    if rules == [] then []
    else
      (if s.playerWinsByMode.Get(rules[0].1) >= rules[0].2 then [rules[0].0] else []) + ModeEarned(s, rules[1..])
  }

  /** The four counter rules at the head of `updateAchievements`. */
  function GeneralEarned(s: GameStats): seq<AchievementId> {
    (if s.playerWins >= 1 then [FirstWin] else [])
    + (if s.draws >= 3 then [DrawSpecialist] else [])
    + (if s.consecutivePlayerWins >= 3 then [UnstoppableForce] else [])
    + (if NeverGiveUpRule(s) then [NeverGiveUp] else [])
  }

  /** Seconds left on the sudden-death clock (`10 - elapsed / 1000`). */
  function TimeLeft(turnElapsedMs: int): real {
    10.0 - turnElapsedMs as real / 1000.0
  }

  /** The rules that only a win can trigger. `breakingFlow` and `luckyStrike`
      are the corrected rules; see `BreakingFlowAsWritten` and
      `LuckyStrikeAsWritten`. */
  function WinEarned(c: Context): seq<AchievementId> {
    var won := c.event == Won;
    (if won && c.flawless then [PerfectGame] else [])
    + (if won && c.lossStreakBefore >= 2 then [BreakingFlow] else [])
    + (if won && c.mode == SuddenDeath && TimeLeft(c.turnElapsedMs) <= 1.5 then [LuckyStrike] else [])
    + (if won && c.xMarks == 5 && c.oMarks == 4 then [TacticalGenius] else [])
  }

  /** The `unlockAchievement` calls of `updateAchievements`, in source order. */
  function EarnedInOrder(c: Context): seq<AchievementId> {
    GeneralEarned(c.stats)
    + DespairEarned(c.stats, DespairTiers)
    + ModeEarned(c.stats, ModeRules)
    + WinEarned(c)
    + (if c.themesSeen then [ThemesUnlocked] else [])
  }

  /** The rule of each achievement on its own, as the catalog describes it. */
  predicate Rule(c: Context, id: AchievementId) {
    var s := c.stats;
    var won := c.event == Won;
    match id
    case FirstWin => s.playerWins >= 1
    case MasterOfDespairBronze => s.playerWinsByDifficulty.strategist >= 1 || s.playerWinsByDifficulty.punisher >= 1
    case MasterOfDespairSilver => s.playerWinsByDifficulty.strategist >= 5 || s.playerWinsByDifficulty.punisher >= 5
    case MasterOfDespairGold => s.playerWinsByDifficulty.strategist >= 10 || s.playerWinsByDifficulty.punisher >= 10
    case MasterOfDespairPlatinum => s.playerWinsByDifficulty.strategist >= 25 || s.playerWinsByDifficulty.punisher >= 25
    case UnstoppableForce => s.consecutivePlayerWins >= 3
    case PerfectGame => won && c.flawless
    case BreakingFlow => won && c.lossStreakBefore >= 2
    case DrawSpecialist => s.draws >= 3
    case NeverGiveUp => s.totalGames >= 10 && s.playerWins == 0
    case SuddenDeathSurvivor => s.playerWinsByMode.suddenDeath >= 1
    case SuddenDeathChampion => s.playerWinsByMode.suddenDeath >= 5
    case BlindPlayInitiate => s.playerWinsByMode.blindPlay >= 1
    case DailyChallengeConqueror => s.playerWinsByMode.dailyChallenge >= 1
    case TacticalGenius => won && c.xMarks == 5 && c.oMarks == 4
    case LuckyStrike => won && c.mode == SuddenDeath && c.turnElapsedMs >= 8500
    case ThemesUnlocked => c.themesSeen
  }

  /** The evaluator unlocks an id exactly when that id's own rule holds. */
  lemma EarnedExactly(c: Context, id: AchievementId)
    ensures id in EarnedInOrder(c) <==> Rule(c, id)
  {
    EarnedSound(c, id);
    EarnedComplete(c, id);
  }

  /** Everything the evaluator unlocks satisfies its rule. */
  lemma EarnedSound(c: Context, id: AchievementId)
    ensures id in EarnedInOrder(c) ==> Rule(c, id)
  {
    var s := c.stats;
    var g, d, m, w := GeneralEarned(s), DespairEarned(s, DespairTiers), ModeEarned(s, ModeRules), WinEarned(c);
    assert EarnedInOrder(c) == g + d + m + w + (if c.themesSeen then [ThemesUnlocked] else []);
    if id in g {
      GeneralSound(c, id);
    } else if id in d {
      DespairSound(c, id);
    } else if id in m {
      ModeSound(c, id);
    } else if id in w {
      WinSound(c, id);
    }
  }

  lemma GeneralSound(c: Context, id: AchievementId)
    requires id in GeneralEarned(c.stats)
    ensures Rule(c, id)
  {
    GeneralMembers(c.stats, id);
  }

  lemma DespairSound(c: Context, id: AchievementId)
    requires id in DespairEarned(c.stats, DespairTiers)
    ensures Rule(c, id)
  {
    DespairMembers(c.stats, id);
  }

  lemma ModeSound(c: Context, id: AchievementId)
    requires id in ModeEarned(c.stats, ModeRules)
    ensures Rule(c, id)
  {
    ModeMembers(c.stats, id);
  }

  lemma WinSound(c: Context, id: AchievementId)
    requires id in WinEarned(c)
    ensures Rule(c, id)
  {
    WinMembers(c, id);
  }

  /** Every achievement whose rule holds is unlocked by the evaluator. */
  lemma EarnedComplete(c: Context, id: AchievementId)
    ensures Rule(c, id) ==> id in EarnedInOrder(c)
  {
    var s := c.stats;
    var g, d, m, w := GeneralEarned(s), DespairEarned(s, DespairTiers), ModeEarned(s, ModeRules), WinEarned(c);
    assert EarnedInOrder(c) == g + d + m + w + (if c.themesSeen then [ThemesUnlocked] else []);
    if Rule(c, id) {
      if id in {FirstWin, DrawSpecialist, UnstoppableForce, NeverGiveUp} {
        GeneralMembers(s, id);
        assert id in g;
      } else if id in {MasterOfDespairBronze, MasterOfDespairSilver, MasterOfDespairGold, MasterOfDespairPlatinum} {
        DespairMembers(s, id);
        assert id in d;
      } else if id in {SuddenDeathSurvivor, SuddenDeathChampion, BlindPlayInitiate, DailyChallengeConqueror} {
        ModeMembers(s, id);
        assert id in m;
      } else if id in {PerfectGame, BreakingFlow, LuckyStrike, TacticalGenius} {
        WinMembers(c, id);
        assert id in w;
      }
    }
  }

  lemma GeneralMembers(s: GameStats, id: AchievementId)
    ensures id in GeneralEarned(s) <==>
      (id == FirstWin && s.playerWins >= 1) || (id == DrawSpecialist && s.draws >= 3) ||
      (id == UnstoppableForce && s.consecutivePlayerWins >= 3) ||
      (id == NeverGiveUp && s.totalGames >= 10 && s.playerWins == 0)
  {
  }

  lemma DespairMembers(s: GameStats, id: AchievementId)
    ensures var ds := s.playerWinsByDifficulty;
      id in DespairEarned(s, DespairTiers) <==>
      (id == MasterOfDespairBronze && (ds.strategist >= 1 || ds.punisher >= 1)) ||
      (id == MasterOfDespairSilver && (ds.strategist >= 5 || ds.punisher >= 5)) ||
      (id == MasterOfDespairGold && (ds.strategist >= 10 || ds.punisher >= 10)) ||
      (id == MasterOfDespairPlatinum && (ds.strategist >= 25 || ds.punisher >= 25))
  {
    DespairUnfold(s);
  }

  /** The tier list unrolled into its four tiers. */
  lemma DespairUnfold(s: GameStats)
    ensures var ds, t := s.playerWinsByDifficulty, DespairTiers;
      DespairEarned(s, t) ==
        (if ds.strategist >= t[0].1 || ds.punisher >= t[0].1 then [t[0].0] else []) +
        ((if ds.strategist >= t[1].1 || ds.punisher >= t[1].1 then [t[1].0] else []) +
        ((if ds.strategist >= t[2].1 || ds.punisher >= t[2].1 then [t[2].0] else []) +
        (if ds.strategist >= t[3].1 || ds.punisher >= t[3].1 then [t[3].0] else [])))
  {
    var t := DespairTiers;
    assert t == [t[0]] + ([t[1]] + ([t[2]] + ([t[3]] + [])));
    DespairCons(s, t[3], []);
    DespairCons(s, t[2], [t[3]] + []);
    DespairCons(s, t[1], [t[2]] + ([t[3]] + []));
    DespairCons(s, t[0], [t[1]] + ([t[2]] + ([t[3]] + [])));
    assert DespairEarned(s, []) == [];
  }

  /** One step of the tier scan. */
  lemma DespairCons(s: GameStats, r: (AchievementId, nat), u: seq<(AchievementId, nat)>)
    ensures var ds := s.playerWinsByDifficulty;
      DespairEarned(s, [r] + u) == (if ds.strategist >= r.1 || ds.punisher >= r.1 then [r.0] else []) + DespairEarned(s, u)
  {
    assert ([r] + u)[1..] == u;
  }

  lemma ModeMembers(s: GameStats, id: AchievementId)
    ensures var ms := s.playerWinsByMode;
      id in ModeEarned(s, ModeRules) <==>
      (id == SuddenDeathSurvivor && ms.suddenDeath >= 1) || (id == SuddenDeathChampion && ms.suddenDeath >= 5) ||
      (id == BlindPlayInitiate && ms.blindPlay >= 1) || (id == DailyChallengeConqueror && ms.dailyChallenge >= 1)
  {
    ModeUnfold(s);
  }

  /** The mode rule list unrolled into its four rules. */
  lemma ModeUnfold(s: GameStats)
    ensures var ms, t := s.playerWinsByMode, ModeRules;
      ModeEarned(s, t) ==
        (if ms.Get(t[0].1) >= t[0].2 then [t[0].0] else []) +
        ((if ms.Get(t[1].1) >= t[1].2 then [t[1].0] else []) +
        ((if ms.Get(t[2].1) >= t[2].2 then [t[2].0] else []) +
        (if ms.Get(t[3].1) >= t[3].2 then [t[3].0] else [])))
  {
    var t := ModeRules;
    assert t == [t[0]] + ([t[1]] + ([t[2]] + ([t[3]] + [])));
    ModeCons(s, t[3], []);
    ModeCons(s, t[2], [t[3]] + []);
    ModeCons(s, t[1], [t[2]] + ([t[3]] + []));
    ModeCons(s, t[0], [t[1]] + ([t[2]] + ([t[3]] + [])));
    assert ModeEarned(s, []) == [];
  }

  /** One step of the mode rule scan. */
  lemma ModeCons(s: GameStats, r: (AchievementId, Mode, nat), u: seq<(AchievementId, Mode, nat)>)
    ensures ModeEarned(s, [r] + u) == (if s.playerWinsByMode.Get(r.1) >= r.2 then [r.0] else []) + ModeEarned(s, u)
  {
    assert ([r] + u)[1..] == u;
  }

  lemma WinMembers(c: Context, id: AchievementId)
    ensures var won := c.event == Won;
      id in WinEarned(c) <==>
      (id == PerfectGame && won && c.flawless) ||
      (id == BreakingFlow && won && c.lossStreakBefore >= 2) ||
      (id == LuckyStrike && won && c.mode == SuddenDeath && c.turnElapsedMs >= 8500) ||
      (id == TacticalGenius && won && c.xMarks == 5 && c.oMarks == 4)
  {
    assert TimeLeft(c.turnElapsedMs) <= 1.5 <==> c.turnElapsedMs >= 8500;
  }

  /** The tiers compare each counter with the threshold on its own: with
      fewer than five Strategist wins and fewer than five Punisher wins the
      five-win tier stays locked, however many the two add up to. */
  lemma DespairNotSummed(c: Context)
    requires c.stats.playerWinsByDifficulty.strategist < 5 && c.stats.playerWinsByDifficulty.punisher < 5
    ensures MasterOfDespairSilver !in EarnedInOrder(c)
  {
    EarnedExactly(c, MasterOfDespairSilver);
  }

  /** `breakingFlow` as written: the loss streak is read from the statistics
      after the win was recorded. */
  predicate BreakingFlowAsWritten(c: Context) {
    c.event == Won && c.stats.consecutivePlayerLosses >= 2
  }

  /** As written, `breakingFlow` can never fire on a win recorded by
      `checkResult`: the win has already zeroed the streak it tests. The
      corrected rule fires on the same win whenever the streak before it was
      two or more. */
  lemma BreakingFlowUnreachableAsWritten(s: GameStats, d: Difficulty, durationMs: int, c: Context)
    requires c.event == Won && c.stats == FinishGame(s, PlayerWin, d, c.mode, durationMs)
    requires c.lossStreakBefore == s.consecutivePlayerLosses
    ensures !BreakingFlowAsWritten(c)
    ensures BreakingFlow in EarnedInOrder(c) <==> s.consecutivePlayerLosses >= 2
  {
    EarnedExactly(c, BreakingFlow);
  }

  /** `luckyStrike` as written: `(Date.now() - currentTurnStartTime) / 1000
      <= 1.5`, where `msSinceReset` is measured from the turn-clock reset that
      `placeMark` has just made for the winning move. */
  predicate LuckyStrikeAsWritten(c: Context, msSinceReset: int) {
    c.event == Won && c.mode == SuddenDeath && msSinceReset as real / 1000.0 <= 1.5
  }

  /** The winning move resets the clock just before the check, so the
      written test always measures 0 ms since the reset (`Game.Game.MakeMove`
      derives this from the clock it sets). As written, then, every
      sudden-death win unlocks `luckyStrike`, even one made with eight seconds
      to spare; the corrected rule needs at most 1.5 seconds left. */
  lemma LuckyStrikeAlwaysAsWritten(c: Context)
    requires c.event == Won && c.mode == SuddenDeath
    ensures LuckyStrikeAsWritten(c, 0)
    ensures LuckyStrike in EarnedInOrder(c) <==> TimeLeft(c.turnElapsedMs) <= 1.5
    ensures c.turnElapsedMs == 2000 ==> LuckyStrike !in EarnedInOrder(c)
  {
    EarnedExactly(c, LuckyStrike);
  }

  /** Only a win can unlock the outcome-conditioned achievements. */
  lemma OutcomeRulesNeedWin(c: Context)
    requires c.event != Won
    ensures PerfectGame !in EarnedInOrder(c) && BreakingFlow !in EarnedInOrder(c)
    ensures LuckyStrike !in EarnedInOrder(c) && TacticalGenius !in EarnedInOrder(c)
  {
    EarnedSound(c, PerfectGame);
    EarnedSound(c, BreakingFlow);
    EarnedSound(c, LuckyStrike);
    EarnedSound(c, TacticalGenius);
  }
}
