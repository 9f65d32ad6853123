/** The rules of the three twist modes that do not live in the turn loop:
    the daily challenge boards and date rule, the blind-play schedule and
    cell pick, and the sudden-death clock. */
module Modes {
  import opened Wrappers
  import opened Chance
  import opened Board

  /** `DAILY_CHALLENGE_BOARDS`, in order. */
  const DailyChallengeBoards: seq<Board> := [
    [Empty, Empty, Empty, Empty, X, Empty, Empty, Empty, O],
    [O, Empty, Empty, Empty, X, Empty, Empty, Empty, Empty],
    [Empty, Empty, O, Empty, X, Empty, Empty, Empty, Empty],
    [X, Empty, O, Empty, Empty, Empty, O, Empty, Empty],
    [Empty, O, Empty, X, Empty, Empty, Empty, O, Empty],
    [O, Empty, Empty, Empty, Empty, Empty, Empty, Empty, X]
  ]

  /** Every challenge board is still open and holds an X and an O (so a
      flawless victory is already out of reach). */
  lemma DailyBoardsPlayable(k: int)
    requires 0 <= k < |DailyChallengeBoards|
    ensures var b := DailyChallengeBoards[k];
      Winner(b).None? && !IsFull(b) && X in b && O in b
  {
    var b := DailyChallengeBoards[k];
    assert !LineWon(b, WinningCombos[0]) && !LineWon(b, WinningCombos[1]) && !LineWon(b, WinningCombos[2]);
    assert !LineWon(b, WinningCombos[3]) && !LineWon(b, WinningCombos[4]) && !LineWon(b, WinningCombos[5]);
    assert !LineWon(b, WinningCombos[6]) && !LineWon(b, WinningCombos[7]);
  }

  /** The daily-challenge date test: a new board is drawn when the stored date
      differs from today or is missing (`null` or empty). */
  predicate NeedsNewDaily(last: Option<string>, today: string) {
    last != Some(today) || last == None || last == Some("")
  }

  /** The board is kept exactly when today's date is already stored (and is
      not the empty string). */
  lemma NeedsNewDailyExactly(last: Option<string>, today: string)
    ensures !NeedsNewDaily(last, today) <==> last == Some(today) && today != ""
  {
  }

  /** The board index drawn by `Math.floor(Math.random() * 6)`. */
  function DailyIndex(draw: real): (k: nat)
    requires IsDraw(draw)
    ensures k < |DailyChallengeBoards|
  {
    RandomIndex(draw, |DailyChallengeBoards|)
  }

  /** What the daily rule carries from one game to the next: the stored date
      (part of the saved statistics) and the board index (a page global). */
  datatype DailyState = DailyState(lastDate: Option<string>, index: nat)

  /** The daily rule of `initializeGame`: a new date draws a new board and
      stores the date; the same date keeps both. */
  function DailyNext(st: DailyState, today: string, draw: real): (r: DailyState)
    requires IsDraw(draw)
    ensures NeedsNewDaily(st.lastDate, today) ==> r.lastDate == Some(today) && r.index == DailyIndex(draw)
    ensures !NeedsNewDaily(st.lastDate, today) ==> r == st
  {
    if NeedsNewDaily(st.lastDate, today) then DailyState(Some(today), DailyIndex(draw)) else st
  }

  /** A page reload as written: the date comes back with the saved
      statistics, but the index is not saved and restarts at its initial 0. */
  function ReloadAsWritten(st: DailyState): (r: DailyState)
    ensures r.lastDate == st.lastDate && r.index == 0
  {
    DailyState(st.lastDate, 0)
  }

  /** A page reload that saves the index together with the date. */
  function Reload(st: DailyState): (r: DailyState)
    ensures r == st
  {
    DailyState(st.lastDate, st.index)
  }

  /** As written, a reload later the same day shows board 0 instead of that
      day's board: a first game on a day whose draw is 0.5 gets board 3, and
      after a reload the next game that day gets board 0. */
  lemma SameDayBoardLostAsWritten()
    ensures var today := "2026-10-14";
      var first := DailyNext(DailyState(None, 0), today, 0.5);
      first.index == 3 && DailyNext(ReloadAsWritten(first), today, 0.5).index == 0
  {
    assert (0.5 * 6 as real).Floor == 3;
  }

  /** With the index saved, every later game on the same (non-empty) date
      gets the board the first game of the day drew, whatever the later draw. */
  lemma SameDayBoardKept(st: DailyState, today: string, draw: real, laterDraw: real)
    requires IsDraw(draw) && IsDraw(laterDraw) && today != ""
    ensures var first := DailyNext(st, today, draw);
      DailyNext(Reload(first), today, laterDraw) == first
  {
    var first := DailyNext(st, today, draw);
    NeedsNewDailyExactly(first.lastDate, today);
  }

  /** Every challenge board can be drawn. */
  lemma EveryDailyBoardReachable(k: nat)
    requires k < |DailyChallengeBoards|
    ensures exists u :: IsDraw(u) && DailyIndex(u) == k
  {
    EveryIndexReachable(|DailyChallengeBoards|, k);
  }

  /** The blind interval's schedule: turn 3 and every second turn after it
      blinds cells; every other turn unblinds them. */
  predicate ToggleTick(turnCount: int) {
    turnCount >= 3 && turnCount % 2 != 0
  }

  /** Toggling and unblinding alternate from turn 3 on. */
  lemma ToggleAlternates(n: int)
    requires n >= 3
    ensures ToggleTick(n) <==> !ToggleTick(n + 1)
    ensures ToggleTick(n) <==> ToggleTick(n + 2)
  {
  }

  /** The cells `toggleBlindCells` draws from: all occupied cells once more
      than three are occupied, all empty cells otherwise, in increasing order. */
  function BlindPool(b: Board): (pool: seq<int>)
    ensures forall k :: 0 <= k < |pool| ==> 0 <= pool[k] < 9
    ensures |OccupiedCells(b)| > 3 ==> forall k :: 0 <= k < |pool| ==> b[pool[k]] != Empty
    ensures |OccupiedCells(b)| <= 3 ==> forall k :: 0 <= k < |pool| ==> b[pool[k]] == Empty
    ensures forall c :: c in pool <==>
      0 <= c < 9 && (if |OccupiedCells(b)| > 3 then b[c] != Empty else b[c] == Empty)
    ensures StrictlyIncreasing(pool) && Distinct(pool)
  {
    CellsFromSorted(b, 0, true);
    CellsFromSorted(b, 0, false);
    CellsFromExact(b, true);
    CellsFromExact(b, false);
    var occupied := OccupiedCells(b);
    if |occupied| > 3 then occupied else EmptyCells(b)
  }

  /** On a nine-cell board the pool always holds at least four cells (more
      than three occupied, or at least six empty), so two cells are blinded
      every time and the early return for an empty pool is never taken. */
  lemma BlindPoolSize(b: Board)
    ensures |BlindPool(b)| >= 4 && NumToBlind(|BlindPool(b)|) == 2
  {
    CellsFromSplit(b, 0);
  }

  predicate Distinct(s: seq<int>) {
    forall k, l :: 0 <= k < l < |s| ==> s[k] != s[l]
  }

  /** `Math.min(2, Math.floor(n / 2))`. */
  function NumToBlind(poolSize: nat): (n: nat)
    ensures n <= 2 && 2 * n <= poolSize
    ensures n == 2 || 2 * (n + 1) > poolSize
  {
    if 2 <= poolSize / 2 then 2 else poolSize / 2
  }

  /** The picking loop of `toggleBlindCells`: each pick draws a pool index
      with `Math.random`, redrawing while the cell is already chosen. The
      draws are given as a sequence; should it run out mid-redraw, any cell not
      yet chosen stands in for the draw that would have found it. */
  method PickBlindCells(pool: seq<int>, draws: seq<real>) returns (chosen: seq<int>)
    requires |pool| > 0 && Distinct(pool)
    requires forall k :: 0 <= k < |draws| ==> IsDraw(draws[k])
    ensures |chosen| == NumToBlind(|pool|)
    ensures Distinct(chosen)
    ensures forall k :: 0 <= k < |chosen| ==> chosen[k] in pool
  {
    var numToBlind := NumToBlind(|pool|);
    chosen := [];
    var next := 0;
    for i := 0 to numToBlind
      invariant |chosen| == i && Distinct(chosen)
      invariant forall k :: 0 <= k < |chosen| ==> chosen[k] in pool
      invariant 0 <= next
    {
      var cell;
      if next < |draws| {
        cell := pool[RandomIndex(draws[next], |pool|)];
        next := next + 1;
      } else {
        cell := pool[0];
      }
      while cell in chosen && |pool| > |chosen|
        invariant cell in pool
        decreases |draws| - next, if cell in chosen then 1 else 0
      {
        if next < |draws| {
          cell := pool[RandomIndex(draws[next], |pool|)];
          next := next + 1;
        } else {
          FreshCellExists(pool, chosen);
          cell :| cell in pool && cell !in chosen;
        }
      }
      assert cell !in chosen;
      chosen := chosen + [cell];
    }
  }

  /** Pigeonhole: a distinct pool larger than the chosen list has a cell
      outside it. */
  lemma FreshCellExists(pool: seq<int>, chosen: seq<int>)
    requires Distinct(pool) && |chosen| < |pool|
    ensures exists c :: c in pool && c !in chosen
  {
    if forall c :: c in pool ==> c in chosen {
      var ps := set c | c in pool;
      var cs := set c | c in chosen;
      assert ps <= cs;
      DistinctCard(pool);
      SetCardAtMost(chosen);
      SubsetCard(ps, cs);
      assert false;
    }
  }

  lemma {:induction false} DistinctCard(s: seq<int>)
    requires Distinct(s)
    ensures |set c | c in s| == |s|
  {
    if s != [] {
      DistinctCard(s[1..]);
      assert (set c | c in s) == {s[0]} + (set c | c in s[1..]);
      assert s[0] !in s[1..];
    }
  }

  lemma {:induction false} SetCardAtMost(s: seq<int>)
    ensures |set c | c in s| <= |s|
  {
    if s != [] {
      SetCardAtMost(s[1..]);
      assert (set c | c in s) == {s[0]} + (set c | c in s[1..]);
    }
  }

  lemma SubsetCard(a: set<int>, b: set<int>)
    requires a <= b
    ensures |a| <= |b|
  {
    assert b == a + (b - a);
  }

  /** The sudden-death expiry test `10 - elapsed / 1000 <= 0`, on reals. */
  predicate TurnExpired(elapsedMs: int) {
    10.0 - elapsedMs as real / 1000.0 <= 0.0
  }

  /** A turn expires exactly when ten seconds have passed since it began. */
  lemma TurnExpiredExactly(elapsedMs: int)
    ensures TurnExpired(elapsedMs) <==> elapsedMs >= 10000
  {
  }
}
