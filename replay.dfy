/** The replay recorder and its cursor (`recordMove`, `updateReplayControls`,
    `playReplay`, `nextReplayStep`, `prevReplayStep`). */
module Replay {
  import opened Board

  /** One snapshot pushed by `recordMove`. */
  datatype ReplayEntry = ReplayEntry(board: Board, player: Mark, timestamp: int)

  /** The replay position: `replayCurrentStep`, and whether the playback
      interval is installed (`replayInterval` is not null). */
  datatype Cursor = Cursor(step: int, playing: bool)

  /** The cursor points at a recorded snapshot. */
  predicate InRange(c: Cursor, len: nat) {
    0 <= c.step < len
  }

  /** `updateReplayControls`: at or past the last snapshot the interval is
      cleared; the rest is button labels. */
  function Settle(c: Cursor, len: nat): (r: Cursor)
    ensures r.step == c.step
    ensures r.playing <==> c.playing && c.step < len - 1
  {
    if c.step >= len - 1 then c.(playing := false) else c
  }

  /** `nextReplayStep`: one step forward unless already at the last snapshot. */
  function Next(c: Cursor, len: nat): (r: Cursor)
    ensures r.step == (if c.step < len - 1 then c.step + 1 else c.step)
    ensures InRange(c, len) ==> InRange(r, len)
    ensures r.playing ==> c.playing
  {
    if c.step < len - 1 then Settle(c.(step := c.step + 1), len) else c
  }

  /** `prevReplayStep`: one step back unless already at the first snapshot. */
  function Prev(c: Cursor, len: nat): (r: Cursor)
    ensures r.step == (if c.step > 0 then c.step - 1 else c.step)
    ensures InRange(c, len) ==> InRange(r, len)
    ensures r.playing ==> c.playing
  {
    if c.step > 0 then Settle(c.(step := c.step - 1), len) else c
  }

  /** `playReplay` pressed: pauses a running playback; otherwise starts one,
      from the first snapshot when the cursor is at the end. */
  function Play(c: Cursor, len: nat): (r: Cursor)
    ensures c.playing ==> r == Cursor(c.step, false)
    ensures !c.playing ==> r.playing && r.step == (if c.step >= len - 1 then 0 else c.step)
    ensures InRange(c, len) ==> InRange(r, len)
  {
    if c.playing then Settle(c.(playing := false), len)
    else Cursor(if c.step >= len - 1 then 0 else c.step, true)
  }

  /** One firing of the playback interval as written: the step is incremented
      before any bound is looked at, and the interval is cleared once the step
      is at or past the last snapshot. */
  function TickAsWritten(c: Cursor, len: nat): (r: Cursor)
    ensures r.step == c.step + 1
    ensures r.playing <==> c.playing && c.step + 1 < len - 1
  {
    var stepped := Settle(c.(step := c.step + 1), len);
    if stepped.step >= len - 1 then stepped.(playing := false) else stepped
  }

  /** One firing of the playback interval as intended: advance only while a
      later snapshot exists, and stop at the last one. */
  function Tick(c: Cursor, len: nat): (r: Cursor)
    ensures InRange(c, len) ==> InRange(r, len)
    ensures r.step == (if c.step < len - 1 then c.step + 1 else c.step)
    ensures r.playing <==> c.playing && c.step + 1 < len - 1
  {
    if c.step < len - 1 then TickAsWritten(c, len) else c.(playing := false)
  }

  /** A single-snapshot history (a game whose first mover timed out before
      moving), replayed: the written tick moves the cursor past the end. */
  lemma TickOverrunsSingleSnapshot()
    ensures var c := Play(Cursor(0, false), 1);
      InRange(c, 1) && c.playing && !InRange(TickAsWritten(c, 1), 1)
  {
  }

  /** Whenever a later snapshot exists the two ticks agree. */
  lemma TicksAgree(c: Cursor, len: nat)
    requires c.step < len - 1
    ensures Tick(c, len) == TickAsWritten(c, len)
  {
  }

  /** In a history of two or more snapshots, every cursor `Play` starts has a
      later snapshot, so the written tick only overruns single-snapshot
      histories. */
  lemma PlayLeavesRoom(c: Cursor, len: nat)
    requires InRange(c, len) && !c.playing && len >= 2
    ensures Play(c, len).playing && Play(c, len).step < len - 1
  {
  }

  /** `n` firings of the intended interval. */
  function Ticks(c: Cursor, len: nat, n: nat): Cursor
    decreases n
  {
    if n == 0 then c else Ticks(Tick(c, len), len, n - 1)
  }

  /** A playback started anywhere stops exactly at the last snapshot after
      the remaining number of ticks. */
  lemma {:induction false} PlaybackEnds(c: Cursor, len: nat)
    requires InRange(c, len)
    decreases len - c.step
    ensures var e := Ticks(c, len, len - 1 - c.step);
      e.step == len - 1 && (c.step < len - 1 ==> !e.playing) && Tick(e, len) == Cursor(len - 1, false)
  {
    if c.step < len - 1 {
      PlaybackEnds(Tick(c, len), len);
    }
  }

  /** Forward then back returns to the same snapshot, and back then forward. */
  lemma StepRoundTrip(c: Cursor, len: nat)
    ensures 0 <= c.step < len - 1 ==> Prev(Next(c, len), len).step == c.step
    ensures c.step > 0 && c.step < len ==> Next(Prev(c, len), len).step == c.step
  {
  }
}
