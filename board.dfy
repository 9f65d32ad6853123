/** The 3x3 board: marks, the eight winning lines, win and draw detection
    and the list of empty cells. */
module Board {
  import opened Wrappers

  datatype Mark = Empty | X | O

  /** A board is always nine cells, row-major. */
  type Board = b: seq<Mark> | |b| == 9
    witness [Empty, Empty, Empty, Empty, Empty, Empty, Empty, Empty, Empty]

  type Cell = i: int | 0 <= i < 9

  type Line = (Cell, Cell, Cell)

  const EmptyBoard: Board := [Empty, Empty, Empty, Empty, Empty, Empty, Empty, Empty, Empty]

  /** Rows, then columns, then the two diagonals. */
  const WinningCombos: seq<Line> := [
    (0, 1, 2), (3, 4, 5), (6, 7, 8),
    (0, 3, 6), (1, 4, 7), (2, 5, 8),
    (0, 4, 8), (2, 4, 6)
  ]

  datatype WinInfo = WinInfo(player: Mark, cells: Line)

  /** All three cells of line `l` hold the same mark, and it is not empty. */
  predicate LineWon(b: Board, l: Line) {
    b[l.0] != Empty && b[l.0] == b[l.1] && b[l.1] == b[l.2]
  }

  /** Line `j` is the first won line at or after index `i`. */
  predicate FirstWonAt(b: Board, i: nat, j: nat) {
    i <= j < |WinningCombos| && LineWon(b, WinningCombos[j]) &&
    forall k :: i <= k < j ==> !LineWon(b, WinningCombos[k])
  }

  /** The scan of `getWinner` from line `i` on. */
  function WinnerFrom(b: Board, i: nat): (r: Option<WinInfo>)
    requires i <= |WinningCombos|
    decreases |WinningCombos| - i
    ensures r.None? <==> forall j :: i <= j < |WinningCombos| ==> !LineWon(b, WinningCombos[j])
    ensures r.Some? ==> exists j: nat ::
      FirstWonAt(b, i, j) && r.value == WinInfo(b[WinningCombos[j].0], WinningCombos[j])
    ensures r.Some? ==> r.value.player != Empty
  {
    if i == |WinningCombos| then None
    else if LineWon(b, WinningCombos[i]) then
      assert FirstWonAt(b, i, i);
      Some(WinInfo(b[WinningCombos[i].0], WinningCombos[i]))
    else
      var r := WinnerFrom(b, i + 1);
      assert r.Some? ==> exists j: nat :: FirstWonAt(b, i, j) && r.value == WinInfo(b[WinningCombos[j].0], WinningCombos[j]);
      r
  }

  /** `getWinner`: the first satisfied line in `WinningCombos` order, or none. */
  function Winner(b: Board): Option<WinInfo> {
    WinnerFrom(b, 0)
  }

  /** `!board.includes('')`. */
  predicate IsFull(b: seq<Mark>) {
    Empty !in b
  }

  /** Number of cells of `s` holding `m`. */
  function Count(s: seq<Mark>, m: Mark): nat {
    if s == [] then 0 else (if s[0] == m then 1 else 0) + Count(s[1..], m)
  }

  lemma {:induction false} CountUpdate(s: seq<Mark>, i: int, v: Mark, m: Mark)
    requires 0 <= i < |s|
    ensures Count(s[i := v], m) == Count(s, m) - (if s[i] == m then 1 else 0) + (if v == m then 1 else 0)
  {
    if i == 0 {
      assert s[i := v][1..] == s[1..];
    } else {
      assert s[i := v][1..] == s[1..][i - 1 := v];
      CountUpdate(s[1..], i - 1, v, m);
    }
  }

  /** Filling an empty cell removes exactly one empty cell. */
  lemma PlaceDecreasesEmpty(b: seq<Mark>, i: int, m: Mark)
    requires 0 <= i < |b| && b[i] == Empty && m != Empty
    ensures Count(b[i := m], Empty) == Count(b, Empty) - 1
  {
    CountUpdate(b, i, m, Empty);
  }

  /** Indices `lo..|b|-1`, in increasing order, whose emptiness is `wantEmpty`. */
  function CellsFrom(b: seq<Mark>, lo: nat, wantEmpty: bool): (r: seq<int>)
    requires lo <= |b|
    decreases |b| - lo
    ensures forall k :: 0 <= k < |r| ==> lo <= r[k] < |b| && (b[r[k]] == Empty) == wantEmpty
  {
    if lo == |b| then []
    else (if (b[lo] == Empty) == wantEmpty then [lo] else []) + CellsFrom(b, lo + 1, wantEmpty)
  }

  /** Every matching index is listed. */
  lemma {:induction false} CellsFromComplete(b: seq<Mark>, lo: nat, wantEmpty: bool, i: int)
    requires lo <= i < |b| && (b[i] == Empty) == wantEmpty
    decreases |b| - lo
    ensures i in CellsFrom(b, lo, wantEmpty)
  {
    if i > lo {
      CellsFromComplete(b, lo + 1, wantEmpty, i);
    }
  }

  predicate StrictlyIncreasing(s: seq<int>) {
    forall k, l :: 0 <= k < l < |s| ==> s[k] < s[l]
  }

  /** The list is strictly increasing, so it has no repeats. */
  lemma {:induction false} CellsFromSorted(b: seq<Mark>, lo: nat, wantEmpty: bool)
    requires lo <= |b|
    decreases |b| - lo
    ensures StrictlyIncreasing(CellsFrom(b, lo, wantEmpty))
  {
    if lo < |b| {
      CellsFromSorted(b, lo + 1, wantEmpty);
      var rest := CellsFrom(b, lo + 1, wantEmpty);
      var head: seq<int> := if (b[lo] == Empty) == wantEmpty then [lo] else [];
      var r := head + rest;
      assert r == CellsFrom(b, lo, wantEmpty);
      forall k, l | 0 <= k < l < |r| ensures r[k] < r[l] {
        if k < |head| {
          assert r[k] == lo && r[l] == rest[l - |head|];
          assert lo + 1 <= rest[l - |head|];
        } else {
          assert r[k] == rest[k - |head|] && r[l] == rest[l - |head|];
          assert rest[k - |head|] < rest[l - |head|];
        }
      }
    }
  }

  /** The list is exactly the matching indices. */
  lemma CellsFromExact(b: seq<Mark>, wantEmpty: bool)
    ensures forall i :: 0 <= i < |b| ==> (i in CellsFrom(b, 0, wantEmpty) <==> (b[i] == Empty) == wantEmpty)
  {
    forall i | 0 <= i < |b| && (b[i] == Empty) == wantEmpty
      ensures i in CellsFrom(b, 0, wantEmpty)
    {
      CellsFromComplete(b, 0, wantEmpty, i);
    }
  }

  /** Every cell is either empty or occupied. */
  lemma {:induction false} CellsFromSplit(b: seq<Mark>, lo: nat)
    requires lo <= |b|
    decreases |b| - lo
    ensures |CellsFrom(b, lo, true)| + |CellsFrom(b, lo, false)| == |b| - lo
  {
    if lo < |b| {
      CellsFromSplit(b, lo + 1);
    }
  }

  /** `getEmptyCells`, as a value. */
  function EmptyCells(b: seq<Mark>): seq<int> {
    CellsFrom(b, 0, true)
  }

  /** The occupied-cell list built by `board.map(...).filter(...)` in `toggleBlindCells`. */
  function OccupiedCells(b: seq<Mark>): seq<int> {
    CellsFrom(b, 0, false)
  }

  lemma EmptyCellsNonEmpty(b: seq<Mark>)
    ensures EmptyCells(b) == [] <==> IsFull(b)
  {
    var r := EmptyCells(b);
    if !IsFull(b) {
      var i :| 0 <= i < |b| && b[i] == Empty;
      CellsFromComplete(b, 0, true, i);
    }
    assert r != [] ==> b[r[0]] == Empty;
  }

  /** `getEmptyCells`: the loop that pushes every empty index. */
  method GetEmptyCells(a: array<Mark>) returns (cells: seq<int>)
    ensures cells == EmptyCells(a[..])
  {
    ghost var b := a[..];
    cells := [];
    var i := 0;
    while i < a.Length
      invariant 0 <= i <= a.Length
      invariant cells + CellsFrom(b, i, true) == EmptyCells(b)
    {
      ghost var rest := CellsFrom(b, i + 1, true);
      assert a[i] == b[i];
      if a[i] == Empty {
        assert CellsFrom(b, i, true) == [i] + rest;
        assert cells + ([i] + rest) == (cells + [i]) + rest;
        cells := cells + [i];
      } else {
        assert CellsFrom(b, i, true) == rest;
      }
      i := i + 1;
    }
  }

  /** The decision `checkResult` takes on a board. */
  datatype Outcome = PlayerWin | AIWin | Draw | Ongoing

  /** A win is tested before fullness: a full board with a line is a win. */
  function ResultOf(b: Board): (r: Outcome)
    ensures r == Draw <==> IsFull(b) && forall j :: 0 <= j < |WinningCombos| ==> !LineWon(b, WinningCombos[j])
    ensures r == Ongoing <==> !IsFull(b) && Winner(b).None?
    ensures r == PlayerWin <==> Winner(b).Some? && Winner(b).value.player == X
    ensures r == AIWin <==> Winner(b).Some? && Winner(b).value.player == O
  {
    match Winner(b)
    case Some(w) => if w.player == X then PlayerWin else AIWin
    case None => if IsFull(b) then Draw else Ongoing
  }

  /** Example: X completes the top row of `[X,X,'',O,O,'','','','']`. */
  lemma TopRowScenario()
    ensures Winner([X, X, X, O, O, Empty, Empty, Empty, Empty]) == Some(WinInfo(X, (0, 1, 2)))
    ensures ResultOf([X, X, X, O, O, Empty, Empty, Empty, Empty]) == PlayerWin
  {
    var b: Board := [X, X, X, O, O, Empty, Empty, Empty, Empty];
    assert LineWon(b, WinningCombos[0]);
  }
}
