/** The optimal-play opponent: exhaustive minimax with scores 10 (O wins),
    -10 (X wins) and 0 (draw), and the move choice built on it. */
module AI {
  import opened Wrappers
  import opened Chance
  import opened Board
  import opened Settings

  function Max(a: int, b: int): int { if a >= b then a else b }

  function Min(a: int, b: int): int { if a <= b then a else b }

  /** The mark the side to move places: O when maximizing, X otherwise. */
  function MoverMark(maximizing: bool): Mark {
    if maximizing then O else X
  }

  predicate IsScore(r: int) { r == 10 || r == -10 || r == 0 }

  /** All listed cells are empty cells of `b`. */
  predicate AllEmpty(b: Board, cells: seq<int>) {
    forall k :: 0 <= k < |cells| ==> 0 <= cells[k] < 9 && b[cells[k]] == Empty
  }

  /** The value `minimax(b, maximizing)` returns. A won line is tested before
      fullness, and there is no depth discount. */
  function Score(b: Board, maximizing: bool): (r: int)
    decreases Count(b, Empty), 1, 0
    ensures IsScore(r)
  {
    match Winner(b)
    case Some(w) => if w.player == O then 10 else -10
    case None =>
      if IsFull(b) then 0
      else
        EmptyCellsNonEmpty(b);
        BestChild(b, maximizing, EmptyCells(b), |EmptyCells(b)|)
  }

  /** The score of the child reached when the side to move plays empty cell
      `c`, with the other side to move next. */
  function ChildValue(b: Board, maximizing: bool, c: int): (r: int)
    requires 0 <= c < 9 && b[c] == Empty
    decreases Count(b, Empty), 0, 0
    ensures IsScore(r)
  {
    PlaceDecreasesEmpty(b, c, MoverMark(maximizing));
    Score(b[c := MoverMark(maximizing)], !maximizing)
  }

  /** The best (max for O, min for X) child score over the first `n` of
      `cells`, folded left to right as the source's loop does. */
  function BestChild(b: Board, maximizing: bool, cells: seq<int>, n: int): (r: int)
    requires 0 < n <= |cells| && AllEmpty(b, cells)
    decreases Count(b, Empty), 0, n
    ensures IsScore(r)
  {
    var s := ChildValue(b, maximizing, cells[n - 1]);
    if n == 1 then s
    else if maximizing then Max(BestChild(b, maximizing, cells, n - 1), s)
    else Min(BestChild(b, maximizing, cells, n - 1), s)
  }

  /** The score of a child is bounded by the fold over any prefix containing it. */
  lemma {:induction false} BestChildBounds(b: Board, maximizing: bool, cells: seq<int>, n: int, k: int)
    requires 0 <= k < n <= |cells| && AllEmpty(b, cells)
    decreases n
    ensures var s := ChildValue(b, maximizing, cells[k]);
      if maximizing then s <= BestChild(b, maximizing, cells, n) else BestChild(b, maximizing, cells, n) <= s
  {
    var last := ChildValue(b, maximizing, cells[n - 1]);
    if n > 1 {
      var prev := BestChild(b, maximizing, cells, n - 1);
      assert BestChild(b, maximizing, cells, n) == if maximizing then Max(prev, last) else Min(prev, last);
      if k < n - 1 {
        BestChildBounds(b, maximizing, cells, n - 1, k);
      }
    }
  }

  /** A full board that contains a line is scored as a win, never as a draw. */
  lemma WinBeforeDraw(b: Board, maximizing: bool)
    requires IsFull(b) && Winner(b).Some?
    ensures Score(b, maximizing) == (if Winner(b).value.player == O then 10 else -10)
  {
  }

  /** `minimax`: places each mark in turn on the shared array, recurses and
      restores the cell. */
  method Minimax(currentBoard: array<Mark>, maximizing: bool) returns (score: int)
    requires currentBoard.Length == 9
    modifies currentBoard
    decreases Count(currentBoard[..], Empty), 1
    ensures currentBoard[..] == old(currentBoard[..])
    ensures score == Score(old(currentBoard[..]), maximizing)
  {
    ghost var b: Board := currentBoard[..];
    var winnerInfo := Winner(currentBoard[..]);
    if winnerInfo.Some? {
      return if winnerInfo.value.player == O then 10 else -10;
    }
    if IsFull(currentBoard[..]) {
      return 0;
    }
    var emptyCells := GetEmptyCells(currentBoard);
    EmptyCellsNonEmpty(b);
    var bestScore: Option<int> := None;  // None stands for the source's -Infinity / Infinity
    var k := 0;
    while k < |emptyCells|
      invariant 0 <= k <= |emptyCells|
      invariant currentBoard[..] == b
      invariant k == 0 <==> bestScore.None?
      invariant k > 0 ==> bestScore.value == BestChild(b, maximizing, emptyCells, k)
    {
      var s := TryCell(currentBoard, maximizing, emptyCells[k]);
      if bestScore.None? {
        bestScore := Some(s);
      } else {
        bestScore := Some(if maximizing then Max(bestScore.value, s) else Min(bestScore.value, s));
      }
      k := k + 1;
    }
    score := bestScore.value;
  }

  /** The body of `minimax`'s loop for one empty cell: the mover's mark is
      placed, the opponent's reply scored, and the cell cleared again. */
  method TryCell(currentBoard: array<Mark>, maximizing: bool, index: int) returns (s: int)
    requires currentBoard.Length == 9 && 0 <= index < 9 && currentBoard[index] == Empty
    modifies currentBoard
    decreases Count(currentBoard[..], Empty), 0
    ensures currentBoard[..] == old(currentBoard[..])
    ensures s == ChildValue(old(currentBoard[..]), maximizing, index)
  {
    ghost var b: Board := currentBoard[..];
    currentBoard[index] := MoverMark(maximizing);
    assert currentBoard[..] == b[index := MoverMark(maximizing)];
    PlaceDecreasesEmpty(b, index, MoverMark(maximizing));
    s := Minimax(currentBoard, !maximizing);
    currentBoard[index] := Empty;
    assert currentBoard[..] == b;
  }

  /** Candidate order of `getOptimalAIMove`: centre, corners, edges. */
  const MoveOrder: seq<int> := [4, 0, 2, 6, 8, 1, 3, 5, 7]

  /** `r` is `s` with some of its elements left out, the rest in their order. */
  predicate Subsequence(r: seq<int>, s: seq<int>) {
    r == [] || (s != [] && ((r[0] == s[0] && Subsequence(r[1..], s[1..])) || Subsequence(r, s[1..])))
  }

  /** `order.filter(idx => board[idx] === '')`. */
  function FilterEmpty(b: Board, order: seq<int>): (r: seq<int>)
    requires forall k :: 0 <= k < |order| ==> 0 <= order[k] < 9
    ensures AllEmpty(b, r)
    ensures forall i :: i in order && 0 <= i < 9 && b[i] == Empty ==> i in r
    ensures forall i :: i in r ==> i in order
    ensures Subsequence(r, order)
  {
    if order == [] then []
    else
      var rest := FilterEmpty(b, order[1..]);
      if b[order[0]] == Empty then assert ([order[0]] + rest)[1..] == rest; [order[0]] + rest
      else rest
  }

  /** The empty cells in preference order. */
  function OrderedEmptyCells(b: Board): (r: seq<int>)
    ensures AllEmpty(b, r)
    ensures forall i :: 0 <= i < 9 ==> (i in r <==> b[i] == Empty)
    ensures Subsequence(r, MoveOrder)
  {
    assert forall i :: 0 <= i < 9 ==> i in MoveOrder;
    FilterEmpty(b, MoveOrder)
  }

  /** The score `getOptimalAIMove` gives cell `i`: its child score when it
      is empty (0 otherwise, and an occupied cell is never a candidate). */
  function CellScore(b: Board, i: int): int
    requires 0 <= i < 9
  {
    if b[i] == Empty then ChildValue(b, true, i) else 0
  }

  /** The cell scores of the first `n` cells. */
  function CellScores(b: Board, n: int): (s: seq<int>)
    requires 0 <= n <= 9
    ensures |s| == n
  {
    if n == 0 then [] else CellScores(b, n - 1) + [CellScore(b, n - 1)]
  }

  /** The cell score of every cell. */
  function ChildScores(b: Board): (s: seq<int>)
    ensures |s| == 9
  {
    CellScores(b, 9)
  }

  /** Entry `i` of the cell scores is cell `i`'s score. */
  lemma {:induction false} CellScoresAt(b: Board, n: int, i: int)
    requires 0 <= i < n <= 9
    decreases n
    ensures CellScores(b, n)[i] == CellScore(b, i)
  {
    if i < n - 1 {
      CellScoresAt(b, n - 1, i);
    }
  }

  predicate Indices(s: seq<int>, cells: seq<int>) {
    forall k :: 0 <= k < |cells| ==> 0 <= cells[k] < |s|
  }

  /** The maximum of `s[c]` over the first `n` listed cells. */
  function MaxOver(s: seq<int>, cells: seq<int>, n: int): int
    requires 0 < n <= |cells| && Indices(s, cells)
  {
    if n == 1 then s[cells[0]]
    else Max(MaxOver(s, cells, n - 1), s[cells[n - 1]])
  }

  /** The maximum bounds every counted cell and is attained by one of them. */
  lemma {:induction false} MaxOverIsMax(s: seq<int>, cells: seq<int>, n: int) returns (w: int)
    requires 0 < n <= |cells| && Indices(s, cells)
    decreases n
    ensures forall k :: 0 <= k < n ==> s[cells[k]] <= MaxOver(s, cells, n)
    ensures 0 <= w < n && s[cells[w]] == MaxOver(s, cells, n)
  {
    if n == 1 {
      w := 0;
    } else {
      var pw := MaxOverIsMax(s, cells, n - 1);
      w := if MaxOver(s, cells, n - 1) >= s[cells[n - 1]] then pw else n - 1;
    }
  }

  /** The first `n` listed cells `c` with `s[c] == m`, in order. */
  function Ties(s: seq<int>, cells: seq<int>, n: int, m: int): seq<int>
    requires 0 <= n <= |cells| && Indices(s, cells)
  {
    if n == 0 then []
    else Ties(s, cells, n - 1, m) + (if s[cells[n - 1]] == m then [cells[n - 1]] else [])
  }

  /** Membership in `Ties` is exactly "among the first `n` and scoring `m`". */
  lemma {:induction false} TiesExact(s: seq<int>, cells: seq<int>, n: int, m: int, i: int)
    requires 0 <= n <= |cells| && Indices(s, cells)
    decreases n
    ensures i in Ties(s, cells, n, m) <==> i in cells[..n] && s[i] == m
  {
    if n > 0 {
      TiesExact(s, cells, n - 1, m, i);
      assert cells[..n] == cells[..n - 1] + [cells[n - 1]];
    }
  }

  /** No counted cell scores `m`, so there are no ties at `m`. */
  lemma {:induction false} TiesNone(s: seq<int>, cells: seq<int>, n: int, m: int)
    requires 0 <= n <= |cells| && Indices(s, cells)
    requires forall k :: 0 <= k < n ==> s[cells[k]] != m
    decreases n
    ensures Ties(s, cells, n, m) == []
  {
    if n > 0 {
      TiesNone(s, cells, n - 1, m);
    }
  }

  /** `bestScore` at the end of `getOptimalAIMove`'s loop. */
  function BestScore(b: Board): int
    requires !IsFull(b)
  {
    var cells := OrderedEmptyCells(b);
    EmptyCellsNonEmpty(b);
    var i :| 0 <= i < 9 && b[i] == Empty;
    assert i in cells;
    MaxOver(ChildScores(b), cells, |cells|)
  }

  /** `bestMoves` at the end of `getOptimalAIMove`'s loop. */
  function BestMoves(b: Board): seq<int>
    requires !IsFull(b)
  {
    var cells := OrderedEmptyCells(b);
    Ties(ChildScores(b), cells, |cells|, BestScore(b))
  }

  /** The best moves are exactly the empty cells whose child score is the
      maximum, that maximum bounds every empty cell's child score, and there
      is at least one. */
  lemma BestMovesExact(b: Board)
    requires !IsFull(b)
    ensures forall i :: 0 <= i < 9 && b[i] == Empty ==> ChildValue(b, true, i) <= BestScore(b)
    ensures forall i :: i in BestMoves(b) <==> 0 <= i < 9 && b[i] == Empty && ChildValue(b, true, i) == BestScore(b)
    ensures |BestMoves(b)| > 0
  {
    var cells := OrderedEmptyCells(b);
    var s := ChildScores(b);
    var m := BestScore(b);
    var n := |cells|;
    assert n > 0 && m == MaxOver(s, cells, n);
    assert cells[..n] == cells;
    var w := MaxOverIsMax(s, cells, n);
    forall i | 0 <= i < 9 && b[i] == Empty ensures ChildValue(b, true, i) <= m {
      var k :| 0 <= k < n && cells[k] == i;
      CellScoresAt(b, 9, i);
    }
    forall i ensures i in BestMoves(b) <==> 0 <= i < 9 && b[i] == Empty && ChildValue(b, true, i) == m {
      TiesExact(s, cells, n, m, i);
      if 0 <= i < 9 {
        CellScoresAt(b, 9, i);
      }
    }
    TiesExact(s, cells, n, m, cells[w]);
  }

  /** The state of `getOptimalAIMove`'s loop after the first `j` candidates:
      nothing yet, or their maximum score with every candidate attaining it. */
  predicate Scanned(s: seq<int>, cells: seq<int>, j: int, best: Option<int>, moves: seq<int>)
    requires Indices(s, cells) && 0 <= j <= |cells|
  {
    if j == 0 then best.None? && moves == []
    else best == Some(MaxOver(s, cells, j)) && moves == Ties(s, cells, j, best.value)
  }

  /** The first candidate, or one scoring above the maximum so far, starts
      the list afresh. */
  lemma ScanRestart(s: seq<int>, cells: seq<int>, j: int, best: Option<int>, moves: seq<int>)
    requires Indices(s, cells) && 0 <= j < |cells| && Scanned(s, cells, j, best, moves)
    requires best.None? || s[cells[j]] > best.value
    ensures Scanned(s, cells, j + 1, Some(s[cells[j]]), [cells[j]])
  {
    if best.Some? {
      var w := MaxOverIsMax(s, cells, j);
      TiesNone(s, cells, j, s[cells[j]]);
    }
  }

  /** A candidate scoring at most the maximum so far keeps it, and joins the
      list exactly when it scores the maximum. */
  lemma ScanKeep(s: seq<int>, cells: seq<int>, j: int, best: Option<int>, moves: seq<int>)
    requires Indices(s, cells) && 0 <= j < |cells| && Scanned(s, cells, j, best, moves)
    requires best.Some? && s[cells[j]] <= best.value
    ensures Scanned(s, cells, j + 1, best, if s[cells[j]] == best.value then moves + [cells[j]] else moves)
  {
  }

  /** Once every candidate is scanned, the list kept is the best moves. */
  lemma ScannedAll(b: Board, best: Option<int>, moves: seq<int>)
    requires !IsFull(b)
    requires Scanned(ChildScores(b), OrderedEmptyCells(b), |OrderedEmptyCells(b)|, best, moves)
    ensures moves == BestMoves(b)
  {
    var cells := OrderedEmptyCells(b);
    EmptyCellsNonEmpty(b);
    var i :| 0 <= i < 9 && b[i] == Empty;
    assert i in cells;
  }

  /** One candidate of `getOptimalAIMove`: an O on cell `index`, `minimax`
      on a copy of the board with X to reply, and the cell cleared again. */
  method ScoreCandidate(board: array<Mark>, index: int) returns (score: int)
    requires board.Length == 9 && 0 <= index < 9 && board[index] == Empty
    modifies board
    ensures board[..] == old(board[..])
    ensures score == ChildScores(old(board[..]))[index]
  {
    CellScoresAt(board[..], 9, index);
    ghost var b: Board := board[..];
    board[index] := O;
    var copy := new Mark[9](i requires 0 <= i < 9 reads board => board[i]);
    assert copy[..] == b[index := O];
    score := Minimax(copy, false);
    board[index] := Empty;
    assert board[..] == b;
  }

  /** The loop of `getOptimalAIMove` over the candidates `cells`: keeps the
      running maximum of their scores with every candidate that attains it. */
  method ScanCandidates(board: array<Mark>, cells: seq<int>) returns (bestScore: Option<int>, bestMoves: seq<int>)
    requires board.Length == 9 && AllEmpty(board[..], cells)
    modifies board
    ensures board[..] == old(board[..])
    ensures Scanned(ChildScores(old(board[..])), cells, |cells|, bestScore, bestMoves)
  {
    ghost var s := ChildScores(board[..]);
    bestScore := None;  // None stands for the source's -Infinity
    bestMoves := [];
    for j := 0 to |cells|
      invariant board[..] == old(board[..])
      invariant Scanned(s, cells, j, bestScore, bestMoves)
    {
      bestScore, bestMoves := ScanOne(board, s, cells, j, bestScore, bestMoves);
    }
  }

  /** One pass of `getOptimalAIMove`'s loop: candidate `cells[j]` is scored
      and the running maximum and its cells are updated. */
  method ScanOne(board: array<Mark>, ghost s: seq<int>, cells: seq<int>, j: int, bestScore: Option<int>,
                 bestMoves: seq<int>) returns (bestScore': Option<int>, bestMoves': seq<int>)
    requires board.Length == 9 && s == ChildScores(board[..])
    requires AllEmpty(board[..], cells) && 0 <= j < |cells| && Scanned(s, cells, j, bestScore, bestMoves)
    modifies board
    ensures board[..] == old(board[..])
    ensures Scanned(s, cells, j + 1, bestScore', bestMoves')
  {
    var index := cells[j];
    var score := ScoreCandidate(board, index);
    bestScore', bestMoves' := bestScore, bestMoves;
    if bestScore.None? || score > bestScore.value {
      ScanRestart(s, cells, j, bestScore, bestMoves);
      bestScore' := Some(score);
      bestMoves' := [index];
    } else {
      ScanKeep(s, cells, j, bestScore, bestMoves);
      if score == bestScore.value {
        bestMoves' := bestMoves + [index];
      }
    }
  }

  /** `getOptimalAIMove`: one of the best moves, drawn uniformly. */
  method GetOptimalAIMove(board: array<Mark>, tieDraw: real) returns (move: int)
    requires board.Length == 9 && !IsFull(board[..]) && IsDraw(tieDraw)
    modifies board
    ensures board[..] == old(board[..])
    ensures var best := BestMoves(old(board[..]));
      |best| > 0 && move == best[RandomIndex(tieDraw, |best|)]
    ensures 0 <= move < 9 && old(board[..])[move] == Empty
    ensures ChildValue(old(board[..]), true, move) == BestScore(old(board[..]))
  {
    ghost var b: Board := board[..];
    var cells := OrderedEmptyCells(board[..]);
    var bestScore, bestMoves := ScanCandidates(board, cells);
    ScannedAll(b, bestScore, bestMoves);
    BestMovesExact(b);
    move := bestMoves[RandomIndex(tieDraw, |bestMoves|)];
    assert move in BestMoves(b);
  }

  /** The move policy of `handleAITurn`: Zen plays a uniformly drawn empty
      cell when its first draw is below 0.3; every other case, and every other
      difficulty, plays a drawn member of the best moves. */
  function AIMove(b: Board, difficulty: Difficulty, zenDraw: real, randomDraw: real, tieDraw: real): (move: int)
    requires !IsFull(b) && IsDraw(zenDraw) && IsDraw(randomDraw) && IsDraw(tieDraw)
    ensures 0 <= move < 9 && b[move] == Empty
    ensures difficulty != Zen ==> move in BestMoves(b)
    ensures zenDraw >= 0.3 ==> move in BestMoves(b)
  {
    BestMovesExact(b);
    var empty := EmptyCells(b);
    EmptyCellsNonEmpty(b);
    CellsFromExact(b, true);
    if difficulty == Zen && zenDraw < 0.3 then
      empty[RandomIndex(randomDraw, |empty|)]
    else
      var best := BestMoves(b);
      assert best[RandomIndex(tieDraw, |best|)] in best;
      best[RandomIndex(tieDraw, |best|)]
  }
}
