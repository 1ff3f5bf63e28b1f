/**
  Win detection and the position heuristic of backend/src/game/GameEngine.js.

  A `GameEngine` object of the source only wraps a board reference and never changes
  it, so its operations here take the board as a parameter. The loops of
  `countInDirection` and `evaluatePosition` are methods proved against the value
  functions `RunLength` and `PositionScore`.
*/
module Engine {
  import opened Wrappers
  import opened Boards

  // ---------------------------------------------------------------------------
  // Runs of discs
  // ---------------------------------------------------------------------------

  /** The cell (r, c) is on the board and holds a disc of `p`. */
  predicate Owns(g: Grid, r: int, c: int, p: PlayerNumber)
    requires IsGrid(g)
  {
    InBounds(r, c) && g[r][c] == Disc(p)
  }

  /** One of the eight neighbour steps. */
  predicate UnitDirection(dr: int, dc: int)
  {
    -1 <= dr <= 1 && -1 <= dc <= 1 && (dr != 0 || dc != 0)
  }

  /** How many more in-bounds cells a walk from (r, c) in direction (dr, dc) can visit,
      counting (r, c) itself. */
  function Steps(r: int, c: int, dr: int, dc: int): int
  {
    if dr == 1 then Rows - r
    else if dr == -1 then r + 1
    else if dc == 1 then Cols - c
    else c + 1
  }

  /** The number of consecutive discs of `p` starting at (r, c) and walking in
      direction (dr, dc). The grid takes part in the termination measure although it
      never changes: the verifier then unfolds a run only on a known grid, not on every
      known position. */
  function RunLength(g: Grid, r: int, c: int, dr: int, dc: int, p: PlayerNumber): nat
    requires IsGrid(g) && UnitDirection(dr, dc)
    decreases if InBounds(r, c) then Steps(r, c, dr, dc) else 0, g
  {
    if Owns(g, r, c, p) then 1 + RunLength(g, r + dr, c + dc, dr, dc, p) else 0
  }

  lemma {:induction false} RunLengthBound(g: Grid, r: int, c: int, dr: int, dc: int, p: PlayerNumber)
    requires IsGrid(g) && UnitDirection(dr, dc)
    ensures RunLength(g, r, c, dr, dc, p) <= if Steps(r, c, dr, dc) < 0 then 0 else Steps(r, c, dr, dc)
    decreases if InBounds(r, c) then Steps(r, c, dr, dc) else 0
  {
    if Owns(g, r, c, p) {
      RunLengthBound(g, r + dr, c + dc, dr, dc, p);
    }
  }

  /** A run leaving the board's cell (r, c) in a unit direction has at most six discs. */
  lemma RunFromAnchorBound(g: Grid, r: int, c: int, dr: int, dc: int, p: PlayerNumber)
    requires IsGrid(g) && UnitDirection(dr, dc) && InBounds(r, c)
    ensures RunLength(g, r + dr, c + dc, dr, dc, p) <= Cols - 1
  {
    RunLengthBound(g, r + dr, c + dc, dr, dc, p);
  }

  /** The run is the maximal one: its first `n` cells are discs of `p` and the cell
      right after it is not. */
  lemma {:induction false} RunLengthMaximal(g: Grid, r: int, c: int, dr: int, dc: int, p: PlayerNumber, i: nat)
    requires IsGrid(g) && UnitDirection(dr, dc)
    requires i <= RunLength(g, r, c, dr, dc, p)
    ensures i < RunLength(g, r, c, dr, dc, p) ==> Owns(g, r + i * dr, c + i * dc, p)
    ensures i == RunLength(g, r, c, dr, dc, p) ==> !Owns(g, r + i * dr, c + i * dc, p)
    decreases i
  {
    if i > 0 {
      RunLengthMaximal(g, r + dr, c + dc, dr, dc, p, i - 1);
      assert r + dr + (i - 1) * dr == r + i * dr;
      assert c + dc + (i - 1) * dc == c + i * dc;
    }
  }

  /** The cell k steps from the anchor (r, c) along (dr, dc) holds a disc of `p`. */
  predicate On(g: Grid, r: int, c: int, dr: int, dc: int, p: PlayerNumber, k: int)
    requires IsGrid(g)
  {
    Owns(g, r + k * dr, c + k * dc, p)
  }

  /** The run leaving the anchor reaches one, two or three cells exactly when those
      cells hold discs of `p`. */
  lemma RunThresholds(g: Grid, r: int, c: int, dr: int, dc: int, p: PlayerNumber)
    requires IsGrid(g) && UnitDirection(dr, dc)
    ensures var n := RunLength(g, r + dr, c + dc, dr, dc, p);
      && (n >= 1 <==> On(g, r, c, dr, dc, p, 1))
      && (n >= 2 <==> On(g, r, c, dr, dc, p, 1) && On(g, r, c, dr, dc, p, 2))
      && (n >= 3 <==> On(g, r, c, dr, dc, p, 1) && On(g, r, c, dr, dc, p, 2) && On(g, r, c, dr, dc, p, 3))
  {
    var n1 := RunLength(g, r + dr, c + dc, dr, dc, p);
    var n2 := RunLength(g, r + 2 * dr, c + 2 * dc, dr, dc, p);
    var n3 := RunLength(g, r + 3 * dr, c + 3 * dc, dr, dc, p);
    assert r + dr + dr == r + 2 * dr && c + dc + dc == c + 2 * dc;
    assert r + 2 * dr + dr == r + 3 * dr && c + 2 * dc + dc == c + 3 * dc;
    assert n1 == if Owns(g, r + dr, c + dc, p) then 1 + n2 else 0;
    assert n2 == if Owns(g, r + 2 * dr, c + 2 * dc, p) then 1 + n3 else 0;
  }

  lemma OnReversed(g: Grid, r: int, c: int, dr: int, dc: int, p: PlayerNumber, k: int)
    requires IsGrid(g)
    ensures On(g, r, c, -dr, -dc, p, k) == On(g, r, c, dr, dc, p, -k)
  {
    assert k * -dr == -k * dr && k * -dc == -k * dc;
  }

  // ---------------------------------------------------------------------------
  // Four in a line through the anchor
  // ---------------------------------------------------------------------------

  /** Some four consecutive cells of the line through (r, c) along (dr, dc), one of
      them (r, c), all hold discs of `p`: the cells at offsets s..s+3 for some s in
      -3..0. */
  predicate FourThrough(g: Grid, r: int, c: int, dr: int, dc: int, p: PlayerNumber)
    requires IsGrid(g)
  {
    || (On(g, r, c, dr, dc, p, 0) && On(g, r, c, dr, dc, p, 1) && On(g, r, c, dr, dc, p, 2) && On(g, r, c, dr, dc, p, 3))
    || (On(g, r, c, dr, dc, p, -1) && On(g, r, c, dr, dc, p, 0) && On(g, r, c, dr, dc, p, 1) && On(g, r, c, dr, dc, p, 2))
    || (On(g, r, c, dr, dc, p, -2) && On(g, r, c, dr, dc, p, -1) && On(g, r, c, dr, dc, p, 0) && On(g, r, c, dr, dc, p, 1))
    || (On(g, r, c, dr, dc, p, -3) && On(g, r, c, dr, dc, p, -2) && On(g, r, c, dr, dc, p, -1) && On(g, r, c, dr, dc, p, 0))
  }

  /** `checkDirection` on a value: the anchor plus both runs make at least four. */
  predicate DirectionWins(g: Grid, r: int, c: int, dr: int, dc: int, p: PlayerNumber)
    requires IsGrid(g) && UnitDirection(dr, dc)
  {
    1 + RunLength(g, r + dr, c + dc, dr, dc, p) + RunLength(g, r - dr, c - dc, -dr, -dc, p) >= 4
  }

  /** `checkDirection` gives the same answer for a direction and its reverse: the two
      runs only trade places. */
  lemma DirectionWinsSymmetric(g: Grid, r: int, c: int, dr: int, dc: int, p: PlayerNumber)
    requires IsGrid(g) && UnitDirection(dr, dc)
    ensures DirectionWins(g, r, c, dr, dc, p) <==> DirectionWins(g, r, c, -dr, -dc, p)
  {
    assert r - -dr == r + dr && c - -dc == c + dc && - -dr == dr && - -dc == dc;
  }

  /** Counting the two runs decides exactly whether four in a line pass through an
      anchor that holds a disc of `p`. */
  lemma DirectionWinsIffFour(g: Grid, r: int, c: int, dr: int, dc: int, p: PlayerNumber)
    requires IsGrid(g) && UnitDirection(dr, dc) && Owns(g, r, c, p)
    ensures DirectionWins(g, r, c, dr, dc, p) <==> FourThrough(g, r, c, dr, dc, p)
  {
    var f := RunLength(g, r + dr, c + dc, dr, dc, p);
    var b := RunLength(g, r - dr, c - dc, -dr, -dc, p);
    var f1, f2, f3 := On(g, r, c, dr, dc, p, 1), On(g, r, c, dr, dc, p, 2), On(g, r, c, dr, dc, p, 3);
    var b1, b2, b3 := On(g, r, c, dr, dc, p, -1), On(g, r, c, dr, dc, p, -2), On(g, r, c, dr, dc, p, -3);
    RunThresholds(g, r, c, dr, dc, p);
    BackwardThresholds(g, r, c, dr, dc, p);
    CombineRuns(f, b, f1, f2, f3, b1, b2, b3);
    FourThroughWindows(g, r, c, dr, dc, p);
  }

  /** `RunThresholds` for the run leaving the anchor backwards, in forward offsets. */
  lemma BackwardThresholds(g: Grid, r: int, c: int, dr: int, dc: int, p: PlayerNumber)
    requires IsGrid(g) && UnitDirection(dr, dc)
    ensures var n := RunLength(g, r - dr, c - dc, -dr, -dc, p);
      && (n >= 1 <==> On(g, r, c, dr, dc, p, -1))
      && (n >= 2 <==> On(g, r, c, dr, dc, p, -1) && On(g, r, c, dr, dc, p, -2))
      && (n >= 3 <==> On(g, r, c, dr, dc, p, -1) && On(g, r, c, dr, dc, p, -2) && On(g, r, c, dr, dc, p, -3))
  {
    RunThresholds(g, r, c, -dr, -dc, p);
    assert r + -dr == r - dr && c + -dc == c - dc;
    OnReversed(g, r, c, dr, dc, p, 1);
    OnReversed(g, r, c, dr, dc, p, 2);
    OnReversed(g, r, c, dr, dc, p, 3);
  }

  /** With the anchor owned, the four windows of `FourThrough` reduce to the cells
      around it. */
  lemma FourThroughWindows(g: Grid, r: int, c: int, dr: int, dc: int, p: PlayerNumber)
    requires IsGrid(g) && Owns(g, r, c, p)
    ensures FourThrough(g, r, c, dr, dc, p) <==>
      || (On(g, r, c, dr, dc, p, 1) && On(g, r, c, dr, dc, p, 2) && On(g, r, c, dr, dc, p, 3))
      || (On(g, r, c, dr, dc, p, -1) && On(g, r, c, dr, dc, p, 1) && On(g, r, c, dr, dc, p, 2))
      || (On(g, r, c, dr, dc, p, -2) && On(g, r, c, dr, dc, p, -1) && On(g, r, c, dr, dc, p, 1))
      || (On(g, r, c, dr, dc, p, -3) && On(g, r, c, dr, dc, p, -2) && On(g, r, c, dr, dc, p, -1))
  {
    assert r + 0 * dr == r && c + 0 * dc == c;
  }

  /** The arithmetic behind `DirectionWinsIffFour`: a forward run f and a backward run b
      with the anchor make four exactly when a window of four fits inside them. */
  lemma CombineRuns(f: nat, b: nat, f1: bool, f2: bool, f3: bool, b1: bool, b2: bool, b3: bool)
    requires (f >= 1 <==> f1) && (f >= 2 <==> f1 && f2) && (f >= 3 <==> f1 && f2 && f3)
    requires (b >= 1 <==> b1) && (b >= 2 <==> b1 && b2) && (b >= 3 <==> b1 && b2 && b3)
    ensures 1 + f + b >= 4 <==> (f1 && f2 && f3) || (b1 && f1 && f2) || (b2 && b1 && f1) || (b3 && b2 && b1)
  {
  }

  /** Whether four in a line pass through an anchor does not depend on the sign of the
      direction: reversing it maps each window of four onto another one. */
  lemma FourThroughSymmetric(g: Grid, r: int, c: int, dr: int, dc: int, p: PlayerNumber)
    requires IsGrid(g)
    ensures FourThrough(g, r, c, dr, dc, p) <==> FourThrough(g, r, c, -dr, -dc, p)
  {
    OnReversed(g, r, c, dr, dc, p, -3);
    OnReversed(g, r, c, dr, dc, p, -2);
    OnReversed(g, r, c, dr, dc, p, -1);
    OnReversed(g, r, c, dr, dc, p, 0);
    OnReversed(g, r, c, dr, dc, p, 1);
    OnReversed(g, r, c, dr, dc, p, 2);
    OnReversed(g, r, c, dr, dc, p, 3);
  }

  /** `checkWinner` on a value: the anchor's player if one of the four line directions
      wins through it. */
  function WinnerAt(g: Grid, row: int, col: int): Option<PlayerNumber>
    requires IsGrid(g)
  {
    match CellAt(g, row, col)
    case Empty => None
    case Disc(p) =>
      if DirectionWins(g, row, col, 0, 1, p) || DirectionWins(g, row, col, 1, 0, p)
         || DirectionWins(g, row, col, 1, 1, p) || DirectionWins(g, row, col, 1, -1, p)
      then Some(p) else None
  }

  /** Some four in a line (horizontal, vertical or either diagonal) pass through (r, c). */
  predicate WinsThrough(g: Grid, r: int, c: int, p: PlayerNumber)
    requires IsGrid(g)
  {
    FourThrough(g, r, c, 0, 1, p) || FourThrough(g, r, c, 1, 0, p)
    || FourThrough(g, r, c, 1, 1, p) || FourThrough(g, r, c, 1, -1, p)
  }

  /** `checkWinner` reports the anchor's player exactly when four of that player's discs
      lie in a line through the anchor; otherwise, and for an empty anchor, nobody. */
  lemma WinnerAtSpec(g: Grid, row: int, col: int)
    requires IsGrid(g)
    ensures CellAt(g, row, col) == Empty ==> WinnerAt(g, row, col) == None
    ensures WinnerAt(g, row, col) == None || WinnerAt(g, row, col) == Some(CellAt(g, row, col).player)
    ensures forall p: PlayerNumber :: WinnerAt(g, row, col) == Some(p) <==> Owns(g, row, col, p) && WinsThrough(g, row, col, p)
  {
    if CellAt(g, row, col) != Empty {
      var p := CellAt(g, row, col).player;
      DirectionWinsIffFour(g, row, col, 0, 1, p);
      DirectionWinsIffFour(g, row, col, 1, 0, p);
      DirectionWinsIffFour(g, row, col, 1, 1, p);
      DirectionWinsIffFour(g, row, col, 1, -1, p);
    }
  }

  // ---------------------------------------------------------------------------
  // Engine operations on a board object
  // ---------------------------------------------------------------------------

  /** `countInDirection`: walks from the cell after the anchor while it is on the board
      and holds a disc of `player`. */
  method CountInDirection(board: Board, row: int, col: int, dRow: int, dCol: int, player: PlayerNumber)
    returns (count: nat)
    requires board.Valid() && UnitDirection(dRow, dCol)
    ensures count == RunLength(board.GetBoard(), row + dRow, col + dCol, dRow, dCol, player)
  {
    ghost var g := board.GetBoard();
    count := 0;
    var r := row + dRow;
    var c := col + dCol;
    while r >= 0 && r < Rows && c >= 0 && c < Cols && board.GetCell(r, c) == Disc(player)
      invariant RunLength(g, row + dRow, col + dCol, dRow, dCol, player) == count + RunLength(g, r, c, dRow, dCol, player)
      decreases if InBounds(r, c) then Steps(r, c, dRow, dCol) else 0
    {
      count := count + 1;
      r := r + dRow;
      c := c + dCol;
    }
  }

  /** `checkDirection`: the anchor and the runs on both sides make at least four, which
      for an anchor holding `player` means four in a line through it. */
  method CheckDirection(board: Board, row: int, col: int, dRow: int, dCol: int, player: PlayerNumber)
    returns (wins: bool)
    requires board.Valid() && UnitDirection(dRow, dCol)
    ensures wins == DirectionWins(board.GetBoard(), row, col, dRow, dCol, player)
    ensures Owns(board.GetBoard(), row, col, player) ==> (wins <==> FourThrough(board.GetBoard(), row, col, dRow, dCol, player))
  {
    var count := 1;
    var forward := CountInDirection(board, row, col, dRow, dCol, player);
    count := count + forward;
    var backward := CountInDirection(board, row, col, -dRow, -dCol, player);
    count := count + backward;
    wins := count >= 4;
    if Owns(board.GetBoard(), row, col, player) {
      DirectionWinsIffFour(board.GetBoard(), row, col, dRow, dCol, player);
    }
  }

  /** `checkWinner`: the directions are tried in the source's order and the first that
      wins ends the check, as the source's `||` does. */
  method CheckWinner(board: Board, row: int, col: int) returns (winner: Option<PlayerNumber>)
    requires board.Valid()
    ensures winner == WinnerAt(board.GetBoard(), row, col)
    ensures winner.Some? ==> Owns(board.GetBoard(), row, col, winner.value) && WinsThrough(board.GetBoard(), row, col, winner.value)
    ensures winner.None? ==> forall p: PlayerNumber :: !(Owns(board.GetBoard(), row, col, p) && WinsThrough(board.GetBoard(), row, col, p))
  {
    WinnerAtSpec(board.GetBoard(), row, col);
    var cell := board.GetCell(row, col);
    if cell == Empty {
      return None;
    }
    var player := cell.player;
    var horizontal := CheckDirection(board, row, col, 0, 1, player);
    if horizontal {
      return Some(player);
    }
    var vertical := CheckDirection(board, row, col, 1, 0, player);
    if vertical {
      return Some(player);
    }
    var rising := CheckDirection(board, row, col, 1, 1, player);
    if rising {
      return Some(player);
    }
    var falling := CheckDirection(board, row, col, 1, -1, player);
    if falling {
      return Some(player);
    }
    return None;
  }

  /** `isDraw` is `isFull`, which holds exactly when no move is left. */
  predicate IsDraw(board: Board)
    requires board.Valid()
    reads board.grid
    ensures IsDraw(board) <==> ValidMoves(board.GetBoard()) == []
  {
    FullIffNoMoves(board.GetBoard());
    board.IsFull()
  }

  // ---------------------------------------------------------------------------
  // The heuristic
  // ---------------------------------------------------------------------------

  /** `filter(cell => cell === x).length`. */
  function Count(w: seq<Cell>, x: Cell): nat
  {
    if w == [] then 0 else (if w[0] == x then 1 else 0) + Count(w[1..], x)
  }

  lemma {:induction false} CountPartition(w: seq<Cell>, p: PlayerNumber, o: PlayerNumber)
    requires p != o
    ensures Count(w, Disc(p)) + Count(w, Disc(o)) + Count(w, Empty) == |w|
  {
    if w != [] {
      CountPartition(w[1..], p, o);
    }
  }

  /** `evaluateWindow`. Each window is worth one of five scores: 100 for four of the
      player's discs, 5 for three and a gap, 2 for two and two gaps, -4 for three of
      the opponent's discs and a gap, and 0 otherwise. */
  function EvaluateWindow(window: seq<Cell>, player: PlayerNumber, opponent: PlayerNumber): (score: int)
    requires |window| == 4 && player != opponent
    ensures score in {100, 5, 2, 0, -4}
    ensures score == 100 <==> Count(window, Disc(player)) == 4
    ensures score < 0 <==> Count(window, Disc(opponent)) == 3 && Count(window, Empty) == 1
  {
    CountPartition(window, player, opponent);
    var playerCount := Count(window, Disc(player));
    var opponentCount := Count(window, Disc(opponent));
    var emptyCount := Count(window, Empty);
    (if playerCount == 4 then 100
     else if playerCount == 3 && emptyCount == 1 then 5
     else if playerCount == 2 && emptyCount == 2 then 2
     else 0)
    + (if opponentCount == 3 && emptyCount == 1 then -4 else 0)
  }

  /** The four cells from (r, c) in direction (dr, dc), read with `getCell`. */
  function WindowAt(g: Grid, r: int, c: int, dr: int, dc: int): seq<Cell>
    requires IsGrid(g)
  {
    [CellAt(g, r, c), CellAt(g, r + dr, c + dc), CellAt(g, r + 2 * dr, c + 2 * dc), CellAt(g, r + 3 * dr, c + 3 * dc)]
  }

  function WindowScore(g: Grid, p: PlayerNumber, r: int, c: int, dr: int, dc: int): int
    requires IsGrid(g)
  {
    EvaluateWindow(WindowAt(g, r, c, dr, dc), p, Other(p))
  }

  /** The score of the windows starting at b in [lo, hi) on line a of a family. When
      `swap` holds, a is the column and b the row (the vertical loop is column-major).
      As with `RunLength`, the grid in the measure keeps the verifier from summing a
      family out on an unknown grid. */
  function InnerSum(g: Grid, p: PlayerNumber, a: int, lo: int, hi: int, dr: int, dc: int, swap: bool): int
    requires IsGrid(g)
    decreases hi - lo, g
  {
    if hi <= lo then 0
    else InnerSum(g, p, a, lo, hi - 1, dr, dc, swap)
         + (if swap then WindowScore(g, p, hi - 1, a, dr, dc) else WindowScore(g, p, a, hi - 1, dr, dc))
  }

  /** The score of the windows of a family over lines a in [aLo, aHi). */
  function OuterSum(g: Grid, p: PlayerNumber, aLo: int, aHi: int, bLo: int, bHi: int, dr: int, dc: int, swap: bool): int
    requires IsGrid(g)
    decreases aHi - aLo, g
  {
    if aHi <= aLo then 0
    else OuterSum(g, p, aLo, aHi - 1, bLo, bHi, dr, dc, swap) + InnerSum(g, p, aHi - 1, bLo, bHi, dr, dc, swap)
  }

  /** Horizontal windows: rows 0..5, starting columns 0..2 (`col < cols - 4`). */
  function HorizontalScore(g: Grid, p: PlayerNumber): int
    requires IsGrid(g)
  {
    OuterSum(g, p, 0, Rows, 0, Cols - 4, 0, 1, false)
  }

  /** Vertical windows: columns 0..6, starting rows 0..1 (`row < rows - 4`). */
  function VerticalScore(g: Grid, p: PlayerNumber): int
    requires IsGrid(g)
  {
    OuterSum(g, p, 0, Cols, 0, Rows - 4, 1, 0, true)
  }

  /** Rising diagonals: starting rows 3..5 and columns 0..3, stepping up and right. */
  function RisingScore(g: Grid, p: PlayerNumber): int
    requires IsGrid(g)
  {
    OuterSum(g, p, 3, Rows, 0, Cols - 3, -1, 1, false)
  }

  /** Falling diagonals: starting rows 0..2 and columns 0..3, stepping down and right. */
  function FallingScore(g: Grid, p: PlayerNumber): int
    requires IsGrid(g)
  {
    OuterSum(g, p, 0, Rows - 3, 0, Cols - 3, 1, 1, false)
  }

  /** `evaluatePosition` on a value: the sum of the four families of windows. */
  function PositionScore(g: Grid, p: PlayerNumber): int
    requires IsGrid(g)
  {
    HorizontalScore(g, p) + VerticalScore(g, p) + RisingScore(g, p) + FallingScore(g, p)
  }

  /** There are 18 + 14 + 12 + 12 = 56 windows. */
  const WindowCount := 56
  const MinScore := -4 * WindowCount
  const MaxScore := 100 * WindowCount

  lemma {:induction false} InnerSumBounds(g: Grid, p: PlayerNumber, a: int, lo: int, hi: int, dr: int, dc: int, swap: bool)
    requires IsGrid(g) && lo <= hi
    ensures -4 * (hi - lo) <= InnerSum(g, p, a, lo, hi, dr, dc, swap) <= 100 * (hi - lo)
    decreases hi - lo
  {
    if hi > lo {
      InnerSumBounds(g, p, a, lo, hi - 1, dr, dc, swap);
    }
  }

  lemma {:induction false} OuterSumBounds(g: Grid, p: PlayerNumber, aLo: int, aHi: int, bLo: int, bHi: int, dr: int, dc: int, swap: bool, w: nat)
    requires IsGrid(g) && aLo <= aHi && w == bHi - bLo
    ensures -4 * w * (aHi - aLo) <= OuterSum(g, p, aLo, aHi, bLo, bHi, dr, dc, swap) <= 100 * w * (aHi - aLo)
    decreases aHi - aLo
  {
    if aHi > aLo {
      OuterSumBounds(g, p, aLo, aHi - 1, bLo, bHi, dr, dc, swap, w);
      InnerSumBounds(g, p, aHi - 1, bLo, bHi, dr, dc, swap);
      assert 100 * w * (aHi - aLo) == 100 * w * (aHi - 1 - aLo) + 100 * w;
      assert -4 * w * (aHi - aLo) == -4 * w * (aHi - 1 - aLo) - 4 * w;
    }
  }

  /** Every position scores between -4 and 100 per window. */
  lemma PositionScoreBounds(g: Grid, p: PlayerNumber)
    requires IsGrid(g)
    ensures MinScore <= PositionScore(g, p) <= MaxScore
  {
    OuterSumBounds(g, p, 0, Rows, 0, Cols - 4, 0, 1, false, 3);
    OuterSumBounds(g, p, 0, Cols, 0, Rows - 4, 1, 0, true, 2);
    OuterSumBounds(g, p, 3, Rows, 0, Cols - 3, -1, 1, false, 4);
    OuterSumBounds(g, p, 0, Rows - 3, 0, Cols - 3, 1, 1, false, 4);
  }

  /** `evaluatePosition`: the sum of the source's four loop nests, accumulated into
      `score` one family of windows after the other. Each nest is its own method below. */
  method EvaluatePosition(board: Board, player: PlayerNumber) returns (score: int)
    requires board.Valid()
    ensures score == PositionScore(board.GetBoard(), player)
    ensures MinScore <= score <= MaxScore
  {
    score := 0;
    var opponent := Other(player);
    var horizontal := HorizontalWindows(board, player, opponent);
    score := score + horizontal;
    var vertical := VerticalWindows(board, player, opponent);
    score := score + vertical;
    var rising := RisingWindows(board, player, opponent);
    score := score + rising;
    var falling := FallingWindows(board, player, opponent);
    score := score + falling;
    PositionScoreBounds(board.GetBoard(), player);
  }

  /** The first loop nest: rows 0..5, columns `col < cols - 4`. */
  method HorizontalWindows(board: Board, player: PlayerNumber, opponent: PlayerNumber) returns (score: int)
    requires board.Valid() && opponent == Other(player)
    ensures score == HorizontalScore(board.GetBoard(), player)
  {
    ghost var g := board.GetBoard();
    score := 0;
    for row := 0 to Rows
      invariant score == OuterSum(g, player, 0, row, 0, Cols - 4, 0, 1, false)
    {
      for col := 0 to Cols - 4
        invariant score == OuterSum(g, player, 0, row, 0, Cols - 4, 0, 1, false) + InnerSum(g, player, row, 0, col, 0, 1, false)
      {
        var window := [board.GetCell(row, col), board.GetCell(row, col + 1), board.GetCell(row, col + 2), board.GetCell(row, col + 3)];
        assert window == WindowAt(g, row, col, 0, 1);
        score := score + EvaluateWindow(window, player, opponent);
      }
    }
  }

  /** The second loop nest: columns 0..6 outside, rows `row < rows - 4` inside. */
  method VerticalWindows(board: Board, player: PlayerNumber, opponent: PlayerNumber) returns (score: int)
    requires board.Valid() && opponent == Other(player)
    ensures score == VerticalScore(board.GetBoard(), player)
  {
    ghost var g := board.GetBoard();
    score := 0;
    for col := 0 to Cols
      invariant score == OuterSum(g, player, 0, col, 0, Rows - 4, 1, 0, true)
    {
      for row := 0 to Rows - 4
        invariant score == OuterSum(g, player, 0, col, 0, Rows - 4, 1, 0, true) + InnerSum(g, player, col, 0, row, 1, 0, true)
      {
        var window := [board.GetCell(row, col), board.GetCell(row + 1, col), board.GetCell(row + 2, col), board.GetCell(row + 3, col)];
        assert window == WindowAt(g, row, col, 1, 0);
        score := score + EvaluateWindow(window, player, opponent);
      }
    }
  }

  /** The third loop nest: rows 3..5, columns `col <= cols - 4`, stepping up and right. */
  method RisingWindows(board: Board, player: PlayerNumber, opponent: PlayerNumber) returns (score: int)
    requires board.Valid() && opponent == Other(player)
    ensures score == RisingScore(board.GetBoard(), player)
  {
    ghost var g := board.GetBoard();
    score := 0;
    for row := 3 to Rows
      invariant score == OuterSum(g, player, 3, row, 0, Cols - 3, -1, 1, false)
    {
      for col := 0 to Cols - 3
        invariant score == OuterSum(g, player, 3, row, 0, Cols - 3, -1, 1, false) + InnerSum(g, player, row, 0, col, -1, 1, false)
      {
        var window := [board.GetCell(row, col), board.GetCell(row - 1, col + 1), board.GetCell(row - 2, col + 2), board.GetCell(row - 3, col + 3)];
        assert window == WindowAt(g, row, col, -1, 1);
        score := score + EvaluateWindow(window, player, opponent);
      }
    }
  }

  /** The fourth loop nest: rows `row <= rows - 4`, columns `col <= cols - 4`, stepping
      down and right. */
  method FallingWindows(board: Board, player: PlayerNumber, opponent: PlayerNumber) returns (score: int)
    requires board.Valid() && opponent == Other(player)
    ensures score == FallingScore(board.GetBoard(), player)
  {
    ghost var g := board.GetBoard();
    score := 0;
    for row := 0 to Rows - 3
      invariant score == OuterSum(g, player, 0, row, 0, Cols - 3, 1, 1, false)
    {
      for col := 0 to Cols - 3
        invariant score == OuterSum(g, player, 0, row, 0, Cols - 3, 1, 1, false) + InnerSum(g, player, row, 0, col, 1, 1, false)
      {
        var window := [board.GetCell(row, col), board.GetCell(row + 1, col + 1), board.GetCell(row + 2, col + 2), board.GetCell(row + 3, col + 3)];
        assert window == WindowAt(g, row, col, 1, 1);
        score := score + EvaluateWindow(window, player, opponent);
      }
    }
  }

  // ---------------------------------------------------------------------------
  // Look-ahead and snapshot
  // ---------------------------------------------------------------------------

  /** `isWinningMove` on a value: dropping at `col` lands a disc that wins. */
  predicate WinningMove(g: Grid, col: int, p: PlayerNumber)
    requires IsGrid(g)
  {
    var (g', res) := Drop(g, col, p);
    res.Dropped? && WinnerAt(g', res.row, res.col) == Some(p)
  }

  /** An invalid column never wins; a valid one wins exactly when four of `p`'s discs
      lie in a line through the cell where the disc lands. */
  lemma WinningMoveSpec(g: Grid, col: int, p: PlayerNumber)
    requires IsGrid(g)
    ensures !ValidColumn(g, col) ==> !WinningMove(g, col, p)
    ensures ValidColumn(g, col) ==>
      var g' := Drop(g, col, p).0;
      (WinningMove(g, col, p) <==> WinsThrough(g', LandingRow(g, col), col, p))
  {
    if ValidColumn(g, col) {
      DropValidSpec(g, col, p);
      var g' := Drop(g, col, p).0;
      WinnerAtSpec(g', LandingRow(g, col), col);
    }
  }

  /** `isWinningMove`: the trial drop happens on a clone, so the board passed in is not
      modified (the method has no `modifies` clause). */
  method IsWinningMove(board: Board, col: int, player: PlayerNumber) returns (wins: bool)
    requires board.Valid()
    ensures wins == WinningMove(board.GetBoard(), col, player)
    ensures !board.IsValidMove(col) ==> !wins
  {
    WinningMoveSpec(board.GetBoard(), col, player);
    var boardCopy := board.Clone();
    var result := boardCopy.DropDisc(col, player);
    if !result.Dropped? {
      return false;
    }
    var winner := CheckWinner(boardCopy, result.row, result.col);
    wins := winner == Some(player);
  }

  /** What `getGameState` reports. */
  datatype EngineState = EngineState(board: Grid, validMoves: seq<int>, isGameOver: bool)

  /** `getGameState`: a copy of the cells, the valid moves, and whether the board is full;
      the game is reported over exactly when no move is left. */
  method GetGameState(board: Board) returns (state: EngineState)
    requires board.Valid()
    ensures state.board == board.GetBoard()
    ensures state.validMoves == ValidMoves(board.GetBoard())
    ensures state.isGameOver <==> state.validMoves == []
  {
    var moves := board.GetValidMoves();
    FullIffNoMoves(board.GetBoard());
    state := EngineState(board.GetBoard(), moves, board.IsFull());
  }
}
