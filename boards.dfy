/**
  The 6 x 7 connect-four board of backend/src/game/Board.js.

  Every rule is first stated on a value `Grid` (rows of cells, row 0 at the top and
  row 5 at the bottom); the class `Board` keeps the cells in a two-dimensional array,
  as the source keeps them in `grid`, and its members are proved against the value
  functions through `GetBoard()`.
*/
module Boards {
  import opened Wrappers

  const Rows := 6
  const Cols := 7

  /** The source's player numbers 1 and 2. */
  type PlayerNumber = n: int | n == 1 || n == 2 witness 1

  /** The number of the other player. */
  function Other(p: PlayerNumber): (o: PlayerNumber)
    ensures o != p
  {
    if p == 1 then 2 else 1
  }

  /** A cell is empty (`null` in the source) or holds a disc of one player. */
  datatype Cell = Empty | Disc(player: PlayerNumber)

  type Grid = seq<seq<Cell>>

  ghost predicate IsGrid(g: Grid)
  {
    |g| == Rows && forall r :: 0 <= r < Rows ==> |g[r]| == Cols
  }

  predicate InBounds(r: int, c: int)
  {
    0 <= r < Rows && 0 <= c < Cols
  }

  function EmptyGrid(): (g: Grid)
    ensures IsGrid(g)
    ensures forall r, c :: InBounds(r, c) ==> g[r][c] == Empty
  {
    seq(Rows, _ => seq(Cols, _ => Empty))
  }

  /** `getCell`: the cell at (r, c), and empty outside the board. */
  function CellAt(g: Grid, r: int, c: int): Cell
    requires IsGrid(g)
  {
    if InBounds(r, c) then g[r][c] else Empty
  }

  /** `isValidMove`: the column exists and its top cell is empty. */
  predicate ValidColumn(g: Grid, col: int)
    requires IsGrid(g)
  {
    0 <= col < Cols && g[0][col] == Empty
  }

  /** `isFull`: no cell of the top row is empty. */
  predicate FullGrid(g: Grid)
    requires IsGrid(g)
  {
    forall c :: 0 <= c < Cols ==> g[0][c] != Empty
  }

  /** The gravity invariant: a disc never floats above an empty cell, so the occupied
      cells of every column are a contiguous run ending at the bottom row. */
  ghost predicate Gravity(g: Grid)
    requires IsGrid(g)
  {
    forall r, r', c :: 0 <= r < r' < Rows && 0 <= c < Cols && g[r][c] != Empty ==> g[r'][c] != Empty
  }

  /** The columns below `n` that satisfy `ValidColumn`, ascending (the push loop of
      `getValidMoves` after `n` rounds). */
  function ValidPrefix(g: Grid, n: nat): seq<int>
    requires IsGrid(g)
  {
    if n == 0 then []
    else ValidPrefix(g, n - 1) + (if ValidColumn(g, n - 1) then [n - 1] else [])
  }

  /** `getValidMoves`. */
  function ValidMoves(g: Grid): seq<int>
    requires IsGrid(g)
  {
    ValidPrefix(g, Cols)
  }

  /** The bottom-up scan of `dropDisc`: the first empty row at or above `row`, or -1. */
  function LowestEmptyFrom(g: Grid, col: int, row: int): (r: int)
    requires IsGrid(g) && 0 <= col < Cols && -1 <= row < Rows
    ensures -1 <= r <= row
    decreases row + 1
  {
    if row < 0 then -1
    else if g[row][col] == Empty then row
    else LowestEmptyFrom(g, col, row - 1)
  }

  function LandingRow(g: Grid, col: int): int
    requires IsGrid(g) && 0 <= col < Cols
  {
    LowestEmptyFrom(g, col, Rows - 1)
  }

  /** What `dropDisc` returns. */
  datatype DropResult = Dropped(row: int, col: int, player: PlayerNumber) | DropFailed(message: string)

  /** `dropDisc` on a value: the new grid and the result the source returns. The
      "Column is full" case is kept as the source writes it; `ValidDropLands` shows
      that it cannot be reached. */
  function Drop(g: Grid, col: int, p: PlayerNumber): (r: (Grid, DropResult))
    requires IsGrid(g)
    ensures IsGrid(r.0)
  {
    if !ValidColumn(g, col) then (g, DropFailed("Invalid move"))
    else
      var row := LandingRow(g, col);
      if row < 0 then (g, DropFailed("Column is full"))
      else (g[row := g[row][col := Disc(p)]], Dropped(row, col, p))
  }

  // ---------------------------------------------------------------------------
  // Properties of the value-level board
  // ---------------------------------------------------------------------------

  lemma {:induction false} LowestEmptyFromSpec(g: Grid, col: int, row: int)
    requires IsGrid(g) && 0 <= col < Cols && -1 <= row < Rows
    ensures var r := LowestEmptyFrom(g, col, row);
      (r >= 0 ==> g[r][col] == Empty)
      && (forall k :: r < k <= row && k >= 0 ==> g[k][col] != Empty)
    decreases row + 1
  {
    if row >= 0 && g[row][col] != Empty {
      LowestEmptyFromSpec(g, col, row - 1);
    }
  }

  /** The landing row is the lowest empty cell of the column: it is empty and every
      row below it is occupied; -1 means the whole column is occupied. */
  lemma LandingRowSpec(g: Grid, col: int)
    requires IsGrid(g) && 0 <= col < Cols
    ensures var r := LandingRow(g, col);
      -1 <= r < Rows
      && (r >= 0 ==> g[r][col] == Empty)
      && (forall k :: r < k < Rows && k >= 0 ==> g[k][col] != Empty)
  {
    LowestEmptyFromSpec(g, col, Rows - 1);
  }

  /** On a valid column the disc always lands: the top cell is empty, so the scan finds
      an empty row at the latest at row 0 and "Column is full" is never returned, on any
      grid whatever its shape of discs. */
  lemma ValidDropLands(g: Grid, col: int, p: PlayerNumber)
    requires IsGrid(g) && ValidColumn(g, col)
    ensures Drop(g, col, p).1.Dropped?
  {
    LandingRowSpec(g, col);
  }

  /** `dropDisc` on a valid column writes `p` into the lowest empty row of that column,
      returns that row, and leaves every other cell as it was. */
  lemma DropValidSpec(g: Grid, col: int, p: PlayerNumber)
    requires IsGrid(g) && ValidColumn(g, col)
    ensures var (g', res) := Drop(g, col, p);
      IsGrid(g')
      && res.Dropped? && res.col == col && res.player == p
      && 0 <= res.row < Rows
      && g[res.row][col] == Empty
      && (forall k :: res.row < k < Rows ==> g[k][col] != Empty)
      && g'[res.row][col] == Disc(p)
      && (forall r, c :: InBounds(r, c) && (r, c) != (res.row, col) ==> g'[r][c] == g[r][c])
  {
    LandingRowSpec(g, col);
  }

  /** On an invalid column `dropDisc` fails with "Invalid move" and changes nothing. */
  lemma DropInvalidSpec(g: Grid, col: int, p: PlayerNumber)
    requires IsGrid(g) && !ValidColumn(g, col)
    ensures Drop(g, col, p) == (g, DropFailed("Invalid move"))
  {
  }

  /** Dropping a disc preserves the gravity invariant. */
  lemma DropPreservesGravity(g: Grid, col: int, p: PlayerNumber)
    requires IsGrid(g) && Gravity(g)
    ensures IsGrid(Drop(g, col, p).0) && Gravity(Drop(g, col, p).0)
  {
    if ValidColumn(g, col) {
      DropValidSpec(g, col, p);
    }
  }

  lemma EmptyGridGravity()
    ensures Gravity(EmptyGrid()) && !FullGrid(EmptyGrid())
  {
    assert EmptyGrid()[0][0] == Empty;
  }

  lemma {:induction false} ValidPrefixSpec(g: Grid, n: nat)
    requires IsGrid(g) && n <= Cols
    ensures var m := ValidPrefix(g, n);
      |m| <= n
      && (forall i, j :: 0 <= i < j < |m| ==> m[i] < m[j])
      && (forall i :: 0 <= i < |m| ==> 0 <= m[i] < n)
      && (forall c :: c in m <==> 0 <= c < n && ValidColumn(g, c))
  {
    if n > 0 {
      ValidPrefixSpec(g, n - 1);
    }
  }

  /** `getValidMoves` lists exactly the columns that satisfy `isValidMove`, strictly
      ascending, at most seven of them. */
  lemma ValidMovesSpec(g: Grid)
    requires IsGrid(g)
    ensures var m := ValidMoves(g);
      |m| <= Cols
      && (forall i, j :: 0 <= i < j < |m| ==> m[i] < m[j])
      && (forall c :: c in m <==> ValidColumn(g, c))
  {
    ValidPrefixSpec(g, Cols);
  }

  /** `isFull` holds exactly when there is no valid move, and then no column is valid. */
  lemma FullIffNoMoves(g: Grid)
    requires IsGrid(g)
    ensures FullGrid(g) <==> ValidMoves(g) == []
    ensures FullGrid(g) ==> forall c :: !ValidColumn(g, c)
  {
    ValidMovesSpec(g);
    if ValidMoves(g) != [] {
      assert ValidMoves(g)[0] in ValidMoves(g);
    }
    if !FullGrid(g) {
      var c :| 0 <= c < Cols && g[0][c] == Empty;
      assert c in ValidMoves(g);
    }
  }

  /** Two grids with the same cells are the same grid. */
  lemma SameCells(g: Grid, h: Grid)
    requires IsGrid(g) && IsGrid(h)
    requires forall r, c :: InBounds(r, c) ==> g[r][c] == h[r][c]
    ensures g == h
  {
    forall r | 0 <= r < Rows
      ensures g[r] == h[r]
    {
      assert forall c :: 0 <= c < Cols ==> g[r][c] == h[r][c] by {
        forall c | 0 <= c < Cols ensures g[r][c] == h[r][c] {
          assert InBounds(r, c);
        }
      }
    }
  }

  // ---------------------------------------------------------------------------
  // The board object
  // ---------------------------------------------------------------------------

  class Board {
    /** The cells, `grid[row, col]`. `reset` refills this array in place. */
    const grid: array2<Cell>

    /** The array has the board's shape. (The shape never changes, so this reads nothing.) */
    predicate Valid()
    {
      grid.Length0 == Rows && grid.Length1 == Cols
    }

    /** The source's constructor calls `createEmptyBoard`. */
    constructor ()
      ensures Valid() && fresh(grid)
      ensures GetBoard() == EmptyGrid()
    {
      grid := new Cell[Rows, Cols]((r, c) => Empty);
      new;
      SameCells(GetBoard(), EmptyGrid());
    }

    /** `getBoard`: a copy of the cells. A Dafny sequence is a value, so nothing done to
        the copy can reach the array. */
    function GetBoard(): (g: Grid)
      requires Valid()
      reads grid
      ensures IsGrid(g)
      ensures forall r, c :: InBounds(r, c) ==> g[r][c] == grid[r, c]
    {
      seq(Rows, r requires 0 <= r < Rows reads grid => RowCells(r))
    }

    /** Row `r` of the array as a sequence of its cells. */
    function RowCells(r: int): (cells: seq<Cell>)
      requires Valid() && 0 <= r < Rows
      reads grid
      ensures |cells| == Cols
      ensures forall c :: 0 <= c < Cols ==> cells[c] == grid[r, c]
    {
      seq(Cols, c requires 0 <= c < Cols reads grid => grid[r, c])
    }

    /** `getCell`: empty outside the board, the stored cell inside. */
    function GetCell(row: int, col: int): (cell: Cell)
      requires Valid()
      reads grid
      ensures cell == CellAt(GetBoard(), row, col)
      ensures !InBounds(row, col) ==> cell == Empty
    {
      if row < 0 || row >= Rows || col < 0 || col >= Cols then Empty
      else grid[row, col]
    }

    /** `isValidMove`. */
    predicate IsValidMove(col: int)
      requires Valid()
      reads grid
      ensures IsValidMove(col) <==> ValidColumn(GetBoard(), col)
    {
      0 <= col < Cols && grid[0, col] == Empty
    }

    /** `isFull`. */
    predicate IsFull()
      requires Valid()
      reads grid
      ensures IsFull() <==> FullGrid(GetBoard())
    {
      forall c :: 0 <= c < Cols ==> grid[0, c] != Empty
    }

    /** `dropDisc`. The scan starts at the bottom row and stops at the first empty cell;
        on a valid column the top cell is empty, so the scan always stops, and the
        source's trailing "Column is full" return (see `ValidDropLands`) has no
        counterpart here. */
    method DropDisc(col: int, player: PlayerNumber) returns (res: DropResult)
      requires Valid()
      modifies grid
      ensures (GetBoard(), res) == Drop(old(GetBoard()), col, player)
      ensures Gravity(old(GetBoard())) ==> Gravity(GetBoard())
    {
      ghost var g := GetBoard();
      if !IsValidMove(col) {
        return DropFailed("Invalid move");
      }
      var row := Rows - 1;
      while grid[row, col] != Empty
        invariant 0 <= row < Rows
        invariant forall k :: row < k < Rows ==> grid[k, col] != Empty
        invariant LowestEmptyFrom(g, col, row) == LandingRow(g, col)
        decreases row
      {
        row := row - 1;
      }
      grid[row, col] := Disc(player);
      res := Dropped(row, col, player);
      assert GetBoard() == g[row := g[row][col := Disc(player)]] by {
        forall r | 0 <= r < Rows
          ensures GetBoard()[r] == g[row := g[row][col := Disc(player)]][r]
        {
        }
      }
      if Gravity(g) {
        DropPreservesGravity(g, col, player);
      }
    }

    /** `getValidMoves`: the push loop over the columns. */
    method GetValidMoves() returns (moves: seq<int>)
      requires Valid()
      ensures moves == ValidMoves(GetBoard())
      ensures |moves| <= Cols
      ensures forall i, j :: 0 <= i < j < |moves| ==> moves[i] < moves[j]
      ensures forall c :: c in moves <==> IsValidMove(c)
    {
      moves := [];
      var col := 0;
      while col < Cols
        invariant 0 <= col <= Cols
        invariant moves == ValidPrefix(GetBoard(), col)
      {
        if IsValidMove(col) {
          moves := moves + [col];
        }
        col := col + 1;
      }
      ValidMovesSpec(GetBoard());
    }

    /** `reset`: every cell empty again. */
    method Reset()
      requires Valid()
      modifies grid
      ensures GetBoard() == EmptyGrid() && Gravity(GetBoard())
    {
      forall r, c | 0 <= r < Rows && 0 <= c < Cols {
        grid[r, c] := Empty;
      }
      SameCells(GetBoard(), EmptyGrid());
      EmptyGridGravity();
    }

    /** `clone`: a new board over a new array with the same cells. */
    method Clone() returns (copy: Board)
      requires Valid()
      ensures fresh(copy) && fresh(copy.grid) && copy.Valid()
      ensures copy.GetBoard() == GetBoard()
    {
      copy := new Board();
      forall r, c | 0 <= r < Rows && 0 <= c < Cols {
        copy.grid[r, c] := grid[r, c];
      }
      SameCells(copy.GetBoard(), GetBoard());
    }
  }
}
