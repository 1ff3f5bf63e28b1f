/**
  The boards of the console script backend/src/game/test.js, built by the same drops,
  and what the model says about them.

  Test 2 finds the horizontal win it expects. Tests 3 and 4 expect a bot that blocks
  and a bot that wins. The bot as written does neither: it plays the lowest valid
  column, column 0, in both.
*/
module Scenarios {
  import opened Wrappers
  import opened Boards
  import opened Engine
  import opened Bots

  /** `g` with a disc of `p` written at (r, c). */
  function Place(g: Grid, r: int, c: int, p: PlayerNumber): (h: Grid)
    requires IsGrid(g) && InBounds(r, c)
    ensures IsGrid(h)
    ensures h[r][c] == Disc(p)
    ensures forall r', c' :: InBounds(r', c') && (r', c') != (r, c) ==> h[r'][c'] == g[r'][c']
  {
    g[r := g[r][c := Disc(p)]]
  }

  /** A drop into a column whose top is open lands on the empty cell that has only
      discs below it. */
  lemma DropLands(g: Grid, col: int, row: int, p: PlayerNumber)
    requires IsGrid(g) && InBounds(row, col) && g[0][col] == Empty && g[row][col] == Empty
    requires forall k :: row < k < Rows ==> g[k][col] != Empty
    ensures Drop(g, col, p) == (Place(g, row, col, p), Dropped(row, col, p))
  {
    DropValidSpec(g, col, p);
    LandingRowSpec(g, col);
  }

  /** Player 1's discs in the bottom row, columns 0, 1 and 2 (tests 2 and 3). */
  function ThreeInBottomRow(): (g: Grid)
    ensures IsGrid(g)
  {
    Place(Place(Place(EmptyGrid(), 5, 0, 1), 5, 1, 1), 5, 2, 1)
  }

  /** `board.dropDisc(0, 1); board.dropDisc(1, 1); board.dropDisc(2, 1)` builds it. */
  lemma ThreeInBottomRowDrops()
    ensures var g1 := Drop(EmptyGrid(), 0, 1).0;
      var g2 := Drop(g1, 1, 1).0;
      Drop(g2, 2, 1).0 == ThreeInBottomRow()
  {
    var e := EmptyGrid();
    DropLands(e, 0, 5, 1);
    var g1 := Place(e, 5, 0, 1);
    DropLands(g1, 1, 5, 1);
    var g2 := Place(g1, 5, 1, 1);
    DropLands(g2, 2, 5, 1);
  }

  /** Test 2 (lines 36-46): the fourth drop lands at (5, 3) and `checkWinner(5, 3)`
      returns player 1. */
  lemma HorizontalWinScenario()
    ensures var (g4, res) := Drop(ThreeInBottomRow(), 3, 1);
      res == Dropped(5, 3, 1) && WinnerAt(g4, 5, 3) == Some(1)
  {
    var g3 := ThreeInBottomRow();
    DropLands(g3, 3, 5, 1);
    var g4 := Place(g3, 5, 3, 1);
    assert FourThrough(g4, 5, 3, 0, 1, 1) by {
      assert On(g4, 5, 3, 0, 1, 1, -3) && On(g4, 5, 3, 0, 1, 1, -2) && On(g4, 5, 3, 0, 1, 1, -1) && On(g4, 5, 3, 0, 1, 1, 0);
    }
    WinnerAtSpec(g4, 5, 3);
  }

  /** Test 3 (lines 48-63): the bot is player 2 and player 1 threatens to complete the
      row at column 3. The bot as written plays column 0, and after that column 3 still
      wins for player 1, so the bot has not blocked. */
  lemma BotDoesNotBlockScenario()
    ensures var g3 := ThreeInBottomRow();
      && WinningMove(g3, 3, 1)
      && BestMove(g3) == Some(0)
      && WinningMove(Drop(g3, 0, 2).0, 3, 1)
  {
    var g3 := ThreeInBottomRow();
    assert ValidColumn(g3, 0);
    HorizontalWinScenario();
    DropLands(g3, 0, 4, 2);
    var g := Place(g3, 4, 0, 2);
    DropLands(g, 3, 5, 1);
    var h := Place(g, 5, 3, 1);
    assert FourThrough(h, 5, 3, 0, 1, 1) by {
      assert On(h, 5, 3, 0, 1, 1, -3) && On(h, 5, 3, 0, 1, 1, -2) && On(h, 5, 3, 0, 1, 1, -1) && On(h, 5, 3, 0, 1, 1, 0);
    }
    WinnerAtSpec(h, 5, 3);
  }

  /** Player 2's discs at the bottom of columns 0, 1 and 2, and player 1's disc on top
      of column 0 (test 4). */
  function BotThreatBoard(): (g: Grid)
    ensures IsGrid(g)
  {
    Place(Place(Place(Place(EmptyGrid(), 5, 0, 2), 5, 1, 2), 5, 2, 2), 4, 0, 1)
  }

  /** Test 4 (lines 65-83): column 3 wins for the bot, but the bot as written plays
      column 0. The disc lands at (3, 0), and `checkWinner(5, 0)` finds no winner. */
  lemma BotMissesWinScenario()
    ensures var g := BotThreatBoard();
      && WinningMove(g, 3, 2)
      && BestMove(g) == Some(0)
      && var (g', res) := Drop(g, 0, 2);
         res == Dropped(3, 0, 2) && WinnerAt(g', 5, 0) == None
  {
    var g := BotThreatBoard();
    assert ValidColumn(g, 0);
    DropLands(g, 3, 5, 2);
    var w := Place(g, 5, 3, 2);
    assert FourThrough(w, 5, 3, 0, 1, 2) by {
      assert On(w, 5, 3, 0, 1, 2, -3) && On(w, 5, 3, 0, 1, 2, -2) && On(w, 5, 3, 0, 1, 2, -1) && On(w, 5, 3, 0, 1, 2, 0);
    }
    WinnerAtSpec(w, 5, 3);
    DropLands(g, 0, 3, 2);
    var h := Place(g, 3, 0, 2);
    assert !WinsThrough(h, 5, 0, 2) by {
      assert !On(h, 5, 0, 0, 1, 2, 3) && !On(h, 5, 0, 0, 1, 2, -1);
      assert !On(h, 5, 0, 1, 0, 2, 1) && !On(h, 5, 0, 1, 0, 2, -1);
      assert !On(h, 5, 0, 1, 1, 2, 1) && !On(h, 5, 0, 1, 1, 2, -1);
      assert !On(h, 5, 0, 1, -1, 2, 1) && !On(h, 5, 0, 1, -1, 2, -1);
    }
    WinnerAtSpec(h, 5, 0);
  }
}
