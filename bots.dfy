/**
  The computer player of backend/src/game/Bot.js.

  A `Bot` keeps only its player number and its opponent's. Its methods never change
  the board they are given (none has a `modifies` clause); trial drops happen on
  clones.

  `minimax` is specified by the value function `Search`. The source's maximising branch
  cannot run as written: it assigns to a `const` (a `TypeError`) and recurses on the
  parent board instead of the copy. `Search` therefore takes a `Variant`. `AsWritten`
  is the code as it stands, with the `TypeError` as the outcome `Thrown`. `Mirrored` is
  the evidently intended maximising branch, the mirror image of the minimising one.
  The minimising branch is the same in both.

  The source's `-Infinity` and `Infinity` are the integer sentinels `NegInf` and
  `PosInf`, just outside the range that scores can take.
*/
module Bots {
  import opened Wrappers
  import opened Boards
  import opened Engine

  const NegInf := MinScore - 1
  const PosInf := MaxScore + 1

  /** `Math.min` and `Math.max`. */
  function Min(a: int, b: int): (m: int)
    ensures m <= a && m <= b && (m == a || m == b)
  {
    if a <= b then a else b
  }

  function Max(a: int, b: int): (m: int)
    ensures m >= a && m >= b && (m == a || m == b)
  {
    if a >= b then a else b
  }

  /** Which maximising branch is meant: the source's, or its evident intent. */
  datatype Variant = AsWritten | Mirrored

  /** The result of `minimax`: `{ col, score }`, or the exception thrown on the way. */
  datatype Outcome = Thrown | Returned(col: Option<int>, score: int)

  // ---------------------------------------------------------------------------
  // The search, on values
  // ---------------------------------------------------------------------------

  /** `minimax(board, depth, alpha, beta, isMaximizing)` for a bot playing `me`. At depth
      0, or with no valid move, the position is scored for `me`; otherwise the valid
      columns are tried in ascending order. */
  function Search(v: Variant, me: PlayerNumber, g: Grid, depth: nat, alpha: int, beta: int, maximizing: bool): Outcome
    requires IsGrid(g)
    decreases depth, 1, 0
  {
    var moves := ValidMoves(g);
    if depth == 0 || moves == [] then Returned(None, PositionScore(g, me))
    else if maximizing then MaxLoop(v, me, g, depth, moves, alpha, beta, NegInf, moves[0])
    else MinLoop(v, me, g, depth, moves, alpha, beta, PosInf, moves[0])
  }

  /** The maximising loop over the columns still to try, `rest`. As written, the child
      is searched on the parent board `g` (the dropped copy is discarded), and the first
      improvement of `maxEval` assigns to a `const` and throws. */
  function MaxLoop(v: Variant, me: PlayerNumber, g: Grid, depth: nat, rest: seq<int>,
                   alpha: int, beta: int, maxEval: int, bestCol: int): Outcome
    requires IsGrid(g) && depth >= 1
    decreases depth, 0, |rest|
  {
    if rest == [] then Returned(Some(bestCol), maxEval)
    else
      var col := rest[0];
      var child := if v == AsWritten then g else Drop(g, col, me).0;
      match Search(v, me, child, depth - 1, alpha, beta, false)
      case Thrown => Thrown
      case Returned(_, score) =>
        if maxEval < score && v == AsWritten then Thrown
        else
          var maxEval' := if maxEval < score then score else maxEval;
          var bestCol' := if maxEval < score then col else bestCol;
          var alpha' := Max(alpha, score);
          if beta <= alpha' then Returned(Some(bestCol'), maxEval')
          else MaxLoop(v, me, g, depth, rest[1..], alpha', beta, maxEval', bestCol')
  }

  /** The minimising loop: the opponent drops into a copy, the copy is searched one
      level down, and `bestCol` moves only on a strictly smaller score. */
  function MinLoop(v: Variant, me: PlayerNumber, g: Grid, depth: nat, rest: seq<int>,
                   alpha: int, beta: int, minEval: int, bestCol: int): Outcome
    requires IsGrid(g) && depth >= 1
    decreases depth, 0, |rest|
  {
    if rest == [] then Returned(Some(bestCol), minEval)
    else
      var col := rest[0];
      var child := Drop(g, col, Other(me)).0;
      match Search(v, me, child, depth - 1, alpha, beta, true)
      case Thrown => Thrown
      case Returned(_, score) =>
        var minEval' := if score < minEval then score else minEval;
        var bestCol' := if score < minEval then col else bestCol;
        var beta' := Min(beta, score);
        if beta' <= alpha then Returned(Some(bestCol'), minEval')
        else MinLoop(v, me, g, depth, rest[1..], alpha, beta', minEval', bestCol')
  }

  /** What a returned search promises: a score in the heuristic's range, no column at
      a leaf, and otherwise one of the valid columns. */
  predicate WellFormedResult(g: Grid, depth: nat, o: Outcome)
    requires IsGrid(g)
  {
    o.Returned? ==>
      && MinScore <= o.score <= MaxScore
      && (if depth == 0 || ValidMoves(g) == [] then o.col == None
          else o.col.Some? && o.col.value in ValidMoves(g))
  }

  /** Every returned search is well formed, and the mirrored search always returns. */
  lemma {:induction false} SearchReturns(v: Variant, me: PlayerNumber, g: Grid, depth: nat, alpha: int, beta: int, maximizing: bool)
    requires IsGrid(g)
    ensures WellFormedResult(g, depth, Search(v, me, g, depth, alpha, beta, maximizing))
    ensures v == Mirrored ==> Search(v, me, g, depth, alpha, beta, maximizing).Returned?
    decreases depth, 1, 0
  {
    PositionScoreBounds(g, me);
    var moves := ValidMoves(g);
    if depth > 0 && moves != [] {
      assert moves[0] in moves;
      if maximizing {
        MaxLoopReturns(v, me, g, depth, moves, alpha, beta, NegInf, moves[0]);
      } else {
        MinLoopReturns(v, me, g, depth, moves, alpha, beta, PosInf, moves[0]);
      }
    }
  }

  /** The maximising loop returns a score no lower than the best so far. The column is
      the current best, kept on ties, or a later column with a strictly higher score. */
  lemma {:induction false} MaxLoopReturns(v: Variant, me: PlayerNumber, g: Grid, depth: nat, rest: seq<int>,
                                          alpha: int, beta: int, maxEval: int, bestCol: int)
    requires IsGrid(g) && depth >= 1
    requires NegInf <= maxEval <= MaxScore && (rest == [] ==> MinScore <= maxEval)
    ensures var o := MaxLoop(v, me, g, depth, rest, alpha, beta, maxEval, bestCol);
      && (o.Returned? ==>
            && MinScore <= o.score <= MaxScore && maxEval <= o.score
            && o.col.Some?
            && ((o.col.value == bestCol && o.score == maxEval) || (o.col.value in rest && maxEval < o.score)))
      && (v == Mirrored ==> o.Returned?)
    decreases depth, 0, |rest|
  {
    if rest != [] {
      var col := rest[0];
      var child := if v == AsWritten then g else Drop(g, col, me).0;
      SearchReturns(v, me, child, depth - 1, alpha, beta, false);
      match Search(v, me, child, depth - 1, alpha, beta, false)
      case Thrown =>
      case Returned(_, score) =>
        if !(maxEval < score && v == AsWritten) {
          var maxEval' := if maxEval < score then score else maxEval;
          var bestCol' := if maxEval < score then col else bestCol;
          var alpha' := Max(alpha, score);
          if !(beta <= alpha') {
            MaxLoopReturns(v, me, g, depth, rest[1..], alpha', beta, maxEval', bestCol');
          }
        }
    }
  }

  /** The minimising loop returns a score no higher than the best so far. The column is
      the current best, kept on ties, or a later column with a strictly lower score. */
  lemma {:induction false} MinLoopReturns(v: Variant, me: PlayerNumber, g: Grid, depth: nat, rest: seq<int>,
                                          alpha: int, beta: int, minEval: int, bestCol: int)
    requires IsGrid(g) && depth >= 1
    requires MinScore <= minEval <= PosInf && (rest == [] ==> minEval <= MaxScore)
    ensures var o := MinLoop(v, me, g, depth, rest, alpha, beta, minEval, bestCol);
      && (o.Returned? ==>
            && MinScore <= o.score <= MaxScore && o.score <= minEval
            && o.col.Some?
            && ((o.col.value == bestCol && o.score == minEval) || (o.col.value in rest && o.score < minEval)))
      && (v == Mirrored ==> o.Returned?)
    decreases depth, 0, |rest|
  {
    if rest != [] {
      var col := rest[0];
      var child := Drop(g, col, Other(me)).0;
      SearchReturns(v, me, child, depth - 1, alpha, beta, true);
      match Search(v, me, child, depth - 1, alpha, beta, true)
      case Thrown =>
      case Returned(_, score) =>
        var minEval' := if score < minEval then score else minEval;
        var bestCol' := if score < minEval then col else bestCol;
        var beta' := Min(beta, score);
        if !(beta' <= alpha) {
          MinLoopReturns(v, me, g, depth, rest[1..], alpha, beta', minEval', bestCol');
        }
    }
  }

  /** The scores of the children the minimising loop examines, in column order, up to
      and including the one whose score makes `beta <= alpha`. `beta` is threaded as the
      loop threads it; the running best plays no part in which children are examined. */
  function MinChildScores(v: Variant, me: PlayerNumber, g: Grid, depth: nat, rest: seq<int>,
                          alpha: int, beta: int): (s: seq<int>)
    requires IsGrid(g) && depth >= 1
    ensures |s| <= |rest|
    decreases |rest|
  {
    if rest == [] then []
    else
      match Search(v, me, Drop(g, rest[0], Other(me)).0, depth - 1, alpha, beta, true)
      case Thrown => []
      case Returned(_, score) =>
        var beta' := Min(beta, score);
        if beta' <= alpha then [score]
        else [score] + MinChildScores(v, me, g, depth, rest[1..], alpha, beta')
  }

  /** The maximising loop's counterpart of `MinChildScores`, threading `alpha`. */
  function MaxChildScores(v: Variant, me: PlayerNumber, g: Grid, depth: nat, rest: seq<int>,
                          alpha: int, beta: int): (s: seq<int>)
    requires IsGrid(g) && depth >= 1
    ensures |s| <= |rest|
    decreases |rest|
  {
    if rest == [] then []
    else
      var child := if v == AsWritten then g else Drop(g, rest[0], me).0;
      match Search(v, me, child, depth - 1, alpha, beta, false)
      case Thrown => []
      case Returned(_, score) =>
        var alpha' := Max(alpha, score);
        if beta <= alpha' then [score]
        else [score] + MaxChildScores(v, me, g, depth, rest[1..], alpha', beta)
  }

  /** What the minimising loop promises about its result `o` against the examined child
      scores `s` of the columns `rest`, given the running best `minEval` at `bestCol`:
      `o.score` is at most every examined score, and it is either the running best,
      kept with its column, or a strictly smaller examined score, reported with the
      column of the first examined child that reaches it. */
  predicate FirstMinOf(o: Outcome, minEval: int, bestCol: int, rest: seq<int>, s: seq<int>)
  {
    o.Returned? ==>
      && (forall i :: 0 <= i < |s| ==> o.score <= s[i])
      && (|| (o.score == minEval && o.col == Some(bestCol))
          || (&& o.score < minEval
              && exists k :: 0 <= k < |s| && k < |rest| && s[k] == o.score && o.col == Some(rest[k])
                              && forall i :: 0 <= i < k ==> o.score < s[i]))
  }

  /** The mirror image of `FirstMinOf` for the maximising loop. */
  predicate FirstMaxOf(o: Outcome, maxEval: int, bestCol: int, rest: seq<int>, s: seq<int>)
  {
    o.Returned? ==>
      && (forall i :: 0 <= i < |s| ==> s[i] <= o.score)
      && (|| (o.score == maxEval && o.col == Some(bestCol))
          || (&& maxEval < o.score
              && exists k :: 0 <= k < |s| && k < |rest| && s[k] == o.score && o.col == Some(rest[k])
                              && forall i :: 0 <= i < k ==> s[i] < o.score))
  }

  /** One step of the minimising loop keeps `FirstMinOf`: a result that is first-minimal
      for the remaining columns after examining `score` at `rest[0]` is first-minimal
      for all of `rest`. */
  lemma FirstMinStep(o: Outcome, score: int, minEval: int, bestCol: int, rest: seq<int>, t: seq<int>)
    requires |rest| >= 1
    requires FirstMinOf(o, if score < minEval then score else minEval,
                        if score < minEval then rest[0] else bestCol, rest[1..], t)
    ensures FirstMinOf(o, minEval, bestCol, rest, [score] + t)
  {
    var s := [score] + t;
    assert forall i :: 1 <= i < |s| ==> s[i] == t[i - 1];
    if o.Returned? {
      var minEval' := if score < minEval then score else minEval;
      var bestCol' := if score < minEval then rest[0] else bestCol;
      if o.score == minEval' && o.col == Some(bestCol') {
        if score < minEval {
          assert s[0] == o.score && o.col == Some(rest[0]);
        }
      } else {
        var k :| 0 <= k < |t| && k < |rest[1..]| && t[k] == o.score && o.col == Some(rest[1..][k])
                 && forall i :: 0 <= i < k ==> o.score < t[i];
        assert s[k + 1] == o.score && o.col == Some(rest[k + 1]);
        assert forall i :: 0 <= i < k + 1 ==> o.score < s[i];
      }
    }
  }

  /** One step of the maximising loop keeps `FirstMaxOf`. */
  lemma FirstMaxStep(o: Outcome, score: int, maxEval: int, bestCol: int, rest: seq<int>, t: seq<int>)
    requires |rest| >= 1
    requires FirstMaxOf(o, if maxEval < score then score else maxEval,
                        if maxEval < score then rest[0] else bestCol, rest[1..], t)
    ensures FirstMaxOf(o, maxEval, bestCol, rest, [score] + t)
  {
    var s := [score] + t;
    assert forall i :: 1 <= i < |s| ==> s[i] == t[i - 1];
    if o.Returned? {
      var maxEval' := if maxEval < score then score else maxEval;
      var bestCol' := if maxEval < score then rest[0] else bestCol;
      if o.score == maxEval' && o.col == Some(bestCol') {
        if maxEval < score {
          assert s[0] == o.score && o.col == Some(rest[0]);
        }
      } else {
        var k :| 0 <= k < |t| && k < |rest[1..]| && t[k] == o.score && o.col == Some(rest[1..][k])
                 && forall i :: 0 <= i < k ==> t[i] < o.score;
        assert s[k + 1] == o.score && o.col == Some(rest[k + 1]);
        assert forall i :: 0 <= i < k + 1 ==> s[i] < o.score;
      }
    }
  }

  /** The minimising loop's result is first-minimal among the children it examines. */
  lemma {:induction false} MinLoopPicksFirstMin(v: Variant, me: PlayerNumber, g: Grid, depth: nat, rest: seq<int>,
                                                alpha: int, beta: int, minEval: int, bestCol: int)
    requires IsGrid(g) && depth >= 1
    ensures FirstMinOf(MinLoop(v, me, g, depth, rest, alpha, beta, minEval, bestCol), minEval, bestCol,
                       rest, MinChildScores(v, me, g, depth, rest, alpha, beta))
    decreases |rest|
  {
    if rest != [] {
      var col := rest[0];
      var child := Drop(g, col, Other(me)).0;
      match Search(v, me, child, depth - 1, alpha, beta, true)
      case Thrown =>
      case Returned(_, score) =>
        var minEval' := if score < minEval then score else minEval;
        var bestCol' := if score < minEval then col else bestCol;
        var beta' := Min(beta, score);
        var o := MinLoop(v, me, g, depth, rest, alpha, beta, minEval, bestCol);
        if beta' <= alpha {
          FirstMinStep(o, score, minEval, bestCol, rest, []);
          assert [score] + [] == [score];
        } else {
          MinLoopPicksFirstMin(v, me, g, depth, rest[1..], alpha, beta', minEval', bestCol');
          FirstMinStep(o, score, minEval, bestCol, rest, MinChildScores(v, me, g, depth, rest[1..], alpha, beta'));
        }
    }
  }

  /** The maximising loop's result is first-maximal among the children it examines. */
  lemma {:induction false} MaxLoopPicksFirstMax(v: Variant, me: PlayerNumber, g: Grid, depth: nat, rest: seq<int>,
                                                alpha: int, beta: int, maxEval: int, bestCol: int)
    requires IsGrid(g) && depth >= 1
    ensures FirstMaxOf(MaxLoop(v, me, g, depth, rest, alpha, beta, maxEval, bestCol), maxEval, bestCol,
                       rest, MaxChildScores(v, me, g, depth, rest, alpha, beta))
    decreases |rest|
  {
    if rest != [] {
      var col := rest[0];
      var child := if v == AsWritten then g else Drop(g, col, me).0;
      match Search(v, me, child, depth - 1, alpha, beta, false)
      case Thrown =>
      case Returned(_, score) =>
        if !(maxEval < score && v == AsWritten) {
          var maxEval' := if maxEval < score then score else maxEval;
          var bestCol' := if maxEval < score then col else bestCol;
          var alpha' := Max(alpha, score);
          var o := MaxLoop(v, me, g, depth, rest, alpha, beta, maxEval, bestCol);
          if beta <= alpha' {
            FirstMaxStep(o, score, maxEval, bestCol, rest, []);
            assert [score] + [] == [score];
          } else {
            MaxLoopPicksFirstMax(v, me, g, depth, rest[1..], alpha', beta, maxEval', bestCol');
            FirstMaxStep(o, score, maxEval, bestCol, rest, MaxChildScores(v, me, g, depth, rest[1..], alpha', beta));
          }
        }
    }
  }

  /** A minimising search from `Infinity` returns the smallest score among the children
      it examines before the cut, with the first examined column that reaches it: the
      source replaces `bestCol` only on a strictly smaller score. */
  lemma SearchMinimizing(v: Variant, me: PlayerNumber, g: Grid, depth: nat, alpha: int, beta: int)
    requires IsGrid(g) && depth > 0 && ValidMoves(g) != []
    ensures var o := Search(v, me, g, depth, alpha, beta, false);
            var moves := ValidMoves(g);
            var s := MinChildScores(v, me, g, depth, moves, alpha, beta);
      o.Returned? ==>
        && (forall i :: 0 <= i < |s| ==> o.score <= s[i])
        && exists k :: 0 <= k < |s| && s[k] == o.score && o.col == Some(moves[k])
                        && forall i :: 0 <= i < k ==> o.score < s[i]
  {
    var moves := ValidMoves(g);
    SearchReturns(v, me, g, depth, alpha, beta, false);
    MinLoopPicksFirstMin(v, me, g, depth, moves, alpha, beta, PosInf, moves[0]);
  }

  /** The mirrored maximising search from `-Infinity` returns the largest score among
      the children it examines before the cut, with the first examined column that
      reaches it. */
  lemma SearchMaximizing(me: PlayerNumber, g: Grid, depth: nat, alpha: int, beta: int)
    requires IsGrid(g) && depth > 0 && ValidMoves(g) != []
    ensures var o := Search(Mirrored, me, g, depth, alpha, beta, true);
            var moves := ValidMoves(g);
            var s := MaxChildScores(Mirrored, me, g, depth, moves, alpha, beta);
      && o.Returned?
      && (forall i :: 0 <= i < |s| ==> s[i] <= o.score)
      && exists k :: 0 <= k < |s| && s[k] == o.score && o.col == Some(moves[k])
                      && forall i :: 0 <= i < k ==> s[i] < o.score
  {
    var moves := ValidMoves(g);
    SearchReturns(Mirrored, me, g, depth, alpha, beta, true);
    MaxLoopPicksFirstMax(Mirrored, me, g, depth, moves, alpha, beta, NegInf, moves[0]);
  }

  /** As written, the maximising branch never returns once it has a column to try:
      either the search below throws, or its score beats `-Infinity` and the assignment
      to the `const` throws. */
  lemma MaxBranchThrows(me: PlayerNumber, g: Grid, depth: nat, alpha: int, beta: int)
    requires IsGrid(g) && depth > 0 && ValidMoves(g) != []
    ensures Search(AsWritten, me, g, depth, alpha, beta, true) == Thrown
  {
    SearchReturns(AsWritten, me, g, depth - 1, alpha, beta, false);
  }

  /** The mirrored search returns on every board: a score in range and, when there is
      a move, a valid column. */
  lemma SearchMirroredReturns(me: PlayerNumber, g: Grid, depth: nat, alpha: int, beta: int, maximizing: bool)
    requires IsGrid(g)
    ensures var o := Search(Mirrored, me, g, depth, alpha, beta, maximizing);
      && o.Returned?
      && MinScore <= o.score <= MaxScore
      && (depth > 0 && ValidMoves(g) != [] ==> o.col.Some? && ValidColumn(g, o.col.value))
  {
    SearchReturns(Mirrored, me, g, depth, alpha, beta, maximizing);
    ValidMovesSpec(g);
  }

  // ---------------------------------------------------------------------------
  // Move choice, on values
  // ---------------------------------------------------------------------------

  /** `getBestMove` as written: both look-ahead loops return their first column, so the
      choice is the lowest valid column. */
  function BestMove(g: Grid): (col: Option<int>)
    requires IsGrid(g)
    ensures col.None? <==> ValidMoves(g) == []
    ensures col.Some? ==> ValidColumn(g, col.value)
    ensures col.Some? ==> forall c :: 0 <= c < col.value ==> !ValidColumn(g, c)
  {
    ValidMovesSpec(g);
    var moves := ValidMoves(g);
    if moves == [] then None
    else
      assert moves[0] in moves;
      assert forall c :: 0 <= c < moves[0] ==> c !in moves;
      Some(moves[0])
  }

  /** The order `getStrategicMove` tries columns in: the centre, then outwards. */
  const CenterCol := 3
  const ColumnPreference := [3, 2, 4, 1, 5, 0, 6]

  /** The first entry of `order` that occurs in `moves`. */
  function FirstPreferred(order: seq<int>, moves: seq<int>): (r: Option<int>)
    ensures r.None? <==> forall i :: 0 <= i < |order| ==> order[i] !in moves
    ensures r.Some? ==> exists i :: 0 <= i < |order| && order[i] == r.value && r.value in moves
                          && forall j :: 0 <= j < i ==> order[j] !in moves
  {
    if order == [] then None
    else if order[0] in moves then Some(order[0])
    else
      var r := FirstPreferred(order[1..], moves);
      assert r.Some? ==> exists i :: 0 <= i < |order[1..]| && order[1..][i] == r.value && r.value in moves
                          && forall j :: 0 <= j < i ==> order[1..][j] !in moves;
      assert r.Some? ==> exists i :: 1 <= i < |order| && order[i] == r.value && r.value in moves
                          && forall j :: 0 <= j < i ==> order[j] !in moves by {
        if r.Some? {
          var i :| 0 <= i < |order[1..]| && order[1..][i] == r.value && r.value in moves
                   && forall j :: 0 <= j < i ==> order[1..][j] !in moves;
          assert order[i + 1] == r.value;
          assert forall j :: 0 <= j < i + 1 ==> order[j] !in moves by {
            forall j | 0 <= j < i + 1 ensures order[j] !in moves {
              if j > 0 {
                assert order[j] == order[1..][j - 1];
              }
            }
          }
        }
      }
      assert r.None? ==> forall i :: 0 <= i < |order| ==> order[i] !in moves by {
        if r.None? {
          forall i | 0 <= i < |order| ensures order[i] !in moves {
            if i > 0 {
              assert order[i] == order[1..][i - 1];
            }
          }
        }
      }
      r
  }

  /** `getStrategicMove` on a value. */
  function StrategicMove(g: Grid): Option<int>
    requires IsGrid(g)
  {
    FirstPreferred(ColumnPreference, ValidMoves(g))
  }

  /** The centre is taken whenever it is open, any choice is a valid column, and there
      is no choice only when no column is open. */
  lemma StrategicMoveSpec(g: Grid)
    requires IsGrid(g)
    ensures ValidColumn(g, CenterCol) ==> StrategicMove(g) == Some(CenterCol)
    ensures StrategicMove(g).Some? ==> ValidColumn(g, StrategicMove(g).value)
    ensures StrategicMove(g).None? <==> ValidMoves(g) == []
  {
    ValidMovesSpec(g);
    var moves := ValidMoves(g);
    if moves != [] {
      var c := moves[0];
      assert c in moves;
      var i := if c == 3 then 0 else if c == 2 then 1 else if c == 4 then 2 else if c == 1 then 3
               else if c == 5 then 4 else if c == 0 then 5 else 6;
      assert ColumnPreference[i] == c;
    }
  }

  // ---------------------------------------------------------------------------
  // The bot object
  // ---------------------------------------------------------------------------

  class Bot {
    const playerNumber: PlayerNumber
    const opponentNumber: PlayerNumber

    /** The opponent is the other player number. */
    predicate Valid()
    {
      opponentNumber == Other(playerNumber)
    }

    /** The opponent of 1 is 2 and of 2 is 1. */
    constructor (playerNumber: PlayerNumber)
      ensures Valid() && this.playerNumber == playerNumber
      ensures opponentNumber != playerNumber
    {
      this.playerNumber := playerNumber;
      opponentNumber := if playerNumber == 1 then 2 else 1;
    }

    /** `getBestMove`, as written. The win check's result is discarded and the loop body
        returns on its first pass, so the block loop and the search after it are never
        reached. */
    method GetBestMove(board: Board) returns (col: Option<int>)
      requires Valid() && board.Valid()
      ensures col == BestMove(board.GetBoard())
      ensures col.None? <==> ValidMoves(board.GetBoard()) == []
      ensures col.Some? ==> board.IsValidMove(col.value)
    {
      var validMoves := board.GetValidMoves();
      if |validMoves| == 0 {
        return None;
      }
      var first := validMoves[0];
      var _ := IsWinningMove(board, first, playerNumber);
      return Some(first);
    }

    /** `minimax`. With `AsWritten` it is the source, whose maximising branch throws;
        with `Mirrored` the maximising branch is the mirror of the minimising one. */
    method Minimax(variant: Variant, board: Board, depth: nat, alpha: int, beta: int, isMaximizing: bool)
      returns (outcome: Outcome)
      requires Valid() && board.Valid()
      ensures outcome == Search(variant, playerNumber, board.GetBoard(), depth, alpha, beta, isMaximizing)
      decreases depth, 2
    {
      var validMoves := board.GetValidMoves();
      if depth == 0 || |validMoves| == 0 {
        var score := EvaluatePosition(board, playerNumber);
        return Returned(None, score);
      }
      if isMaximizing {
        outcome := MaximizingLoop(variant, board, depth, validMoves, alpha, beta);
      } else {
        outcome := MinimizingLoop(variant, board, depth, validMoves, alpha, beta);
      }
    }

    /** The loop of `minimax`'s maximising branch (lines 42-59). */
    method MaximizingLoop(variant: Variant, board: Board, depth: nat, validMoves: seq<int>, alpha: int, beta: int)
      returns (outcome: Outcome)
      requires Valid() && board.Valid() && depth >= 1
      requires validMoves == ValidMoves(board.GetBoard()) && validMoves != []
      ensures outcome == MaxLoop(variant, playerNumber, board.GetBoard(), depth, validMoves, alpha, beta, NegInf, validMoves[0])
      decreases depth, 1
    {
      ghost var g := board.GetBoard();
      var maxEval := NegInf;
      var bestCol := validMoves[0];
      var a := alpha;
      var i := 0;
      while i < |validMoves|
        invariant 0 <= i <= |validMoves|
        invariant MaxLoop(variant, playerNumber, g, depth, validMoves, alpha, beta, NegInf, validMoves[0])
                  == MaxLoop(variant, playerNumber, g, depth, validMoves[i..], a, beta, maxEval, bestCol)
      {
        var col := validMoves[i];
        assert validMoves[i..][1..] == validMoves[i + 1..];
        var evaluation := MaximizingChild(variant, board, depth, col, a, beta);
        if evaluation.Thrown? {
          return Thrown;
        }
        if maxEval < evaluation.score {
          if variant == AsWritten {
            // `maxEval` and `bestCol` are `const`: the assignment throws.
            return Thrown;
          }
          maxEval := evaluation.score;
          bestCol := col;
        }
        a := Max(a, evaluation.score);
        if beta <= a {
          break;
        }
        i := i + 1;
      }
      return Returned(Some(bestCol), maxEval);
    }

    /** One pass of the maximising loop up to the recursive call: the bot's disc is
        dropped into a clone, and the search goes on from the clone, or, as written,
        from the parent board. */
    method MaximizingChild(variant: Variant, board: Board, depth: nat, col: int, alpha: int, beta: int)
      returns (evaluation: Outcome)
      requires Valid() && board.Valid() && depth >= 1
      ensures var child := if variant == AsWritten then board.GetBoard() else Drop(board.GetBoard(), col, playerNumber).0;
        evaluation == Search(variant, playerNumber, child, depth - 1, alpha, beta, false)
      decreases depth, 0
    {
      var boardCopy := board.Clone();
      var _ := boardCopy.DropDisc(col, playerNumber);
      if variant == AsWritten {
        evaluation := Minimax(variant, board, depth - 1, alpha, beta, false);
      } else {
        evaluation := Minimax(variant, boardCopy, depth - 1, alpha, beta, false);
      }
    }

    /** One pass of the minimising loop up to the recursive call: the opponent's disc
        is dropped into a clone and the search goes on from the clone. */
    method MinimizingChild(variant: Variant, board: Board, depth: nat, col: int, alpha: int, beta: int)
      returns (evaluation: Outcome)
      requires Valid() && board.Valid() && depth >= 1
      ensures evaluation == Search(variant, playerNumber, Drop(board.GetBoard(), col, opponentNumber).0, depth - 1, alpha, beta, true)
      decreases depth, 0
    {
      var boardCopy := board.Clone();
      var _ := boardCopy.DropDisc(col, opponentNumber);
      evaluation := Minimax(variant, boardCopy, depth - 1, alpha, beta, true);
    }

    /** The loop of `minimax`'s minimising branch (lines 60-79). */
    method MinimizingLoop(variant: Variant, board: Board, depth: nat, validMoves: seq<int>, alpha: int, beta: int)
      returns (outcome: Outcome)
      requires Valid() && board.Valid() && depth >= 1
      requires validMoves == ValidMoves(board.GetBoard()) && validMoves != []
      ensures outcome == MinLoop(variant, playerNumber, board.GetBoard(), depth, validMoves, alpha, beta, PosInf, validMoves[0])
      decreases depth, 1
    {
      ghost var g := board.GetBoard();
      var minEval := PosInf;
      var bestCol := validMoves[0];
      var b := beta;
      var i := 0;
      while i < |validMoves|
        invariant 0 <= i <= |validMoves|
        invariant MinLoop(variant, playerNumber, g, depth, validMoves, alpha, beta, PosInf, validMoves[0])
                  == MinLoop(variant, playerNumber, g, depth, validMoves[i..], alpha, b, minEval, bestCol)
      {
        var col := validMoves[i];
        assert validMoves[i..][1..] == validMoves[i + 1..];
        var evaluation := MinimizingChild(variant, board, depth, col, alpha, b);
        if evaluation.Thrown? {
          return Thrown;
        }
        if evaluation.score < minEval {
          minEval := evaluation.score;
          bestCol := col;
        }
        b := Min(b, evaluation.score);
        if b <= alpha {
          break;
        }
        i := i + 1;
      }
      return Returned(Some(bestCol), minEval);
    }

    /** `getStrategicMove`: the centre if open, else the first open column of the
        preference order. */
    method GetStrategicMove(board: Board) returns (col: Option<int>)
      requires board.Valid()
      ensures col == StrategicMove(board.GetBoard())
    {
      var validMoves := board.GetValidMoves();
      if CenterCol in validMoves {
        return Some(CenterCol);
      }
      var i := 0;
      while i < |ColumnPreference|
        invariant 0 <= i <= |ColumnPreference|
        invariant StrategicMove(board.GetBoard()) == FirstPreferred(ColumnPreference[i..], validMoves)
      {
        if ColumnPreference[i] in validMoves {
          return Some(ColumnPreference[i]);
        }
        assert ColumnPreference[i..][1..] == ColumnPreference[i + 1..];
        i := i + 1;
      }
      // The source then reads `validMoves[0]`; the list is empty here
      // (`StrategicMoveSpec`), so that read is `undefined`.
      return None;
    }
  }
}
