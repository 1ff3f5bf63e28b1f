# Connect four: board, engine, bot, session store and matchmaking queue

This project models the game core of a two-player connect-four server. A Dafny
module stands for each source file:

- `Boards` (backend/src/game/Board.js) is the 6 x 7 board. Discs fall to the lowest
  empty cell of a column.
- `Engine` (backend/src/game/GameEngine.js) detects a win through the last disc
  placed. It also holds the draw test and the window heuristic the bot scores
  positions with.
- `Bots` (backend/src/game/Bot.js) is the computer player: its column choice, the
  depth-bounded alpha-beta `minimax`, and the centre-first fallback.
- `Sessions` (backend/src/game/GameManager.js) is the session store. A map of games
  and a map from usernames to game ids cover the whole game lifecycle: creation,
  moves, bot moves, reconnects, forfeits, the abandonment sweep and the retention
  cleanup.
- `Matchmaker` (backend/src/matchmaking.js) is the waiting queue, together with the
  bot-fallback timer of backend/src/socket/handlers/matchmaking.js.

`Wrappers` holds `Option`. `Scenarios` replays the boards of the console script
backend/src/game/test.js.

Every rule is first stated as a function on values. Then the object that carries
the state in the source is proved against that function:

- A board is a `class` over an `array2<Cell>`, and `GetBoard()` is its value.
- `GameManager` keeps `games` and `playerGames` as map fields. A ghost field tracks
  each board's cells, so `View()` is a `Store` value. Each method ends in exactly the
  store that the matching `Store...` function computes from `old(View())`.
- `Matchmaking` keeps the queue as a sequence field `waiting`.

The loops of the source are loops here, with invariants:

- the bottom-up scan of `dropDisc`;
- the push loop of `getValidMoves`;
- the walk of `countInDirection`;
- the four loop nests of `evaluatePosition`;
- the move loops of `minimax`;
- the preference loop of `getStrategicMove`;
- the sweeps of `checkAbandonedGames` and `cleanupFinishedGames`;
- the socket search of `getPlayerBySocketId`.

`Date.now()` is a parameter `now` wherever it is read. The id `generateGameId`
would draw is a parameter `freshId`, required to be non-empty and new to the store.

## Where the code and its stated intent differ

The model follows the code in each case below. The intent is the one the source's
own comments and the console script backend/src/game/test.js state.

- **`getBestMove`.** Its comments (Bot.js:16 and Bot.js:21) say it first takes a
  winning move, then blocks the opponent's. In the code the result of each
  `isWinningMove` is discarded and the loop returns its first column, so the bot
  always plays the lowest open column (`Bots.BestMove`). The expectations that
  test.js:52 and test.js:63 print (the bot blocks at column 3) and the win that
  test.js:83 looks for do not hold (`Scenarios.BotDoesNotBlockScenario`,
  `Scenarios.BotMissesWinScenario`).
- **The maximising branch of `minimax`.** It cannot run, because it assigns to
  `const` bindings and recurses on the parent board. It is never reached from
  `getBestMove` (see Findings).
- **`makeBotMove`.** `makeMove` refuses a game that is not active and a move out of
  turn (GameManager.js:74 and GameManager.js:83). `makeBotMove` (GameManager.js:144-205)
  checks neither, and the model does not either (`Sessions.BotMoveSpec`).
- **`evaluatePosition`.** Its comment at GameEngine.js:63 says it checks all windows
  of four. The horizontal nest stops at `col < cols - 4` and the vertical one at
  `row < rows - 4`. As a result, windows starting at column 3 and at row 2 are never
  scored: 56 windows instead of 69.
- **`cleanupFinishedGames`.** It deletes the index entries of an expired game's
  players by username. It does so even when an entry now points to a newer, live game
  of that player (`Sessions.CleanupUnindexesLiveGame`).

## Model

| member | source | states |
|---|---|---|
| Boards.Other | backend/src/game/Bot.js:6 | the opponent's number differs from the player's |
| Boards.EmptyGrid | backend/src/game/Board.js:8-10 | a fresh board has the 6 x 7 shape and every cell empty |
| Boards.LandingRowSpec | backend/src/game/Board.js:21-26 | the bottom-up scan stops at an empty cell with every row below it occupied, or reports -1 for a column with no empty cell |
| Boards.ValidDropLands | backend/src/game/Board.js:21-28 | on a valid column the disc always lands, so "Column is full" is unreachable on any board |
| Boards.DropValidSpec | backend/src/game/Board.js:17-26 | a valid drop writes the player into the lowest empty row of the column, returns that row, and leaves every other cell alone |
| Boards.DropInvalidSpec | backend/src/game/Board.js:18-20 | an invalid column fails with "Invalid move" and leaves the board unchanged |
| Boards.DropPreservesGravity | backend/src/game/Board.js:17-29 | every drop keeps the occupied cells of each column contiguous from the bottom |
| Boards.EmptyGridGravity | backend/src/game/Board.js:8-10 | the empty board obeys gravity and is not full |
| Boards.ValidMovesSpec | backend/src/game/Board.js:31-39 | the valid moves are exactly the columns passing `isValidMove`, strictly ascending, at most seven |
| Boards.FullIffNoMoves | backend/src/game/Board.js:41-43 | the board is full exactly when there is no valid move, and then no column is valid |
| Boards.Board.constructor | backend/src/game/Board.js:2-6 | a new board over a fresh array, every cell empty |
| Boards.Board.GetBoard | backend/src/game/Board.js:55-57 | the copy has the board's shape and every cell of the array |
| Boards.Board.GetCell | backend/src/game/Board.js:59-64 | empty outside the board, and the stored cell inside |
| Boards.Board.IsValidMove | backend/src/game/Board.js:12-15 | holds exactly when the column exists and its top cell is empty |
| Boards.Board.IsFull | backend/src/game/Board.js:41-43 | holds exactly when no top cell is empty |
| Boards.Board.DropDisc | backend/src/game/Board.js:17-29 | the new cells and the result are those of `Drop` on the old cells, and a board under gravity stays under gravity |
| Boards.Board.GetValidMoves | backend/src/game/Board.js:31-39 | the list is exactly the valid columns, strictly ascending, at most seven |
| Boards.Board.Reset | backend/src/game/Board.js:45-47 | every cell is empty again, so the board is under gravity |
| Boards.Board.Clone | backend/src/game/Board.js:49-53 | a fresh board over a fresh array with the same cells; the original is not in its frame |
| Engine.RunLengthBound | backend/src/game/GameEngine.js:45-51 | a run never leaves the board: it is no longer than the cells left in its direction |
| Engine.RunFromAnchorBound | backend/src/game/GameEngine.js:40-53 | the run next to an anchor on the board counts at most six discs |
| Engine.RunLengthMaximal | backend/src/game/GameEngine.js:45-51 | the first n cells of the run hold the player's discs and the cell after it does not |
| Engine.DirectionWinsSymmetric | backend/src/game/GameEngine.js:28-38 | `checkDirection` answers the same for a direction and its reverse |
| Engine.DirectionWinsIffFour | backend/src/game/GameEngine.js:28-38 | for an owned anchor, 1 + both runs >= 4 exactly when four of the player's discs lie in a line through the anchor |
| Engine.FourThroughSymmetric | backend/src/game/GameEngine.js:12-17 | four in a line through the anchor does not depend on the direction's sign, so the four directions checked cover all eight |
| Engine.WinnerAtSpec | backend/src/game/GameEngine.js:7-24 | no winner at an empty anchor; otherwise the winner is the anchor's player, reported exactly when four of that player's discs lie in a line through it |
| Engine.CountInDirection | backend/src/game/GameEngine.js:40-53 | the loop counts the run of the player's discs that starts next to the anchor |
| Engine.CheckDirection | backend/src/game/GameEngine.js:28-38 | the answer is 1 + both runs >= 4, and for an owned anchor that means four in a line through it |
| Engine.CheckWinner | backend/src/game/GameEngine.js:7-24 | a winner owns the anchor and has four in a line through it; no winner means no player has |
| Engine.IsDraw | backend/src/game/GameEngine.js:55-57 | a draw is reported exactly when no valid move is left |
| Engine.CountPartition | backend/src/game/GameEngine.js:118-120 | the three filter counts of a window add up to its length |
| Engine.EvaluateWindow | backend/src/game/GameEngine.js:116-133 | the score is one of 100, 5, 2, 0 and -4; it is 100 exactly for four of the player's discs, and negative exactly for three of the opponent's and a gap |
| Engine.PositionScoreBounds | backend/src/game/GameEngine.js:59-115 | the 56 windows bound a position's score between -224 and 5600 |
| Engine.EvaluatePosition | backend/src/game/GameEngine.js:59-115 | the score is the sum over the four families of windows the loops visit, and lies within those bounds |
| Engine.HorizontalWindows | backend/src/game/GameEngine.js:64-73 | the first nest sums the horizontal windows starting in columns 0..2 of every row |
| Engine.VerticalWindows | backend/src/game/GameEngine.js:74-83 | the second nest sums the vertical windows starting in rows 0..1 of every column |
| Engine.RisingWindows | backend/src/game/GameEngine.js:84-97 | the third nest sums the up-right windows starting in rows 3..5 and columns 0..3 |
| Engine.FallingWindows | backend/src/game/GameEngine.js:99-112 | the fourth nest sums the down-right windows starting in rows 0..2 and columns 0..3 |
| Engine.WinningMoveSpec | backend/src/game/GameEngine.js:135-142 | an invalid column never wins; a valid one wins exactly when four lie in a line through the landing cell |
| Engine.IsWinningMove | backend/src/game/GameEngine.js:135-142 | the answer is `WinningMove` of the board, false for an invalid column, and the board is not modified |
| Engine.GetGameState | backend/src/game/GameEngine.js:144-150 | the snapshot holds the cells and the valid moves, and reports the game over exactly when no move is left |
| Bots.Min | backend/src/game/Bot.js:75 | `Math.min`: the smaller operand |
| Bots.Max | backend/src/game/Bot.js:56 | `Math.max`: the larger operand |
| Bots.SearchReturns | backend/src/game/Bot.js:30-81 | every returned search scores within the heuristic's bounds, has no column at a leaf and a valid column otherwise; the mirrored search always returns |
| Bots.MaxLoopReturns | backend/src/game/Bot.js:42-59 | the maximising loop returns at least the best score so far; the column is the current one on ties, or a later column with a strictly higher score |
| Bots.MinLoopReturns | backend/src/game/Bot.js:60-79 | the minimising loop returns at most the best score so far; the column is the current one on ties, or a later column with a strictly lower score |
| Bots.MinChildScores | backend/src/game/Bot.js:64-77 | at most one score per column: the child scores the minimising loop examines, up to and including the one after which `beta <= alpha` |
| Bots.MaxChildScores | backend/src/game/Bot.js:46-58 | at most one score per column: the child scores the maximising loop examines, up to and including the one after which `beta <= alpha` |
| Bots.MinLoopPicksFirstMin | backend/src/game/Bot.js:60-79 | the returned score is at most every examined child score; it is the running best with its column, or a strictly smaller examined score with the column of the first examined child that reaches it |
| Bots.MaxLoopPicksFirstMax | backend/src/game/Bot.js:42-59 | the mirror image for the maximising loop: at least every examined score, the running best or the first examined column reaching a strictly larger one |
| Bots.SearchMinimizing | backend/src/game/Bot.js:60-79 | a minimising search from `Infinity` returns the minimum of the child scores examined before the cut, with the first examined column that reaches it |
| Bots.SearchMaximizing | backend/src/game/Bot.js:42-59 | the mirrored maximising search from `-Infinity` always returns the maximum of the child scores examined before the cut, with the first examined column that reaches it |
| Bots.MaxBranchThrows | backend/src/game/Bot.js:42-59 | as written, the maximising branch throws whenever it has a column to try |
| Bots.SearchMirroredReturns | backend/src/game/Bot.js:30-81 | with the mirrored maximising branch the search always returns, with a score in range and, when a move exists, a valid column |
| Bots.BestMove | backend/src/game/Bot.js:9-29 | no move exactly when no column is open; otherwise the lowest valid column |
| Bots.FirstPreferred | backend/src/game/Bot.js:93-98 | the first entry of the preference order that is a valid move, or none when no entry is |
| Bots.StrategicMoveSpec | backend/src/game/Bot.js:83-101 | the centre whenever it is open; any choice is a valid column; no choice exactly when no column is open |
| Bots.Bot.constructor | backend/src/game/Bot.js:4-7 | the opponent is the other player number |
| Bots.Bot.GetBestMove | backend/src/game/Bot.js:9-29 | the lowest valid column, or none exactly when the board has no valid move; the board is not modified |
| Bots.Bot.Minimax | backend/src/game/Bot.js:30-81 | the outcome is `Search` of the board for the bot's number |
| Bots.Bot.MaximizingLoop | backend/src/game/Bot.js:42-59 | the loop's outcome is `MaxLoop` over the valid moves from `-Infinity` and the first column |
| Bots.Bot.MaximizingChild | backend/src/game/Bot.js:46-50 | the child search runs on the copy with the bot's disc dropped, or, as written, on the parent board |
| Bots.Bot.MinimizingChild | backend/src/game/Bot.js:64-68 | the child search runs on the parent board with one opponent disc dropped into the column |
| Bots.Bot.MinimizingLoop | backend/src/game/Bot.js:60-79 | the loop's outcome is `MinLoop` over the valid moves from `Infinity` and the first column |
| Bots.Bot.GetStrategicMove | backend/src/game/Bot.js:83-101 | the result is `StrategicMove` of the board |
| Sessions.EmptyStore | backend/src/game/GameManager.js:6-9 | the empty store satisfies the store invariant |
| Sessions.CreateSpec | backend/src/game/GameManager.js:11-65 | turn 1 and an empty history; active with a start time exactly when there is a second player or a bot, waiting otherwise; a bot game's player2 is "Bot"; only player1 and a human player2 are indexed |
| Sessions.CreatePreservesOK | backend/src/game/GameManager.js:11-65 | creating a game under a new, non-empty id keeps the store invariant |
| Sessions.ResolveActive | backend/src/game/GameManager.js:78-82 | in an active game every username resolves: player1 on a match, player2 otherwise |
| Sessions.MoveFailures | backend/src/game/GameManager.js:67-89 | the failures come in the source's order (not found, not active, not your turn, invalid move), exactly these occur, and none changes the store |
| Sessions.MoveSuccess | backend/src/game/GameManager.js:87-141 | one history record with the mover's name, number, column and landing row; a win exactly for four in a line, with that slot's name as winner and the turn frozen; a draw on a full board; otherwise the turn flips |
| Sessions.PlayMoveKeeps | backend/src/game/GameManager.js:87-132 | a move keeps the record well formed, its id and members, and its board under gravity |
| Sessions.MovePreservesOK | backend/src/game/GameManager.js:67-142 | a move keeps the store invariant |
| Sessions.BotMoveSpec | backend/src/game/GameManager.js:144-205 | null exactly for a missing game, a human game or a full board, with nothing changed; otherwise player 2 drops into the lowest open column with no check of status or turn, one record is appended, and a non-terminal move gives the turn to 1 |
| Sessions.PlayBotMoveKeeps | backend/src/game/GameManager.js:152-197 | a bot move keeps the record well formed and its board under gravity |
| Sessions.BotMovePreservesOK | backend/src/game/GameManager.js:144-205 | a bot move keeps the store invariant |
| Sessions.GameByPlayerSpec | backend/src/game/GameManager.js:212-215 | a user's game is found exactly when the user is indexed, and the user is a member of it |
| Sessions.ClientViewSpec | backend/src/game/GameManager.js:288-311 | the snapshot copies the board and lists exactly its open columns, ascending, none exactly when it is full |
| Sessions.SetPresenceSpec | backend/src/game/GameManager.js:224-231 | only the resolved slot's `connected` and `lastSeen` change; nothing changes when the name resolves to an empty slot |
| Sessions.PresencePreservesOK | backend/src/game/GameManager.js:217-252 | reconnect and disconnect keep the invariant, the boards, the index, and every status and turn |
| Sessions.DisconnectReachesSlot | backend/src/game/GameManager.js:239-252 | for an indexed user, disconnect always reaches the user's slot |
| Sessions.ForfeitSpec | backend/src/game/GameManager.js:271-286 | a forfeit acts exactly on an active game and finishes it with reason 'forfeit', with the slot not named as winner; otherwise nothing changes |
| Sessions.AbandonSpec | backend/src/game/GameManager.js:254-269 | only active games change; a game finishes exactly when player1, or a human player2, has been disconnected for over 30 s; player2 wins when player1 timed out; only the status, reason, end time and winner change |
| Sessions.AbandonPreservesOK | backend/src/game/GameManager.js:254-269 | the sweep keeps the invariant, the boards, the index and the set of games |
| Sessions.CompletedSpec | backend/src/game/GameManager.js:313-330 | data exactly for a finished game; both times are set, the duration is their difference, and the move count is the history's length |
| Sessions.CleanupSpec | backend/src/game/GameManager.js:332-345 | cleanup removes exactly the games finished over five minutes ago, keeps every other one unchanged, unindexes exactly their members, and keeps the invariant |
| Sessions.UnindexMembers | backend/src/game/GameManager.js:339-342 | the two deletes remove exactly the members' index entries |
| Sessions.CleanupUnindexesLiveGame | backend/src/game/GameManager.js:336-344 | a player of an expired game loses the index entry of a newer live game |
| Sessions.GameManager.constructor | backend/src/game/GameManager.js:6-9 | the manager starts with the empty store |
| Sessions.GameManager.CreateGame | backend/src/game/GameManager.js:11-65 | the store becomes `StoreCreate` of the old store, with a fresh empty board, and stays valid |
| Sessions.GameManager.MakeMove | backend/src/game/GameManager.js:67-142 | the new store and the reply are `StoreMove` of the old store |
| Sessions.GameManager.PlayTurn | backend/src/game/GameManager.js:87-142 | once the mover is known, the new store and reply are `StoreMove` of the old store |
| Sessions.GameManager.Settle | backend/src/game/GameManager.js:91-141 | after a landed disc, the record and reply are those of `StoreMove` |
| Sessions.GameManager.MakeBotMove | backend/src/game/GameManager.js:144-205 | the new store and the reply are `StoreBotMove` of the old store |
| Sessions.GameManager.GetGame | backend/src/game/GameManager.js:208-210 | the stored record exactly when the id is stored |
| Sessions.GameManager.GetGameByPlayer | backend/src/game/GameManager.js:212-215 | the indexed game exactly when the user is indexed; the user is one of its members |
| Sessions.GameManager.GetGameState | backend/src/game/GameManager.js:288-311 | the snapshot is `ClientView` of the record and its board's cells |
| Sessions.GameManager.ReconnectPlayer | backend/src/game/GameManager.js:217-237 | the new store and the reply are `StoreReconnect` of the old store |
| Sessions.GameManager.DisconnectPlayer | backend/src/game/GameManager.js:239-252 | the new store is `StoreDisconnect` of the old store |
| Sessions.GameManager.ForfeitGame | backend/src/game/GameManager.js:271-286 | the new store and the result are `StoreForfeit` of the old store |
| Sessions.GameManager.CheckAbandonedGames | backend/src/game/GameManager.js:254-269 | the loop over the games ends in `StoreAbandon` of the old store |
| Sessions.GameManager.CheckAbandoned | backend/src/game/GameManager.js:259-267 | one loop pass replaces that game's record by `AbandonCheck` of it |
| Sessions.GameManager.GetCompletedGameData | backend/src/game/GameManager.js:313-330 | the data is `StoreCompleted` of the store |
| Sessions.GameManager.CleanupFinishedGames | backend/src/game/GameManager.js:332-345 | the loop over the games ends in `StoreCleanup` of the old store |
| Sessions.GameManager.CleanupOne | backend/src/game/GameManager.js:337-343 | one loop pass removes an expired game, its cells and its members' index entries, and changes nothing otherwise |
| Matchmaker.Names | backend/src/matchmaking.js:95 | the keys of the queue, in insertion order |
| Matchmaker.RemoveNames | backend/src/matchmaking.js:85 | after a delete exactly the other usernames are queued |
| Matchmaker.RemoveAbsent | backend/src/matchmaking.js:83-89 | deleting an absent key leaves the queue unchanged |
| Matchmaker.RemoveAt | backend/src/matchmaking.js:27 | with unique keys, deleting entry i's key cuts out that one entry |
| Matchmaker.RemoveUnique | backend/src/matchmaking.js:85 | a delete keeps the keys unique |
| Matchmaker.FirstOther | backend/src/matchmaking.js:24-25 | the first entry, in insertion order, whose username is not the joiner's |
| Matchmaker.FirstBySocketSpec | backend/src/matchmaking.js:103-110 | nothing exactly when no entry has the socket, and otherwise the username of the first entry that has it |
| Matchmaker.JoinRefusals | backend/src/matchmaking.js:8-22 | a player whose indexed game is active is refused with the game's id, then a queued player; a refusal leaves the queue unchanged |
| Matchmaker.JoinPairsOldest | backend/src/matchmaking.js:24-41 | when someone waits, the first entry is paired and removed, and the joiner is not queued |
| Matchmaker.JoinEnqueues | backend/src/matchmaking.js:43-59 | the joiner is queued exactly when not refused and nobody waits, and then appears once |
| Matchmaker.JoinKeepsUnique | backend/src/matchmaking.js:17-52 | the keys stay unique, and after a pairing neither player of the new game is queued |
| Matchmaker.Matchmaking.constructor | backend/src/matchmaking.js:2-5 | the queue starts empty over the given store |
| Matchmaker.Matchmaking.JoinQueue | backend/src/matchmaking.js:7-60 | the queue becomes `Join` of the old queue; a refusal or a wait changes nothing else; a pairing creates a human game with the waiter as player1 and the joiner as player2, and returns its snapshot and the waiter |
| Matchmaker.Matchmaking.PairFirst | backend/src/matchmaking.js:24-40 | the oldest entry leaves the queue and a human game is created with it as player1 |
| Matchmaker.Matchmaking.MatchWithBot | backend/src/matchmaking.js:62-78 | nothing for an unqueued player; otherwise a bot game for the player and exactly that entry removed |
| Matchmaker.Matchmaking.LeaveQueue | backend/src/matchmaking.js:80-90 | success exactly for a queued player, whose entry goes; otherwise "Not in queue" and the queue is unchanged |
| Matchmaker.Matchmaking.GetQueueStatus | backend/src/matchmaking.js:92-97 | the number waiting and exactly the queued usernames, oldest first |
| Matchmaker.Matchmaking.IsInQueue | backend/src/matchmaking.js:99-101 | holds exactly when some entry has the username |
| Matchmaker.Matchmaking.GetPlayerBySocketId | backend/src/matchmaking.js:103-110 | the scan returns the username of the first entry on the socket |
| Matchmaker.Matchmaking.HandleDisconnect | backend/src/matchmaking.js:112-117 | only the first entry on the socket leaves the queue, unless its username is empty |
| Matchmaker.Matchmaking.BotFallback | backend/src/socket/handlers/matchmaking.js:39-52 | a still-queued player leaves the queue with a bot game indexed for them; otherwise nothing changes |
| Scenarios.DropLands | backend/src/game/Board.js:21-26 | a drop lands on the empty cell that has only discs below it |
| Scenarios.ThreeInBottomRowDrops | backend/src/game/test.js:38-40 | the three drops build player 1's three discs in the bottom row |
| Scenarios.HorizontalWinScenario | backend/src/game/test.js:36-46 | the fourth drop lands at (5, 3) and `checkWinner(5, 3)` reports player 1 |
| Scenarios.BotDoesNotBlockScenario | backend/src/game/test.js:48-63 | the bot plays column 0, and column 3 still wins for player 1 afterwards |
| Scenarios.BotMissesWinScenario | backend/src/game/test.js:65-83 | column 3 wins for the bot, but it plays column 0 and no winner is found |

## Left out

- Timers: the empty `setTimeout` of `joinQueue`, `clearTimeout`, and the ten-second delay of the socket timer. The timer callback is the explicit event `BotFallback`.
- `Bot.makeMove`: its random think time and `await` are left out, and `MakeBotMove` calls `GetBestMove` directly.
- `generateGameId`: it draws from the clock and `Math.random`, so the id is a parameter that must be non-empty and new to the store.
- The `engine` field of a game record: it only wraps the board, so the engine operations take the board.
- `async` and promises: `makeMove` and `makeBotMove` are treated as calls that run to completion.
- Concurrency with the periodic sweeps in server.js: each call is treated as atomic.
- The socket layer beyond the fallback timer, the database service, the stats controller and routes, and the frontend: all of these are I/O.
- `-Infinity` and `Infinity` in `minimax`: they are the integer sentinels `NegInf` and `PosInf`, one below and one above every score the heuristic can reach.
- The `joinQueue` loop: it is modelled by its outcome. The joiner is known not to be queued at that point, so the first entry is the one the loop stops at. `Matchmaker.FirstOther` and `Matchmaker.JoinPairsOldest` state that.
- `Matchmaker.Matchmaking.MatchWithBot`: the entry is deleted before the game is created, while the source creates first. The two steps touch different objects, so the end state is the same.
- `Engine.CountInDirection`: it states the run it counts. Its bound of six is stated by `Engine.RunFromAnchorBound` rather than in the method's contract.
- `Boards.Board.DropDisc`: the trailing "Column is full" return cannot be reached (`Boards.ValidDropLands`), so the method has no such branch. The value function `Boards.Drop` keeps it.
- `Sessions.GameManager.MakeMove`: the source's "Player not in this game" reply cannot be returned for an active game (`Sessions.ResolveActive`), so the method has no such branch. `Sessions.PlayMove` keeps it.
- `Bots.Bot.GetStrategicMove`: the final `validMoves[0]` read occurs only on an empty list. There it is `undefined`, which the model returns as no move.
- Module loading: Bot.js:1 imports `"./GameEngine"` without an extension, and Bot.js declares no `export default` although GameManager.js:2 and test.js:3 import one. Whether these imports resolve depends on build settings that are not in the repository, so the model assumes the modules load. This is an unchecked note: nothing was executed.
- The gravity invariant (every column filled contiguously from the bottom row) is not part of `Boards.Board.Valid`, which states the shape only. It is the predicate `Boards.Gravity`, proved of the empty grid (`Boards.EmptyGridGravity`) and kept by every drop (`Boards.DropPreservesGravity`, and the `DropDisc` and `Reset` contracts). The session store holds it for every board as part of `Sessions.StoreOK`.
- The order of iteration over `games` in the two sweeps: each game is handled on its own, so the model visits them in any order.

## Findings

| source | as written | input that shows it | evidently intended | confidence | as-written member | corrected member |
|---|---|---|---|---|---|---|
| backend/src/game/Bot.js:42-59 | the maximising branch declares `maxEval` and `bestCol` with `const`, assigns to them, and searches `board` instead of `boardCopy` | any board with a valid move, at depth 1 or more with `isMaximizing` true: the first child score beats `-Infinity`, and the assignment throws a `TypeError` | `let` bindings and a search on `boardCopy`, mirroring the minimising branch | not executed | Bots.MaxBranchThrows | Bots.SearchMirroredReturns |
