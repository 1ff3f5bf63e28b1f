/**
  The session store of backend/src/game/GameManager.js.

  The store keeps two maps: `games`, from game id to game record, and `playerGames`,
  from username to the id of that player's latest game. A game record is a value
  (`Game`). It holds a reference to its board, whose cells change in place. Every
  operation is first a function on a `Store`, a value that pairs each game with the
  cells of its board. The class `GameManager` keeps the maps as fields, and each of
  its methods is proved to move from `View()` to exactly the store the function gives.

  `Date.now()` is the parameter `now`, and `generateGameId` is a caller-supplied id
  that is new to the store.
*/
module Sessions {
  import opened Wrappers
  import opened Boards
  import opened Engine
  import opened Bots

  /** `checkAbandonedGames` forfeits a player disconnected for longer than this (ms). */
  const AbandonTimeout := 30000
  /** `cleanupFinishedGames` keeps a finished game for this long (ms). */
  const KeepTime := 300000
  const BotName := "Bot"

  // ---------------------------------------------------------------------------
  // Records
  // ---------------------------------------------------------------------------

  datatype Status = Waiting | Active | Finished
  datatype WinReason = Win | Draw | Forfeit

  /** `players.player1` / `players.player2`. */
  datatype Slot = Slot(username: string, playerNumber: PlayerNumber, connected: bool, lastSeen: int)

  /** One entry of `moveHistory`. */
  datatype MoveRecord = MoveRecord(player: string, playerNumber: PlayerNumber, col: int, row: int, timestamp: int)

  /** A game record. The source's `engine` field only wraps `board`, so it is left out;
      `null` fields are `None`. */
  datatype Game = Game(
    id: string,
    board: Board,
    player1: Slot,
    player2: Option<Slot>,
    currentTurn: PlayerNumber,
    status: Status,
    winner: Option<string>,
    winReason: Option<WinReason>,
    isBot: bool,
    bot: Option<Bot>,
    startTime: Option<int>,
    endTime: Option<int>,
    moveHistory: seq<MoveRecord>)

  /** JavaScript truthiness of an optional name: present and not the empty string. */
  predicate Truthy(s: Option<string>)
  {
    s.Some? && s.value != ""
  }

  /** The source's `player1.username === username ? player1 : player2`. */
  function Resolve(game: Game, username: string): Option<Slot>
  {
    if game.player1.username == username then Some(game.player1) else game.player2
  }

  /** The usernames `createGame` indexes for a game, which are the ones
      `cleanupFinishedGames` unindexes: player1, and player2 unless it is the bot. */
  function Members(game: Game): set<string>
  {
    {game.player1.username} + (if game.player2.Some? && !game.isBot then {game.player2.value.username} else {})
  }

  /** What every game record of the store satisfies. */
  ghost predicate WellFormed(game: Game)
  {
    && game.player1.playerNumber == 1
    && (game.player2.Some? ==> game.player2.value.playerNumber == 2)
    && (game.status == Waiting <==> game.player2.None?)
    && (game.isBot ==> game.player2.Some? && game.player2.value.username == BotName)
    && (game.isBot <==> game.bot.Some?)
    && (game.bot.Some? ==> game.bot.value.playerNumber == 2 && game.bot.value.Valid())
    && (game.status != Waiting ==> game.startTime.Some?)
    && (game.status == Finished ==> game.endTime.Some? && game.winReason.Some?)
  }

  /** The two maps, with the cells of each game's board under the game's id. */
  datatype Store = Store(games: map<string, Game>, grids: map<string, Grid>, playerGames: map<string, string>)

  /** The store invariant. Every game is well formed and filed under its own id, which
      is never empty. Every board obeys gravity. Every `playerGames` entry names a
      stored game in which that user is a member. */
  ghost predicate StoreOK(s: Store)
  {
    && "" !in s.games
    && s.grids.Keys == s.games.Keys
    && (forall id :: id in s.games ==> s.games[id].id == id && WellFormed(s.games[id]))
    && (forall id :: id in s.grids ==> IsGrid(s.grids[id]) && Gravity(s.grids[id]))
    && (forall u :: u in s.playerGames ==> s.playerGames[u] in s.games && u in Members(s.games[s.playerGames[u]]))
  }

  function EmptyStore(): (s: Store)
    ensures StoreOK(s)
  {
    Store(map[], map[], map[])
  }

  // ---------------------------------------------------------------------------
  // createGame
  // ---------------------------------------------------------------------------

  /** The record `createGame` stores: turn 1, and the game starts at once when there
      is a second player or a bot. A bot game's second slot is the bot's, whatever
      `player2` says. */
  function NewGame(id: string, player1: string, player2: Option<string>, isBot: bool, now: int,
                   board: Board, bot: Option<Bot>): Game
  {
    var started := isBot || Truthy(player2);
    Game(id, board,
      Slot(player1, 1, true, now),
      if isBot then Some(Slot(BotName, 2, true, now))
      else if Truthy(player2) then Some(Slot(player2.value, 2, true, now))
      else None,
      1,
      if started then Active else Waiting,
      None, None, isBot, bot,
      if started then Some(now) else None,
      None, [])
  }

  /** `createGame` on the store: the game and its empty board are filed under `id`,
      player1 is indexed, and so is a human player2. */
  function StoreCreate(s: Store, id: string, player1: string, player2: Option<string>, isBot: bool, now: int,
                    board: Board, bot: Option<Bot>): Store
  {
    var indexed := s.playerGames[player1 := id];
    Store(s.games[id := NewGame(id, player1, player2, isBot, now, board, bot)],
          s.grids[id := EmptyGrid()],
          if Truthy(player2) && !isBot then indexed[player2.value := id] else indexed)
  }

  /** What a created game looks like and which names get indexed. */
  lemma CreateSpec(s: Store, id: string, player1: string, player2: Option<string>, isBot: bool, now: int,
                   board: Board, bot: Option<Bot>)
    ensures var game := StoreCreate(s, id, player1, player2, isBot, now, board, bot).games[id];
      && game.currentTurn == 1 && game.moveHistory == [] && game.winner == None
      && (game.status == Active <==> Truthy(player2) || isBot)
      && (game.status == Waiting <==> !(Truthy(player2) || isBot))
      && (game.startTime.Some? <==> game.status == Active)
      && (game.startTime.Some? ==> game.startTime.value == now)
      && (isBot ==> game.player2 == Some(Slot(BotName, 2, true, now)))
      && game.player1 == Slot(player1, 1, true, now)
    ensures var s' := StoreCreate(s, id, player1, player2, isBot, now, board, bot);
      && s'.games.Keys == s.games.Keys + {id}
      && (forall u :: u in s'.playerGames <==>
            u in s.playerGames || u == player1 || (Truthy(player2) && !isBot && u == player2.value))
      && (forall u :: u in s'.playerGames ==>
            if u == player1 || (Truthy(player2) && !isBot && u == player2.value) then s'.playerGames[u] == id
            else s'.playerGames[u] == s.playerGames[u])
  {
  }

  /** Creating a game under a new, non-empty id keeps the invariant, given a bot for
      player 2 exactly in a bot game. */
  lemma CreatePreservesOK(s: Store, id: string, player1: string, player2: Option<string>, isBot: bool, now: int,
                          board: Board, bot: Option<Bot>)
    requires StoreOK(s) && id != "" && id !in s.games
    requires isBot <==> bot.Some?
    requires bot.Some? ==> bot.value.playerNumber == 2 && bot.value.Valid()
    ensures StoreOK(StoreCreate(s, id, player1, player2, isBot, now, board, bot))
  {
    EmptyGridGravity();
    var s' := StoreCreate(s, id, player1, player2, isBot, now, board, bot);
    forall u | u in s'.playerGames
      ensures s'.playerGames[u] in s'.games && u in Members(s'.games[s'.playerGames[u]])
    {
      if u != player1 && !(Truthy(player2) && !isBot && u == player2.value) {
        assert s.playerGames[u] != id;
      }
    }
  }

  // ---------------------------------------------------------------------------
  // makeMove
  // ---------------------------------------------------------------------------

  /** The reply of `makeMove`: an error, or the three kinds of success. */
  datatype MoveReply =
    | MoveFailed(error: string)
    | MoveWon(move: DropResult, winner: string, board: Grid)
    | MoveDrawn(move: DropResult, board: Grid)
    | MoveOn(move: DropResult, board: Grid, nextTurn: PlayerNumber, isBot: bool)

  /** `winner === 1 ? player1.username : player2.username`. */
  function WinnerName(game: Game, w: PlayerNumber): string
    requires game.player2.Some?
  {
    if w == 1 then game.player1.username else game.player2.value.username
  }

  /** The end of `makeMove` once the disc has landed: the move is recorded, and the
      game is won or drawn, or the turn passes. `winner` and `full` are what
      `checkWinner` and `isDraw` report on the new board `g'`. */
  function Settled(game: Game, g': Grid, username: string, n: PlayerNumber, col: int, res: DropResult, now: int,
                   winner: Option<PlayerNumber>, full: bool): (Game, MoveReply)
    requires game.player2.Some? && res.Dropped?
  {
    var history := game.moveHistory + [MoveRecord(username, n, col, res.row, now)];
    match winner
    case Some(w) =>
      var name := WinnerName(game, w);
      (game.(moveHistory := history, status := Finished, winner := Some(name), winReason := Some(Win),
             endTime := Some(now)),
       MoveWon(res, name, g'))
    case None =>
      if full then
        (game.(moveHistory := history, status := Finished, winReason := Some(Draw), endTime := Some(now)),
         MoveDrawn(res, g'))
      else
        var turn := Other(game.currentTurn);
        (game.(moveHistory := history, currentTurn := turn), MoveOn(res, g', turn, game.isBot))
  }

  /** `makeMove` on one game and its cells. The checks come in the source's order. */
  function PlayMove(game: Game, g: Grid, username: string, col: int, now: int): (Game, Grid, MoveReply)
    requires WellFormed(game) && IsGrid(g)
  {
    if game.status != Active then (game, g, MoveFailed("Game is not active"))
    else match Resolve(game, username)
      case None => (game, g, MoveFailed("Player not in this game"))
      case Some(player) =>
        if player.playerNumber != game.currentTurn then (game, g, MoveFailed("Not your turn"))
        else
          var (g', res) := Drop(g, col, player.playerNumber);
          if res.DropFailed? then (game, g, MoveFailed(res.message))
          else
            var (game', reply) := Settled(game, g', username, player.playerNumber, col, res, now,
                                          WinnerAt(g', res.row, res.col), FullGrid(g'));
            (game', g', reply)
  }

  /** `makeMove` on the store. */
  function StoreMove(s: Store, gameId: string, username: string, col: int, now: int): (Store, MoveReply)
    requires StoreOK(s)
  {
    if gameId !in s.games then (s, MoveFailed("Game not found"))
    else
      var (game', g', reply) := PlayMove(s.games[gameId], s.grids[gameId], username, col, now);
      (Store(s.games[gameId := game'], s.grids[gameId := g'], s.playerGames), reply)
  }

  /** In an active game every username resolves to a slot: player1's on a match and
      player2's otherwise. So "Player not in this game" cannot be returned. */
  lemma ResolveActive(game: Game, username: string)
    requires WellFormed(game) && game.status == Active
    ensures Resolve(game, username).Some?
    ensures game.player1.username != username ==> Resolve(game, username) == game.player2
    ensures Resolve(game, username).value.playerNumber == (if game.player1.username == username then 1 else 2)
  {
  }

  /** The failures of `makeMove`, in order. Each one leaves the store as it was, and
      these are the only ones. */
  lemma MoveFailures(s: Store, gameId: string, username: string, col: int, now: int)
    requires StoreOK(s)
    ensures var (s', reply) := StoreMove(s, gameId, username, col, now);
      && (gameId !in s.games ==> reply == MoveFailed("Game not found"))
      && (gameId in s.games && s.games[gameId].status != Active ==> reply == MoveFailed("Game is not active"))
      && (gameId in s.games && s.games[gameId].status == Active
          && Resolve(s.games[gameId], username).value.playerNumber != s.games[gameId].currentTurn
          ==> reply == MoveFailed("Not your turn"))
      && (gameId in s.games && s.games[gameId].status == Active
          && Resolve(s.games[gameId], username).value.playerNumber == s.games[gameId].currentTurn
          && !ValidColumn(s.grids[gameId], col)
          ==> reply == MoveFailed("Invalid move"))
      && (reply.MoveFailed? ==> s' == s)
      && (reply.MoveFailed? <==>
            || gameId !in s.games
            || s.games[gameId].status != Active
            || Resolve(s.games[gameId], username).value.playerNumber != s.games[gameId].currentTurn
            || !ValidColumn(s.grids[gameId], col))
  {
    if gameId in s.games && s.games[gameId].status == Active {
      var game := s.games[gameId];
      ResolveActive(game, username);
      if ValidColumn(s.grids[gameId], col) {
        ValidDropLands(s.grids[gameId], col, Resolve(game, username).value.playerNumber);
      }
    }
  }

  /** A successful move appends exactly one history record: the caller's name, the
      mover's number, the column and the landing row. The disc lands in the lowest
      empty cell and nothing else of the board changes. The move then finishes the
      game with a win for the mover's slot exactly when it makes four in a line. It
      finishes with a draw when it fills the board instead, and otherwise passes the
      turn. */
  lemma MoveSuccess(s: Store, gameId: string, username: string, col: int, now: int)
    requires StoreOK(s)
    requires !StoreMove(s, gameId, username, col, now).1.MoveFailed?
    ensures gameId in s.games
    ensures var (s', reply) := StoreMove(s, gameId, username, col, now);
      var game := s.games[gameId];
      var g := s.grids[gameId];
      var n := game.currentTurn;
      var row := LandingRow(g, col);
      && game.status == Active && ValidColumn(g, col)
      && Resolve(game, username).value.playerNumber == n
      && s'.games.Keys == s.games.Keys && s'.playerGames == s.playerGames
      && (forall id :: id in s.games && id != gameId ==> s'.games[id] == s.games[id] && s'.grids[id] == s.grids[id])
      && s'.grids[gameId] == Drop(g, col, n).0
      && s'.games[gameId].moveHistory == game.moveHistory + [MoveRecord(username, n, col, row, now)]
      && s'.games[gameId].board == game.board
      && (reply.MoveWon? <==> WinningMove(g, col, n))
      && (reply.MoveWon? ==>
            && s'.games[gameId].status == Finished && s'.games[gameId].winReason == Some(Win)
            && s'.games[gameId].winner == Some(Resolve(game, username).value.username)
            && reply.winner == Resolve(game, username).value.username
            && s'.games[gameId].currentTurn == n
            && WinsThrough(s'.grids[gameId], row, col, n))
      && (reply.MoveDrawn? ==>
            && s'.games[gameId].status == Finished && s'.games[gameId].winReason == Some(Draw)
            && s'.games[gameId].winner == game.winner
            && s'.games[gameId].currentTurn == n
            && FullGrid(s'.grids[gameId]))
      && (reply.MoveOn? ==>
            && s'.games[gameId].status == Active
            && s'.games[gameId].currentTurn == Other(n) && reply.nextTurn == Other(n)
            && !FullGrid(s'.grids[gameId]))
  {
    var game := s.games[gameId];
    var g := s.grids[gameId];
    ResolveActive(game, username);
    var n := Resolve(game, username).value.playerNumber;
    if !ValidColumn(g, col) {
      DropInvalidSpec(g, col, n);
    }
    DropValidSpec(g, col, n);
    var (g', res) := Drop(g, col, n);
    WinningMoveSpec(g, col, n);
    WinnerAtSpec(g', res.row, res.col);
  }

  /** Replacing one game and its cells keeps the invariant when the new record is well
      formed, has the same id and keeps every member, and the new board obeys gravity. */
  lemma ReplacePreservesOK(s: Store, id: string, game: Game, g: Grid)
    requires StoreOK(s) && id in s.games
    requires game.id == id && WellFormed(game) && Members(s.games[id]) <= Members(game)
    requires IsGrid(g) && Gravity(g)
    ensures StoreOK(Store(s.games[id := game], s.grids[id := g], s.playerGames))
  {
  }

  /** Replacing one game's record alone keeps the invariant under the same
      conditions. */
  lemma RecordPreservesOK(s: Store, id: string, game: Game)
    requires StoreOK(s) && id in s.games
    requires game.id == id && WellFormed(game) && Members(s.games[id]) <= Members(game)
    ensures StoreOK(s.(games := s.games[id := game]))
  {
  }

  /** Filing a game's own record and cells again changes nothing. */
  lemma SameStore(s: Store, id: string)
    requires id in s.games && id in s.grids
    ensures Store(s.games[id := s.games[id]], s.grids[id := s.grids[id]], s.playerGames) == s
  {
    assert s.games[id := s.games[id]] == s.games;
    assert s.grids[id := s.grids[id]] == s.grids;
  }

  /** A move on one game keeps its record well formed, its id and members, and its
      board under gravity. */
  lemma PlayMoveKeeps(game: Game, g: Grid, username: string, col: int, now: int)
    requires WellFormed(game) && IsGrid(g) && Gravity(g)
    ensures var (game', g', _) := PlayMove(game, g, username, col, now);
      && WellFormed(game') && game'.id == game.id && Members(game') == Members(game)
      && IsGrid(g') && Gravity(g')
  {
    if game.status == Active {
      ResolveActive(game, username);
      DropPreservesGravity(g, col, Resolve(game, username).value.playerNumber);
    }
  }

  /** A move keeps the store invariant. */
  lemma MovePreservesOK(s: Store, gameId: string, username: string, col: int, now: int)
    requires StoreOK(s)
    ensures StoreOK(StoreMove(s, gameId, username, col, now).0)
  {
    if gameId in s.games {
      PlayMoveKeeps(s.games[gameId], s.grids[gameId], username, col, now);
      var (game', g', _) := PlayMove(s.games[gameId], s.grids[gameId], username, col, now);
      ReplacePreservesOK(s, gameId, game', g');
    }
  }

  // ---------------------------------------------------------------------------
  // makeBotMove
  // ---------------------------------------------------------------------------

  /** The reply of a bot move (the source's `null` is `None`). */
  datatype BotReply =
    | BotWon(move: DropResult, board: Grid)
    | BotDrawn(move: DropResult, board: Grid)
    | BotOn(move: DropResult, board: Grid, nextTurn: PlayerNumber)

  /** `makeBotMove` on one game. Neither the status nor the turn is checked. The column
      is the bot's `getBestMove`; when there is none, `dropDisc(null, 2)` fails as an
      invalid move. */
  function PlayBotMove(game: Game, g: Grid, now: int): (Game, Grid, Option<BotReply>)
    requires IsGrid(g)
  {
    if !game.isBot then (game, g, None)
    else match BestMove(g)
      case None => (game, g, None)
      case Some(col) =>
        var (g', res) := Drop(g, col, 2);
        if res.DropFailed? then (game, g, None)
        else
          var (game', reply) := BotSettled(game, g', col, res, now, WinnerAt(g', res.row, res.col), FullGrid(g'));
          (game', g', Some(reply))
  }

  /** The end of `makeBotMove` once the disc has landed, as `Settled` is for a player's
      move. A win goes to "Bot", and otherwise the turn goes to player 1. */
  function BotSettled(game: Game, g': Grid, col: int, res: DropResult, now: int,
                      winner: Option<PlayerNumber>, full: bool): (Game, BotReply)
    requires res.Dropped?
  {
    var history := game.moveHistory + [MoveRecord(BotName, 2, col, res.row, now)];
    if winner.Some? then
      (game.(moveHistory := history, status := Finished, winner := Some(BotName), winReason := Some(Win),
             endTime := Some(now)),
       BotWon(res, g'))
    else if full then
      (game.(moveHistory := history, status := Finished, winReason := Some(Draw), endTime := Some(now)),
       BotDrawn(res, g'))
    else
      (game.(moveHistory := history, currentTurn := 1), BotOn(res, g', 1))
  }

  /** `makeBotMove` on the store. */
  function StoreBotMove(s: Store, gameId: string, now: int): (Store, Option<BotReply>)
    requires StoreOK(s)
  {
    if gameId !in s.games then (s, None)
    else
      var (game', g', reply) := PlayBotMove(s.games[gameId], s.grids[gameId], now);
      (Store(s.games[gameId := game'], s.grids[gameId := g'], s.playerGames), reply)
  }

  /** `makeBotMove` returns null exactly for a missing game, a human game, or a full
      board, and then changes nothing. Otherwise the bot drops as player 2 into the
      lowest valid column, whatever the game's status or turn, and appends one record.
      A move that neither wins nor fills the board gives the turn to player 1. */
  lemma BotMoveSpec(s: Store, gameId: string, now: int)
    requires StoreOK(s)
    ensures var (s', reply) := StoreBotMove(s, gameId, now);
      && (reply.None? <==>
            gameId !in s.games || !s.games[gameId].isBot || ValidMoves(s.grids[gameId]) == [])
      && (reply.None? ==> s' == s)
      && (reply.Some? ==>
            var game := s.games[gameId];
            var g := s.grids[gameId];
            var col := BestMove(g).value;
            && ValidColumn(g, col)
            && s'.grids[gameId] == Drop(g, col, 2).0
            && s'.games[gameId].moveHistory
                 == game.moveHistory + [MoveRecord(BotName, 2, col, LandingRow(g, col), now)]
            && s'.playerGames == s.playerGames
            && (reply.value.BotWon? <==> WinningMove(g, col, 2))
            && (reply.value.BotWon? ==> s'.games[gameId].winner == Some(BotName) && s'.games[gameId].status == Finished)
            && (reply.value.BotDrawn? ==> FullGrid(s'.grids[gameId]) && s'.games[gameId].status == Finished)
            && (reply.value.BotOn? ==> s'.games[gameId].currentTurn == 1 && s'.games[gameId].status == game.status))
  {
    if gameId in s.games && s.games[gameId].isBot {
      var g := s.grids[gameId];
      if BestMove(g).Some? {
        var col := BestMove(g).value;
        DropValidSpec(g, col, 2);
        WinningMoveSpec(g, col, 2);
      }
    }
  }

  /** A bot move on one game keeps its record well formed, its id and members, and
      its board under gravity. */
  lemma PlayBotMoveKeeps(game: Game, g: Grid, now: int)
    requires WellFormed(game) && IsGrid(g) && Gravity(g)
    ensures var (game', g', _) := PlayBotMove(game, g, now);
      && WellFormed(game') && game'.id == game.id && Members(game') == Members(game)
      && IsGrid(g') && Gravity(g')
  {
    if game.isBot && BestMove(g).Some? {
      DropPreservesGravity(g, BestMove(g).value, 2);
    }
  }

  /** A bot move keeps the store invariant. */
  lemma BotMovePreservesOK(s: Store, gameId: string, now: int)
    requires StoreOK(s)
    ensures StoreOK(StoreBotMove(s, gameId, now).0)
  {
    if gameId in s.games {
      PlayBotMoveKeeps(s.games[gameId], s.grids[gameId], now);
      var (game', g', _) := PlayBotMove(s.games[gameId], s.grids[gameId], now);
      ReplacePreservesOK(s, gameId, game', g');
    }
  }

  // ---------------------------------------------------------------------------
  // Lookups, presence and the client snapshot
  // ---------------------------------------------------------------------------

  /** `getGameByPlayer`: the game under the user's index entry, if the entry is truthy. */
  function GameByPlayer(s: Store, username: string): Option<Game>
  {
    if username in s.playerGames && s.playerGames[username] != "" && s.playerGames[username] in s.games
    then Some(s.games[s.playerGames[username]])
    else None
  }

  /** A user's game is found exactly when the user is indexed, and the user is then a
      member of it. */
  lemma GameByPlayerSpec(s: Store, username: string)
    requires StoreOK(s)
    ensures GameByPlayer(s, username).Some? <==> username in s.playerGames
    ensures GameByPlayer(s, username).Some? ==> username in Members(GameByPlayer(s, username).value)
  {
  }

  /** The public part of a slot, as the client sees it. */
  datatype PublicSlot = PublicSlot(username: string, playerNumber: PlayerNumber, connected: bool)

  /** What `getGameState` sends to the client. */
  datatype ClientState = ClientState(
    id: string, board: Grid, currentTurn: PlayerNumber, status: Status,
    player1: PublicSlot, player2: Option<PublicSlot>, isBot: bool,
    winner: Option<string>, winReason: Option<WinReason>, validMoves: seq<int>)

  function Public(slot: Slot, n: PlayerNumber): PublicSlot
  {
    PublicSlot(slot.username, n, slot.connected)
  }

  /** `getGameState(game)` on a value. */
  function ClientView(game: Game, g: Grid): (c: ClientState)
    requires IsGrid(g)
  {
    ClientState(game.id, g, game.currentTurn, game.status,
      Public(game.player1, 1),
      if game.player2.Some? then Some(Public(game.player2.value, 2)) else None,
      game.isBot, game.winner, game.winReason, ValidMoves(g))
  }

  /** The snapshot copies the board and lists exactly its open columns, ascending. No
      column is listed exactly when the board is full. */
  lemma ClientViewSpec(game: Game, g: Grid)
    requires IsGrid(g)
    ensures var c := ClientView(game, g);
      && c.board == g
      && (forall col :: col in c.validMoves <==> ValidColumn(g, col))
      && (forall i, j :: 0 <= i < j < |c.validMoves| ==> c.validMoves[i] < c.validMoves[j])
      && (c.validMoves == [] <==> FullGrid(g))
      && c.player1.username == game.player1.username && c.player1.connected == game.player1.connected
      && (c.player2.Some? <==> game.player2.Some?)
  {
    ValidMovesSpec(g);
    FullIffNoMoves(g);
  }

  /** The slot `username` resolves to, with its presence set; `None` when the name
      resolves to an empty second slot. */
  function SetPresence(game: Game, username: string, connected: bool, now: int): Option<Game>
  {
    if game.player1.username == username then
      Some(game.(player1 := game.player1.(connected := connected, lastSeen := now)))
    else if game.player2.Some? then
      Some(game.(player2 := Some(game.player2.value.(connected := connected, lastSeen := now))))
    else None
  }

  /** Presence changes nothing but one slot's `connected` and `lastSeen`, and that slot
      is the one `username` resolves to. */
  lemma SetPresenceSpec(game: Game, username: string, connected: bool, now: int)
    ensures SetPresence(game, username, connected, now).None? <==> Resolve(game, username).None?
    ensures SetPresence(game, username, connected, now).Some? ==>
      var game' := SetPresence(game, username, connected, now).value;
      && game'.status == game.status && game'.currentTurn == game.currentTurn
      && game'.winner == game.winner && game'.moveHistory == game.moveHistory
      && game'.board == game.board && game'.isBot == game.isBot && game'.id == game.id
      && Resolve(game', username) == Some(Resolve(game, username).value.(connected := connected, lastSeen := now))
      && (game.player1.username == username ==> game'.player2 == game.player2)
      && (game.player1.username != username ==> game'.player1 == game.player1)
  {
  }

  /** The reply of `reconnectPlayer`. */
  datatype ReconnectReply = ReconnectFailed(error: string) | Reconnected(game: ClientState)

  /** `reconnectPlayer` on the store: the slot is marked connected, and the reply is
      the client snapshot after that. */
  function StoreReconnect(s: Store, gameId: string, username: string, now: int): (Store, ReconnectReply)
    requires StoreOK(s)
  {
    if gameId !in s.games then (s, ReconnectFailed("Game not found"))
    else match SetPresence(s.games[gameId], username, true, now)
      case None => (s, ReconnectFailed("Player not in this game"))
      case Some(game') =>
        (s.(games := s.games[gameId := game']), Reconnected(ClientView(game', s.grids[gameId])))
  }

  /** `disconnectPlayer` on the store: through the user's index entry, the resolved
      slot is marked disconnected. */
  function StoreDisconnect(s: Store, username: string, now: int): Store
    requires StoreOK(s)
  {
    if username !in s.playerGames then s
    else
      var gameId := s.playerGames[username];
      if gameId == "" || gameId !in s.games then s
      else match SetPresence(s.games[gameId], username, false, now)
        case None => s
        case Some(game') => s.(games := s.games[gameId := game'])
  }

  /** Reconnecting and disconnecting never change a status, a turn, a board or the
      index, and keep the invariant. */
  lemma PresencePreservesOK(s: Store, gameId: string, username: string, now: int)
    requires StoreOK(s)
    ensures var s' := StoreReconnect(s, gameId, username, now).0;
      && StoreOK(s') && s'.grids == s.grids && s'.playerGames == s.playerGames
      && s'.games.Keys == s.games.Keys
      && (forall id :: id in s.games ==> s'.games[id].status == s.games[id].status
                                          && s'.games[id].currentTurn == s.games[id].currentTurn)
    ensures var s' := StoreDisconnect(s, username, now);
      && StoreOK(s') && s'.grids == s.grids && s'.playerGames == s.playerGames
      && s'.games.Keys == s.games.Keys
      && (forall id :: id in s.games ==> s'.games[id].status == s.games[id].status
                                          && s'.games[id].currentTurn == s.games[id].currentTurn)
  {
    if gameId in s.games {
      PresenceKeeps(s, gameId, username, true, now);
    }
    if username in s.playerGames && s.playerGames[username] in s.games {
      PresenceKeeps(s, s.playerGames[username], username, false, now);
    }
  }

  /** Setting presence in one stored game keeps the invariant, the boards and every
      status and turn. */
  lemma PresenceKeeps(s: Store, id: string, username: string, connected: bool, now: int)
    requires StoreOK(s) && id in s.games
    ensures SetPresence(s.games[id], username, connected, now).Some? ==>
      var game' := SetPresence(s.games[id], username, connected, now).value;
      && StoreOK(s.(games := s.games[id := game']))
      && game'.status == s.games[id].status && game'.currentTurn == s.games[id].currentTurn
  {
    var game := s.games[id];
    SetPresenceSpec(game, username, connected, now);
    if SetPresence(game, username, connected, now).Some? {
      var game' := SetPresence(game, username, connected, now).value;
      assert Members(game') == Members(game);
      ReplacePreservesOK(s, id, game', s.grids[id]);
      assert s.grids[id := s.grids[id]] == s.grids;
    }
  }

  /** Disconnecting an indexed user always reaches a slot: the index points at a game
      the user is a member of, so `!gameId` and `!game` never stop it. */
  lemma DisconnectReachesSlot(s: Store, username: string, now: int)
    requires StoreOK(s) && username in s.playerGames
    ensures var gameId := s.playerGames[username];
      && gameId != "" && gameId in s.games
      && SetPresence(s.games[gameId], username, false, now).Some?
      && StoreDisconnect(s, username, now).games[gameId] == SetPresence(s.games[gameId], username, false, now).value
  {
  }

  // ---------------------------------------------------------------------------
  // forfeitGame and checkAbandonedGames
  // ---------------------------------------------------------------------------

  /** The record after `forfeitGame(gameId, username)` acts: the other slot wins. */
  function Forfeited(game: Game, username: string, now: int): Game
    requires game.player2.Some?
  {
    game.(status := Finished, winReason := Some(Forfeit), endTime := Some(now),
          winner := Some(if game.player1.username == username then game.player2.value.username
                         else game.player1.username))
  }

  /** `forfeitGame` on the store: it acts only on an active game and returns it. */
  function StoreForfeit(s: Store, gameId: string, username: string, now: int): (Store, Option<Game>)
    requires StoreOK(s)
  {
    if gameId !in s.games || s.games[gameId].status != Active then (s, None)
    else
      var game' := Forfeited(s.games[gameId], username, now);
      (s.(games := s.games[gameId := game']), Some(game'))
  }

  /** A forfeit acts exactly on an active game. It finishes the game with reason
      'forfeit', and the winner is the slot that `username` does not name. */
  lemma ForfeitSpec(s: Store, gameId: string, username: string, now: int)
    requires StoreOK(s)
    ensures var (s', r) := StoreForfeit(s, gameId, username, now);
      && (r.Some? <==> gameId in s.games && s.games[gameId].status == Active)
      && (r.None? ==> s' == s)
      && StoreOK(s') && s'.grids == s.grids && s'.playerGames == s.playerGames
      && (r.Some? ==>
            var game := s.games[gameId];
            && s'.games == s.games[gameId := r.value]
            && r.value.status == Finished && r.value.winReason == Some(Forfeit) && r.value.endTime == Some(now)
            && r.value.winner == Some(if game.player1.username == username then game.player2.value.username
                                      else game.player1.username)
            && r.value.board == game.board && r.value.moveHistory == game.moveHistory)
  {
  }

  /** `!slot.connected && now - slot.lastSeen > timeout`. */
  predicate TimedOut(slot: Slot, now: int)
  {
    !slot.connected && now - slot.lastSeen > AbandonTimeout
  }

  /** One pass of the `checkAbandonedGames` loop body. A non-active game is skipped.
      Otherwise player1 is forfeited if timed out; then a human player2 if timed out,
      through `forfeitGame`, which does nothing once the game is finished. */
  function AbandonCheck(game: Game, now: int): Game
    requires WellFormed(game)
  {
    if game.status != Active then game
    else
      var afterFirst := if TimedOut(game.player1, now) then Forfeited(game, game.player1.username, now) else game;
      if !afterFirst.isBot && afterFirst.player2.Some? && TimedOut(afterFirst.player2.value, now) then
        (if afterFirst.status == Active then Forfeited(afterFirst, afterFirst.player2.value.username, now)
         else afterFirst)
      else afterFirst
  }

  /** `checkAbandonedGames` on the store: each game is checked on its own. */
  function StoreAbandon(s: Store, now: int): (s': Store)
    requires StoreOK(s)
  {
    s.(games := map id | id in s.games :: AbandonCheck(s.games[id], now))
  }

  /** The sweep touches only active games. It finishes one exactly when player1, or a
      human player2, has been disconnected for over 30 seconds, and it does so once.
      When player1 timed out, player2 wins, even if player2 timed out too. Only the
      status, reason, end time and winner change. */
  lemma AbandonSpec(game: Game, now: int)
    requires WellFormed(game)
    ensures var game' := AbandonCheck(game, now);
      && WellFormed(game')
      && (game.status != Active ==> game' == game)
      && (game.status == Active ==>
            && (game'.status == Finished <==>
                  TimedOut(game.player1, now) || (!game.isBot && TimedOut(game.player2.value, now)))
            && (game'.status == Finished ==>
                  && game'.winReason == Some(Forfeit) && game'.endTime == Some(now)
                  && game'.winner == Some(if TimedOut(game.player1, now) then game.player2.value.username
                                          else game.player1.username))
            && (game'.status != Finished ==> game' == game))
      && game'.board == game.board && game'.moveHistory == game.moveHistory
      && game'.player1 == game.player1 && game'.player2 == game.player2
      && game'.currentTurn == game.currentTurn && game'.id == game.id
  {
  }

  /** The store while the sweep has the games under the ids in `todo` still to check. */
  function AbandonRest(s: Store, todo: set<string>, now: int): Store
    requires StoreOK(s)
  {
    s.(games := map id | id in s.games :: if id in todo then s.games[id] else AbandonCheck(s.games[id], now))
  }

  /** With every id still to check nothing has changed; with none left the sweep is
      complete. */
  lemma AbandonRestEnds(s: Store, now: int)
    requires StoreOK(s)
    ensures AbandonRest(s, s.games.Keys, now) == s
    ensures AbandonRest(s, {}, now) == StoreAbandon(s, now)
  {
    assert AbandonRest(s, s.games.Keys, now).games == s.games;
  }

  /** Checking one more stored game replaces its record by `AbandonCheck` of it. */
  lemma AbandonRestStep(s: Store, todo: set<string>, id: string, now: int)
    requires StoreOK(s) && id in s.games && id in todo
    ensures var a := AbandonRest(s, todo, now);
      && id in a.games && a.games[id] == s.games[id]
      && AbandonRest(s, todo - {id}, now) == a.(games := a.games[id := AbandonCheck(s.games[id], now)])
  {
    var a := AbandonRest(s, todo, now);
    assert AbandonRest(s, todo - {id}, now).games == a.games[id := AbandonCheck(s.games[id], now)];
  }

  /** The sweep keeps the invariant, the boards and the index. */
  lemma AbandonPreservesOK(s: Store, now: int)
    requires StoreOK(s)
    ensures var s' := StoreAbandon(s, now);
      StoreOK(s') && s'.grids == s.grids && s'.playerGames == s.playerGames && s'.games.Keys == s.games.Keys
  {
    var s' := StoreAbandon(s, now);
    forall id | id in s.games
      ensures s'.games[id].id == id && WellFormed(s'.games[id]) && Members(s'.games[id]) == Members(s.games[id])
    {
      AbandonSpec(s.games[id], now);
    }
  }

  // ---------------------------------------------------------------------------
  // getCompletedGameData and cleanupFinishedGames
  // ---------------------------------------------------------------------------

  /** What `getCompletedGameData` returns. */
  datatype CompletedGame = CompletedGame(
    gameId: string, player1: string, player2: string, winner: Option<string>,
    winReason: Option<WinReason>, isBot: bool, startTime: Option<int>, endTime: Option<int>,
    duration: int, moveCount: nat, moveHistory: seq<MoveRecord>)

  /** `getCompletedGameData` on the store: only finished games are reported. A `null`
      time counts as 0 in the duration, as in JavaScript arithmetic. */
  function StoreCompleted(s: Store, gameId: string): (r: Option<CompletedGame>)
    requires StoreOK(s)
  {
    if gameId !in s.games || s.games[gameId].status != Finished then None
    else
      var game := s.games[gameId];
      Some(CompletedGame(game.id, game.player1.username, game.player2.value.username, game.winner,
                         game.winReason, game.isBot, game.startTime, game.endTime,
                         game.endTime.GetOr(0) - game.startTime.GetOr(0),
                         |game.moveHistory|, game.moveHistory))
  }

  /** Data is returned exactly for a finished game. Both times are then set, the
      duration is their difference, and the move count is the history's length. */
  lemma CompletedSpec(s: Store, gameId: string)
    requires StoreOK(s)
    ensures StoreCompleted(s, gameId).Some? <==> gameId in s.games && s.games[gameId].status == Finished
    ensures StoreCompleted(s, gameId).Some? ==>
      var d := StoreCompleted(s, gameId).value;
      var game := s.games[gameId];
      && d.gameId == gameId && d.startTime.Some? && d.endTime.Some?
      && d.duration == d.endTime.value - d.startTime.value
      && d.moveCount == |d.moveHistory| && d.moveHistory == game.moveHistory
      && d.winReason.Some?
  {
  }

  /** Finished for longer than five minutes. A `null` end time counts as 0. */
  predicate Expired(game: Game, now: int)
  {
    game.status == Finished && now - game.endTime.GetOr(0) > KeepTime
  }

  /** The ids among `ids` of expired games. */
  function ExpiredAmong(games: map<string, Game>, ids: set<string>, now: int): set<string>
  {
    set id | id in ids && id in games && Expired(games[id], now)
  }

  /** The ids of expired games. */
  function ExpiredIds(s: Store, now: int): set<string>
  {
    ExpiredAmong(s.games, s.games.Keys, now)
  }

  /** The members of the expired games among `ids`. */
  function DepartedAmong(games: map<string, Game>, ids: set<string>, now: int): set<string>
  {
    set id, u | id in ids && id in games && Expired(games[id], now) && u in Members(games[id]) :: u
  }

  /** The usernames that cleanup unindexes: the members of the expired games. */
  function Departed(s: Store, now: int): set<string>
  {
    DepartedAmong(s.games, s.games.Keys, now)
  }

  /** Taking one more id into account adds that game's members when it has expired. */
  lemma DepartedAmongStep(games: map<string, Game>, ids: set<string>, id: string, now: int)
    ensures DepartedAmong(games, ids + {id}, now)
         == DepartedAmong(games, ids, now) + (if id in games && Expired(games[id], now) then Members(games[id]) else {})
  {
    var extra := if id in games && Expired(games[id], now) then Members(games[id]) else {};
    forall u | u in extra
      ensures u in DepartedAmong(games, ids + {id}, now)
    {
      assert id in ids + {id} && id in games && Expired(games[id], now) && u in Members(games[id]);
    }
  }

  /** `cleanupFinishedGames` on the store: expired games go, and so do their members'
      index entries, whichever game those entries point to by now. */
  function StoreCleanup(s: Store, now: int): Store
    requires StoreOK(s)
  {
    Store(s.games - ExpiredIds(s, now), s.grids - ExpiredIds(s, now), s.playerGames - Departed(s, now))
  }

  /** Cleanup removes exactly the games finished for over five minutes, keeps every
      other game unchanged, unindexes exactly their members, and keeps the invariant. */
  lemma CleanupSpec(s: Store, now: int)
    requires StoreOK(s)
    ensures var s' := StoreCleanup(s, now);
      && StoreOK(s')
      && (forall id :: id in s'.games <==> id in s.games && !Expired(s.games[id], now))
      && (forall id :: id in s'.games ==> s'.games[id] == s.games[id] && s'.grids[id] == s.grids[id])
      && (forall u :: u in s'.playerGames <==>
            u in s.playerGames && !exists id :: id in s.games && Expired(s.games[id], now) && u in Members(s.games[id]))
  {
    var s' := StoreCleanup(s, now);
    forall u | u in s'.playerGames
      ensures s'.playerGames[u] in s'.games && u in Members(s'.games[s'.playerGames[u]])
    {
      var id := s.playerGames[u];
      assert !(u in Members(s.games[id]) && id in ExpiredIds(s, now));
    }
    forall u | u in s.playerGames && u !in s'.playerGames
      ensures exists id :: id in s.games && Expired(s.games[id], now) && u in Members(s.games[id])
    {
      assert u in Departed(s, now);
    }
  }

  /** The store once cleanup has looked at the games under the ids in `done`. */
  function CleanupAmong(s: Store, done: set<string>, now: int): Store
  {
    var gone := ExpiredAmong(s.games, done, now);
    Store(s.games - gone, s.grids - gone, s.playerGames - DepartedAmong(s.games, done, now))
  }

  /** Looking at nothing changes nothing, and looking at every id is the whole
      cleanup. */
  lemma CleanupAmongEnds(s: Store, now: int)
    requires StoreOK(s)
    ensures CleanupAmong(s, {}, now) == s
    ensures CleanupAmong(s, s.games.Keys, now) == StoreCleanup(s, now)
  {
    var c := CleanupAmong(s, {}, now);
    assert ExpiredAmong(s.games, {}, now) == {};
    assert c.games == s.games && c.grids == s.grids;
    assert DepartedAmong(s.games, {}, now) == {};
    assert c.playerGames == s.playerGames;
  }

  /** Looking at one more stored game removes it, its cells and its members' index
      entries when it has expired, and changes nothing otherwise. */
  lemma CleanupAmongStep(s: Store, done: set<string>, id: string, now: int)
    requires id in s.games && id !in done
    ensures var c := CleanupAmong(s, done, now);
      && id in c.games && c.games[id] == s.games[id]
      && CleanupAmong(s, done + {id}, now)
         == if Expired(s.games[id], now)
            then Store(c.games - {id}, c.grids - {id}, c.playerGames - Members(s.games[id]))
            else c
  {
    DepartedAmongStep(s.games, done, id, now);
    if Expired(s.games[id], now) {
      CleanupAmongExpired(s, done, id, now);
    } else {
      CleanupAmongLive(s, done, id, now);
    }
  }

  /** `CleanupAmongStep` for an expired game. */
  lemma CleanupAmongExpired(s: Store, done: set<string>, id: string, now: int)
    requires id in s.games && id !in done && Expired(s.games[id], now)
    requires DepartedAmong(s.games, done + {id}, now) == DepartedAmong(s.games, done, now) + Members(s.games[id])
    ensures var c := CleanupAmong(s, done, now);
      CleanupAmong(s, done + {id}, now) == Store(c.games - {id}, c.grids - {id}, c.playerGames - Members(s.games[id]))
  {
    var c := CleanupAmong(s, done, now);
    var c' := CleanupAmong(s, done + {id}, now);
    assert ExpiredAmong(s.games, done + {id}, now) == ExpiredAmong(s.games, done, now) + {id};
    assert c'.games == c.games - {id};
    assert c'.grids == c.grids - {id};
    assert c'.playerGames == c.playerGames - Members(s.games[id]);
  }

  /** `CleanupAmongStep` for a game that stays. */
  lemma CleanupAmongLive(s: Store, done: set<string>, id: string, now: int)
    requires id in s.games && id !in done && !Expired(s.games[id], now)
    requires DepartedAmong(s.games, done + {id}, now) == DepartedAmong(s.games, done, now)
    ensures var c := CleanupAmong(s, done, now);
      && id in c.games && c.games[id] == s.games[id]
      && CleanupAmong(s, done + {id}, now) == c
  {
    var c := CleanupAmong(s, done, now);
    var c' := CleanupAmong(s, done + {id}, now);
    assert ExpiredAmong(s.games, done + {id}, now) == ExpiredAmong(s.games, done, now);
    assert c'.games == c.games;
    assert c'.grids == c.grids;
    assert c'.playerGames == c.playerGames;
  }

  /** Deleting player1's entry, then a human player2's, deletes the members' entries. */
  lemma UnindexMembers(index: map<string, string>, game: Game)
    ensures var first := index - {game.player1.username};
      (if game.player2.Some? && !game.isBot then first - {game.player2.value.username} else first)
      == index - Members(game)
  {
  }

  /** Cleanup can unindex a player who is in a live game. A finished game of "ann"
      expires after "ann" has started a new game, and the index entry of "ann", which by then
      points to the new game, is deleted as well. */
  lemma CleanupUnindexesLiveGame(oldBoard: Board, newBoard: Board)
    ensures var s := AnnMovedOn(oldBoard, newBoard);
      var s' := StoreCleanup(s, 400000);
      && GameByPlayer(s, "ann") == Some(s.games["g2"]) && s.games["g2"].status == Active
      && "g2" in s'.games && "ann" in Members(s'.games["g2"])
      && "ann" !in s'.playerGames && GameByPlayer(s', "ann") == None
  {
    var s := AnnMovedOn(oldBoard, newBoard);
    assert Expired(s.games["g1"], 400000);
    assert "g1" in ExpiredIds(s, 400000);
    assert "ann" in Members(s.games["g1"]);
    assert "ann" in Departed(s, 400000);
  }

  /** "bob" won "g1" against "ann" at time 0; at time 400000 "ann" is playing "cy" in
      "g2", and the index points "ann" to "g2". */
  function AnnMovedOn(oldBoard: Board, newBoard: Board): (s: Store)
    ensures StoreOK(s)
  {
    EmptyGridGravity();
    var finished := Game("g1", oldBoard, Slot("ann", 1, true, 0), Some(Slot("bob", 2, true, 0)), 1,
                         Finished, Some("bob"), Some(Win), false, None, Some(0), Some(0), []);
    var live := Game("g2", newBoard, Slot("ann", 1, true, 400000), Some(Slot("cy", 2, true, 400000)), 1,
                     Active, None, None, false, None, Some(400000), None, []);
    Store(map["g1" := finished, "g2" := live], map["g1" := EmptyGrid(), "g2" := EmptyGrid()],
          map["ann" := "g2", "bob" := "g1", "cy" := "g2"])
  }

  // ---------------------------------------------------------------------------
  // The manager
  // ---------------------------------------------------------------------------

  /** Every board of `games` is well formed and holds the cells `grids` files under
      the game's id. */
  ghost predicate Coupled(games: map<string, Game>, grids: map<string, Grid>)
    reads set id | id in games :: games[id].board.grid
  {
    forall id :: id in games ==> games[id].board.Valid() && id in grids && games[id].board.GetBoard() == grids[id]
  }

  /** No two games share a board. */
  ghost predicate Distinct(games: map<string, Game>)
  {
    forall i, j :: i in games && j in games && i != j ==> games[i].board.grid != games[j].board.grid
  }

  /** Replacing a record by one with the same board keeps the boards coupled and
      distinct. */
  lemma CoupledReplace(games: map<string, Game>, grids: map<string, Grid>, id: string, game: Game)
    requires Coupled(games, grids) && Distinct(games) && id in games && game.board == games[id].board
    ensures Coupled(games[id := game], grids) && Distinct(games[id := game])
  {
  }

  /** Filing a game whose board no stored game shares keeps the boards coupled and
      distinct. */
  lemma CoupledAdd(games: map<string, Game>, grids: map<string, Grid>, id: string, game: Game, g: Grid)
    requires Coupled(games, grids) && Distinct(games) && id !in games
    requires game.board.Valid() && game.board.GetBoard() == g
    requires forall i :: i in games ==> games[i].board.grid != game.board.grid
    ensures Coupled(games[id := game], grids[id := g]) && Distinct(games[id := game])
  {
  }

  /** Dropping games, and their cells, keeps the rest coupled and distinct. */
  lemma CoupledSub(games: map<string, Game>, grids: map<string, Grid>,
                   games': map<string, Game>, grids': map<string, Grid>)
    requires Coupled(games, grids) && Distinct(games)
    requires forall id :: id in games' ==> id in games && games'[id] == games[id]
    requires forall id :: id in games' ==> id in grids' && grids'[id] == grids[id]
    ensures Coupled(games', grids') && Distinct(games')
  {
  }

  /** `GameManager`: the two maps, updated in place. Each board is an object of its
      own. The ghost field `grids` follows the boards' cells, so `View()` is the store
      the fields represent. Every method is proved to take `View()` to the store its
      function above describes. */
  class GameManager {
    var games: map<string, Game>
    var playerGames: map<string, string>
    ghost var grids: map<string, Grid>

    /** The arrays of all stored boards. */
    function Grids(): set<array2<Cell>>
      reads this
    {
      set id | id in games :: games[id].board.grid
    }

    /** The array of one game's board, if the game is stored. */
    function GridOf(gameId: string): set<array2<Cell>>
      reads this
    {
      if gameId in games then {games[gameId].board.grid} else {}
    }

    /** The store the fields represent. */
    ghost function View(): Store
      reads this
    {
      Store(games, grids, playerGames)
    }

    /** Every board is well formed and holds the cells `grids` files under its id, no
        two games share a board, and the store invariant holds. */
    ghost predicate Valid()
      reads this, Grids()
    {
      Tied() && StoreOK(View())
    }

    /** The boards and `grids` agree. */
    ghost predicate Tied()
      reads this, Grids()
    {
      grids.Keys == games.Keys && Coupled(games, grids) && Distinct(games)
    }

    /** `game.board.dropDisc(col, player)` for a stored game: that board alone changes,
        and `grids` follows it. */
    method DropOn(gameId: string, col: int, player: PlayerNumber) returns (res: DropResult)
      requires Tied() && gameId in games
      modifies this, GridOf(gameId)
      ensures Tied() && games == old(games) && playerGames == old(playerGames)
      ensures (grids[gameId], res) == Drop(old(grids[gameId]), col, player)
      ensures grids == old(grids)[gameId := grids[gameId]]
    {
      var board := games[gameId].board;
      res := board.DropDisc(col, player);
      grids := grids[gameId := board.GetBoard()];
    }

    constructor ()
      ensures Valid() && View() == EmptyStore()
    {
      games := map[];
      playerGames := map[];
      grids := map[];
    }

    /** `createGame`. The id is the caller's: `generateGameId` draws it from the clock
        and a random number, and here it is only required to be new. */
    method CreateGame(gameId: string, player1: string, player2: Option<string>, isBot: bool, now: int)
      returns (game: Game)
      requires Valid() && gameId != "" && gameId !in games
      modifies this
      ensures Valid()
      ensures fresh(game.board) && fresh(game.board.grid) && gameId in games && game == games[gameId]
      ensures game.board.Valid() && game.board.GetBoard() == EmptyGrid()
      ensures View() == StoreCreate(old(View()), gameId, player1, player2, isBot, now, game.board, game.bot)
    {
      ghost var s := View();
      var board := new Board();
      var bot: Option<Bot> := None;
      if isBot {
        var b := new Bot(2);
        bot := Some(b);
      }
      CreatePreservesOK(s, gameId, player1, player2, isBot, now, board, bot);
      game := NewGame(gameId, player1, player2, isBot, now, board, bot);
      var index := playerGames[player1 := gameId];
      if Truthy(player2) && !isBot {
        index := index[player2.value := gameId];
      }
      Install(gameId, game, EmptyGrid(), index);
    }

    /** Files a new game, its cells and the new index, given that no stored game has
        the new board. */
    method Install(gameId: string, game: Game, g: Grid, index: map<string, string>)
      requires Tied() && gameId !in games && game.board.Valid() && game.board.GetBoard() == g
      requires forall id :: id in games ==> games[id].board.grid != game.board.grid
      modifies this
      ensures Tied() && View() == Store(old(games)[gameId := game], old(grids)[gameId := g], index)
    {
      CoupledAdd(games, grids, gameId, game, g);
      games := games[gameId := game];
      grids := grids[gameId := g];
      playerGames := index;
    }

    /** Files `game` under `gameId`, with the same board: the source's in-place update
        of the record's fields. */
    method Commit(gameId: string, game: Game)
      requires Tied() && gameId in games && game.board == games[gameId].board
      modifies this
      ensures Tied()
      ensures View() == old(View()).(games := old(games)[gameId := game])
    {
      CoupledReplace(games, grids, gameId, game);
      games := games[gameId := game];
    }

    /** Updates the record of a stored game, keeping its board and members. */
    method SetGame(gameId: string, game: Game)
      requires Valid() && gameId in games
      requires game.id == gameId && WellFormed(game) && game.board == games[gameId].board
      requires Members(games[gameId]) <= Members(game)
      modifies this
      ensures Valid()
      ensures View() == old(View()).(games := old(View()).games[gameId := game])
    {
      RecordPreservesOK(View(), gameId, game);
      Commit(gameId, game);
    }

    /** `makeMove`. An active game always has a second player, so the source's
        "Player not in this game" branch is never taken (`ResolveActive`). */
    method MakeMove(gameId: string, username: string, col: int, now: int) returns (reply: MoveReply)
      requires Valid()
      modifies this, GridOf(gameId)
      ensures Valid()
      ensures (View(), reply) == StoreMove(old(View()), gameId, username, col, now)
    {
      ghost var before := View();
      if gameId !in games {
        return MoveFailed("Game not found");
      }
      var game := games[gameId];
      SameStore(before, gameId);
      if game.status != Active {
        return MoveFailed("Game is not active");
      }
      ResolveActive(game, username);
      var player := if game.player1.username == username then game.player1 else game.player2.value;
      if player.playerNumber != game.currentTurn {
        return MoveFailed("Not your turn");
      }
      reply := PlayTurn(gameId, username, player.playerNumber, col, now);
    }

    /** The rest of `makeMove` once the mover is known: drop, record, then win, draw
        or pass the turn. */
    method PlayTurn(gameId: string, username: string, n: PlayerNumber, col: int, now: int) returns (reply: MoveReply)
      requires Valid() && gameId in games && games[gameId].status == Active
      requires Resolve(games[gameId], username).Some? && Resolve(games[gameId], username).value.playerNumber == n
      requires n == games[gameId].currentTurn
      modifies this, GridOf(gameId)
      ensures Valid()
      ensures (View(), reply) == StoreMove(old(View()), gameId, username, col, now)
    {
      ghost var before := View();
      var game := games[gameId];
      ghost var g := grids[gameId];
      if ValidColumn(g, col) {
        DropValidSpec(g, col, n);
      } else {
        DropInvalidSpec(g, col, n);
      }
      var res := DropOn(gameId, col, n);
      if res.DropFailed? {
        SameStore(before, gameId);
        return MoveFailed(res.message);
      }
      reply := Settle(gameId, username, n, col, res, now, before);
    }

    /** The end of `makeMove` after a successful drop: record the move, then win, draw
        or pass the turn. */
    method Settle(gameId: string, username: string, n: PlayerNumber, col: int, res: DropResult, now: int,
                  ghost before: Store)
      returns (reply: MoveReply)
      requires Tied() && StoreOK(before) && gameId in games
      requires games == before.games && playerGames == before.playerGames && gameId in before.grids
      requires grids == before.grids[gameId := grids[gameId]]
      requires games[gameId].status == Active
      requires Resolve(games[gameId], username).Some? && Resolve(games[gameId], username).value.playerNumber == n
      requires n == games[gameId].currentTurn
      requires ValidColumn(before.grids[gameId], col)
      requires (grids[gameId], res) == Drop(before.grids[gameId], col, n)
      modifies this
      ensures Valid()
      ensures (View(), reply) == StoreMove(before, gameId, username, col, now)
    {
      var game := games[gameId];
      ghost var g := before.grids[gameId];
      ghost var g' := grids[gameId];
      DropValidSpec(g, col, n);
      assert game.board.GetBoard() == g';
      DropPreservesGravity(g, col, n);
      var history := game.moveHistory + [MoveRecord(username, n, col, res.row, now)];
      var winner := CheckWinner(game.board, res.row, res.col);
      ghost var full := FullGrid(g');
      var updated: Game;
      if winner.Some? {
        var name := if winner.value == 1 then game.player1.username else game.player2.value.username;
        updated := game.(moveHistory := history, status := Finished, winner := Some(name),
                         winReason := Some(Win), endTime := Some(now));
        reply := MoveWon(res, name, game.board.GetBoard());
      } else if IsDraw(game.board) {
        FullIffNoMoves(g');
        updated := game.(moveHistory := history, status := Finished, winReason := Some(Draw), endTime := Some(now));
        reply := MoveDrawn(res, game.board.GetBoard());
      } else {
        FullIffNoMoves(g');
        var turn := if game.currentTurn == 1 then 2 else 1;
        updated := game.(moveHistory := history, currentTurn := turn);
        reply := MoveOn(res, game.board.GetBoard(), turn, game.isBot);
      }
      assert Settled(game, g', username, n, col, res, now, winner, full) == (updated, reply);
      assert PlayMove(game, g, username, col, now) == (updated, g', reply);
      ReplacePreservesOK(before, gameId, updated, g');
      Commit(gameId, updated);
    }

    /** `makeBotMove`, with the bot's `makeMove` reduced to `getBestMove` (its only
        other effect is a random delay). The bot's column is always open, so the
        source's check of a failed drop never fires once a column is chosen; when no
        column is left, `dropDisc(null, 2)` fails and the source returns null. */
    method MakeBotMove(gameId: string, now: int) returns (reply: Option<BotReply>)
      requires Valid()
      modifies this, GridOf(gameId)
      ensures Valid()
      ensures (View(), reply) == StoreBotMove(old(View()), gameId, now)
    {
      ghost var before := View();
      if gameId !in games {
        return None;
      }
      SameStore(before, gameId);
      if !games[gameId].isBot {
        return None;
      }
      var game := games[gameId];
      var col := game.bot.value.GetBestMove(game.board);
      if col.None? {
        return None;
      }
      ghost var g := grids[gameId];
      DropValidSpec(g, col.value, 2);
      DropPreservesGravity(g, col.value, 2);
      var res := DropOn(gameId, col.value, 2);
      ghost var g' := grids[gameId];
      assert game.board.GetBoard() == g';
      var history := game.moveHistory + [MoveRecord(BotName, 2, col.value, res.row, now)];
      var winner := CheckWinner(game.board, res.row, res.col);
      ghost var full := FullGrid(g');
      var updated: Game;
      if winner.Some? {
        updated := game.(moveHistory := history, status := Finished, winner := Some(BotName),
                         winReason := Some(Win), endTime := Some(now));
        reply := Some(BotWon(res, game.board.GetBoard()));
      } else if IsDraw(game.board) {
        FullIffNoMoves(g');
        updated := game.(moveHistory := history, status := Finished, winReason := Some(Draw), endTime := Some(now));
        reply := Some(BotDrawn(res, game.board.GetBoard()));
      } else {
        FullIffNoMoves(g');
        updated := game.(moveHistory := history, currentTurn := 1);
        reply := Some(BotOn(res, game.board.GetBoard(), 1));
      }
      assert BotSettled(game, g', col.value, res, now, winner, full) == (updated, reply.value);
      assert PlayBotMove(game, g, now) == (updated, g', reply);
      ReplacePreservesOK(before, gameId, updated, g');
      Commit(gameId, updated);
    }

    /** `getGame`. */
    method GetGame(gameId: string) returns (game: Option<Game>)
      requires Valid()
      ensures game.Some? <==> gameId in games
      ensures game.Some? ==> game.value == games[gameId] && game.value.id == gameId && WellFormed(game.value)
    {
      if gameId in games {
        return Some(games[gameId]);
      }
      return None;
    }

    /** `getGameByPlayer`. An index entry always names a stored game, so the source's
        test of a falsy id never fails. */
    method GetGameByPlayer(username: string) returns (game: Option<Game>)
      requires Valid()
      ensures game == GameByPlayer(View(), username)
      ensures game.Some? <==> username in playerGames
      ensures game.Some? ==> game.value.id == playerGames[username] && username in Members(game.value)
    {
      if username in playerGames {
        return Some(games[playerGames[username]]);
      }
      return None;
    }

    /** `getGameState(game)`: the snapshot sent to the client. */
    method GetGameState(game: Game) returns (state: ClientState)
      requires game.board.Valid()
      ensures state == ClientView(game, game.board.GetBoard())
    {
      var moves := game.board.GetValidMoves();
      state := ClientState(game.id, game.board.GetBoard(), game.currentTurn, game.status,
        Public(game.player1, 1),
        if game.player2.Some? then Some(Public(game.player2.value, 2)) else None,
        game.isBot, game.winner, game.winReason, moves);
    }

    /** `reconnectPlayer`. */
    method ReconnectPlayer(gameId: string, username: string, now: int) returns (reply: ReconnectReply)
      requires Valid()
      modifies this
      ensures Valid()
      ensures (View(), reply) == StoreReconnect(old(View()), gameId, username, now)
    {
      if gameId !in games {
        return ReconnectFailed("Game not found");
      }
      var game := games[gameId];
      SetPresenceSpec(game, username, true, now);
      if game.player1.username == username {
        game := game.(player1 := game.player1.(connected := true, lastSeen := now));
      } else if game.player2.Some? {
        game := game.(player2 := Some(game.player2.value.(connected := true, lastSeen := now)));
      } else {
        return ReconnectFailed("Player not in this game");
      }
      SetGame(gameId, game);
      var state := GetGameState(game);
      reply := Reconnected(state);
    }

    /** `disconnectPlayer`. An index entry always names a stored game in which the user
        has a slot, so the source's early returns never fire (`DisconnectReachesSlot`). */
    method DisconnectPlayer(username: string, now: int)
      requires Valid()
      modifies this
      ensures Valid()
      ensures View() == StoreDisconnect(old(View()), username, now)
    {
      if username !in playerGames {
        return;
      }
      DisconnectReachesSlot(View(), username, now);
      var gameId := playerGames[username];
      var game := games[gameId];
      SetPresenceSpec(game, username, false, now);
      if game.player1.username == username {
        game := game.(player1 := game.player1.(connected := false, lastSeen := now));
      } else {
        game := game.(player2 := Some(game.player2.value.(connected := false, lastSeen := now)));
      }
      SetGame(gameId, game);
    }

    /** `forfeitGame`. */
    method ForfeitGame(gameId: string, username: string, now: int) returns (game: Option<Game>)
      requires Valid()
      modifies this
      ensures Valid()
      ensures (View(), game) == StoreForfeit(old(View()), gameId, username, now)
    {
      if gameId !in games || games[gameId].status != Active {
        return None;
      }
      var g := games[gameId];
      g := g.(status := Finished, winReason := Some(Forfeit), endTime := Some(now));
      if g.player1.username == username {
        g := g.(winner := Some(g.player2.value.username));
      } else {
        g := g.(winner := Some(g.player1.username));
      }
      SetGame(gameId, g);
      return Some(g);
    }

    /** `checkAbandonedGames`: every stored game in turn, in any order. */
    method CheckAbandonedGames(now: int)
      requires Valid()
      modifies this
      ensures Valid()
      ensures View() == StoreAbandon(old(View()), now)
    {
      ghost var before := View();
      AbandonRestEnds(before, now);
      var todo := games.Keys;
      while todo != {}
        invariant Valid()
        invariant todo <= before.games.Keys
        invariant View() == AbandonRest(before, todo, now)
        decreases todo
      {
        var gameId :| gameId in todo;
        AbandonRestStep(before, todo, gameId, now);
        CheckAbandoned(gameId, now);
        todo := todo - {gameId};
      }
    }

    /** The body of the `checkAbandonedGames` loop for one stored game. */
    method CheckAbandoned(gameId: string, now: int)
      requires Valid() && gameId in games
      modifies this
      ensures Valid()
      ensures View() == old(View()).(games := old(games)[gameId := AbandonCheck(old(games)[gameId], now)])
    {
      var game := games[gameId];
      AbandonSpec(game, now);
      if game.status != Active {
        SameStore(View(), gameId);
        return;
      }
      if TimedOut(game.player1, now) {
        var _ := ForfeitGame(gameId, game.player1.username, now);
      }
      if !game.isBot && game.player2.Some? && TimedOut(game.player2.value, now) {
        var _ := ForfeitGame(gameId, game.player2.value.username, now);
      }
    }

    /** `getCompletedGameData`. */
    method GetCompletedGameData(gameId: string) returns (data: Option<CompletedGame>)
      requires Valid()
      ensures data == StoreCompleted(View(), gameId)
    {
      if gameId !in games || games[gameId].status != Finished {
        return None;
      }
      var game := games[gameId];
      data := Some(CompletedGame(game.id, game.player1.username, game.player2.value.username, game.winner,
                                 game.winReason, game.isBot, game.startTime, game.endTime,
                                 game.endTime.GetOr(0) - game.startTime.GetOr(0),
                                 |game.moveHistory|, game.moveHistory));
    }

    /** `cleanupFinishedGames`: every stored game in turn, in any order. */
    method CleanupFinishedGames(now: int)
      requires Valid()
      modifies this
      ensures Valid()
      ensures View() == StoreCleanup(old(View()), now)
    {
      ghost var before := View();
      ghost var after := StoreCleanup(before, now);
      CleanupSpec(before, now);
      CoupledSub(before.games, before.grids, after.games, after.grids);
      CleanupAmongEnds(before, now);
      var todo := games.Keys;
      ghost var done: set<string> := {};
      while todo != {}
        invariant todo !! done && todo + done == before.games.Keys
        invariant View() == CleanupAmong(before, done, now)
        decreases todo
      {
        var gameId :| gameId in todo;
        CleanupOne(gameId, now, before, done);
        todo := todo - {gameId};
        done := done + {gameId};
      }
    }

    /** The body of the `cleanupFinishedGames` loop for one stored game. */
    method CleanupOne(gameId: string, now: int, ghost before: Store, ghost done: set<string>)
      requires gameId in before.games && gameId !in done && View() == CleanupAmong(before, done, now)
      modifies this
      ensures View() == CleanupAmong(before, done + {gameId}, now)
    {
      CleanupAmongStep(before, done, gameId, now);
      var game := games[gameId];
      if game.status == Finished && now - game.endTime.GetOr(0) > KeepTime {
        games := games - {gameId};
        grids := grids - {gameId};
        playerGames := playerGames - {game.player1.username};
        if game.player2.Some? && !game.isBot {
          playerGames := playerGames - {game.player2.value.username};
        }
        UnindexMembers(old(playerGames), game);
      }
    }
  }
}
