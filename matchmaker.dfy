/**
  The matchmaking queue of backend/src/matchmaking.js, and the bot-fallback timer of
  backend/src/socket/handlers/matchmaking.js.

  `waitingPlayers` is a JavaScript `Map`: its keys are unique and it iterates in
  insertion order. Here it is the sequence `waiting`, oldest entry first, with unique
  usernames. Each entry's timer handle is left out (the timer set in `joinQueue` has
  an empty body, and clearing it has no other effect). `Date.now()` is the parameter
  `now`, and the id of a game the queue creates is a caller-supplied `freshId`.
*/
module Matchmaker {
  import opened Wrappers
  import opened Boards
  import opened Sessions

  /** One queue entry: `{ username, socketId, joinTime }`. */
  datatype WaitingPlayer = WaitingPlayer(username: string, socketId: string, joinTime: int)

  const QueuedMessage := "Waiting for opponent... Will match with bot in 10 seconds"

  // ---------------------------------------------------------------------------
  // The queue as a value
  // ---------------------------------------------------------------------------

  /** The usernames of the queue, in insertion order (`waitingPlayers.keys()`). */
  function Names(q: seq<WaitingPlayer>): (names: seq<string>)
    ensures |names| == |q|
    ensures forall i :: 0 <= i < |q| ==> names[i] == q[i].username
  {
    if q == [] then [] else [q[0].username] + Names(q[1..])
  }

  /** `waitingPlayers.has(u)`. */
  predicate Queued(q: seq<WaitingPlayer>, u: string)
  {
    exists i :: 0 <= i < |q| && q[i].username == u
  }

  /** A `Map` never holds a key twice. */
  predicate UniqueNames(q: seq<WaitingPlayer>)
  {
    forall i, j :: 0 <= i < j < |q| ==> q[i].username != q[j].username
  }

  /** `waitingPlayers.delete(u)`: every entry of `u` goes, the rest keep their order. */
  function Remove(q: seq<WaitingPlayer>, u: string): seq<WaitingPlayer>
  {
    if q == [] then []
    else if q[0].username == u then Remove(q[1..], u)
    else [q[0]] + Remove(q[1..], u)
  }

  /** A queue with a first entry: `v` is queued exactly when it is the first entry's
      username or is queued behind it. */
  lemma QueuedCons(q: seq<WaitingPlayer>, v: string)
    requires q != []
    ensures Queued(q, v) <==> q[0].username == v || Queued(q[1..], v)
  {
    if Queued(q, v) && q[0].username != v {
      var i :| 0 <= i < |q| && q[i].username == v;
      assert q[1..][i - 1] == q[i];
    }
    if Queued(q[1..], v) {
      var i :| 0 <= i < |q[1..]| && q[1..][i].username == v;
      assert q[i + 1] == q[1..][i];
    }
  }

  /** After a delete exactly the other usernames are queued. */
  lemma {:induction false} RemoveNames(q: seq<WaitingPlayer>, u: string, v: string)
    ensures Queued(Remove(q, u), v) <==> Queued(q, v) && v != u
  {
    if q != [] {
      RemoveNames(q[1..], u, v);
      QueuedCons(q, v);
      if q[0].username != u {
        QueuedCons(Remove(q, u), v);
        assert Remove(q, u)[1..] == Remove(q[1..], u);
      }
    }
  }

  /** Deleting an absent key changes nothing. */
  lemma {:induction false} RemoveAbsent(q: seq<WaitingPlayer>, u: string)
    requires !Queued(q, u)
    ensures Remove(q, u) == q
  {
    if q != [] {
      QueuedCons(q, u);
      RemoveAbsent(q[1..], u);
      assert [q[0]] + q[1..] == q;
    }
  }

  /** With unique keys, deleting the key of entry i cuts out that one entry. */
  lemma {:induction false} RemoveAt(q: seq<WaitingPlayer>, i: nat)
    requires UniqueNames(q) && i < |q|
    ensures Remove(q, q[i].username) == q[..i] + q[i + 1..]
  {
    var u := q[i].username;
    if i == 0 {
      assert !Queued(q[1..], u) by {
        QueuedNotBehind(q);
      }
      RemoveAbsent(q[1..], u);
    } else {
      RemoveAt(q[1..], i - 1);
      assert q[1..][i - 1] == q[i];
      assert q[1..][..i - 1] + q[1..][i..] == q[1..i] + q[i + 1..];
      assert [q[0]] + (q[1..i] + q[i + 1..]) == q[..i] + q[i + 1..];
    }
  }

  /** With unique keys, the first entry's username is not queued behind it. */
  lemma QueuedNotBehind(q: seq<WaitingPlayer>)
    requires UniqueNames(q) && q != []
    ensures UniqueNames(q[1..]) && !Queued(q[1..], q[0].username)
  {
    forall i | 0 <= i < |q[1..]|
      ensures q[1..][i].username != q[0].username
    {
      assert q[1..][i] == q[i + 1];
    }
  }

  /** A delete keeps the keys unique. */
  lemma {:induction false} RemoveUnique(q: seq<WaitingPlayer>, u: string)
    requires UniqueNames(q)
    ensures UniqueNames(Remove(q, u))
  {
    if q != [] {
      QueuedNotBehind(q);
      RemoveUnique(q[1..], u);
      if q[0].username != u {
        RemoveNames(q[1..], u, q[0].username);
        var r := Remove(q[1..], u);
        forall j | 0 <= j < |r|
          ensures r[j].username != q[0].username
        {
        }
      }
    }
  }

  /** The first entry, in insertion order, whose username is not `u`: where the loop of
      `joinQueue` stops. */
  function FirstOther(q: seq<WaitingPlayer>, u: string): (k: Option<nat>)
    ensures k.Some? ==> k.value < |q| && q[k.value].username != u
    ensures k.Some? ==> forall i :: 0 <= i < k.value ==> q[i].username == u
    ensures k.None? ==> forall i :: 0 <= i < |q| ==> q[i].username == u
  {
    if q == [] then None
    else if q[0].username != u then Some(0)
    else match FirstOther(q[1..], u)
      case None => None
      case Some(k) => Some(k + 1)
  }

  /** The username of the first entry with socket `socketId` (`getPlayerBySocketId`). */
  function FirstBySocket(q: seq<WaitingPlayer>, socketId: string): Option<string>
  {
    if q == [] then None
    else if q[0].socketId == socketId then Some(q[0].username)
    else FirstBySocket(q[1..], socketId)
  }

  /** `getPlayerBySocketId` finds nothing exactly when no entry has the socket, and
      otherwise the username of the first entry that has it. */
  lemma {:induction false} FirstBySocketSpec(q: seq<WaitingPlayer>, socketId: string)
    ensures FirstBySocket(q, socketId).None? <==> forall i :: 0 <= i < |q| ==> q[i].socketId != socketId
    ensures FirstBySocket(q, socketId).Some? ==>
      exists i :: && 0 <= i < |q| && q[i].socketId == socketId
                  && q[i].username == FirstBySocket(q, socketId).value
                  && forall k :: 0 <= k < i ==> q[k].socketId != socketId
  {
    if q != [] && q[0].socketId != socketId {
      FirstBySocketSpec(q[1..], socketId);
      if FirstBySocket(q, socketId).Some? {
        var i :| && 0 <= i < |q[1..]| && q[1..][i].socketId == socketId
                  && q[1..][i].username == FirstBySocket(q, socketId).value
                  && forall k :: 0 <= k < i ==> q[1..][k].socketId != socketId;
        assert q[i + 1] == q[1..][i];
        assert forall k :: 0 <= k < i + 1 ==> q[k].socketId != socketId by {
          forall k | 0 <= k < i + 1
            ensures q[k].socketId != socketId
          {
            if k > 0 {
              assert q[k] == q[1..][k - 1];
            }
          }
        }
      }
    } else if q != [] {
      assert q[0].socketId == socketId;
    }
  }

  // ---------------------------------------------------------------------------
  // joinQueue on values
  // ---------------------------------------------------------------------------

  /** How `joinQueue` ends: refused with an error (and a game id for the active-game
      refusal), paired with a waiter, or queued. */
  datatype JoinKind = Refused(error: string, gameId: Option<string>) | Paired(waiter: WaitingPlayer) | Enqueued

  /** `joinQueue` on the queue, given the game the store indexes for `username`. */
  function Join(q: seq<WaitingPlayer>, existing: Option<Game>, username: string, socketId: string, now: int)
    : (seq<WaitingPlayer>, JoinKind)
  {
    if existing.Some? && existing.value.status == Active then
      (q, Refused("You already have an active game", Some(existing.value.id)))
    else if Queued(q, username) then
      (q, Refused("You are already in the queue", None))
    else match FirstOther(q, username)
      case Some(k) => (q[..k] + q[k + 1..], Paired(q[k]))
      case None => (q + [WaitingPlayer(username, socketId, now)], Enqueued)
  }

  /** The refusals, in the source's order: a player whose indexed game is active, then
      a queued player. A refusal leaves the queue as it was. */
  lemma JoinRefusals(q: seq<WaitingPlayer>, existing: Option<Game>, username: string, socketId: string, now: int)
    ensures var (q', kind) := Join(q, existing, username, socketId, now);
      && (kind.Refused? <==> (existing.Some? && existing.value.status == Active) || Queued(q, username))
      && (kind.Refused? ==> q' == q)
      && (existing.Some? && existing.value.status == Active ==>
            kind == Refused("You already have an active game", Some(existing.value.id)))
      && (!(existing.Some? && existing.value.status == Active) && Queued(q, username) ==>
            kind == Refused("You are already in the queue", None))
  {
  }

  /** A player who is let in is paired with the oldest waiter, which leaves the queue,
      when anyone waits. The joiner is then not queued. */
  lemma JoinPairsOldest(q: seq<WaitingPlayer>, existing: Option<Game>, username: string, socketId: string, now: int)
    requires !(existing.Some? && existing.value.status == Active) && !Queued(q, username) && q != []
    ensures Join(q, existing, username, socketId, now) == (q[1..], Paired(q[0]))
  {
    assert q[0].username != username;
    assert q[..0] + q[1..] == q[1..];
  }

  /** Otherwise the queue was empty and the player is queued alone, once. */
  lemma JoinEnqueues(q: seq<WaitingPlayer>, existing: Option<Game>, username: string, socketId: string, now: int)
    ensures var (q', kind) := Join(q, existing, username, socketId, now);
      kind == Enqueued <==> !(existing.Some? && existing.value.status == Active) && !Queued(q, username) && q == []
    ensures var (q', kind) := Join(q, existing, username, socketId, now);
      kind == Enqueued ==> q' == [WaitingPlayer(username, socketId, now)]
  {
    if !(existing.Some? && existing.value.status == Active) && !Queued(q, username) && q != [] {
      JoinPairsOldest(q, existing, username, socketId, now);
    }
  }

  /** `joinQueue` keeps the keys unique, and after a pairing neither player of the new
      game is queued. */
  lemma JoinKeepsUnique(q: seq<WaitingPlayer>, existing: Option<Game>, username: string, socketId: string, now: int)
    requires UniqueNames(q)
    ensures var (q', kind) := Join(q, existing, username, socketId, now);
      && UniqueNames(q')
      && (kind.Paired? ==> !Queued(q', username) && !Queued(q', kind.waiter.username))
  {
    var (q', kind) := Join(q, existing, username, socketId, now);
    if kind.Paired? {
      JoinPairsOldest(q, existing, username, socketId, now);
      QueuedNotBehind(q);
      QueuedCons(q, username);
    } else if kind == Enqueued {
      JoinEnqueues(q, existing, username, socketId, now);
    }
  }

  // ---------------------------------------------------------------------------
  // The queue object
  // ---------------------------------------------------------------------------

  /** The reply of `joinQueue`. */
  datatype JoinReply =
    | JoinFailed(error: string, gameId: Option<string>)
    | JoinMatched(game: ClientState, opponent: string, opponentSocketId: string)
    | JoinWaiting(message: string)

  /** The reply of `leaveQueue`. */
  datatype LeaveReply = LeaveOk | LeaveFailed(error: string)

  /** The reply of `getQueueStatus`. */
  datatype QueueStatus = QueueStatus(playersWaiting: nat, players: seq<string>)

  class Matchmaking {
    const gameManager: GameManager
    var waiting: seq<WaitingPlayer>

    /** The store is valid and the queue's keys are unique. */
    ghost predicate Valid()
      reads this, gameManager, gameManager.Grids()
    {
      gameManager.Valid() && UniqueNames(waiting)
    }

    constructor (gameManager: GameManager)
      requires gameManager.Valid()
      ensures Valid() && this.gameManager == gameManager && waiting == []
    {
      this.gameManager := gameManager;
      waiting := [];
    }

    /** `joinQueue`. A pairing creates a human game with the waiter as player1 and the
        joiner as player2 under `freshId`; nothing else touches the store. */
    method JoinQueue(username: string, socketId: string, freshId: string, now: int) returns (reply: JoinReply)
      requires Valid() && freshId != "" && freshId !in gameManager.games
      modifies this, gameManager
      ensures Valid()
      ensures var (q', kind) := Join(old(waiting), GameByPlayer(old(gameManager.View()), username), username, socketId, now);
        && waiting == q'
        && (kind.Refused? ==> reply == JoinFailed(kind.error, kind.gameId))
        && (kind == Enqueued ==> reply == JoinWaiting(QueuedMessage))
        && (!kind.Paired? ==> gameManager.View() == old(gameManager.View()))
        && (kind.Paired? ==>
              && freshId in gameManager.games
              && gameManager.View() == StoreCreate(old(gameManager.View()), freshId, kind.waiter.username, Some(username),
                                                   false, now, gameManager.games[freshId].board, None)
              && reply == JoinMatched(ClientView(gameManager.games[freshId], EmptyGrid()),
                                      kind.waiter.username, kind.waiter.socketId))
    {
      ghost var q := waiting;
      var existingGame := gameManager.GetGameByPlayer(username);
      if existingGame.Some? && existingGame.value.status == Active {
        return JoinFailed("You already have an active game", Some(existingGame.value.id));
      }
      var queued := IsInQueue(username);
      if queued {
        return JoinFailed("You are already in the queue", None);
      }
      JoinKeepsUnique(q, existingGame, username, socketId, now);
      // The source loops over the entries for one whose username differs from the
      // joiner's. The joiner is not queued, so the first entry is that one.
      if |waiting| > 0 {
        JoinPairsOldest(q, existingGame, username, socketId, now);
        reply := PairFirst(username, freshId, now);
        return;
      }
      JoinKeepsUnique(q, existingGame, username, socketId, now);
      waiting := waiting + [WaitingPlayer(username, socketId, now)];
      return JoinWaiting(QueuedMessage);
    }

    /** The pairing branch of `joinQueue`: the oldest entry leaves the queue, and a
        human game with its player as player1 and `username` as player2 is created. */
    method PairFirst(username: string, freshId: string, now: int) returns (reply: JoinReply)
      requires Valid() && freshId != "" && freshId !in gameManager.games && waiting != []
      modifies this, gameManager
      ensures Valid() && waiting == old(waiting[1..])
      ensures freshId in gameManager.games
      ensures gameManager.View() == StoreCreate(old(gameManager.View()), freshId, old(waiting[0].username), Some(username),
                                                false, now, gameManager.games[freshId].board, None)
      ensures reply == JoinMatched(ClientView(gameManager.games[freshId], EmptyGrid()),
                                   old(waiting[0].username), old(waiting[0].socketId))
    {
      var waitingPlayer := waiting[0];
      QueuedNotBehind(waiting);
      waiting := waiting[1..];
      var game := gameManager.CreateGame(freshId, waitingPlayer.username, Some(username), false, now);
      var state := gameManager.GetGameState(game);
      return JoinMatched(state, waitingPlayer.username, waitingPlayer.socketId);
    }

    /** `matchWithBot`: nothing for a player who is not queued; otherwise a bot game
        for the player under `freshId`, and the player's entry goes. */
    method MatchWithBot(username: string, socketId: string, freshId: string, now: int) returns (reply: Option<ClientState>)
      requires Valid() && freshId != "" && freshId !in gameManager.games
      modifies this, gameManager
      ensures Valid()
      ensures !Queued(old(waiting), username) ==>
        reply == None && waiting == old(waiting) && gameManager.View() == old(gameManager.View())
      ensures Queued(old(waiting), username) ==>
        && waiting == Remove(old(waiting), username)
        && freshId in gameManager.games
        && gameManager.View() == StoreCreate(old(gameManager.View()), freshId, username, None, true, now,
                                             gameManager.games[freshId].board, gameManager.games[freshId].bot)
        && reply == Some(ClientView(gameManager.games[freshId], EmptyGrid()))
    {
      var queued := IsInQueue(username);
      if !queued {
        return None;
      }
      // The source creates the game before it deletes the entry. The two updates touch
      // different objects, so the entry goes first here.
      RemoveUnique(waiting, username);
      waiting := Remove(waiting, username);
      var game := gameManager.CreateGame(freshId, username, None, true, now);
      var state := gameManager.GetGameState(game);
      return Some(state);
    }

    /** `leaveQueue`: a queued player's entry goes; otherwise "Not in queue" and nothing
        changes. */
    method LeaveQueue(username: string) returns (reply: LeaveReply)
      requires Valid()
      modifies this
      ensures Valid()
      ensures reply == LeaveOk <==> Queued(old(waiting), username)
      ensures reply != LeaveOk ==> reply == LeaveFailed("Not in queue")
      ensures waiting == Remove(old(waiting), username)
    {
      var queued := IsInQueue(username);
      if queued {
        RemoveUnique(waiting, username);
        waiting := Remove(waiting, username);
        return LeaveOk;
      }
      RemoveAbsent(waiting, username);
      return LeaveFailed("Not in queue");
    }

    /** `getQueueStatus`: how many wait, and who, oldest first. */
    function GetQueueStatus(): (status: QueueStatus)
      reads this
      ensures status.playersWaiting == |waiting| == |status.players|
      ensures forall u :: u in status.players <==> Queued(waiting, u)
      ensures forall i :: 0 <= i < |waiting| ==> status.players[i] == waiting[i].username
    {
      QueueStatus(|waiting|, Names(waiting))
    }

    /** `isInQueue`. */
    predicate IsInQueue(username: string)
      reads this
      ensures IsInQueue(username) <==> exists i :: 0 <= i < |waiting| && waiting[i].username == username
    {
      assert forall i :: 0 <= i < |waiting| ==> Names(waiting)[i] == waiting[i].username;
      Queued(waiting, username)
    }

    /** `getPlayerBySocketId`: the entries are scanned oldest first. */
    method GetPlayerBySocketId(socketId: string) returns (username: Option<string>)
      ensures username == FirstBySocket(waiting, socketId)
    {
      var i := 0;
      while i < |waiting|
        invariant 0 <= i <= |waiting|
        invariant FirstBySocket(waiting, socketId) == FirstBySocket(waiting[i..], socketId)
      {
        assert waiting[i..][1..] == waiting[i + 1..];
        if waiting[i].socketId == socketId {
          return Some(waiting[i].username);
        }
        i := i + 1;
      }
      return None;
    }

    /** `handleDisconnect`: the first entry on the socket leaves the queue, unless its
        username is the empty string, which JavaScript reads as false. */
    method HandleDisconnect(socketId: string)
      requires Valid()
      modifies this
      ensures Valid()
      ensures var u := FirstBySocket(old(waiting), socketId);
        waiting == if u.Some? && u.value != "" then Remove(old(waiting), u.value) else old(waiting)
    {
      var username := GetPlayerBySocketId(socketId);
      if username.Some? && username.value != "" {
        var _ := LeaveQueue(username.value);
      }
    }

    /** The timer `findMatch` starts for a queued player: when it fires and the player
        still waits, the player gets a bot game. */
    method BotFallback(username: string, socketId: string, freshId: string, now: int) returns (reply: Option<ClientState>)
      requires Valid() && freshId != "" && freshId !in gameManager.games
      modifies this, gameManager
      ensures Valid()
      ensures reply.Some? <==> Queued(old(waiting), username)
      ensures waiting == Remove(old(waiting), username)
      ensures !Queued(old(waiting), username) ==> gameManager.View() == old(gameManager.View())
      ensures Queued(old(waiting), username) ==>
        && freshId in gameManager.games
        && gameManager.games[freshId].isBot && gameManager.games[freshId].player1.username == username
        && GameByPlayer(gameManager.View(), username) == Some(gameManager.games[freshId])
    {
      var queued := IsInQueue(username);
      if queued {
        ghost var s := gameManager.View();
        reply := MatchWithBot(username, socketId, freshId, now);
        CreateSpec(s, freshId, username, None, true, now, gameManager.games[freshId].board, gameManager.games[freshId].bot);
      } else {
        RemoveAbsent(waiting, username);
        reply := None;
      }
    }
  }
}
