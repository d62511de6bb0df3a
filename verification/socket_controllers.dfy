/**
 * What an authenticated socket does: its `message` controller (resolve the
 * session's alias, then emit a socket-message event), its `disconnect`
 * controller (emit a disconnect event), and the per-connection subscriber
 * that delivers bot replies addressed to this socket.
 */
module SocketControllers {
  import opened Wrappers
  import opened Types
  import opened Store
  import opened Aliases
  import opened SocketAuth

  /**
   * The socket `message` controller. The session's alias comes from
   * `getAlias(user.id, socket.id)`, which may insert a record; a failure is
   * reported on the socket and nothing is emitted. `Diverged` stands for a
   * `getAlias` that is still drawing, so nothing happens yet.
   */
  method OnMessage(socket: Socket, db: Database, message: string, draws: seq<nat>, faultAt: Option<nat>)
    returns (effects: seq<Effect>)
    requires socket.user.Some?
    requires DrawsInRange(draws)
    modifies db
    ensures var u := socket.user.value;
            var step := ResolveAlias(old(db.aliases), u.id, socket.id, draws, faultAt);
            && db.aliases == step.table
            && db.users == old(db.users)
            && match step.outcome
               case Resolved(a) => effects == [Emit(SocketMessage(SocketMessagePayload(u.id, u.chatId, a, message)))]
               case StoreError => effects == [SocketSend(socket.id, DefaultDBErrorMessage)]
               case Diverged => effects == []
  {
    var user := socket.user.value;
    var alias := GetAlias(db, user.id, socket.id, draws, faultAt);
    match alias
    case StoreError =>
      effects := [SocketSend(socket.id, DefaultDBErrorMessage)];
    case Diverged =>
      effects := [];
    case Resolved(a) =>
      effects := [Emit(SocketMessage(SocketMessagePayload(user.id, user.chatId, a, message)))];
  }

  /** The socket `disconnect` controller: one disconnect event; it touches no record itself. */
  method Disconnect(socket: Socket, reason: Option<string>) returns (effects: seq<Effect>)
    requires socket.user.Some?
    ensures |effects| == 1 && effects[0].Emit? && effects[0].event.Disconnection?
    ensures var p := effects[0].event.disconnection;
            && p.socketId == socket.id
            && p.userId == socket.user.value.id
            && p.chatId == socket.user.value.chatId
            && p.reason == reason
  {
    var user := socket.user.value;
    effects := [Emit(Disconnection(DisconnectPayload(socket.id, user.id, user.chatId, reason)))];
  }

  /**
   * `handleBotMessage`, subscribed once per connection: forward the message
   * text to this socket when the event is addressed to it; `userId` is not
   * consulted.
   */
  function HandleBotMessage(socket: Socket, payload: BotMessagePayload): (effects: seq<Effect>)
    ensures |effects| <= 1
    ensures effects != [] <==> socket.id == payload.socketId
    ensures forall e <- effects :: e == SocketSend(socket.id, payload.message)
  {
    if socket.id != payload.socketId then [] else [SocketSend(socket.id, payload.message)]
  }

  /** The text that reaches a socket does not depend on which account the bot-side reply came from. */
  lemma HandleBotMessageIgnoresUserId(socket: Socket, payload: BotMessagePayload, otherUserId: string)
    ensures HandleBotMessage(socket, payload.(userId := otherUserId)) == HandleBotMessage(socket, payload)
  {
  }

  /**
   * A session's first message creates its alias record: with no record for
   * the session and a successful resolution, the table gains exactly the
   * record of this session under the alias the event carries.
   */
  lemma FirstMessageCreatesAlias(aliases: seq<AliasRecord>, userId: string, socketId: string, draws: seq<nat>, faultAt: Option<nat>)
    requires DrawsInRange(draws)
    requires FindSession(aliases, userId, socketId).None?
    requires ResolveAlias(aliases, userId, socketId, draws, faultAt).outcome.Resolved?
    ensures var step := ResolveAlias(aliases, userId, socketId, draws, faultAt);
            step.table == aliases + [AliasRecord(userId, step.outcome.alias, socketId)]
  {
    ResolveAliasOutcome(aliases, userId, socketId, draws, faultAt);
  }
}
