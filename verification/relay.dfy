/**
 * The relay as a whole: a bot reply fans out to every socket's bot-message
 * handler and reaches only the addressed session, and the alias a socket
 * message announces is one the chat user can reply to.
 */
module Relay {
  import opened Wrappers
  import opened Types
  import opened Text
  import opened Store
  import opened Aliases
  import opened SocketControllers
  import opened BotCommands
  import opened Routes

  /** What the bot-message listeners do with one event, in registration order. */
  function BotMessageFanOut(handlers: seq<Subscriber>, payload: BotMessagePayload): seq<Effect> {
    if handlers == [] then []
    else
      (match handlers[0]
       case SocketBotMessageHandler(socket) => HandleBotMessage(socket, payload)
       case _ => [])
      + BotMessageFanOut(handlers[1..], payload)
  }

  /** How many of the handlers belong to a socket with this id. */
  function HandlersOf(handlers: seq<Subscriber>, socketId: string): nat {
    if handlers == [] then 0
    else (if handlers[0].SocketBotMessageHandler? && handlers[0].socket.id == socketId then 1 else 0)
         + HandlersOf(handlers[1..], socketId)
  }

  /**
   * A reply reaches only the addressed session: every send is the message
   * text on the addressed socket id, once per handler of a socket with that
   * id, and nothing goes to any other socket.
   */
  lemma {:induction false} FanOutReachesAddressedOnly(handlers: seq<Subscriber>, payload: BotMessagePayload)
    ensures var effects := BotMessageFanOut(handlers, payload);
            && |effects| == HandlersOf(handlers, payload.socketId)
            && forall e <- effects :: e == SocketSend(payload.socketId, payload.message)
  {
    if handlers != [] {
      FanOutReachesAddressedOnly(handlers[1..], payload);
    }
  }

  /** Every alias in the table is usable in a reply: non-empty and free of whitespace. */
  ghost predicate AliasesReplyable(aliases: seq<AliasRecord>) {
    forall k :: 0 <= k < |aliases| ==> aliases[k].alias != "" && NoSpaces(aliases[k].alias)
  }

  /** A generated alias can be named in a reply. */
  lemma GeneratedAliasReplyable(draw: nat)
    requires draw < 100
    ensures GenerateAlias(draw) != "" && NoSpaces(GenerateAlias(draw))
  {
    GeneratedAliasIsDecimal(draw);
    DigitsHaveNoSpaces(GenerateAlias(draw));
  }

  /** `getAlias` keeps every alias replyable: existing ones come from the table, new ones are digits. */
  lemma ResolveKeepsReplyable(aliases: seq<AliasRecord>, userId: string, socketId: string, draws: seq<nat>, faultAt: Option<nat>)
    requires DrawsInRange(draws)
    requires AliasesReplyable(aliases)
    ensures var step := ResolveAlias(aliases, userId, socketId, draws, faultAt);
            && AliasesReplyable(step.table)
            && (step.outcome.Resolved? ==> step.outcome.alias != "" && NoSpaces(step.outcome.alias))
  {
    var step := ResolveAlias(aliases, userId, socketId, draws, faultAt);
    ResolveAliasOutcome(aliases, userId, socketId, draws, faultAt);
    if step.table != aliases {
      var a := step.outcome.alias;
      var j :| 0 <= j < |draws| && a == GenerateAlias(draws[j]);
      GeneratedAliasReplyable(draws[j]);
      assert step.table == aliases + [AliasRecord(userId, a, socketId)];
    } else if step.outcome.Resolved? {
      var k :| 0 <= k < |aliases| && aliases[k] == AliasRecord(userId, step.outcome.alias, socketId);
    }
  }

  /** "/r alias message" with single spaces parses back to the alias and the message. */
  lemma ReplyWithSingleSpaces(alias: string, message: string)
    requires alias != "" && NoSpaces(alias)
    requires message != "" && !IsSpace(message[0]) && NoLineTerminators(message)
    ensures ParseReply("/r " + alias + " " + message) == Some(ReplyRequest(alias, message))
  {
    assert AllSpaces(" ");
    SingleSpacedText(alias, message);
    ReplyRoundTrip(" ", alias, " ", message);
  }

  lemma SingleSpacedText(alias: string, message: string)
    ensures "/r " + alias + " " + message == "/r" + " " + alias + " " + message
  {
    assert "/r " == "/r" + " ";
  }

  /**
   * The relay round trip: once a socket's message has resolved alias `a`,
   * the chat user's "/r a message" parses back to `a` and that message, and
   * the lookup by the account and `a` yields this socket, so the reply event
   * is addressed to it.
   */
  lemma ReplyAddressesSession(aliases: seq<AliasRecord>, userId: string, socketId: string, draws: seq<nat>,
                              faultAt: Option<nat>, message: string)
    requires DrawsInRange(draws)
    requires AliasesUniquePerUser(aliases) && AliasesReplyable(aliases)
    requires socketId != ""
    requires message != "" && !IsSpace(message[0]) && NoLineTerminators(message)
    ensures var step := ResolveAlias(aliases, userId, socketId, draws, faultAt);
            step.outcome.Resolved? ==>
              && ParseReply("/r " + step.outcome.alias + " " + message) == Some(ReplyRequest(step.outcome.alias, message))
              && GetSocketId(step.table, userId, step.outcome.alias, false) == Present(socketId)
  {
    var step := ResolveAlias(aliases, userId, socketId, draws, faultAt);
    if step.outcome.Resolved? {
      var a := step.outcome.alias;
      ResolveKeepsReplyable(aliases, userId, socketId, draws, faultAt);
      GetAliasThenGetSocketId(aliases, userId, socketId, draws, faultAt);
      ReplyWithSingleSpaces(a, message);
    }
  }
}
