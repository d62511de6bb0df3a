/**
 * The bot side of the collector: what the bot does with a socket message
 * and with a socket disconnection, answering through a response bound to
 * the payload's `chatId`.
 */
module BotEvents {
  import opened Wrappers
  import opened Types
  import opened Store

  /** `handleSocketMessage`: the message, prefixed by the sender's alias in bold, to the account's chat. */
  function HandleSocketMessage(payload: SocketMessagePayload): (effects: seq<Effect>)
    ensures |effects| == 1 && effects[0].BotSend? && effects[0].chatId == payload.chatId
    ensures var text := effects[0].text;
            |text| >= |payload.message| && text[|text| - |payload.message|..] == payload.message
  {
    [BotSend(payload.chatId, "<b>" + payload.alias + "</b>: " + payload.message)]
  }

  function LeftChatMessage(alias: string): string {
    "<i>User <b>" + alias + "</b> has left the chat</i>"
  }

  /**
   * `handleSocketDisconnect`: find the session's record by socket id and
   * account; a failed or empty lookup does nothing. A found record is
   * announced, then deleted. The deletion is not awaited, so its failure
   * goes unnoticed: the notice is out and the record stays.
   */
  method HandleSocketDisconnect(db: Database, payload: DisconnectPayload, findFails: bool, deleteFails: bool)
    returns (effects: seq<Effect>)
    modifies db
    ensures db.users == old(db.users)
    ensures var found := FindSession(old(db.aliases), payload.userId, payload.socketId);
            if findFails || found.None? then effects == [] && db.aliases == old(db.aliases)
            else
              && effects == [BotSend(payload.chatId, LeftChatMessage(old(db.aliases)[found.value].alias))]
              && db.aliases == (if deleteFails then old(db.aliases) else RemoveAt(old(db.aliases), found.value))
  {
    if findFails {
      return [];
    }
    var found := FindSession(db.aliases, payload.userId, payload.socketId);
    if found.None? {
      return [];
    }
    effects := [BotSend(payload.chatId, LeftChatMessage(db.aliases[found.value].alias))];
    if !deleteFails {
      db.aliases := RemoveAt(db.aliases, found.value);
    }
  }

  /**
   * The deletion removes exactly the session's record: afterwards no other
   * record is missing, the account's aliases stay unique, and the alias of
   * the closed session is free again for the account unless another session
   * of it still holds it.
   */
  lemma {:induction false} DisconnectRemovesOnlySession(aliases: seq<AliasRecord>, userId: string, socketId: string)
    requires FindSession(aliases, userId, socketId).Some?
    requires AliasesUniquePerUser(aliases)
    ensures var k := FindSession(aliases, userId, socketId).value;
            var after := RemoveAt(aliases, k);
            && multiset(after) + multiset{aliases[k]} == multiset(aliases)
            && AliasesUniquePerUser(after)
            && FindAlias(after, userId, aliases[k].alias).None?
  {
    var k := FindSession(aliases, userId, socketId).value;
    var after := RemoveAt(aliases, k);
    assert aliases == aliases[..k] + [aliases[k]] + aliases[k + 1..];
    RemovePreservesUnique(aliases, k);
    forall j | 0 <= j < |after|
      ensures !(after[j].userId == userId && after[j].alias == aliases[k].alias)
    {
      var j' := if j < k then j else j + 1;
      assert after[j] == aliases[j'] && j' != k;
    }
  }
}
