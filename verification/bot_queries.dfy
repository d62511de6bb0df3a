/**
 * The inline-button callbacks with logic of their own: `confirmDeletion` and
 * `confirmRefreshToken`. Each answers the query through `queryResponse` and
 * writes to the chat the keyboard hangs in; the account is looked up by the
 * Telegram id of whoever pressed the button.
 */
module BotQueries {
  import opened Wrappers
  import opened Types
  import opened Store
  import opened BotExt
  import opened SocketAuth

  /** The query is answered exactly once, and that answer carries `options`. */
  predicate AnsweredOnce(effects: seq<Effect>, queryId: string, options: AnswerOptions) {
    exists i :: 0 <= i < |effects| && effects[i] == AnswerQuery(queryId, options)
      && forall j :: 0 <= j < |effects| && j != i ==> !effects[j].AnswerQuery?
  }

  /** `queryResponse` followed by zero or more chat messages answers exactly once. */
  lemma ResponseThenMessagesAnswersOnce(message: QueryMessage, queryId: string, options: AnswerOptions, after: seq<Effect>)
    requires forall e <- after :: e.BotSend?
    ensures AnsweredOnce(QueryResponse(message, queryId, options) + after, queryId, options)
  {
    var r := QueryResponse(message, queryId, options);
    var all := r + after;
    var i := |r| - 1;
    assert all[i] == AnswerQuery(queryId, options);
    forall j | 0 <= j < |all| && j != i
      ensures !all[j].AnswerQuery?
    {
      if j >= |r| {
        assert all[j] == after[j - |r|];
        assert all[j] in after;
      }
    }
  }

  /** `{ text: defaultDBErrorMessage, show_alert: true }`: keyboard kept. */
  const AlertDBError := AnswerOptions(Some(DefaultDBErrorMessage), true, false, false)

  /** `{ show_alert: false, deleteInlineKeyboard: true }` */
  const ClearKeyboardOptions := AnswerOptions(None, false, false, true)

  /** `{ text: 'Success', show_alert: false, deleteInlineKeyboard: true }` */
  const SuccessOptions := AnswerOptions(Some("Success"), false, false, true)

  const DataDeletedMessage := "Your data has been deleted. Type /start to sign up again"

  /**
   * `confirmDeletion`: any store failure (find or delete) is an alert and
   * nothing else; no account clears the keyboard and says so; an account is
   * deleted, the keyboard cleared and the deletion confirmed. Alias records
   * are not touched.
   */
  method ConfirmDeletion(db: Database, req: QueryRequest, queryId: string, findFails: bool, deleteFails: bool)
    returns (effects: seq<Effect>)
    modifies db
    ensures db.aliases == old(db.aliases)
    ensures var found := FindUserByTelegramId(old(db.users), req.from.id);
            if findFails || (found.Some? && deleteFails) then
              db.users == old(db.users) && effects == QueryResponse(req.message, queryId, AlertDBError)
            else if found.None? then
              && db.users == old(db.users)
              && effects == QueryResponse(req.message, queryId, ClearKeyboardOptions) + [BotSend(req.message.chatId, ChatNotSignedUpMessage)]
            else
              && db.users == RemoveAt(old(db.users), found.value)
              && effects == QueryResponse(req.message, queryId, ClearKeyboardOptions) + [BotSend(req.message.chatId, DataDeletedMessage)]
  {
    if findFails {
      return QueryResponse(req.message, queryId, AlertDBError);
    }
    var found := FindUserByTelegramId(db.users, req.from.id);
    if found.None? {
      return QueryResponse(req.message, queryId, ClearKeyboardOptions) + [BotSend(req.message.chatId, ChatNotSignedUpMessage)];
    }
    if deleteFails {
      return QueryResponse(req.message, queryId, AlertDBError);
    }
    db.users := RemoveAt(db.users, found.value);
    effects := QueryResponse(req.message, queryId, ClearKeyboardOptions) + [BotSend(req.message.chatId, DataDeletedMessage)];
  }

  /** Every path of `confirmDeletion` answers the query exactly once; only the deleting path removes an account, the presser's. */
  lemma ConfirmDeletionAnswersOnce(users: seq<User>, req: QueryRequest, queryId: string)
    ensures AnsweredOnce(QueryResponse(req.message, queryId, AlertDBError), queryId, AlertDBError)
    ensures AnsweredOnce(QueryResponse(req.message, queryId, ClearKeyboardOptions) + [BotSend(req.message.chatId, ChatNotSignedUpMessage)], queryId, ClearKeyboardOptions)
    ensures AnsweredOnce(QueryResponse(req.message, queryId, ClearKeyboardOptions) + [BotSend(req.message.chatId, DataDeletedMessage)], queryId, ClearKeyboardOptions)
  {
    ResponseThenMessagesAnswersOnce(req.message, queryId, AlertDBError, []);
    assert QueryResponse(req.message, queryId, AlertDBError) + [] == QueryResponse(req.message, queryId, AlertDBError);
    ResponseThenMessagesAnswersOnce(req.message, queryId, ClearKeyboardOptions, [BotSend(req.message.chatId, ChatNotSignedUpMessage)]);
    ResponseThenMessagesAnswersOnce(req.message, queryId, ClearKeyboardOptions, [BotSend(req.message.chatId, DataDeletedMessage)]);
  }

  /** The deleted account is the presser's: exactly one record with that Telegram id goes, and the rest keep their order. */
  lemma DeletionRemovesPresser(users: seq<User>, telegramId: int)
    requires FindUserByTelegramId(users, telegramId).Some?
    ensures var k := FindUserByTelegramId(users, telegramId).value;
            var after := RemoveAt(users, k);
            && users[k].telegramId == telegramId
            && after == users[..k] + users[k + 1..]
            && multiset(after) + multiset{users[k]} == multiset(users)
  {
    var k := FindUserByTelegramId(users, telegramId).value;
    assert users == users[..k] + [users[k]] + users[k + 1..];
  }

  function TokenRenewedMessage(token: string): string {
    "<b>Token renewed</b>\n\nYour new token is:\n\n<b>" + token + "</b>"
  }

  /**
   * `confirmRefreshToken`: a failing find is an alert; no account clears the
   * keyboard and says so; otherwise a token is signed over the account's
   * `{id}` and written to that account alone, then 'Success' with the
   * keyboard cleared and the new token in the chat. A failing update is an
   * alert and nothing changes.
   */
  method ConfirmRefreshToken(db: Database, req: QueryRequest, queryId: string, sign: JsValue -> string,
                             findFails: bool, updateFails: bool) returns (effects: seq<Effect>)
    modifies db
    ensures db.aliases == old(db.aliases)
    ensures var found := FindUserByTelegramId(old(db.users), req.from.id);
            if findFails || (found.Some? && updateFails) then
              db.users == old(db.users) && effects == QueryResponse(req.message, queryId, AlertDBError)
            else if found.None? then
              && db.users == old(db.users)
              && effects == QueryResponse(req.message, queryId, ClearKeyboardOptions) + [BotSend(req.message.chatId, ChatNotSignedUpMessage)]
            else
              var user := old(db.users)[found.value];
              var token := sign(TokenPayload(user.id));
              && db.users == SetToken(old(db.users), user.id, token)
              && effects == QueryResponse(req.message, queryId, SuccessOptions) + [BotSend(req.message.chatId, TokenRenewedMessage(token))]
  {
    if findFails {
      return QueryResponse(req.message, queryId, AlertDBError);
    }
    var found := FindUserByTelegramId(db.users, req.from.id);
    if found.None? {
      return QueryResponse(req.message, queryId, ClearKeyboardOptions) + [BotSend(req.message.chatId, ChatNotSignedUpMessage)];
    }
    var user := db.users[found.value];
    var token := sign(TokenPayload(user.id));
    if updateFails {
      return QueryResponse(req.message, queryId, AlertDBError);
    }
    db.users := SetToken(db.users, user.id, token);
    effects := QueryResponse(req.message, queryId, SuccessOptions) + [BotSend(req.message.chatId, TokenRenewedMessage(token))];
  }

  /**
   * After a refresh, socket `auth` resolves any token naming the account's
   * id to the same account, now holding the new token. Since the presented
   * token is never compared with the stored one, this covers the old token
   * as much as the new one.
   */
  lemma {:induction false} RefreshKeepsAccount(users: seq<User>, k: nat, newToken: string, presented: string,
                                               referer: string, address: string, verify: string -> Option<JsValue>,
                                               hostOf: string -> Option<string>, env: Env)
    requires k < |users| && FindUserById(users, users[k].id) == Some(k)
    requires !users[k].ban.isBanned
    requires hostOf(referer).Some? && hostOf(referer).value in users[k].whitelist
    requires verify(presented).Some? && IsAuthTokenPayload(verify(presented).value) && IdOf(verify(presented).value) == Str(users[k].id)
    ensures var after := SetToken(users, users[k].id, newToken);
            Decide(Handshake(Some(presented), Some(referer), address), verify, hostOf, after, false, env)
              == Accepted(users[k].(token := newToken))
  {
    var id := users[k].id;
    var after := SetToken(users, id, newToken);
    assert after[k] == users[k].(token := newToken);
    assert forall j :: 0 <= j < k ==> after[j] == users[j];
    assert FindUserById(after, id) == Some(k);
    AnyVerifyingTokenAccepted(presented, referer, address, verify, hostOf, after, k, env);
  }
}
