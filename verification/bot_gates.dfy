/**
 * The bot's middlewares: the logger (always continues), `rejectUnknownUsers`
 * and `auth`. Each is a `Step` of the chain; the account table and whether
 * the lookup fails are parameters. `auth` writes the found account into the
 * message, so its `Next` carries the updated message.
 */
module BotGates {
  import opened Wrappers
  import opened Types
  import opened Text
  import opened Store
  import opened Middleware

  datatype BotMiddleware = BotLogger | RejectUnknownUsers | BotAuth

  const UnidentifiedMessage := "I cannot identify you. Open the chat with a valid user"

  /** `rejectUnknownUsers`: an error exactly when the message has no sender; the message is passed on as it is. */
  function RejectUnknownUsersStep(msg: Message): (s: Step<Message>)
    ensures s.NextError? <==> msg.from.None?
    ensures s.NextError? ==> s.error == UnidentifiedMessage
    ensures s.Next? ==> s.msg == msg
    ensures !s.Returned?
  {
    if msg.from.None? then NextError(UnidentifiedMessage) else Next(msg)
  }

  /**
   * The unknown-user pattern of `auth`. Written inside a template string, its
   * `\s` loses the backslash and becomes the letter `s`; with `.*s*` able to
   * match nothing, the pattern accepts every text that starts with "/" not
   * followed by "start".
   */
  predicate NotStartCommand(text: string) {
    StartsWith(text, "/") && !StartsWith(text[1..], "start")
  }

  /**
   * `auth`: look the sender's account up by Telegram id. A failing lookup
   * (reading `from.id` of a message without sender throws inside the same
   * `try`) passes the database error; an unknown sender passes only with a
   * text the pattern above does not match; a known one is attached to the
   * message, then rejected if banned.
   */
  function AuthStep(msg: Message, users: seq<User>, lookupFails: bool, env: Env): (s: Step<Message>)
    ensures !s.Returned?
    ensures s.Next? ==> s.msg.from == msg.from && s.msg.chatId == msg.chatId && s.msg.text == msg.text
    ensures (msg.from.Some? && !lookupFails && FindUserByTelegramId(users, msg.from.value.id).None? && NotStartCommand(msg.text))
              ==> s == NextError(ChatNotSignedUpMessage)
  {
    if msg.from.None? || lookupFails then NextError(DefaultDBErrorMessage)
    else match FindUserByTelegramId(users, msg.from.value.id)
      case None =>
        if NotStartCommand(msg.text) then NextError(ChatNotSignedUpMessage) else Next(msg)
      case Some(k) =>
        var user := users[k];
        var attached := msg.(user := Some(user));
        if user.ban.isBanned then NextError(BanMessage(user.ban.reason, env)) else Next(attached)
  }

  /** The three middlewares as chain steps; none uses its response. */
  function Apply(m: BotMiddleware, msg: Message, users: seq<User>, lookupFails: bool, env: Env): Step<Message> {
    match m
    case BotLogger => Next(msg)
    case RejectUnknownUsers => RejectUnknownUsersStep(msg)
    case BotAuth => AuthStep(msg, users, lookupFails, env)
  }

  /** The middlewares over a fixed account table and lookup outcome, in the shape the chain runner expects. */
  function Gates(users: seq<User>, lookupFails: bool, env: Env): (BotMiddleware, Message, int) -> Step<Message> {
    (m: BotMiddleware, msg: Message, res: int) => Apply(m, msg, users, lookupFails, env)
  }

  /* ------------------------------- Properties of auth ------------------------------- */

  /** A failing lookup passes the database error and attaches nothing. */
  lemma AuthLookupFailure(msg: Message, users: seq<User>, env: Env)
    ensures AuthStep(msg, users, true, env) == NextError(DefaultDBErrorMessage)
  {
  }

  /** A banned account is rejected with the ban message whatever the command, "/start" included. */
  lemma AuthRejectsBanned(msg: Message, users: seq<User>, env: Env, k: nat)
    requires msg.from.Some?
    requires FindUserByTelegramId(users, msg.from.value.id) == Some(k)
    requires users[k].ban.isBanned
    ensures AuthStep(msg, users, false, env) == NextError(BanMessage(users[k].ban.reason, env))
  {
  }

  /**
   * `auth` continues exactly for an unbanned account (attached to the
   * message) or an unknown sender whose text is "/start…" or not a command.
   */
  lemma AuthPassesIff(msg: Message, users: seq<User>, lookupFails: bool, env: Env)
    ensures var s := AuthStep(msg, users, lookupFails, env);
            s.Next? <==>
              && msg.from.Some? && !lookupFails
              && match FindUserByTelegramId(users, msg.from.value.id)
                 case None => !NotStartCommand(msg.text)
                 case Some(k) => !users[k].ban.isBanned
    ensures var s := AuthStep(msg, users, lookupFails, env);
            s.Next? && msg.from.Some? ==>
              match FindUserByTelegramId(users, msg.from.value.id)
              case None => s.msg == msg
              case Some(k) => s.msg == msg.(user := Some(users[k]))
  {
  }

  /** Among texts starting with "/", the unknown-user rule rejects exactly those not followed by "start". */
  lemma NotStartCommandCases(text: string)
    ensures NotStartCommand("/start" + text) == false
    ensures StartsWith(text, "/") && !StartsWith(text[1..], "start") ==> NotStartCommand(text)
    ensures !StartsWith(text, "/") ==> !NotStartCommand(text)
  {
    assert ("/start" + text)[1..] == "start" + text;
  }

  /* --------------------------- The chain as index.ts builds it --------------------------- */

  /** The bot's chain: logger, then `rejectUnknownUsers`, then `auth`. */
  const BotChain := [BotLogger, RejectUnknownUsers, BotAuth]

  /** A message without sender is stopped by the second middleware, and `auth` never runs. */
  lemma UnidentifiedStoppedAtSecond(msg: Message, users: seq<User>, lookupFails: bool, env: Env)
    requires msg.from.None?
    ensures RunChain(BotChain, Gates(users, lookupFails, env), msg, msg.chatId) == Failed(UnidentifiedMessage, 2)
  {
    var apply := Gates(users, lookupFails, env);
    assert apply(BotLogger, msg, msg.chatId) == Next(msg);
    assert apply(RejectUnknownUsers, msg, msg.chatId) == NextError(UnidentifiedMessage);
    assert BotChain[1..][1..] == [BotAuth];
  }

  /** The chain passes exactly when `auth` does, and then hands on `auth`'s message. */
  lemma {:induction false} BotChainIsAuth(msg: Message, users: seq<User>, lookupFails: bool, env: Env)
    requires msg.from.Some?
    ensures var r := RunChain(BotChain, Gates(users, lookupFails, env), msg, msg.chatId);
            var s := AuthStep(msg, users, lookupFails, env);
            && (s.Next? ==> r == Completed(s.msg))
            && (s.NextError? ==> r == Failed(s.error, 3))
  {
    var apply := Gates(users, lookupFails, env);
    assert apply(BotLogger, msg, msg.chatId) == Next(msg);
    assert apply(RejectUnknownUsers, msg, msg.chatId) == Next(msg);
    assert apply(BotAuth, msg, msg.chatId) == AuthStep(msg, users, lookupFails, env);
    assert BotChain[1..] == [RejectUnknownUsers, BotAuth];
    assert BotChain[1..][1..] == [BotAuth];
    assert BotChain[1..][1..][1..] == [];
  }
}
