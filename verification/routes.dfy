/**
 * The wiring: the bot's command and query tables, the collector
 * subscriptions of both sides, and what the concrete tables imply for
 * dispatch — which controllers a text reaches and which callback a button
 * reaches.
 */
module Routes {
  import opened Wrappers
  import opened Types
  import opened Text
  import opened Store
  import opened Middleware
  import opened BotExt
  import opened BotGates
  import opened EventBus
  import opened SocketAuth

  /** The command controllers. */
  datatype Controller =
    | StartController | HelpController | DeleteDataController | StatusController
    | WhitelistController | RefreshTokenController | ReplyController

  /** The query callbacks. */
  datatype QueryCallback = ConfirmDeletionCallback | ConfirmRefreshTokenCallback | AbortKeyboardActionCallback

  /** Who listens on the collector: the bot's chat relay and disconnect handler, and one handler per connected socket. */
  datatype Subscriber = ChatMessageRelay | ChatDisconnectHandler | SocketBotMessageHandler(socket: Socket)

  type Bot = TelegramBotExt<BotMiddleware, Controller, QueryCallback>

  /** The command listeners in registration order, with their exact flags. */
  const CommandTable: seq<CommandListener<Controller>> := [
    CommandListener(Start, StartController, true),
    CommandListener(Help, HelpController, true),
    CommandListener(DeleteData, DeleteDataController, true),
    CommandListener(Info, StatusController, true),
    CommandListener(Whitelist, WhitelistController, false),
    CommandListener(RefreshToken, RefreshTokenController, true),
    CommandListener(Reply, ReplyController, false)
  ]

  const QueryTable: seq<QueryListener<QueryCallback>> := [
    QueryListener(ConfirmDeletion, ConfirmDeletionCallback),
    QueryListener(ConfirmRefreshToken, ConfirmRefreshTokenCallback),
    QueryListener(Abort, AbortKeyboardActionCallback)
  ]

  /** `routeBot`: register the commands, the queries, and the bot's two collector subscriptions. */
  method RouteBot(bot: Bot, collector: Collector<Subscriber>)
    modifies bot, collector
    ensures bot.commands == old(bot.commands) + CommandTable
    ensures bot.queries == old(bot.queries) + QueryTable
    ensures bot.middlewares == old(bot.middlewares)
    ensures collector.Listeners(EventName(SocketMessageEvent)) == old(collector.Listeners(EventName(SocketMessageEvent))) + [ChatMessageRelay]
    ensures collector.Listeners(EventName(DisconnectEvent)) == old(collector.Listeners(EventName(DisconnectEvent))) + [ChatDisconnectHandler]
    ensures collector.Listeners(EventName(BotMessageEvent)) == old(collector.Listeners(EventName(BotMessageEvent)))
  {
    bot.OnCommand(Start, StartController, true);
    bot.OnCommand(Help, HelpController, true);
    bot.OnCommand(DeleteData, DeleteDataController, true);
    bot.OnCommand(Info, StatusController, true);
    bot.OnCommand(Whitelist, WhitelistController, false);
    bot.OnCommand(RefreshToken, RefreshTokenController, true);
    bot.OnCommand(Reply, ReplyController, false);

    bot.OnQuery(ConfirmDeletion, ConfirmDeletionCallback);
    bot.OnQuery(ConfirmRefreshToken, ConfirmRefreshTokenCallback);
    bot.OnQuery(Abort, AbortKeyboardActionCallback);

    collector.OnSocketMessage(ChatMessageRelay);
    collector.OnDisconnection(ChatDisconnectHandler);
  }

  /** The socket side's per-connection subscription: a bot-message handler for this socket, never removed. */
  method RouteSocketConnection(socket: Socket, collector: Collector<Subscriber>)
    modifies collector
    ensures collector.Listeners(EventName(BotMessageEvent)) == old(collector.Listeners(EventName(BotMessageEvent))) + [SocketBotMessageHandler(socket)]
    ensures forall e :: e != EventName(BotMessageEvent) ==> collector.Listeners(e) == old(collector.Listeners(e))
  {
    collector.OnBotMessage(SocketBotMessageHandler(socket));
  }

  /** Start-up: a bot with the chain logger → rejectUnknownUsers → auth, then the routes. */
  method Bootstrap() returns (bot: Bot, collector: Collector<Subscriber>)
    ensures fresh(bot) && fresh(collector)
    ensures bot.middlewares == BotChain && bot.commands == CommandTable && bot.queries == QueryTable
    ensures collector.Listeners(EventName(SocketMessageEvent)) == [ChatMessageRelay]
    ensures collector.Listeners(EventName(DisconnectEvent)) == [ChatDisconnectHandler]
    ensures collector.Listeners(EventName(BotMessageEvent)) == []
  {
    bot := new TelegramBotExt();
    collector := new Collector();
    bot.Use(BotChain);
    RouteBot(bot, collector);
  }

  /* ------------------------------- Which controllers fire ------------------------------ */

  /** A command whose pattern differs from the text at some position does not match it. */
  lemma DiffersAt(name: string, exact: bool, text: string, i: nat)
    requires i <= |name| && i < |text| && text[i] != ("/" + name)[i]
    ensures !CommandMatches(name, exact, text)
  {
    if |name| + 1 <= |text| {
      assert text[..|name| + 1][i] != ("/" + name)[i];
    }
  }

  /** Of the command patterns, "/refreshtoken" followed by whitespace matches those of refreshToken and reply only. */
  lemma RefreshTokenPatterns(w: string)
    requires AllSpaces(w)
    ensures var text := "/refreshtoken" + w;
            && !CommandMatches("start", true, text) && !CommandMatches("help", true, text)
            && !CommandMatches("deletedata", true, text) && !CommandMatches("info", true, text)
            && !CommandMatches("whitelist", false, text)
            && CommandMatches("refreshtoken", true, text) && CommandMatches("r", false, text)
  {
    var text := "/refreshtoken" + w;
    assert text[1] == 'r';
    DiffersAt("start", true, text, 1);
    DiffersAt("help", true, text, 1);
    DiffersAt("deletedata", true, text, 1);
    DiffersAt("info", true, text, 1);
    DiffersAt("whitelist", false, text, 1);
    assert text[..13] == "/refreshtoken" && text[13..] == w;
    assert text[..2] == "/r";
  }

  /** "/refreshtoken", with or without trailing whitespace, reaches refreshToken and also reply, whose "r" is a prefix. */
  lemma RefreshTokenAlsoReplies(w: string)
    requires AllSpaces(w)
    ensures Matching(CommandTable, "/refreshtoken" + w) == [RefreshTokenController, ReplyController]
  {
    var text := "/refreshtoken" + w;
    RefreshTokenPatterns(w);
    var t := CommandTable;
    assert Matching(t[7..], text) == [];
    assert Matching(t[6..], text) == [ReplyController];
    assert Matching(t[5..], text) == [RefreshTokenController, ReplyController];
    assert Matching(t[4..], text) == Matching(t[5..], text);
    assert Matching(t[3..], text) == Matching(t[4..], text);
    assert Matching(t[2..], text) == Matching(t[3..], text);
    assert Matching(t[1..], text) == Matching(t[2..], text);
  }

  /** An exact command followed by more than whitespace fires nothing: "/help me" reaches no controller. */
  lemma HelpWithArgumentFiresNothing()
    ensures Matching(CommandTable, "/help me") == []
  {
    var text := "/help me";
    var t := CommandTable;
    assert text[1] == 'h' && text[2] == 'e';
    assert text[5..] == " me" && !IsSpace(text[5..][1]);
    assert Matching(t[6..], text) == [];
    assert Matching(t[5..], text) == [];
    assert Matching(t[4..], text) == [];
    assert Matching(t[3..], text) == [];
    assert Matching(t[2..], text) == [];
    assert Matching(t[1..], text) == [];
  }

  /** Any text beginning with "/whitelist", or with "/r", reaches that controller. */
  lemma PrefixCommandsFire(text: string)
    ensures StartsWith(text, "/whitelist") ==> WhitelistController in Matching(CommandTable, text)
    ensures StartsWith(text, "/r") ==> ReplyController in Matching(CommandTable, text)
  {
    if StartsWith(text, "/whitelist") {
      MatchingHasMatch(CommandTable, text, 4);
    }
    if StartsWith(text, "/r") {
      MatchingHasMatch(CommandTable, text, 6);
    }
  }

  /** A listener whose pattern matches contributes its controller. */
  lemma {:induction false} MatchingHasMatch<C>(commands: seq<CommandListener<C>>, text: string, i: nat)
    requires i < |commands|
    requires CommandMatches(CommandName(commands[i].command), commands[i].exact, text)
    ensures commands[i].controller in Matching(commands, text)
  {
    if i > 0 {
      MatchingHasMatch(commands[1..], text, i - 1);
    }
  }

  /**
   * End to end: a registered, unbanned sender typing "/refreshtoken" gets
   * both controllers invoked, each with the account attached and a response
   * bound to the sender's id.
   */
  lemma {:induction false} RefreshTokenDispatch(msg: Message, users: seq<User>, env: Env, from: Sender, k: nat)
    requires msg.from == Some(from) && msg.text == "/refreshtoken"
    requires FindUserByTelegramId(users, from.id) == Some(k) && !users[k].ban.isBanned
    ensures var m := msg.(user := Some(users[k]));
            TextDispatch(CommandTable, BotChain, Gates(users, false, env), msg)
              == [Invoke(RefreshTokenController, m, from.id), Invoke(ReplyController, m, from.id)]
  {
    var m := msg.(user := Some(users[k]));
    var apply := Gates(users, false, env);
    var acts := TextDispatch(CommandTable, BotChain, apply, msg);
    assert msg.text == "/refreshtoken" + "";
    RefreshTokenAlsoReplies("");
    BotChainIsAuth(msg, users, false, env);
    assert RunChain(BotChain, apply, msg, msg.chatId) == Completed(m);
    DispatchFollowsMatching(CommandTable, BotChain, apply, msg);
    assert acts[0] == Invoke(RefreshTokenController, m, from.id);
    assert acts[1] == Invoke(ReplyController, m, from.id);
  }

  /**
   * A message without sender matching some command draws no reply at all:
   * the chain fails at `rejectUnknownUsers`, and sending its error to
   * `from.id` throws.
   */
  lemma UnidentifiedSenderGetsNoReply(msg: Message, users: seq<User>, lookupFails: bool, env: Env)
    requires msg.from.None?
    ensures forall a <- TextDispatch(CommandTable, BotChain, Gates(users, lookupFails, env), msg) :: a == ListenerThrows
  {
    DispatchFollowsMatching(CommandTable, BotChain, Gates(users, lookupFails, env), msg);
  }

  /* ------------------------------- Which callback fires ------------------------------- */

  /** Each query code is routed to exactly one callback. */
  lemma EachCodeRoutedOnce(code: BotQueryCode)
    ensures Registered(QueryTable, QueryCodeName(code)) == 1
  {
    var t := QueryTable;
    var name := QueryCodeName(code);
    assert Registered(t[3..], name) == 0;
    assert Registered(t[2..], name) == (if code == Abort then 1 else 0);
    assert Registered(t[1..], name) == (if code == Abort || code == ConfirmRefreshToken then 1 else 0);
  }

  /**
   * A well-formed press of a confirm-deletion button runs that callback
   * once, whoever pressed it: queries bypass the chain, so neither an unknown
   * nor a banned account is turned away here.
   */
  lemma DeletionButtonBypassesGates(q: CallbackQuery, parse: string -> Option<JsValue>)
    requires CheckPayload(q, parse).Payload?
    requires CheckPayload(q, parse).head == QueryCodeName(ConfirmDeletion)
    ensures QueryDispatch(QueryTable, q, parse)
              == [RunCallback(ConfirmDeletionCallback, QueryRequest(q.message.value, q.from, CheckPayload(q, parse).items), q.id)]
  {
    var t := QueryTable;
    assert QueryDispatch(t[3..], q, parse) == [];
    assert QueryDispatch(t[2..], q, parse) == [];
    assert QueryDispatch(t[1..], q, parse) == [];
  }
}
