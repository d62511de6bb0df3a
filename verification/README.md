# telegram-socket-bot relay, modelled in Dafny

The system relays chat between website visitors and site owners. Visitors connect over socket.io from a chat widget. Owners use a Telegram bot.

- **Bot side.** An owner signs up with `/start` and receives a signed token. They manage the hostnames their widget may connect from with `/whitelist`. They answer a visitor with `/r <alias> <message>`, and can renew the token or delete the account through inline-keyboard buttons.
- **Socket side.** A widget connects with the token. The connection passes a logger, a per-address rate limiter and an `auth` middleware. `auth` checks the token, the account, its ban flag and the referer's hostname against the whitelist.
- **Between the two sides.** Each visitor message gets a per-session alias: a random number below 100 that is unique per account. A process-wide event bus, the *collector*, carries three events:
  - a socket message, which goes to the owner's chat;
  - a bot reply, which goes to the addressed socket;
  - a disconnection, which is announced in the chat and frees the alias.

## What the model covers

- **The bot wrapper.**
  - Middleware registration and the short-circuiting chain runner, as a `class` with a `while` loop. The loop is proved equal to a pure chain function.
  - Command listeners with their `^/name\s*` (optionally `$`) patterns.
  - Callback-query listeners, with their payload checks and `queryResponse`.
- **The bot middlewares.** `rejectUnknownUsers` and `auth`, and the chain `logger → rejectUnknownUsers → auth` as `index.ts` builds it.
- **Socket `auth`.** The eight-check cascade that ends with writing `socket.user`, and the connection chain.
- **The controllers.** `start`, `whitelist` and `reply`; the query callbacks `confirmDeletion` and `confirmRefreshToken`; the bot-side event handlers; the socket `message` and `disconnect` controllers; and the per-connection bot-message handler.
- **Alias resolution and lookup.** `getAlias` with its `do/while` draw loop, and `getSocketId`.
- **The collector.** A `class` with a listener map, plus the route tables of `routes/bot.ts` and `routes/socket.ts`.

Some properties are proved across several of these operations:
- **The relay round trip.** The alias announced for a socket message can be used in `/r`, and the reply is addressed to that socket.
- **Bot-reply fan-out.** A reply reaches only the addressed session.
- **Alias uniqueness.** Aliases stay unique per account through `getAlias` and through the deletion on disconnect.
- **Signed tokens.** A token that `start` signs opens a socket.
- **Dispatch.** Which controllers a given text reaches, and which callback a given button reaches.

How the outside world is represented:
- **Effects.** Side effects are returned as a sequence of `Effect` values, in order: chat messages, socket sends, collector emits, query answers, message deletions and keyboard removals.
- **The database.** A `Database` object holds the `users` and `aliases` collections as sequences. A store failure is a boolean parameter of the call. `getAlias` instead takes `faultAt`, the position of the first store call that throws.
- **Foreign functions.** These are parameters:
  - `jwt.sign` is `sign`;
  - `jwt.verify` is `verify`, where `None` means it throws;
  - `new URL(referer).hostname` is `hostOf`;
  - `JSON.parse` is `parse`;
  - the new object id is `newId`;
  - `Math.random` is the sequence `draws`;
  - whether the rate limiter has a point left is `rateAllowed`.

Quirks of the code are modelled as they are:
- `/refreshtoken` also matches the non-exact `/r` listener.
- Callback queries never pass through the middleware chain.
- Socket `auth` never compares the presented token with the stored one. A rotated token therefore keeps opening sockets, although the `/start` help text and the repository's documentation say the old token is invalidated. The model follows the code: `SocketAuth.AnyVerifyingTokenAccepted` and `BotQueries.RefreshKeepsAccount`.
- The error reply of a command listener goes to `from.id`. A message without a sender therefore makes the listener throw, and nobody gets a reply.

## Model

| member | source | states |
|---|---|---|
| Types.IsAuthTokenPayload | src/types.ts:112-115 | a decoded token passes the guard exactly when it is an object whose `id` property is a string |
| Types.TokenPayload | src/controllers/bot/commands/start.ts:25-29 | the signed payload `{id}` passes the token guard and carries the id |
| Types.CommandNamesDistinct | src/types.ts:45-53 | command names are pairwise distinct, and `r` is a proper prefix of `refreshtoken` |
| Types.QueryCodesDistinct | src/types.ts:55-59 | callback codes are pairwise distinct |
| Types.EventNamesDistinct | src/types.ts:121-125 | collector event names are pairwise distinct, so the three listener lists never mix |
| Text.Without | src/controllers/bot/commands/whitelist.ts:29 | the filter removes every occurrence of the value, keeps every other element and adds nothing |
| Text.WithoutConcat | src/controllers/bot/commands/whitelist.ts:29 | the filter works element by element: filtering a concatenation filters each part and keeps the parts in order, so the kept hostnames keep their order |
| Text.WithoutCounts | src/controllers/bot/commands/whitelist.ts:29 | no occurrence of the removed value is left, and every other value keeps its exact number of occurrences |
| Text.SplitSingle | src/controllers/bot/commands/whitelist.ts:7 | `split(' ')` yields one piece exactly when there is no space, and then the piece is the whole text |
| Text.DecimalRoundTrip | src/utils/getAlias.ts:6 | the decimal text of a number reads back as that number |
| Store.FindUserByTelegramId | src/middlewares/bot/auth.ts:10 | `findOne({telegramId})` returns the first record with that Telegram id, or reports that there is none |
| Store.FindUserById | src/middlewares/socket/auth.ts:50 | `findById` returns the first record with that id, or reports that there is none |
| Store.FindSession | src/utils/getAlias.ts:11 | the first alias record of this account and socket, or none |
| Store.FindAlias | src/utils/getSocketId.ts:10 | the first alias record of this account under this alias, or none |
| Store.RemoveAt | src/controllers/bot/events/handleSocketDisconnect.ts:32 | a document deletion removes exactly one position and keeps the others in order |
| Store.SetWhitelist | src/controllers/bot/commands/whitelist.ts:29-33 | the update replaces the whitelist of the record with that id and leaves every other record unchanged |
| Store.SetToken | src/controllers/bot/queries/confirmRefreshToken.ts:41 | the update replaces the token of the record with that id and leaves every other record unchanged |
| Store.RemovePreservesUnique | src/controllers/bot/events/handleSocketDisconnect.ts:32 | deleting an alias record keeps aliases unique per account |
| Aliases.GenerateAlias | src/utils/getAlias.ts:5-7 | a generated alias is never empty |
| Aliases.GeneratedAliasIsDecimal | src/utils/getAlias.ts:5-7 | a generated alias has one or two decimal digits and reads back as its draw |
| Aliases.ExistingAlias | src/utils/getAlias.ts:11-12 | a reused alias is non-empty and belongs to a stored record of this account and socket |
| Aliases.FirstFreeDraw | src/utils/getAlias.ts:15-17 | the loop stops at the first draw whose alias the account does not hold; every earlier draw collides, and no stop means every draw collides |
| Aliases.FirstFreeDrawIs | src/utils/getAlias.ts:15-17 | after a run of colliding draws, the first free draw is the stopping point |
| Aliases.FirstFreeDrawAt | src/utils/getAlias.ts:15-17 | after `j` colliding draws, the loop cannot stop before `j` |
| Aliases.GetAlias | src/utils/getAlias.ts:9-35 | the returned outcome and the new alias table are those of the `getAlias` specification; accounts are untouched |
| Aliases.ProbeDraws | src/utils/getAlias.ts:15-17 | the loop stops after a run of colliding draws, at a probe that throws, at a free draw, or when the draws run out |
| Aliases.ProbeFaultEndsDraw | src/utils/getAlias.ts:15-17 | a probe that throws after colliding draws ends `getAlias` with the store error and no insert |
| Aliases.FreeDrawEndsLoop | src/utils/getAlias.ts:15-19 | a free draw after colliding ones is inserted, unless its probe or the insert throws |
| Aliases.DrawsExhausted | src/utils/getAlias.ts:15-17 | when every draw collides, `getAlias` has not ended unless a probe threw |
| Aliases.DrawUntilFree | src/utils/getAlias.ts:14-20 | the draw loop and insert produce the outcome and table of the draw specification, with a store fault at any probe or at the insert stopping everything |
| Aliases.GetSocketId | src/utils/getSocketId.ts:6-25 | a store failure is reported exactly when the lookup throws; a found socket id is non-empty and is stored under this account and alias; the first record for this account and alias yields its socket id, or absent when that id is empty; with no such record the result is absent |
| Aliases.ResolveAliasOutcome | src/utils/getAlias.ts:9-22 | a resolved alias is stored for the session; the table either stays as it was or gains exactly one record; a new record is for a session that had none, under an alias free for the account and taken from some draw; failures change nothing |
| Aliases.ExistingSessionKeepsAlias | src/utils/getAlias.ts:11-14 | a session with an alias gets it back, and the table does not change |
| Aliases.OtherAccountsNeverCollide | src/utils/getAlias.ts:17 | records of other accounts never make a candidate collide |
| Aliases.GetAliasPreservesUnique | src/utils/getAlias.ts:15-19 | `getAlias` keeps every account's aliases distinct |
| Aliases.GetAliasThenGetSocketId | src/utils/getSocketId.ts:10-24 | once `getAlias(u, s)` resolves alias `a`, `getSocketId(u, a)` finds `s` |
| Aliases.GetSocketIdIgnoresOtherAccounts | src/utils/getSocketId.ts:10 | an alias held only by other accounts reads as absent |
| EventBus.Collector.constructor | src/utils/Collector.ts:5-8 | a new collector has no listeners and a ceiling of 100 |
| EventBus.Collector.On | src/utils/Collector.ts:9-11 | registering appends one listener to that event's list and leaves every other list unchanged |
| EventBus.Collector.OnSocketMessage | src/utils/Collector.ts:9-11 | appends to the socket-message list only |
| EventBus.Collector.OnBotMessage | src/utils/Collector.ts:13-15 | appends to the bot-message list only |
| EventBus.Collector.OnDisconnection | src/utils/Collector.ts:29-31 | appends to the disconnect list only |
| EventBus.Collector.Emit | src/utils/Collector.ts:17-27 | emitting calls every listener of the event exactly once, in registration order, with the payload unchanged |
| EventBus.Collector.EmitSocketMessage | src/utils/Collector.ts:17-19 | every socket-message listener receives the payload once, in order |
| EventBus.Collector.EmitBotMessage | src/utils/Collector.ts:21-23 | every bot-message listener receives the payload once, in order |
| EventBus.Collector.CloseConnection | src/utils/Collector.ts:25-27 | every disconnect listener receives the payload once, in order |
| Middleware.RunChain | src/utils/TelegramBotExt.ts:55-69 | an empty chain completes with the message unchanged; a run that stops names a middleware of the chain |
| Middleware.RunChainAppend | src/utils/TelegramBotExt.ts:47-69 | a chain that completes hands its final message to the middlewares registered after it |
| Middleware.LaterMiddlewaresNeverRun | src/utils/TelegramBotExt.ts:59-63 | after a middleware errs or returns without `next`, later middlewares never run and cannot change the result |
| Middleware.FailureIsFirstError | src/utils/TelegramBotExt.ts:60-61 | a failure names the first middleware that passed an error; all before it called `next()` |
| Middleware.CompletedRanAll | src/utils/TelegramBotExt.ts:62 | a completed chain ran every middleware, and each one called `next()` |
| BotExt.CommandPattern | src/utils/TelegramBotExt.ts:77 | a non-exact command matches any text starting with `/name`; an exact one matches `/name` followed by whitespace only |
| BotExt.ListenerOutcome | src/utils/TelegramBotExt.ts:79-89 | the listener throws exactly when the message has no sender; an error reply carries the chain's error; the controller runs only when the chain did not fail |
| BotExt.Matching | src/utils/TelegramBotExt.ts:76-79 | never more matching listeners than registered ones |
| BotExt.MatchingSound | src/utils/TelegramBotExt.ts:76-79 | every selected controller belongs to a registered listener whose pattern matches the text |
| BotExt.MatchingAppend | src/utils/TelegramBotExt.ts:76-79 | selection over two lists of listeners is the selection over the first followed by that over the second, so registration order is kept |
| BotExt.DispatchFollowsMatching | src/utils/TelegramBotExt.ts:76-90 | exactly the listeners whose pattern matches react, in registration order, each after its own run of the chain |
| BotExt.ChainDecidesEveryListener | src/utils/TelegramBotExt.ts:82-88 | a failed chain sends its error once per matching listener to `from.id`; a passing chain runs each matching controller with the message the chain handed on, replying to `from.id` |
| BotExt.CheckPayload | src/utils/TelegramBotExt.ts:99-146 | a payload is accepted exactly when the message, its sender and the data are present, the data parses to an array, and the array starts with a string; then the head is that string and the items are the whole array |
| BotExt.MalformedAnsweredByEachListener | src/utils/TelegramBotExt.ts:98-146 | a malformed query is answered "Internal error" once per registered listener, and no callback runs |
| BotExt.WellFormedRunsMatchingCallbacks | src/utils/TelegramBotExt.ts:133-167 | a well-formed query runs the callback of exactly the listeners registered for its head code, with the whole array as data |
| BotExt.QueryResponse | src/utils/TelegramBotExt.ts:149-164 | the message is deleted, or else its keyboard is cleared, as the options say; the query is answered exactly once, last |
| BotExt.TelegramBotExt.constructor | src/utils/TelegramBotExt.ts:15-23 | a new bot has no middlewares and no listeners |
| BotExt.TelegramBotExt.Use | src/utils/TelegramBotExt.ts:47-49 | the middlewares are appended in order; the listeners are unchanged |
| BotExt.TelegramBotExt.RunMiddlewares | src/utils/TelegramBotExt.ts:55-69 | the index walk gives the result of the chain specification |
| BotExt.TelegramBotExt.OnCommand | src/utils/TelegramBotExt.ts:76-79 | one command listener is appended; nothing else changes |
| BotExt.TelegramBotExt.OnQuery | src/utils/TelegramBotExt.ts:97-98 | one query listener is appended; nothing else changes |
| BotGates.RejectUnknownUsersStep | src/middlewares/bot/rejectUnknownUsers.ts:4-16 | an error exactly when there is no sender, with the fixed text; otherwise the message passes unchanged |
| BotGates.AuthStep | src/middlewares/bot/auth.ts:6-50 | the middleware always calls `next`; a passed message keeps its sender, chat and text; a sender with no account who sends anything but `/start` gets the not-signed-up error |
| BotGates.AuthLookupFailure | src/middlewares/bot/auth.ts:9-21 | a failing lookup passes the database error |
| BotGates.AuthRejectsBanned | src/middlewares/bot/auth.ts:32-47 | a banned account is rejected with the ban message, `/start` included |
| BotGates.AuthPassesIff | src/middlewares/bot/auth.ts:23-49 | `auth` continues exactly for an unbanned account, which is attached to the message, or for an unknown sender whose text is `/start…` or not a command |
| BotGates.NotStartCommandCases | src/middlewares/bot/auth.ts:25 | the unknown-user rule rejects texts that start with `/` but not `/start`, and nothing else |
| BotGates.UnidentifiedStoppedAtSecond | src/index.ts:171 | a message without a sender fails at the second middleware, and `auth` never runs |
| BotGates.BotChainIsAuth | src/index.ts:171 | with a sender, the chain completes or fails exactly as `auth` decides, and hands on `auth`'s message |
| BotCommands.WelcomeShowsToken | src/controllers/bot/commands/start.ts:58-94 | the welcome text shows the token in bold right after its header |
| BotCommands.NewAccount | src/controllers/bot/commands/start.ts:31-41 | a new account has the sender's ids, the chat id, only `localhost` whitelisted, no ban, and the signed token |
| BotCommands.Start | src/controllers/bot/commands/start.ts:9-95 | a signed-up sender gets a notice and nothing is stored; otherwise the new account is appended and the welcome with its token is sent, or on a save failure the database error |
| BotCommands.StartTokenAuthenticates | src/controllers/bot/commands/start.ts:24-41 | the token `start` hands out is accepted by socket `auth` from `localhost`, whenever it verifies to a payload naming the new id, whatever other claims (such as `iat`) it carries |
| BotCommands.Whitelist | src/controllers/bot/commands/whitelist.ts:6-48 | exactly one reply to the sender: usage on a bad argument; a refusal on a bad hostname; the database error on a failure or a missing account; otherwise the hostname is toggled in that account alone and the change is confirmed |
| BotCommands.ParseWhitelistIff | src/controllers/bot/commands/whitelist.ts:7-19 | the argument is accepted exactly when it is non-empty and has no space, and then it is the hostname |
| BotCommands.SecondPieceRejected | src/controllers/bot/commands/whitelist.ts:7-9 | two space-separated pieces are refused |
| BotCommands.GluedHostnameAccepted | src/controllers/bot/commands/whitelist.ts:7 | `/whitelist` glued to a hostname still parses that hostname |
| BotCommands.ToggleEffect | src/controllers/bot/commands/whitelist.ts:28-36 | a listed hostname is removed, every occurrence of it; an unlisted one is appended; other hostnames keep their membership |
| BotCommands.ToggleTwice | src/controllers/bot/commands/whitelist.ts:28-36 | toggling twice restores the set of hostnames, and restores the list itself when the host was absent |
| BotCommands.ParseReply | src/controllers/bot/commands/reply.ts:8-11 | a parsed reply has a non-empty alias without whitespace and a non-empty message that starts with a non-space and has no line break |
| BotCommands.ReplyParts | src/controllers/bot/commands/reply.ts:8 | the alias group has no whitespace, and the message group starts after the whitespace |
| BotCommands.ReplyPartsOf | src/controllers/bot/commands/reply.ts:8 | the two groups of `gap alias space message` are exactly the alias and the message |
| BotCommands.ReplyRoundTrip | src/controllers/bot/commands/reply.ts:8-22 | `/r` with any whitespace, an alias and a message parses back to that alias and message |
| BotCommands.ParseReplyShape | src/controllers/bot/commands/reply.ts:8-11 | an accepted text is `/r` or `/R`, a non-empty run of whitespace, the alias, a non-empty run of whitespace and the message |
| BotCommands.MissingMessageRejected | src/controllers/bot/commands/reply.ts:8-11 | `/r` followed by whitespace and an alias but no message, or by whitespace alone, is not a reply request |
| BotCommands.GluedAliasRejected | src/controllers/bot/commands/reply.ts:8-11 | text with a non-space right after `/r` (`/refreshtoken` included) is refused |
| BotCommands.LineBreakRejected | src/controllers/bot/commands/reply.ts:8-11 | a message containing a line break is refused |
| BotCommands.Reply | src/controllers/bot/commands/reply.ts:7-49 | usage on a malformed text; the database error on a failure or a missing account; an unknown alias is reported; a known one emits a bot message to the found socket and sends nothing to the chat |
| BotEvents.HandleSocketMessage | src/controllers/bot/events/handleSocketMessage.ts:5-7 | one message to the payload's chat, ending with the visitor's text |
| BotEvents.HandleSocketDisconnect | src/controllers/bot/events/handleSocketDisconnect.ts:7-44 | no session record or a failed lookup does nothing; otherwise the departure is announced in the payload's chat and that record is removed, unless the deletion fails |
| BotEvents.DisconnectRemovesOnlySession | src/controllers/bot/events/handleSocketDisconnect.ts:11-32 | the deletion removes exactly the session's record, keeps aliases unique and frees the alias for the account |
| BotQueries.ResponseThenMessagesAnswersOnce | src/utils/TelegramBotExt.ts:149-164 | `queryResponse` followed by chat messages answers the query exactly once |
| BotQueries.ConfirmDeletion | src/controllers/bot/queries/confirmDeletion.ts:6-33 | a store failure gives an alert and changes nothing; no account clears the keyboard and tells the chat; otherwise the presser's account is removed, the keyboard cleared and the deletion confirmed |
| BotQueries.ConfirmDeletionAnswersOnce | src/controllers/bot/queries/confirmDeletion.ts:9-32 | every path answers the query exactly once |
| BotQueries.DeletionRemovesPresser | src/controllers/bot/queries/confirmDeletion.ts:10-17 | the removed account is the one with the presser's Telegram id, and the others keep their order |
| BotQueries.ConfirmRefreshToken | src/controllers/bot/queries/confirmRefreshToken.ts:8-59 | a failure gives an alert and changes nothing; no account clears the keyboard and tells the chat; otherwise that account alone gets the token signed over its id, and the answer is "Success" with the new token in the chat |
| BotQueries.RefreshKeepsAccount | src/controllers/bot/queries/confirmRefreshToken.ts:35-45 | after a refresh, any token verifying to a payload that names the account's id (other claims allowed), the old one included, still opens a socket for that account |
| Routes.RouteBot | src/routes/bot.ts:22-38 | the bot gains the command table and the query table in source order; the collector gains the chat relay and the disconnect handler |
| Routes.RouteSocketConnection | src/routes/socket.ts:12-18 | each connection adds one bot-message handler bound to its socket |
| Routes.Bootstrap | src/index.ts:171-175 | after start-up the bot holds the three middlewares and both tables; no socket handler is registered yet |
| Routes.RefreshTokenPatterns | src/routes/bot.ts:23-29 | `/refreshtoken` followed by whitespace matches the patterns of refreshToken and reply and no other |
| Routes.RefreshTokenAlsoReplies | src/routes/bot.ts:28-29 | `/refreshtoken` followed by whitespace reaches the refresh-token controller and the reply controller, in that order |
| Routes.HelpWithArgumentFiresNothing | src/routes/bot.ts:24 | `/help me` reaches no controller |
| Routes.PrefixCommandsFire | src/routes/bot.ts:27-29 | any text starting with `/whitelist` or `/r` reaches that controller |
| Routes.MatchingHasMatch | src/utils/TelegramBotExt.ts:77-79 | a listener whose pattern matches is among the reached controllers |
| Routes.RefreshTokenDispatch | src/routes/bot.ts:28-29 | `/refreshtoken` from an unbanned account invokes both controllers, with the account attached and replies to the sender |
| Routes.UnidentifiedSenderGetsNoReply | src/utils/TelegramBotExt.ts:84-88 | a command without a sender makes every matching listener throw |
| Routes.EachCodeRoutedOnce | src/routes/bot.ts:31-33 | each callback code reaches exactly one callback |
| Routes.DeletionButtonBypassesGates | src/routes/bot.ts:31 | a well-formed deletion press runs its callback once, whoever pressed it |
| SocketAuth.Socket.constructor | src/middlewares/socket/auth.ts:7-10 | a new socket has no account until `auth` sets one |
| SocketAuth.Authenticate | src/middlewares/socket/auth.ts:12-106 | the error passed to `next` is the first failing check's; only an accepted connection sets `socket.user`, to the found account |
| SocketAuth.Connect | src/index.ts:174 | an exhausted rate limit rejects with its message before `auth`; otherwise `auth` decides |
| SocketAuth.MissingTokenWins | src/middlewares/socket/auth.ts:30-33 | a missing token is reported, whatever else is wrong |
| SocketAuth.AcceptedIff | src/middlewares/socket/auth.ts:30-92 | accepted exactly when the token verifies to a string id, the lookup succeeds and finds an unbanned account, and the referer hostname is in its whitelist; the account is the one with that id |
| SocketAuth.BannedNeverAccepted | src/middlewares/socket/auth.ts:67-74 | a banned account is never accepted |
| SocketAuth.AnyVerifyingTokenAccepted | src/middlewares/socket/auth.ts:35-92 | any token verifying to a payload that names the id of an unbanned account, whatever other claims it carries, is accepted from a whitelisted host, current or not |
| SocketControllers.OnMessage | src/controllers/socket/message.ts:6-32 | the alias table becomes that of `getAlias`; a resolved alias emits a socket message with the account, chat, alias and text; a failure sends the database error to the socket |
| SocketControllers.Disconnect | src/controllers/socket/disconnect.ts:4-18 | one disconnect event carrying the socket id, the account id, the chat id and the reason |
| SocketControllers.HandleBotMessage | src/controllers/socket/events/handleBotMessage.ts:6-9 | the text is sent to this socket exactly when the event is addressed to it, and at most once |
| SocketControllers.HandleBotMessageIgnoresUserId | src/controllers/socket/events/handleBotMessage.ts:6-9 | delivery does not depend on the event's account id |
| SocketControllers.FirstMessageCreatesAlias | src/utils/getAlias.ts:14-20 | a session's first resolved message adds exactly its own record |
| Relay.FanOutReachesAddressedOnly | src/routes/socket.ts:12-18 | a bot reply is sent only to the addressed socket id, once per handler registered for it |
| Relay.ResolveKeepsReplyable | src/utils/getAlias.ts:9-22 | every alias, existing or new, is non-empty and free of whitespace, so a reply can name it |
| Relay.GeneratedAliasReplyable | src/utils/getAlias.ts:5-7 | a generated alias is non-empty and contains no whitespace |
| Relay.ReplyWithSingleSpaces | src/controllers/bot/commands/reply.ts:8 | `/r alias message` parses back to the alias and the message |
| Relay.ReplyAddressesSession | src/controllers/bot/commands/reply.ts:22-24 | once a socket message resolved alias `a`, `/r a message` parses back, and the lookup by account and `a` yields that socket |

## Left out

- Concurrency: handlers that `await` can interleave in the running program. The model runs each handler to completion, one at a time.
- Logging and `report`: no effect on behaviour is modelled. The bot and socket loggers are middlewares that always continue.
- Rate limiter internals: the point budget and the one-hour window are reduced to the `rateAllowed` outcome of consuming a point.
- Token signing and verification, `URL` parsing and `JSON.parse`: these are function parameters. JSON numbers are integers.
- Mongoose: schema validation, `ObjectId` casting errors and the ordering of query results beyond "first match" are not modelled.
- The `help`, `status` (`/info`), `deleteData` and `refreshToken` controllers and the `abortKeyboardAction` callback are not modelled. They are reply templates and keyboards: `status` only formats the attached account's id, token and whitelist (or "No hosts allowed" when the list is empty), and the others send fixed text and keyboards. They appear only as entries of the route tables.
- `response().sendPhoto` and `sendVideo`: no controller in the modelled core uses them.
- The collector's leak warning when a list passes 100 listeners: it is only printed.
- Aliases.GetAlias: the `do/while` loop is unbounded. With finitely many draws, a loop that has not yet found a free alias is the `Diverged` outcome, not a value.
- BotExt.TextDispatch: one lookup outcome per text is shared by every listener's run of the chain. The running program queries the store once per matching listener.
- BotCommands.NewAccount: an unset ban reason is modelled as the empty string.
- BotGates.AuthStep: writing the account into the message is modelled as a new message carried by `Next`, not as a mutation visible to earlier holders of the object.
- BotCommands.ToggleTwice: toggling a listed hostname twice keeps the same set, but the list loses its other copies and the host moves to the end. It is stated that way.
- SocketAuth.Connect: socket.io's own middleware runner is not modelled; the three socket middlewares are composed directly.
