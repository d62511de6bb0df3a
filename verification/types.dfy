/**
 * Records, enumerations, event payloads and fixed texts shared by the relay:
 * the account and alias records, the command, callback-code and collector-event
 * names, the decoded-token guard, the shapes of chat messages and callback
 * queries, and the outward effects the handlers produce.
 */
module Types {
  import opened Wrappers

  /* ------------------------------ JavaScript values ------------------------------ */

  /** A JavaScript value as produced by `JSON.parse` or by token verification. Numbers are integers here. */
  datatype JsValue =
    | Undefined
    | Null
    | Bool(b: bool)
    | Num(n: int)
    | Str(s: string)
    | Arr(items: seq<JsValue>)
    | Obj(props: map<string, JsValue>)

  /** `!!v` */
  predicate Truthy(v: JsValue) {
    match v
    case Undefined => false
    case Null => false
    case Bool(b) => b
    case Num(n) => n != 0
    case Str(s) => s != ""
    case Arr(_) => true
    case Obj(_) => true
  }

  /** `v.id` for a value that is not null or undefined: only objects carry an own `id`. */
  function IdOf(v: JsValue): JsValue {
    if v.Obj? && "id" in v.props then v.props["id"] else Undefined
  }

  /** `isAuthTokenPayload`: a truthy value whose `id` is a string; other fields do not matter. */
  predicate IsAuthTokenPayload(payload: JsValue)
    ensures IsAuthTokenPayload(payload) <==>
              payload.Obj? && "id" in payload.props && payload.props["id"].Str?
  {
    Truthy(payload) && IdOf(payload).Str?
  }

  /** The payload that `start` and `confirmRefreshToken` sign: `{ id }`. */
  function TokenPayload(id: string): (p: JsValue)
    ensures IsAuthTokenPayload(p) && IdOf(p) == Str(id)
  {
    Obj(map["id" := Str(id)])
  }

  /* ------------------------------------ Records ----------------------------------- */

  datatype Ban = Ban(isBanned: bool, reason: string)

  /** An account (`IUser`); `id` is the document's `_id` as a string. */
  datatype User = User(
    id: string,
    telegramId: int,
    chatId: int,
    username: string,
    token: string,
    ban: Ban,
    whitelist: seq<string>)

  /** An alias record (`IAlias`): one socket session of one account under a short name. */
  datatype AliasRecord = AliasRecord(userId: string, alias: string, socketId: string)

  /* ---------------------------------- Enumerations --------------------------------- */

  datatype BotCommand = Start | Help | Info | DeleteData | RefreshToken | Whitelist | Reply

  function CommandName(c: BotCommand): string {
    match c
    case Start => "start"
    case Help => "help"
    case Info => "info"
    case DeleteData => "deletedata"
    case RefreshToken => "refreshtoken"
    case Whitelist => "whitelist"
    case Reply => "r"
  }

  datatype BotQueryCode = ConfirmDeletion | Abort | ConfirmRefreshToken

  function QueryCodeName(c: BotQueryCode): string {
    match c
    case ConfirmDeletion => "confirm_deletion"
    case Abort => "abort_keyboard_action"
    case ConfirmRefreshToken => "confirm_refresh_token"
  }

  datatype CollectorEvent = SocketMessageEvent | BotMessageEvent | DisconnectEvent

  function EventName(e: CollectorEvent): string {
    match e
    case SocketMessageEvent => "socket_message"
    case BotMessageEvent => "bot_message"
    case DisconnectEvent => "disconnect"
  }

  /** Command names are pairwise distinct, and `r` is a proper prefix of `refreshtoken`. */
  lemma CommandNamesDistinct(a: BotCommand, b: BotCommand)
    ensures CommandName(a) == CommandName(b) ==> a == b
    ensures CommandName(Reply) == CommandName(RefreshToken)[..1]
    ensures |CommandName(Reply)| < |CommandName(RefreshToken)|
  {
  }

  lemma QueryCodesDistinct(a: BotQueryCode, b: BotQueryCode)
    ensures QueryCodeName(a) == QueryCodeName(b) ==> a == b
  {
  }

  /** The three collector event names are pairwise distinct, so the three listener lists never mix. */
  lemma EventNamesDistinct(a: CollectorEvent, b: CollectorEvent)
    ensures EventName(a) == EventName(b) ==> a == b
  {
  }

  /* --------------------------------- Event payloads -------------------------------- */

  datatype SocketMessagePayload = SocketMessagePayload(userId: string, chatId: int, alias: string, message: string)
  datatype BotMessagePayload = BotMessagePayload(userId: string, socketId: string, message: string)
  datatype DisconnectPayload = DisconnectPayload(socketId: string, userId: string, chatId: int, reason: Option<string>)

  /** What travels on the collector: one payload kind per event. */
  datatype EventPayload =
    | SocketMessage(socketMessage: SocketMessagePayload)
    | BotMessage(botMessage: BotMessagePayload)
    | Disconnection(disconnection: DisconnectPayload)

  /* ------------------------------- Chat-side messages ------------------------------ */

  /** The Telegram user behind a message or a button press. */
  datatype Sender = Sender(id: int, username: string)

  /** A command message (`MessageExt`): `user` is attached by the bot `auth` middleware. */
  datatype Message = Message(from: Option<Sender>, chatId: int, text: string, user: Option<User>)

  /** The message an inline keyboard hangs on. */
  datatype QueryMessage = QueryMessage(chatId: int, messageId: int, from: Option<Sender>)

  /** A `callback_query` update; `data` is the button's serialized payload. */
  datatype CallbackQuery = CallbackQuery(id: string, from: Sender, message: Option<QueryMessage>, data: Option<string>)

  /** What a query callback receives as `req`. */
  datatype QueryRequest = QueryRequest(message: QueryMessage, from: Sender, data: seq<JsValue>)

  /** `QueryResponseOptions`: the answer's text and alert flag, plus the two keyboard actions. */
  datatype AnswerOptions = AnswerOptions(text: Option<string>, showAlert: bool, deleteMessage: bool, deleteInlineKeyboard: bool)

  /* ------------------------------------ Effects ------------------------------------ */

  /** What a handler does to the outside world, in order. */
  datatype Effect =
    | BotSend(chatId: int, text: string)
    | SocketSend(socketId: string, text: string)
    | Emit(event: EventPayload)
    | AnswerQuery(queryId: string, options: AnswerOptions)
    | DeleteMessage(chatId: int, messageId: int)
    | ClearKeyboard(chatId: int, messageId: int)

  /* ------------------------------ Configuration and texts --------------------------- */

  /** The environment values that appear in replies. */
  datatype Env = Env(supportEmail: string, docsLink: string)

  const DefaultDBErrorMessage := "I cannot connect to the database. Try later"
  const RateLimitMessage := "Too many request from this IP, please try again in an hour"
  const InitialWhitelist := ["localhost"]

  function BanMessage(reason: string, env: Env): string {
    "You have been banned. Reason: " + reason + ". To request a reactivation, write to " + env.supportEmail
  }

  const ChatNotSignedUpMessage := "You are not signed up. Type \"/start\" to sign up"
}
