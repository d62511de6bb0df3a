/**
 * The command controllers with logic of their own: `start` (create the
 * account and its token), `whitelist` (parse, validate, toggle a hostname)
 * and `reply` (parse `/r alias message`, find the session, emit a bot-message
 * event). Replies go to `from.id`, the address the bot wrapper binds a
 * controller's response to.
 */
module BotCommands {
  import opened Wrappers
  import opened Types
  import opened Text
  import opened Store
  import opened Aliases
  import opened SocketAuth

  /* -------------------------------------- start -------------------------------------- */

  const AlreadySignedUpMessage := "You are already signed up.\nTo know your info, whitelist and token use <b>/info</b> command."

  function WelcomeHead(): string {
    "<b>Welcome!</b>\nYou have been signed up \U{1F389}\U{1F388}\U{1F38A}\n\nYour token is:\n\n"
  }

  /** The paragraphs of the welcome text after the token, before the docs link. */
  const WelcomeParagraphs: seq<string> := [
    "\n\nCopy your token in the \"token\" attribute in your Chatbox component\n\n",
    "Bot commands:\n<b>/help</b>\nShows a list of available commands\n\n",
    "<b>/whitelist</b> [host]\nAllows/disallows a host. To develop on localhost, enter your IP\n\n",
    "<b>/info</b>\nDisplays your info, whitelisted hostnames and your current token\n\n",
    "<b>/refreshtoken</b>\nRenews your token. The old one will be invalidated\n\n",
    "<b>/deletedata</b>\nDeletes all your information from our server\n\n",
    "<b>/r</b> [username] [message]\nReplies to a specific user\n\n",
    "To see React Telegram Chatbox docs and examples, open this link:\n<b>"
  ]

  function Concat(parts: seq<string>): string {
    if parts == [] then "" else parts[0] + Concat(parts[1..])
  }

  function WelcomeTail(env: Env): string {
    Concat(WelcomeParagraphs) + env.docsLink + "</b>"
  }

  /** The welcome text: a header, the token in bold, then the command list and the docs link. */
  function WelcomeMessage(token: string, env: Env): string {
    WelcomeHead() + BoldToken(token) + WelcomeTail(env)
  }

  function BoldToken(token: string): string {
    "<b>" + token + "</b>"
  }

  /** The welcome text shows the token in bold right after its header. */
  lemma WelcomeShowsToken(token: string, env: Env)
    ensures var text := WelcomeMessage(token, env);
            var at := |WelcomeHead()|;
            at + |token| + 7 <= |text| && text[at..at + |token| + 7] == "<b>" + token + "</b>"
  {
    MiddleSlice(WelcomeHead(), BoldToken(token), WelcomeTail(env));
  }

  /** The middle part of a three-part text sits right after the first part. */
  lemma MiddleSlice(a: string, b: string, c: string)
    ensures |a| + |b| <= |a + b + c| && (a + b + c)[|a|..|a| + |b|] == b
  {
    assert (a + b + c)[|a|..|a| + |b|] == b;
  }

  /** The record `start` builds: fresh id, the sender's ids, `localhost` whitelisted, not banned, the signed token. */
  function NewAccount(id: string, from: Sender, chatId: int, token: string): (u: User)
    ensures u.id == id && u.telegramId == from.id && u.chatId == chatId && u.username == from.username
    ensures u.whitelist == InitialWhitelist && !u.ban.isBanned && u.token == token
  {
    User(id, from.id, chatId, from.username, token, Ban(false, ""), InitialWhitelist)
  }

  /**
   * `start`: an account already attached to the message gets a notice and
   * nothing is created; otherwise a record with a token signed over `{id}`
   * is saved and the token is sent. `newId` is the generated object id,
   * `sign` the token signer.
   */
  method Start(db: Database, msg: Message, newId: string, sign: JsValue -> string, saveFails: bool, env: Env)
    returns (effects: seq<Effect>)
    requires msg.from.Some?
    modifies db
    ensures db.aliases == old(db.aliases)
    ensures msg.user.Some? ==> db.users == old(db.users) && effects == [BotSend(msg.from.value.id, AlreadySignedUpMessage)]
    ensures msg.user.None? && saveFails ==>
              db.users == old(db.users) && effects == [BotSend(msg.from.value.id, DefaultDBErrorMessage)]
    ensures msg.user.None? && !saveFails ==>
              var token := sign(TokenPayload(newId));
              && db.users == old(db.users) + [NewAccount(newId, msg.from.value, msg.chatId, token)]
              && effects == [BotSend(msg.from.value.id, WelcomeMessage(token, env))]
  {
    var from := msg.from.value;
    if msg.user.Some? {
      return [BotSend(from.id, AlreadySignedUpMessage)];
    }
    var token := sign(TokenPayload(newId));
    var user := NewAccount(newId, from, msg.chatId, token);
    if saveFails {
      return [BotSend(from.id, DefaultDBErrorMessage)];
    }
    db.users := db.users + [user];
    effects := [BotSend(from.id, WelcomeMessage(token, env))];
  }

  /**
   * The token `start` hands out opens a socket: it verifies to a payload
   * whose `id` is the new record's (other claims, such as the `iat` the
   * signer adds, do not matter), socket `auth` finds that record by id, and
   * `localhost` is already whitelisted. The object id is new to the collection.
   */
  lemma {:induction false} StartTokenAuthenticates(users: seq<User>, newId: string, from: Sender, chatId: int,
                                                   sign: JsValue -> string, verify: string -> Option<JsValue>,
                                                   hostOf: string -> Option<string>, referer: string, address: string, env: Env)
    requires FindUserById(users, newId).None?
    requires var decoded := verify(sign(TokenPayload(newId)));
             decoded.Some? && IsAuthTokenPayload(decoded.value) && IdOf(decoded.value) == Str(newId)
    requires hostOf(referer) == Some("localhost")
    ensures var token := sign(TokenPayload(newId));
            var account := NewAccount(newId, from, chatId, token);
            Decide(Handshake(Some(token), Some(referer), address), verify, hostOf, users + [account], false, env) == Accepted(account)
  {
    var token := sign(TokenPayload(newId));
    var account := NewAccount(newId, from, chatId, token);
    var all := users + [account];
    var found := FindUserById(all, newId);
    assert all[|users|].id == newId;
    assert forall k :: 0 <= k < |users| ==> all[k].id != newId by {
      forall k | 0 <= k < |users| ensures all[k].id != newId {
        assert all[k] == users[k];
      }
    }
    assert found == Some(|users|);
  }

  /* ------------------------------------ whitelist ------------------------------------ */

  /** The `replace` of the leading "/whitelist" and the whitespace after it by nothing; any other text stays. */
  function WhitelistArgument(text: string): string {
    if StartsWith(text, "/whitelist") then
      var rest := text[10..];
      rest[SpaceRun(rest)..]
    else text
  }

  /** The argument split on ' ': usable only as a single non-empty piece. */
  function ParseWhitelist(text: string): Option<string> {
    var parts := Split(WhitelistArgument(text), ' ');
    if |parts| > 1 || parts[0] == "" then None else Some(parts[0])
  }

  /** "localhost", or anything with a dot. */
  predicate ValidHostname(hostname: string) {
    hostname == "localhost" || '.' in hostname
  }

  /** Remove every occurrence of a listed hostname, or append an unlisted one. */
  function Toggle(whitelist: seq<string>, hostname: string): seq<string> {
    if hostname in whitelist then Without(whitelist, hostname) else whitelist + [hostname]
  }

  const WhitelistUsage := "I cannot handle your request.\n\nUsage:\n<b>/whitelist [hostname]</b>"

  function InvalidHostnameMessage(hostname: string): string {
    "The provided hostname \"" + hostname + "\" is invalid"
  }

  function RemovedMessage(hostname: string): string {
    "Hostname \"" + hostname + "\" removed from the whitelist"
  }

  function AddedMessage(hostname: string): string {
    "Hostname \"" + hostname + "\" added to the whitelist"
  }

  /**
   * `whitelist`: usage on a bad argument, a refusal on a bad hostname, else
   * toggle the hostname in the attached account's list and persist it; a
   * store failure is reported instead of the confirmation, and so is a
   * missing account, whose `whitelist` read throws inside the same `try`.
   */
  method Whitelist(db: Database, msg: Message, updateFails: bool) returns (effects: seq<Effect>)
    requires msg.from.Some?
    modifies db
    ensures |effects| == 1 && effects[0].BotSend? && effects[0].chatId == msg.from.value.id
    ensures db.aliases == old(db.aliases)
    ensures match ParseWhitelist(msg.text)
            case None => effects[0].text == WhitelistUsage && db.users == old(db.users)
            case Some(h) =>
              if !ValidHostname(h) then effects[0].text == InvalidHostnameMessage(h) && db.users == old(db.users)
              else if msg.user.None? || updateFails then effects[0].text == DefaultDBErrorMessage && db.users == old(db.users)
              else
                var user := msg.user.value;
                && db.users == SetWhitelist(old(db.users), user.id, Toggle(user.whitelist, h))
                && effects[0].text == (if h in user.whitelist then RemovedMessage(h) else AddedMessage(h))
  {
    var to := msg.from.value.id;
    var parsed := ParseWhitelist(msg.text);
    if parsed.None? {
      return [BotSend(to, WhitelistUsage)];
    }
    var hostname := parsed.value;
    if !ValidHostname(hostname) {
      return [BotSend(to, InvalidHostnameMessage(hostname))];
    }
    if msg.user.None? || updateFails {
      return [BotSend(to, DefaultDBErrorMessage)];
    }
    var user := msg.user.value;
    if hostname in user.whitelist {
      db.users := SetWhitelist(db.users, user.id, Without(user.whitelist, hostname));
      effects := [BotSend(to, RemovedMessage(hostname))];
    } else {
      db.users := SetWhitelist(db.users, user.id, user.whitelist + [hostname]);
      effects := [BotSend(to, AddedMessage(hostname))];
    }
  }

  /** The argument is accepted exactly when it is non-empty and holds no space, and then it is the hostname. */
  lemma ParseWhitelistIff(text: string)
    ensures ParseWhitelist(text).Some? <==> WhitelistArgument(text) != "" && ' ' !in WhitelistArgument(text)
    ensures ParseWhitelist(text).Some? ==> ParseWhitelist(text).value == WhitelistArgument(text)
  {
    SplitSingle(WhitelistArgument(text), ' ');
  }

  /** A trailing space, or a second hostname after a space, gets the usage reply. */
  lemma SecondPieceRejected(first: string, second: string)
    requires first != [] && !IsSpace(first[0])
    ensures ParseWhitelist("/whitelist " + first + " " + second).None?
  {
    var text := "/whitelist " + first + " " + second;
    var rest := text[10..];
    assert rest == [' '] + (first + " " + second);
    SpaceRunOfConcat([' '], first + " " + second);
    assert WhitelistArgument(text) == first + " " + second;
    assert WhitelistArgument(text)[|first|] == ' ';
    ParseWhitelistIff(text);
  }

  /** No whitespace is needed after the command: "/whitelistfoo.com" names "foo.com". */
  lemma GluedHostnameAccepted(hostname: string)
    requires hostname != [] && !IsSpace(hostname[0]) && ' ' !in hostname
    ensures ParseWhitelist("/whitelist" + hostname) == Some(hostname)
  {
    var text := "/whitelist" + hostname;
    assert text[10..] == hostname;
    SpaceRunOfConcat([], hostname);
    assert [] + hostname == hostname;
    ParseWhitelistIff(text);
  }

  /** A listed hostname is removed everywhere and the other entries keep their order; an unlisted one goes last. */
  lemma ToggleEffect(whitelist: seq<string>, hostname: string)
    ensures hostname in whitelist ==> Toggle(whitelist, hostname) == Without(whitelist, hostname) && hostname !in Toggle(whitelist, hostname)
    ensures hostname !in whitelist ==> Toggle(whitelist, hostname) == whitelist + [hostname]
    ensures forall y :: y != hostname ==> (y in Toggle(whitelist, hostname) <==> y in whitelist)
  {
  }

  /**
   * Toggling twice restores a list that lacked the hostname; one that held it
   * gets the same entries back, with the hostname moved to the end.
   */
  lemma ToggleTwice(whitelist: seq<string>, hostname: string)
    ensures hostname !in whitelist ==> Toggle(Toggle(whitelist, hostname), hostname) == whitelist
    ensures hostname in whitelist ==> Toggle(Toggle(whitelist, hostname), hostname) == Without(whitelist, hostname) + [hostname]
    ensures forall y :: y in Toggle(Toggle(whitelist, hostname), hostname) <==> y in whitelist
  {
    if hostname !in whitelist {
      WithoutAppended(whitelist, hostname);
    }
  }

  /* -------------------------------------- reply -------------------------------------- */

  datatype ReplyRequest = ReplyRequest(alias: string, message: string)

  /**
   * `/^\/r\s{1,}(\S*)\s*(.*$)/i`: "/r" in either case, at least one
   * whitespace, a run of non-whitespace (the alias), whitespace, and a rest
   * free of line terminators (the message). Greedy runs leave no choice: if
   * the rest after the first try holds a line terminator, every shorter run
   * only lengthens the rest, so the text does not match. A missing alias or
   * message counts as no request.
   */
  function ParseReply(text: string): (r: Option<ReplyRequest>)
    ensures r.Some? ==> r.value.alias != "" && NoSpaces(r.value.alias)
    ensures r.Some? ==> r.value.message != "" && !IsSpace(r.value.message[0]) && NoLineTerminators(r.value.message)
  {
    if |text| < 3 || text[0] != '/' || (text[1] != 'r' && text[1] != 'R') || !IsSpace(text[2]) then None
    else
      var parts := ReplyParts(text[2..]);
      if !NoLineTerminators(parts.message) || parts.alias == "" || parts.message == "" then None
      else Some(parts)
  }

  /** The two groups after "/r": skip whitespace, take the non-whitespace run, skip whitespace, take the rest. */
  function ReplyParts(afterCommand: string): (parts: ReplyRequest)
    ensures NoSpaces(parts.alias)
    ensures parts.message == [] || !IsSpace(parts.message[0])
  {
    var afterGap := afterCommand[SpaceRun(afterCommand)..];
    var afterAlias := afterGap[NonSpaceRun(afterGap)..];
    ReplyRequest(afterGap[..NonSpaceRun(afterGap)], afterAlias[SpaceRun(afterAlias)..])
  }

  /** Each greedy run stops at the boundary written into the text. */
  lemma {:induction false} ReplyPartsOf(gap: string, alias: string, space: string, message: string)
    requires AllSpaces(gap)
    requires alias != "" && NoSpaces(alias)
    requires AllSpaces(space)
    requires message == [] || !IsSpace(message[0])
    requires space != "" || message == []
    ensures ReplyParts(gap + alias + space + message) == ReplyRequest(alias, message)
  {
    var afterCommand := gap + alias + space + message;
    assert afterCommand == gap + (alias + space + message);
    SpaceRunOfConcat(gap, alias + space + message);
    var afterGap := afterCommand[SpaceRun(afterCommand)..];
    assert afterGap == alias + (space + message);
    NonSpaceRunOfConcat(alias, space + message);
    var afterAlias := afterGap[NonSpaceRun(afterGap)..];
    assert afterGap[..NonSpaceRun(afterGap)] == alias;
    assert afterAlias == space + message;
    SpaceRunOfConcat(space, message);
  }

  /** Writing "/r", whitespace, an alias, whitespace and a one-line message parses back to that alias and message. */
  lemma ReplyRoundTrip(gap: string, alias: string, space: string, message: string)
    requires gap != "" && AllSpaces(gap)
    requires alias != "" && NoSpaces(alias)
    requires space != "" && AllSpaces(space)
    requires message != "" && !IsSpace(message[0]) && NoLineTerminators(message)
    ensures ParseReply("/r" + gap + alias + space + message) == Some(ReplyRequest(alias, message))
  {
    var rest := gap + alias + space + message;
    var text := "/r" + gap + alias + space + message;
    assert text == "/r" + rest;
    assert text[0] == '/' && text[1] == 'r' && text[2..] == rest;
    assert text[2] == rest[0] == gap[0];
    ReplyPartsOf(gap, alias, space, message);
    assert ReplyParts(text[2..]) == ReplyRequest(alias, message);
  }

  /**
   * Conversely, an accepted text is "/r" or "/R", whitespace, the alias,
   * whitespace and the message: the request is read off the text itself.
   */
  lemma ParseReplyShape(text: string)
    ensures ParseReply(text).Some? ==>
              && |text| >= 2 && (text[..2] == "/r" || text[..2] == "/R")
              && exists gap, space :: gap != "" && AllSpaces(gap) && space != "" && AllSpaces(space)
                                      && text == text[..2] + gap + ParseReply(text).value.alias + space + ParseReply(text).value.message
  {
    if ParseReply(text).Some? {
      var rest := text[2..];
      var parts := ReplyParts(rest);
      assert ParseReply(text) == Some(parts);
      assert text[0] == '/' && (text[1] == 'r' || text[1] == 'R');
      assert text[..2] == [text[0], text[1]];
      assert "/r" == ['/', 'r'] && "/R" == ['/', 'R'];
      assert rest[0] == text[2];
      var gap, space := ReplyPartsShape(rest);
      SplitAt(text, 2);
      PrependToFour(text[..2], gap, parts.alias, space, parts.message);
      assert gap != "" && AllSpaces(gap) && space != "" && AllSpaces(space)
             && text == text[..2] + gap + parts.alias + space + parts.message;
    }
  }

  /** The groups of a text that starts with whitespace and has a message are separated by that whitespace. */
  lemma ReplyPartsShape(rest: string) returns (gap: string, space: string)
    requires rest != [] && IsSpace(rest[0]) && ReplyParts(rest).message != ""
    ensures gap != "" && AllSpaces(gap) && space != "" && AllSpaces(space)
    ensures rest == gap + ReplyParts(rest).alias + space + ReplyParts(rest).message
  {
    var afterGap := rest[SpaceRun(rest)..];
    var afterAlias := afterGap[NonSpaceRun(afterGap)..];
    gap := rest[..SpaceRun(rest)];
    space := afterAlias[..SpaceRun(afterAlias)];
    var alias := afterGap[..NonSpaceRun(afterGap)];
    var message := afterAlias[SpaceRun(afterAlias)..];
    SpaceRunPositive(rest);
    SpaceAfterNonSpaceRun(afterGap);
    SpaceRunPositive(afterAlias);
    SplitAt(rest, SpaceRun(rest));
    SplitAt(afterGap, NonSpaceRun(afterGap));
    SplitAt(afterAlias, SpaceRun(afterAlias));
    Regroup(gap, alias, space, message);
  }

  /** A text with an alias but no message ("/r abc"), or with no alias at all ("/r   "), is no request. */
  lemma MissingMessageRejected(gap: string, alias: string, space: string)
    requires gap != "" && AllSpaces(gap)
    requires NoSpaces(alias)
    requires AllSpaces(space)
    ensures ParseReply("/r" + gap + alias + space).None?
  {
    var rest := gap + alias + space;
    var text := "/r" + gap + alias + space;
    assert text == "/r" + rest;
    assert text[0] == '/' && text[1] == 'r' && text[2..] == rest;
    assert text[2] == rest[0] == gap[0];
    if alias == "" {
      var spaces := gap + space;
      assert rest == spaces + [];
      forall i | 0 <= i < |spaces| ensures IsSpace(spaces[i]) {
        if i < |gap| { assert spaces[i] == gap[i]; } else { assert spaces[i] == space[i - |gap|]; }
      }
      SpaceRunOfConcat(spaces, []);
      assert rest[SpaceRun(rest)..] == [];
    } else {
      assert rest == gap + alias + space + [];
      ReplyPartsOf(gap, alias, space, []);
    }
  }

  /** Without whitespace after "/r" ("/rusername hi") there is no request. */
  lemma GluedAliasRejected(text: string)
    requires |text| >= 3 && !IsSpace(text[2])
    ensures ParseReply(text).None?
  {
  }

  /** A line break inside the message makes the text fail the pattern. */
  lemma LineBreakRejected(gap: string, alias: string, space: string, message: string)
    requires gap != "" && AllSpaces(gap)
    requires alias != "" && NoSpaces(alias)
    requires space != "" && AllSpaces(space)
    requires message != "" && !IsSpace(message[0]) && !NoLineTerminators(message)
    ensures ParseReply("/r" + gap + alias + space + message).None?
  {
    var text := "/r" + gap + alias + space + message;
    assert text[2..] == gap + alias + space + message;
    ReplyPartsOf(gap, alias, space, message);
  }

  const ReplyUsage := "I cannot understand your request.\n\nUsage:\n/r [username] [message]"

  function UnknownAliasMessage(alias: string): string {
    "User \"" + alias + "\" has leaved the chat or does not exist"
  }

  /**
   * `reply`: usage on a malformed text; otherwise `getSocketId(user.id, alias)`
   * (a missing account makes `msg.user.id` throw inside the same `try`, so it
   * reads as a store failure); an unknown alias is reported; a known one gets
   * a bot-message event and no answer to the sender.
   */
  method Reply(db: Database, msg: Message, lookupFails: bool) returns (effects: seq<Effect>)
    requires msg.from.Some?
    ensures var to := msg.from.value.id;
            match ParseReply(msg.text)
            case None => effects == [BotSend(to, ReplyUsage)]
            case Some(req) =>
              if msg.user.None? || lookupFails then effects == [BotSend(to, DefaultDBErrorMessage)]
              else match GetSocketId(db.aliases, msg.user.value.id, req.alias, false)
                case Present(socketId) =>
                  effects == [Emit(BotMessage(BotMessagePayload(msg.user.value.id, socketId, req.message)))]
                case _ => effects == [BotSend(to, UnknownAliasMessage(req.alias))]
  {
    var to := msg.from.value.id;
    var parsed := ParseReply(msg.text);
    if parsed.None? {
      return [BotSend(to, ReplyUsage)];
    }
    var req := parsed.value;
    if msg.user.None? || lookupFails {
      return [BotSend(to, DefaultDBErrorMessage)];
    }
    var user := msg.user.value;
    var socketId := GetSocketId(db.aliases, user.id, req.alias, false);
    if !socketId.Present? {
      return [BotSend(to, UnknownAliasMessage(req.alias))];
    }
    effects := [Emit(BotMessage(BotMessagePayload(user.id, socketId.value, req.message)))];
  }
}
