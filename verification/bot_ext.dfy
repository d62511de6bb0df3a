/**
 * The bot wrapper: middleware registration and the index walk that runs the
 * chain, command listeners matched by `^/name\s*` (plus `$` when exact), and
 * callback-query listeners with their payload checks and `queryResponse`.
 *
 * Every registered command listener reacts to a text on its own: the chat
 * library offers the text to each listener whose pattern matches, and each
 * runs the middleware chain afresh. Every query listener likewise reacts to
 * every callback query, and queries never pass through the chain.
 */
module BotExt {
  import opened Wrappers
  import opened Types
  import opened Text
  import opened Middleware

  datatype CommandListener<C> = CommandListener(command: BotCommand, controller: C, exact: bool)
  datatype QueryListener<Q> = QueryListener(code: BotQueryCode, callback: Q)

  /* ------------------------------------ Commands ------------------------------------ */

  /** The listener pattern `^/name\s*`, with `$` appended when `exact` is set. */
  predicate CommandMatches(name: string, exact: bool, text: string) {
    && StartsWith(text, "/" + name)
    && (exact ==> AllSpaces(text[|name| + 1..]))
  }

  /** An exact command fires for `/name` followed by whitespace only; a non-exact one for any text starting with `/name`. */
  lemma CommandPattern(name: string, exact: bool, text: string)
    ensures !exact ==> (CommandMatches(name, exact, text) <==> StartsWith(text, "/" + name))
    ensures exact ==> (CommandMatches(name, exact, text) <==> exists w :: AllSpaces(w) && text == "/" + name + w)
  {
    if exact && CommandMatches(name, exact, text) {
      var w := text[|name| + 1..];
      assert text == "/" + name + w;
    }
    if exact && exists w :: AllSpaces(w) && text == "/" + name + w {
      var w :| AllSpaces(w) && text == "/" + name + w;
      assert text[|name| + 1..] == w;
    }
  }

  /** What one command listener does once its chain has run. */
  datatype CommandAction<C> =
    | SendError(telegramId: int, error: string)           // sendMessage(from.id, error.message)
    | Invoke(controller: C, msg: Message, responseTo: int) // controller(msg, response(from.id))
    | ListenerThrows                                      // `from.id` read on a message without `from`

  /**
   * The listener's reaction to its chain's result. Both branches read
   * `from.id`, so a message without a sender makes the listener throw and
   * nothing is sent.
   */
  function ListenerOutcome<C>(controller: C, chain: ChainResult<Message>, msg: Message): (a: CommandAction<C>)
    ensures a.ListenerThrows? <==> msg.from.None?
    ensures a.SendError? ==> chain.Failed? && a.error == chain.error
    ensures a.Invoke? ==> !chain.Failed? && a.controller == controller
  {
    if msg.from.None? then ListenerThrows
    else match chain
      case Failed(e, _) => SendError(msg.from.value.id, e)
      case Completed(m) => Invoke(controller, m, msg.from.value.id)
      case Stopped(m, _) => Invoke(controller, m, msg.from.value.id)
  }

  /** The controllers of the listeners whose pattern matches `text`, in registration order. */
  function Matching<C>(commands: seq<CommandListener<C>>, text: string): (r: seq<C>)
    ensures |r| <= |commands|
  {
    if commands == [] then []
    else
      var l := commands[0];
      (if CommandMatches(CommandName(l.command), l.exact, text) then [l.controller] else [])
      + Matching(commands[1..], text)
  }

  /** `controller` belongs to a registered listener whose pattern matches `text`. */
  ghost predicate ReachedBy<C>(commands: seq<CommandListener<C>>, text: string, controller: C) {
    exists i :: 0 <= i < |commands| && commands[i].controller == controller
                && CommandMatches(CommandName(commands[i].command), commands[i].exact, text)
  }

  /** Every controller reached belongs to a registered listener whose pattern matches the text. */
  lemma {:induction false} MatchingSound<C>(commands: seq<CommandListener<C>>, text: string)
    ensures forall j :: 0 <= j < |Matching(commands, text)| ==> ReachedBy(commands, text, Matching(commands, text)[j])
  {
    if commands != [] {
      MatchingSound(commands[1..], text);
      var l := commands[0];
      var head := if CommandMatches(CommandName(l.command), l.exact, text) then [l.controller] else [];
      var tail := Matching(commands[1..], text);
      assert Matching(commands, text) == head + tail;
      forall j | 0 <= j < |Matching(commands, text)|
        ensures ReachedBy(commands, text, Matching(commands, text)[j])
      {
        if j < |head| {
          assert commands[0].controller == Matching(commands, text)[j];
        } else {
          assert Matching(commands, text)[j] == tail[j - |head|];
          assert ReachedBy(commands[1..], text, tail[j - |head|]);
          var i :| 0 <= i < |commands[1..]| && commands[1..][i].controller == tail[j - |head|]
                   && CommandMatches(CommandName(commands[1..][i].command), commands[1..][i].exact, text);
          assert commands[i + 1] == commands[1..][i];
        }
      }
    }
  }

  /** Listeners registered later react after those registered earlier: matching distributes over registration. */
  lemma {:induction false} MatchingAppend<C>(a: seq<CommandListener<C>>, b: seq<CommandListener<C>>, text: string)
    ensures Matching(a + b, text) == Matching(a, text) + Matching(b, text)
  {
    if a == [] {
      assert a + b == b;
    } else {
      var l := a[0];
      var head := if CommandMatches(CommandName(l.command), l.exact, text) then [l.controller] else [];
      assert (a + b)[0] == l;
      assert (a + b)[1..] == a[1..] + b;
      MatchingAppend(a[1..], b, text);
      Associative(head, Matching(a[1..], text), Matching(b, text));
    }
  }

  lemma Associative<T>(x: seq<T>, y: seq<T>, z: seq<T>)
    ensures x + (y + z) == (x + y) + z
  {
  }

  /** The reactions of all command listeners to one text message, in registration order. */
  function TextDispatch<M, C>(commands: seq<CommandListener<C>>, middlewares: seq<M>,
                              apply: (M, Message, int) -> Step<Message>, msg: Message): seq<CommandAction<C>>
  {
    if commands == [] then []
    else
      var l := commands[0];
      (if CommandMatches(CommandName(l.command), l.exact, msg.text)
       then [ListenerOutcome(l.controller, RunChain(middlewares, apply, msg, msg.chatId), msg)]
       else [])
      + TextDispatch(commands[1..], middlewares, apply, msg)
  }

  /**
   * Exactly the matching listeners react, each after its own run of the
   * chain with a response bound to `chat.id`; errors and controllers are
   * addressed to `from.id`.
   */
  lemma {:induction false} DispatchFollowsMatching<M, C>(commands: seq<CommandListener<C>>, middlewares: seq<M>,
                                                         apply: (M, Message, int) -> Step<Message>, msg: Message)
    ensures var acts := TextDispatch(commands, middlewares, apply, msg);
            var ctrls := Matching(commands, msg.text);
            && |acts| == |ctrls|
            && forall i :: 0 <= i < |acts| ==>
                 acts[i] == ListenerOutcome(ctrls[i], RunChain(middlewares, apply, msg, msg.chatId), msg)
  {
    if commands != [] {
      DispatchFollowsMatching(commands[1..], middlewares, apply, msg);
      var l := commands[0];
      var chain := RunChain(middlewares, apply, msg, msg.chatId);
      var fires := CommandMatches(CommandName(l.command), l.exact, msg.text);
      OutcomesAppend(if fires then [ListenerOutcome(l.controller, chain, msg)] else [],
                     TextDispatch(commands[1..], middlewares, apply, msg),
                     if fires then [l.controller] else [], Matching(commands[1..], msg.text), chain, msg);
    }
  }

  /** Two runs of listener outcomes that follow their controllers one by one still do so when joined. */
  lemma OutcomesAppend<C>(headActs: seq<CommandAction<C>>, tailActs: seq<CommandAction<C>>,
                          headCtrls: seq<C>, tailCtrls: seq<C>, chain: ChainResult<Message>, msg: Message)
    requires |headActs| == |headCtrls| && forall i :: 0 <= i < |headActs| ==> headActs[i] == ListenerOutcome(headCtrls[i], chain, msg)
    requires |tailActs| == |tailCtrls| && forall i :: 0 <= i < |tailActs| ==> tailActs[i] == ListenerOutcome(tailCtrls[i], chain, msg)
    ensures |headActs + tailActs| == |headCtrls + tailCtrls|
    ensures forall i :: 0 <= i < |headActs + tailActs| ==>
              (headActs + tailActs)[i] == ListenerOutcome((headCtrls + tailCtrls)[i], chain, msg)
  {
  }

  /**
   * A failing chain means the error goes, once per matching listener, to
   * `from.id`, and no controller runs; a passing chain means each matching
   * controller runs once with the message the chain handed on.
   */
  lemma ChainDecidesEveryListener<M, C>(commands: seq<CommandListener<C>>, middlewares: seq<M>,
                                        apply: (M, Message, int) -> Step<Message>, msg: Message, from: Sender)
    requires msg.from == Some(from)
    ensures var acts := TextDispatch(commands, middlewares, apply, msg);
            var ctrls := Matching(commands, msg.text);
            var chain := RunChain(middlewares, apply, msg, msg.chatId);
            && |acts| == |ctrls|
            && (chain.Failed? ==> forall a <- acts :: a == SendError(from.id, chain.error))
            && (chain.Completed? ==> forall i :: 0 <= i < |acts| ==> acts[i] == Invoke(ctrls[i], chain.msg, from.id))
            && (chain.Stopped? ==> forall i :: 0 <= i < |acts| ==> acts[i] == Invoke(ctrls[i], chain.msg, from.id))
  {
    DispatchFollowsMatching(commands, middlewares, apply, msg);
  }

  /* ------------------------------------- Queries ------------------------------------ */

  /** A callback payload after the checks: its string head and the whole array. */
  datatype Payload = Malformed | Payload(head: string, items: seq<JsValue>)

  /**
   * The checks every query listener makes, in order: the message, its sender
   * and the data are present; the data parses; it is an array; its first
   * element is a string. `parse` stands for `JSON.parse`, `None` for a throw.
   */
  function CheckPayload(q: CallbackQuery, parse: string -> Option<JsValue>): (p: Payload)
    ensures p.Payload? <==>
              && q.message.Some? && q.message.value.from.Some? && q.data.Some?
              && parse(q.data.value).Some? && parse(q.data.value).value.Arr?
              && |parse(q.data.value).value.items| > 0 && parse(q.data.value).value.items[0].Str?
    ensures p.Payload? ==> p.items == parse(q.data.value).value.items && p.items[0] == Str(p.head)
  {
    if q.message.None? || q.message.value.from.None? || q.data.None? then Malformed
    else match parse(q.data.value)
      case None => Malformed
      case Some(v) =>
        if !v.Arr? then Malformed
        else if |v.items| == 0 || !v.items[0].Str? then Malformed  // `dataReply[0]` is undefined for []
        else Payload(v.items[0].s, v.items)
  }

  /** What one query listener does with a callback query. */
  datatype QueryAction<Q> =
    | AnswerInternalError(queryId: string)
    | RunCallback(callback: Q, request: QueryRequest, queryId: string)

  function QueryDispatch<Q>(queries: seq<QueryListener<Q>>, q: CallbackQuery, parse: string -> Option<JsValue>): seq<QueryAction<Q>>
  {
    if queries == [] then []
    else
      var l := queries[0];
      (match CheckPayload(q, parse)
       case Malformed => [AnswerInternalError(q.id)]
       case Payload(head, items) =>
         if head == QueryCodeName(l.code) then [RunCallback(l.callback, QueryRequest(q.message.value, q.from, items), q.id)]
         else [])
      + QueryDispatch(queries[1..], q, parse)
  }

  /** How many listeners carry the code named `head`. */
  function Registered<Q>(queries: seq<QueryListener<Q>>, head: string): nat {
    if queries == [] then 0
    else (if QueryCodeName(queries[0].code) == head then 1 else 0) + Registered(queries[1..], head)
  }

  /** A malformed payload is answered "Internal error" once by each listener, and no callback runs. */
  lemma {:induction false} MalformedAnsweredByEachListener<Q>(queries: seq<QueryListener<Q>>, q: CallbackQuery, parse: string -> Option<JsValue>)
    requires CheckPayload(q, parse).Malformed?
    ensures var acts := QueryDispatch(queries, q, parse);
            |acts| == |queries| && forall a <- acts :: a == AnswerInternalError(q.id)
  {
    if queries != [] {
      MalformedAnsweredByEachListener(queries[1..], q, parse);
    }
  }

  /**
   * A well-formed payload runs the callback of every listener whose code is
   * the payload's head, and no other, passing the whole array (code
   * included) as `data`; no "Internal error" answer is sent.
   */
  lemma {:induction false} WellFormedRunsMatchingCallbacks<Q>(queries: seq<QueryListener<Q>>, q: CallbackQuery, parse: string -> Option<JsValue>)
    requires CheckPayload(q, parse).Payload?
    ensures var p := CheckPayload(q, parse);
            var acts := QueryDispatch(queries, q, parse);
            && |acts| == Registered(queries, p.head)
            && forall a <- acts :: a.RunCallback?
                 && a.request == QueryRequest(q.message.value, q.from, p.items)
                 && a.queryId == q.id
                 && exists l <- queries :: l.callback == a.callback && QueryCodeName(l.code) == p.head
  {
    if queries != [] {
      WellFormedRunsMatchingCallbacks(queries[1..], q, parse);
      var acts := QueryDispatch(queries, q, parse);
      forall a <- acts
        ensures exists l <- queries :: l.callback == a.callback && QueryCodeName(l.code) == CheckPayload(q, parse).head
      {
        if a in QueryDispatch(queries[1..], q, parse) {
          var l :| l in queries[1..] && l.callback == a.callback && QueryCodeName(l.code) == CheckPayload(q, parse).head;
          assert l in queries;
        } else {
          assert queries[0] in queries;
        }
      }
    }
  }

  /**
   * `queryResponse`: delete the message when `deleteMessage` is set, else
   * clear its keyboard when `deleteInlineKeyboard` is set, and in every case
   * answer the query exactly once, last.
   */
  function QueryResponse(message: QueryMessage, queryId: string, options: AnswerOptions): (effects: seq<Effect>)
    ensures |effects| >= 1 && effects[|effects| - 1] == AnswerQuery(queryId, options)
    ensures forall i :: 0 <= i < |effects| - 1 ==> !effects[i].AnswerQuery?
    ensures options.deleteMessage ==> effects == [DeleteMessage(message.chatId, message.messageId), AnswerQuery(queryId, options)]
    ensures !options.deleteMessage && options.deleteInlineKeyboard ==>
              effects == [ClearKeyboard(message.chatId, message.messageId), AnswerQuery(queryId, options)]
    ensures !options.deleteMessage && !options.deleteInlineKeyboard ==> effects == [AnswerQuery(queryId, options)]
  {
    (if options.deleteMessage then [DeleteMessage(message.chatId, message.messageId)]
     else if options.deleteInlineKeyboard then [ClearKeyboard(message.chatId, message.messageId)]
     else [])
    + [AnswerQuery(queryId, options)]
  }

  /* ------------------------------------- The bot ------------------------------------ */

  /** The bot wrapper's registries: middlewares of type M, command controllers C, query callbacks Q. */
  class TelegramBotExt<M, C, Q> {
    var middlewares: seq<M>
    var commands: seq<CommandListener<C>>
    var queries: seq<QueryListener<Q>>

    constructor()
      ensures middlewares == [] && commands == [] && queries == []
    {
      middlewares := [];
      commands := [];
      queries := [];
    }

    /** `use`: push each argument, in order, at the end of the chain. */
    method Use(ms: seq<M>)
      modifies this
      ensures middlewares == old(middlewares) + ms
      ensures commands == old(commands) && queries == old(queries)
    {
      for i := 0 to |ms|
        invariant middlewares == old(middlewares) + ms[..i]
        invariant commands == old(commands) && queries == old(queries)
      {
        middlewares := middlewares + [ms[i]];
        assert ms[..i + 1] == ms[..i] + [ms[i]];
      }
      assert ms[..|ms|] == ms;
    }

    /**
     * `runMiddlewares`: advance the index through the chain, handing each
     * middleware the message and a response bound to `chat.id`, until one
     * does not call `next()` or the chain is exhausted.
     */
    method RunMiddlewares(msg: Message, apply: (M, Message, int) -> Step<Message>) returns (r: ChainResult<Message>)
      ensures r == RunChain(middlewares, apply, msg, msg.chatId)
    {
      var i := 0;
      var cur := msg;
      while i < |middlewares|
        invariant 0 <= i <= |middlewares|
        invariant RunChain(middlewares, apply, msg, msg.chatId) == Lift(RunChain(middlewares[i..], apply, cur, msg.chatId), i)
      {
        var step := apply(middlewares[i], cur, msg.chatId);
        assert middlewares[i..][1..] == middlewares[i + 1..];
        i := i + 1;
        match step
        case NextError(e) =>
          return Failed(e, i);
        case Returned(m) =>
          return Stopped(m, i);
        case Next(m) =>
          LiftTwice(RunChain(middlewares[i..], apply, m, msg.chatId), i - 1);
          cur := m;
      }
      assert middlewares[i..] == [];
      r := Completed(cur);
    }

    /** `onCommand`: register a listener for `/command`. */
    method OnCommand(command: BotCommand, controller: C, exact: bool)
      modifies this
      ensures commands == old(commands) + [CommandListener(command, controller, exact)]
      ensures middlewares == old(middlewares) && queries == old(queries)
    {
      commands := commands + [CommandListener(command, controller, exact)];
    }

    /** `onQuery`: register a callback-query listener for `code`. */
    method OnQuery(code: BotQueryCode, callback: Q)
      modifies this
      ensures queries == old(queries) + [QueryListener(code, callback)]
      ensures middlewares == old(middlewares) && commands == old(commands)
    {
      queries := queries + [QueryListener(code, callback)];
    }

    /** The reactions of the registered command listeners to a text message. */
    function ReceiveText(msg: Message, apply: (M, Message, int) -> Step<Message>): seq<CommandAction<C>>
      reads this
    {
      TextDispatch(commands, middlewares, apply, msg)
    }

    /** The reactions of the registered query listeners to a callback query; the chain plays no part. */
    function ReceiveQuery(q: CallbackQuery, parse: string -> Option<JsValue>): seq<QueryAction<Q>>
      reads this
    {
      QueryDispatch(queries, q, parse)
    }
  }

  lemma LiftTwice<T>(r: ChainResult<T>, k: nat)
    ensures Lift(Lift(r, 1), k) == Lift(r, k + 1)
  {
  }
}
