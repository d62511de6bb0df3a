/**
 * The short-circuiting middleware chain of the bot wrapper. A middleware is
 * given the message, a response handle (the chat id it is bound to) and a
 * `next` continuation; what it does with `next` is its `Step`. Calling
 * `next()` hands the (possibly updated) message to the following middleware,
 * `next(error)` ends the chain with that error, and returning without calling
 * `next` ends the chain with no error.
 */
module Middleware {

  datatype Step<T> =
    | Next(msg: T)            // next()
    | NextError(error: string) // next(error)
    | Returned(msg: T)        // returned without calling next

  /** How a run of the chain ends, and how many middlewares ran. */
  datatype ChainResult<T> =
    | Completed(msg: T)               // every middleware called next()
    | Stopped(msg: T, ran: nat)       // the ran-th middleware returned without calling next
    | Failed(error: string, ran: nat) // the ran-th middleware called next(error)
  {
    /** No error reached the caller: the command handler is invoked. */
    predicate Passed() { !Failed? }

    function Count(chainLength: nat): nat {
      if Completed? then chainLength else ran
    }
  }

  /** The result of the rest of the chain, seen from `k` middlewares earlier. */
  function Lift<T>(r: ChainResult<T>, k: nat): ChainResult<T> {
    match r
    case Completed(m) => Completed(m)
    case Stopped(m, n) => Stopped(m, n + k)
    case Failed(e, n) => Failed(e, n + k)
  }

  /** The chain run: each middleware in registration order, each at most once, each only after its predecessor's `next()`. */
  function RunChain<M, T>(chain: seq<M>, apply: (M, T, int) -> Step<T>, msg: T, res: int): (r: ChainResult<T>)
    ensures chain == [] ==> r == Completed(msg)
    ensures !r.Completed? ==> 1 <= r.ran <= |chain|
    decreases |chain|
  {
    if chain == [] then Completed(msg)
    else match apply(chain[0], msg, res)
      case Next(m) => Lift(RunChain(chain[1..], apply, m, res), 1)
      case NextError(e) => Failed(e, 1)
      case Returned(m) => Stopped(m, 1)
  }

  /** A chain that completes hands its final message on to whatever is appended after it. */
  lemma {:induction false} RunChainAppend<M, T>(chain: seq<M>, rest: seq<M>, apply: (M, T, int) -> Step<T>, msg: T, res: int)
    requires RunChain(chain, apply, msg, res).Completed?
    ensures RunChain(chain + rest, apply, msg, res) == Lift(RunChain(rest, apply, RunChain(chain, apply, msg, res).msg, res), |chain|)
  {
    if chain == [] {
      assert chain + rest == rest;
      assert forall r: ChainResult<T> :: Lift(r, 0) == r;
    } else {
      assert (chain + rest)[0] == chain[0];
      assert (chain + rest)[1..] == chain[1..] + rest;
      var m := apply(chain[0], msg, res).msg;
      RunChainAppend(chain[1..], rest, apply, m, res);
    }
  }

  /** Once a middleware errs or returns without `next`, what is registered after it never runs and cannot change the result. */
  lemma {:induction false} LaterMiddlewaresNeverRun<M, T>(chain: seq<M>, rest: seq<M>, apply: (M, T, int) -> Step<T>, msg: T, res: int)
    requires !RunChain(chain, apply, msg, res).Completed?
    ensures RunChain(chain + rest, apply, msg, res) == RunChain(chain, apply, msg, res)
  {
    assert chain != [];
    assert (chain + rest)[0] == chain[0];
    assert (chain + rest)[1..] == chain[1..] + rest;
    match apply(chain[0], msg, res)
    case Next(m) => LaterMiddlewaresNeverRun(chain[1..], rest, apply, m, res);
    case NextError(_) =>
    case Returned(_) =>
  }

  /** A failure names the first middleware that passed an error: all before it called `next()`, it called `next(error)`. */
  lemma {:induction false} FailureIsFirstError<M, T>(chain: seq<M>, apply: (M, T, int) -> Step<T>, msg: T, res: int)
    requires RunChain(chain, apply, msg, res).Failed?
    ensures var r := RunChain(chain, apply, msg, res);
            var before := RunChain(chain[..r.ran - 1], apply, msg, res);
            && before.Completed?
            && apply(chain[r.ran - 1], before.msg, res) == NextError(r.error)
  {
    var r := RunChain(chain, apply, msg, res);
    match apply(chain[0], msg, res)
    case NextError(_) =>
      assert chain[..0] == [];
    case Next(m) =>
      var tail := RunChain(chain[1..], apply, m, res);
      assert r == Lift(tail, 1);
      FailureIsFirstError(chain[1..], apply, m, res);
      assert chain[1..][..tail.ran - 1] == chain[..r.ran - 1][1..];
      assert chain[..r.ran - 1][0] == chain[0];
  }

  /** A chain that completes ran every middleware, and each one called `next()`. */
  lemma {:induction false} CompletedRanAll<M, T>(chain: seq<M>, apply: (M, T, int) -> Step<T>, msg: T, res: int, i: nat)
    requires RunChain(chain, apply, msg, res).Completed?
    requires i < |chain|
    ensures RunChain(chain[..i], apply, msg, res).Completed?
    ensures apply(chain[i], RunChain(chain[..i], apply, msg, res).msg, res).Next?
  {
    var m := apply(chain[0], msg, res);
    assert m.Next?;
    if i == 0 {
      assert chain[..0] == [];
    } else {
      CompletedRanAll(chain[1..], apply, m.msg, res, i - 1);
      assert chain[1..][..i - 1] == chain[..i][1..];
      assert chain[..i][0] == chain[0];
    }
  }
}
