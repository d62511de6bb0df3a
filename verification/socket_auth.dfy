/**
 * The socket connection gate: the socket `auth` middleware, an ordered
 * cascade of eight checks ending in the write `socket.user = user`, and the
 * connection chain logger → rate limiter → auth.
 *
 * Token verification, hostname extraction from the referer and the rate
 * limiter's point accounting are foreign: `verify` yields the decoded
 * payload or `None` when it throws, `hostOf` the hostname of a URL or `None`
 * when `new URL` throws, and `rateAllowed` whether consuming a point succeeded.
 */
module SocketAuth {
  import opened Wrappers
  import opened Types
  import opened Store

  /** What the client presents when it connects. */
  datatype Handshake = Handshake(token: Option<string>, referer: Option<string>, address: string)

  /** A connected socket; `user` is set by `auth` and read by the controllers. */
  class Socket {
    const id: string
    const handshake: Handshake
    var user: Option<User>

    constructor(id: string, handshake: Handshake)
      ensures this.id == id && this.handshake == handshake && user == None
    {
      this.id := id;
      this.handshake := handshake;
      user := None;
    }
  }

  function MissingTokenMessage(env: Env): string {
    "Missing token. See docs at " + env.docsLink
  }
  const InvalidTokenMessage := "Invalid token. Type \"/refreshtoken\" to request a new one"
  const OutdatedTokenMessage := "Your token is probably outdated. Type \"/refreshtoken\" to request a new one"
  function SocketNotSignedUpMessage(env: Env): string {
    "You are not signed up. See docs at " + env.docsLink
  }
  const UndefinedRefererMessage := "Undefined referer header. Referer must exists"
  const HostnameRejectedMessage := "Invalid hostname. This hostname is not in your whitelist"

  datatype Verdict = Rejected(error: string) | Accepted(user: User)

  /** The referer's hostname; an absent referer makes `new URL` throw too. */
  function RefererHost(referer: Option<string>, hostOf: string -> Option<string>): Option<string> {
    if referer.None? then None else hostOf(referer.value)
  }

  /**
   * The cascade, first failing check first: token present, token verifies,
   * payload shape, lookup succeeds, account exists, account not banned,
   * referer parses, hostname whitelisted.
   */
  function Decide(hs: Handshake, verify: string -> Option<JsValue>, hostOf: string -> Option<string>,
                  users: seq<User>, lookupFails: bool, env: Env): Verdict
  {
    if hs.token.None? then Rejected(MissingTokenMessage(env))
    else match verify(hs.token.value)
      case None => Rejected(InvalidTokenMessage)
      case Some(decoded) =>
        if !IsAuthTokenPayload(decoded) then Rejected(OutdatedTokenMessage)
        else if lookupFails then Rejected(DefaultDBErrorMessage)
        else match FindUserById(users, IdOf(decoded).s)
          case None => Rejected(SocketNotSignedUpMessage(env))
          case Some(k) =>
            if users[k].ban.isBanned then Rejected(BanMessage(users[k].ban.reason, env))
            else match RefererHost(hs.referer, hostOf)
              case None => Rejected(UndefinedRefererMessage)
              case Some(host) =>
                if host !in users[k].whitelist then Rejected(HostnameRejectedMessage)
                else Accepted(users[k])
  }

  /**
   * `auth`: run the checks with early returns; only when all pass is the
   * account written to `socket.user`. The result is the error passed to
   * `next`, `None` for `next()`.
   */
  method Authenticate(socket: Socket, db: Database, verify: string -> Option<JsValue>, hostOf: string -> Option<string>,
                      lookupFails: bool, env: Env) returns (error: Option<string>)
    modifies socket
    ensures match Decide(socket.handshake, verify, hostOf, db.users, lookupFails, env)
            case Rejected(e) => error == Some(e) && socket.user == old(socket.user)
            case Accepted(u) => error == None && socket.user == Some(u)
  {
    var token := socket.handshake.token;
    if token.None? {
      return Some(MissingTokenMessage(env));
    }
    var decoded := verify(token.value);
    if decoded.None? {
      return Some(InvalidTokenMessage);
    }
    if !IsAuthTokenPayload(decoded.value) {
      return Some(OutdatedTokenMessage);
    }
    if lookupFails {
      return Some(DefaultDBErrorMessage);
    }
    var found := FindUserById(db.users, IdOf(decoded.value).s);
    if found.None? {
      return Some(SocketNotSignedUpMessage(env));
    }
    var user := db.users[found.value];
    if user.ban.isBanned {
      return Some(BanMessage(user.ban.reason, env));
    }
    var host := RefererHost(socket.handshake.referer, hostOf);
    if host.None? {
      return Some(UndefinedRefererMessage);
    }
    if host.value !in user.whitelist {
      return Some(HostnameRejectedMessage);
    }
    socket.user := Some(user);
    return None;
  }

  /**
   * The connection chain: the logger continues, the rate limiter rejects
   * with its message when no point can be consumed, then `auth` decides.
   */
  method Connect(socket: Socket, db: Database, rateAllowed: bool, verify: string -> Option<JsValue>,
                 hostOf: string -> Option<string>, lookupFails: bool, env: Env) returns (error: Option<string>)
    modifies socket
    ensures !rateAllowed ==> error == Some(RateLimitMessage) && socket.user == old(socket.user)
    ensures rateAllowed ==>
              match Decide(socket.handshake, verify, hostOf, db.users, lookupFails, env)
              case Rejected(e) => error == Some(e) && socket.user == old(socket.user)
              case Accepted(u) => error == None && socket.user == Some(u)
  {
    if !rateAllowed {
      return Some(RateLimitMessage);
    }
    error := Authenticate(socket, db, verify, hostOf, lookupFails, env);
  }

  /* ----------------------------------- Properties ----------------------------------- */

  /** A missing token is reported as such, whatever else is wrong with the connection. */
  lemma MissingTokenWins(hs: Handshake, verify: string -> Option<JsValue>, hostOf: string -> Option<string>,
                         users: seq<User>, lookupFails: bool, env: Env)
    requires hs.token.None?
    ensures Decide(hs, verify, hostOf, users, lookupFails, env) == Rejected(MissingTokenMessage(env))
  {
  }

  /**
   * A connection is accepted exactly when every check passes: the token
   * verifies to a payload with a string id, the lookup by that id succeeds
   * and finds an unbanned account, and the referer's hostname is a member of
   * that account's whitelist. The accepted account is the one found by id.
   */
  lemma AcceptedIff(hs: Handshake, verify: string -> Option<JsValue>, hostOf: string -> Option<string>,
                    users: seq<User>, lookupFails: bool, env: Env)
    ensures var v := Decide(hs, verify, hostOf, users, lookupFails, env);
            v.Accepted? <==>
              && hs.token.Some?
              && verify(hs.token.value).Some?
              && IsAuthTokenPayload(verify(hs.token.value).value)
              && !lookupFails
              && FindUserById(users, IdOf(verify(hs.token.value).value).s).Some?
              && var u := users[FindUserById(users, IdOf(verify(hs.token.value).value).s).value];
                 && !u.ban.isBanned
                 && RefererHost(hs.referer, hostOf).Some?
                 && RefererHost(hs.referer, hostOf).value in u.whitelist
    ensures var v := Decide(hs, verify, hostOf, users, lookupFails, env);
            v.Accepted? ==> v.user.id == IdOf(verify(hs.token.value).value).s
  {
  }

  /** A banned account is never accepted, whatever its token and referer. */
  lemma BannedNeverAccepted(hs: Handshake, verify: string -> Option<JsValue>, hostOf: string -> Option<string>,
                            users: seq<User>, lookupFails: bool, env: Env)
    ensures var v := Decide(hs, verify, hostOf, users, lookupFails, env);
            v.Accepted? ==> !v.user.ban.isBanned
  {
  }

  /**
   * The presented token is never compared with the stored one: any token
   * that verifies to a payload naming the id of an existing, unbanned account
   * (whatever other claims it carries) is accepted from a whitelisted host,
   * whether or not it is the account's current token.
   */
  lemma AnyVerifyingTokenAccepted(token: string, referer: string, address: string,
                                  verify: string -> Option<JsValue>, hostOf: string -> Option<string>,
                                  users: seq<User>, k: nat, env: Env)
    requires k < |users| && FindUserById(users, users[k].id) == Some(k)
    requires verify(token).Some? && IsAuthTokenPayload(verify(token).value) && IdOf(verify(token).value) == Str(users[k].id)
    requires !users[k].ban.isBanned
    requires hostOf(referer).Some? && hostOf(referer).value in users[k].whitelist
    ensures Decide(Handshake(Some(token), Some(referer), address), verify, hostOf, users, false, env) == Accepted(users[k])
  {
  }
}
