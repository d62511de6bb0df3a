/**
 * The document store the handlers talk to: the users collection and the
 * aliases collection, with the `findOne`-style lookups they issue. A lookup
 * returns the first matching document, as a collection scan in insertion
 * order does. Whether a call fails is decided by the caller's fault inputs.
 */
module Store {
  import opened Wrappers
  import opened Types

  /** The outcome of one store read: the call threw, found nothing, or found a document. */
  datatype Lookup<T> = StoreFailure | Absent | Present(value: T)

  class Database {
    var users: seq<User>
    var aliases: seq<AliasRecord>

    constructor ()
      ensures users == [] && aliases == []
    {
      users := [];
      aliases := [];
    }
  }

  /** A `findOne` scan: the position of the first document the filter accepts. */
  function FirstWhere<T>(docs: seq<T>, accepts: T -> bool): (r: Option<nat>)
    ensures r.Some? ==> r.value < |docs| && accepts(docs[r.value])
    ensures r.Some? ==> forall k :: 0 <= k < r.value ==> !accepts(docs[k])
    ensures r.None? ==> forall k :: 0 <= k < |docs| ==> !accepts(docs[k])
  {
    if docs == [] then None
    else if accepts(docs[0]) then Some(0)
    else match FirstWhere(docs[1..], accepts)
      case None => None
      case Some(k) => Some(k + 1)
  }

  /** `User.findOne({ telegramId })`: the first account with that Telegram id. */
  function FindUserByTelegramId(users: seq<User>, telegramId: int): (r: Option<nat>)
    ensures r.Some? ==> r.value < |users| && users[r.value].telegramId == telegramId
    ensures r.Some? ==> forall k :: 0 <= k < r.value ==> users[k].telegramId != telegramId
    ensures r.None? ==> forall k :: 0 <= k < |users| ==> users[k].telegramId != telegramId
  {
    FirstWhere(users, (u: User) => u.telegramId == telegramId)
  }

  /** `User.findById(id)`: the first account whose `_id` is `id`. */
  function FindUserById(users: seq<User>, id: string): (r: Option<nat>)
    ensures r.Some? ==> r.value < |users| && users[r.value].id == id
    ensures r.Some? ==> forall k :: 0 <= k < r.value ==> users[k].id != id
    ensures r.None? ==> forall k :: 0 <= k < |users| ==> users[k].id != id
  {
    FirstWhere(users, (u: User) => u.id == id)
  }

  /** `Alias.findOne({ userId, socketId })` */
  function FindSession(aliases: seq<AliasRecord>, userId: string, socketId: string): (r: Option<nat>)
    ensures r.Some? ==> r.value < |aliases| && aliases[r.value].userId == userId && aliases[r.value].socketId == socketId
    ensures r.Some? ==> forall k :: 0 <= k < r.value ==> !(aliases[k].userId == userId && aliases[k].socketId == socketId)
    ensures r.None? ==> forall k :: 0 <= k < |aliases| ==> !(aliases[k].userId == userId && aliases[k].socketId == socketId)
  {
    FirstWhere(aliases, (a: AliasRecord) => a.userId == userId && a.socketId == socketId)
  }

  /** `Alias.findOne({ userId, alias })` */
  function FindAlias(aliases: seq<AliasRecord>, userId: string, alias: string): (r: Option<nat>)
    ensures r.Some? ==> r.value < |aliases| && aliases[r.value].userId == userId && aliases[r.value].alias == alias
    ensures r.Some? ==> forall k :: 0 <= k < r.value ==> !(aliases[k].userId == userId && aliases[k].alias == alias)
    ensures r.None? ==> forall k :: 0 <= k < |aliases| ==> !(aliases[k].userId == userId && aliases[k].alias == alias)
  {
    FirstWhere(aliases, (a: AliasRecord) => a.userId == userId && a.alias == alias)
  }

  /** `doc.delete()`: the document at position `i` goes, every other one stays in order. */
  function RemoveAt<T>(s: seq<T>, i: nat): (r: seq<T>)
    requires i < |s|
    ensures |r| == |s| - 1
    ensures forall k :: 0 <= k < i ==> r[k] == s[k]
    ensures forall k :: i <= k < |r| ==> r[k] == s[k + 1]
  {
    s[..i] + s[i + 1..]
  }

  /** `user.update(...)`: the account with that `_id` is replaced by `change` of it; every other account stays. */
  function UpdateUser(users: seq<User>, id: string, change: User -> User): (r: seq<User>)
    ensures |r| == |users|
    ensures forall k :: 0 <= k < |users| && FindUserById(users, id) != Some(k) ==> r[k] == users[k]
    ensures FindUserById(users, id).Some? ==> r[FindUserById(users, id).value] == change(users[FindUserById(users, id).value])
  {
    match FindUserById(users, id)
    case None => users
    case Some(k) => users[k := change(users[k])]
  }

  /** `user.update({ whitelist })`: the account with that `_id` gets the new list; every other field and account stays. */
  function SetWhitelist(users: seq<User>, id: string, whitelist: seq<string>): (r: seq<User>)
    ensures |r| == |users|
    ensures forall k :: 0 <= k < |users| && FindUserById(users, id) != Some(k) ==> r[k] == users[k]
    ensures FindUserById(users, id).Some? ==> r[FindUserById(users, id).value] == users[FindUserById(users, id).value].(whitelist := whitelist)
  {
    UpdateUser(users, id, (u: User) => u.(whitelist := whitelist))
  }

  /** `user.update({ token })`: the account with that `_id` gets the new token; every other field and account stays. */
  function SetToken(users: seq<User>, id: string, token: string): (r: seq<User>)
    ensures |r| == |users|
    ensures forall k :: 0 <= k < |users| && FindUserById(users, id) != Some(k) ==> r[k] == users[k]
    ensures FindUserById(users, id).Some? ==> r[FindUserById(users, id).value] == users[FindUserById(users, id).value].(token := token)
  {
    UpdateUser(users, id, (u: User) => u.(token := token))
  }

  /** No account holds the same alias twice (the property the alias generator's collision probe keeps). */
  ghost predicate AliasesUniquePerUser(aliases: seq<AliasRecord>) {
    forall i, j :: 0 <= i < j < |aliases| && aliases[i].userId == aliases[j].userId ==> aliases[i].alias != aliases[j].alias
  }

  /** Removing a record keeps aliases unique per account. */
  lemma RemovePreservesUnique(aliases: seq<AliasRecord>, i: nat)
    requires i < |aliases|
    requires AliasesUniquePerUser(aliases)
    ensures AliasesUniquePerUser(RemoveAt(aliases, i))
  {
    var r := RemoveAt(aliases, i);
    forall p, q | 0 <= p < q < |r| && r[p].userId == r[q].userId
      ensures r[p].alias != r[q].alias
    {
      var p' := if p < i then p else p + 1;
      var q' := if q < i then q else q + 1;
      assert r[p] == aliases[p'] && r[q] == aliases[q'];
    }
  }
}
