/**
 * The alias resolver: `getAlias` finds the alias of a socket session or
 * draws random two-digit candidates until one is free for the account and
 * inserts it; `getSocketId` is the reverse lookup a chat reply uses.
 *
 * `Math.random` is the sequence `draws` of the values `Math.floor(Math.random() * 100)`
 * takes, one per loop pass. Store failures are `faultAt`: the position of the
 * first store call that throws (0 is the session lookup, 1 + k the probe for
 * draw k, then the insert); after it nothing else runs.
 */
module Aliases {
  import opened Wrappers
  import opened Types
  import opened Text
  import opened Store

  /** `generateAlias`: the decimal text of a whole number below 100. */
  function GenerateAlias(draw: nat): (alias: string)
    requires draw < 100
    ensures alias != ""
  {
    Decimal(draw)
  }

  /** Generated aliases are the one- or two-digit decimal texts of 0..99, and each names its draw. */
  lemma GeneratedAliasIsDecimal(draw: nat)
    requires draw < 100
    ensures var alias := GenerateAlias(draw);
            && 1 <= |alias| <= 2
            && (forall i :: 0 <= i < |alias| ==> '0' <= alias[i] <= '9')
            && ParseDecimal(alias) == draw
  {
    DecimalRoundTrip(draw);
  }

  /** Line 12 of getAlias: the alias of the session's record, unless there is none or it is empty (falsy). */
  function ExistingAlias(aliases: seq<AliasRecord>, userId: string, socketId: string): (r: Option<string>)
    ensures r.Some? ==> r.value != "" && exists k :: 0 <= k < |aliases| && aliases[k] == AliasRecord(userId, r.value, socketId)
  {
    match FindSession(aliases, userId, socketId)
    case None => None
    case Some(k) => if aliases[k].alias == "" then None else Some(aliases[k].alias)
  }

  /** The collision probe: some record of the same account already carries `alias`. */
  predicate Taken(aliases: seq<AliasRecord>, userId: string, alias: string) {
    FindAlias(aliases, userId, alias).Some?
  }

  predicate DrawsInRange(draws: seq<nat>) {
    forall k :: 0 <= k < |draws| ==> draws[k] < 100
  }

  /** The first draw whose alias is free for the account: where the do/while loop stops. */
  function FirstFreeDraw(aliases: seq<AliasRecord>, userId: string, draws: seq<nat>): (r: Option<nat>)
    requires DrawsInRange(draws)
    ensures r.Some? ==> r.value < |draws| && !Taken(aliases, userId, GenerateAlias(draws[r.value]))
    ensures r.Some? ==> forall k :: 0 <= k < r.value ==> Taken(aliases, userId, GenerateAlias(draws[k]))
    ensures r.None? ==> forall k :: 0 <= k < |draws| ==> Taken(aliases, userId, GenerateAlias(draws[k]))
  {
    if draws == [] then None
    else if !Taken(aliases, userId, GenerateAlias(draws[0])) then Some(0)
    else match FirstFreeDraw(aliases, userId, draws[1..])
      case None => None
      case Some(k) => Some(k + 1)
  }

  /** The first free draw is the one after a run of taken ones. */
  lemma FirstFreeDrawIs(aliases: seq<AliasRecord>, userId: string, draws: seq<nat>, j: nat)
    requires DrawsInRange(draws) && j < |draws|
    requires forall k :: 0 <= k < j ==> Taken(aliases, userId, GenerateAlias(draws[k]))
    requires !Taken(aliases, userId, GenerateAlias(draws[j]))
    ensures FirstFreeDraw(aliases, userId, draws) == Some(j)
  {
  }

  /** After `j` taken draws, the first free draw (if any) lies at `j` or later. */
  lemma FirstFreeDrawAt(aliases: seq<AliasRecord>, userId: string, draws: seq<nat>, j: nat)
    requires DrawsInRange(draws) && j <= |draws|
    requires forall k :: 0 <= k < j ==> Taken(aliases, userId, GenerateAlias(draws[k]))
    ensures FirstFreeDraw(aliases, userId, draws).Some? ==> FirstFreeDraw(aliases, userId, draws).value >= j
  {
  }

  /** How a `getAlias` call ends: an alias, the rethrown store error, or still looping when the draws run out. */
  datatype AliasOutcome = Resolved(alias: string) | StoreError | Diverged

  datatype AliasStep = AliasStep(outcome: AliasOutcome, table: seq<AliasRecord>)

  /** The draw-probe-insert part of `getAlias`, run when the session has no alias yet. */
  function DrawAlias(aliases: seq<AliasRecord>, userId: string, socketId: string, draws: seq<nat>, faultAt: Option<nat>): AliasStep
    requires DrawsInRange(draws)
  {
    match FirstFreeDraw(aliases, userId, draws)
    case None =>
      if faultAt.Some? && faultAt.value <= |draws| then AliasStep(StoreError, aliases)
      else AliasStep(Diverged, aliases)
    case Some(j) =>
      if faultAt.Some? && faultAt.value <= j + 2 then AliasStep(StoreError, aliases)
      else
        var a := GenerateAlias(draws[j]);
        AliasStep(Resolved(a), aliases + [AliasRecord(userId, a, socketId)])
  }

  /** The specification of `getAlias`: its outcome and the aliases collection afterwards. */
  function ResolveAlias(aliases: seq<AliasRecord>, userId: string, socketId: string, draws: seq<nat>, faultAt: Option<nat>): AliasStep
    requires DrawsInRange(draws)
  {
    if faultAt == Some(0) then AliasStep(StoreError, aliases)
    else match ExistingAlias(aliases, userId, socketId)
      case Some(a) => AliasStep(Resolved(a), aliases)
      case None => DrawAlias(aliases, userId, socketId, draws, faultAt)
  }

  /** `getAlias(userId, socketId)` */
  method GetAlias(db: Database, userId: string, socketId: string, draws: seq<nat>, faultAt: Option<nat>)
    returns (r: AliasOutcome)
    requires DrawsInRange(draws)
    modifies db
    ensures var step := ResolveAlias(old(db.aliases), userId, socketId, draws, faultAt);
            r == step.outcome && db.aliases == step.table
    ensures db.users == old(db.users)
  {
    if faultAt == Some(0) {
      return StoreError;
    }
    var existing := ExistingAlias(db.aliases, userId, socketId);
    if existing.Some? {
      return Resolved(existing.value);
    }
    r := DrawUntilFree(db, userId, socketId, draws, faultAt);
  }

  /**
   * The do/while loop of `getAlias`: probe draw after draw until one is free
   * for the account, a probe throws, or the draws run out. Returns how many
   * draws collided before the loop stopped.
   */
  method ProbeDraws(db: Database, userId: string, draws: seq<nat>, faultAt: Option<nat>) returns (j: nat)
    requires DrawsInRange(draws)
    requires faultAt != Some(0)
    ensures j <= |draws|
    ensures forall k :: 0 <= k < j ==> Taken(db.aliases, userId, GenerateAlias(draws[k]))
    ensures faultAt.Some? ==> faultAt.value > j
    ensures j < |draws| ==> faultAt == Some(j + 1) || !Taken(db.aliases, userId, GenerateAlias(draws[j]))
  {
    j := 0;
    while j < |draws|
      invariant j <= |draws|
      invariant forall k :: 0 <= k < j ==> Taken(db.aliases, userId, GenerateAlias(draws[k]))
      invariant faultAt.Some? ==> faultAt.value > j
    {
      if faultAt == Some(j + 1) || !Taken(db.aliases, userId, GenerateAlias(draws[j])) {
        return;
      }
      j := j + 1;
    }
  }

  /** The do/while loop of `getAlias` and the insert after it (store calls 1, 2, ...). */
  method DrawUntilFree(db: Database, userId: string, socketId: string, draws: seq<nat>, faultAt: Option<nat>)
    returns (r: AliasOutcome)
    requires DrawsInRange(draws)
    requires faultAt != Some(0)
    modifies db
    ensures var step := DrawAlias(old(db.aliases), userId, socketId, draws, faultAt);
            r == step.outcome && db.aliases == step.table
    ensures db.users == old(db.users)
  {
    var j := ProbeDraws(db, userId, draws, faultAt);
    if j == |draws| {
      DrawsExhausted(db.aliases, userId, socketId, draws, faultAt);
      if faultAt.Some? && faultAt.value <= |draws| {
        return StoreError;
      }
      return Diverged;
    }
    if faultAt == Some(j + 1) {
      ProbeFaultEndsDraw(db.aliases, userId, socketId, draws, faultAt, j);
      return StoreError;
    }
    FreeDrawEndsLoop(db.aliases, userId, socketId, draws, faultAt, j);
    if faultAt == Some(j + 2) {
      return StoreError;
    }
    var alias := GenerateAlias(draws[j]);
    db.aliases := db.aliases + [AliasRecord(userId, alias, socketId)];
    r := Resolved(alias);
  }

  /** A probe that throws after `j` colliding draws ends the draw with the store error and no insert. */
  lemma ProbeFaultEndsDraw(aliases: seq<AliasRecord>, userId: string, socketId: string, draws: seq<nat>, faultAt: Option<nat>, j: nat)
    requires DrawsInRange(draws) && j < |draws|
    requires forall k :: 0 <= k < j ==> Taken(aliases, userId, GenerateAlias(draws[k]))
    requires faultAt == Some(j + 1)
    ensures DrawAlias(aliases, userId, socketId, draws, faultAt) == AliasStep(StoreError, aliases)
  {
    FirstFreeDrawAt(aliases, userId, draws, j);
  }

  /** A free draw after `j` colliding ones is where the loop stops: its alias is inserted unless the probe or the insert throws. */
  lemma FreeDrawEndsLoop(aliases: seq<AliasRecord>, userId: string, socketId: string, draws: seq<nat>, faultAt: Option<nat>, j: nat)
    requires DrawsInRange(draws) && j < |draws|
    requires forall k :: 0 <= k < j ==> Taken(aliases, userId, GenerateAlias(draws[k]))
    requires !Taken(aliases, userId, GenerateAlias(draws[j]))
    ensures DrawAlias(aliases, userId, socketId, draws, faultAt)
              == if faultAt.Some? && faultAt.value <= j + 2 then AliasStep(StoreError, aliases)
                 else AliasStep(Resolved(GenerateAlias(draws[j])), aliases + [AliasRecord(userId, GenerateAlias(draws[j]), socketId)])
  {
    FirstFreeDrawIs(aliases, userId, draws, j);
  }

  /** When every draw collides, the loop has not ended unless a probe threw. */
  lemma DrawsExhausted(aliases: seq<AliasRecord>, userId: string, socketId: string, draws: seq<nat>, faultAt: Option<nat>)
    requires DrawsInRange(draws)
    requires forall k :: 0 <= k < |draws| ==> Taken(aliases, userId, GenerateAlias(draws[k]))
    ensures DrawAlias(aliases, userId, socketId, draws, faultAt)
              == if faultAt.Some? && faultAt.value <= |draws| then AliasStep(StoreError, aliases) else AliasStep(Diverged, aliases)
  {
    FirstFreeDrawAt(aliases, userId, draws, |draws|);
  }

  /** `getSocketId(userId, alias)`: `aliasDoc?.socketId || null`, so an empty socket id reads as absent. */
  function GetSocketId(aliases: seq<AliasRecord>, userId: string, alias: string, fails: bool): (r: Lookup<string>)
    ensures fails <==> r.StoreFailure?
    ensures r.Present? ==> r.value != "" && exists k :: 0 <= k < |aliases| && aliases[k] == AliasRecord(userId, alias, r.value)
    ensures !fails && (forall k :: 0 <= k < |aliases| ==> !(aliases[k].userId == userId && aliases[k].alias == alias)) ==> r == Absent
    ensures !fails && FindAlias(aliases, userId, alias).Some? ==>
              var socketId := aliases[FindAlias(aliases, userId, alias).value].socketId;
              r == if socketId == "" then Absent else Present(socketId)
  {
    if fails then StoreFailure
    else match FindAlias(aliases, userId, alias)
      case None => Absent
      case Some(k) => if aliases[k].socketId == "" then Absent else Present(aliases[k].socketId)
  }

  /* ------------------------------------ Properties ------------------------------------ */

  /** A resolved alias is the session's existing one or a generated one (two decimal digits at most), and
      the table afterwards holds the session under that alias; nothing else is added or removed. */
  lemma {:induction false} ResolveAliasOutcome(aliases: seq<AliasRecord>, userId: string, socketId: string, draws: seq<nat>, faultAt: Option<nat>)
    requires DrawsInRange(draws)
    ensures var step := ResolveAlias(aliases, userId, socketId, draws, faultAt);
            && (step.outcome.Resolved? ==> AliasRecord(userId, step.outcome.alias, socketId) in step.table)
            && (step.table == aliases || (step.outcome.Resolved? && step.table == aliases + [AliasRecord(userId, step.outcome.alias, socketId)]))
            && (step.table != aliases ==> ExistingAlias(aliases, userId, socketId).None?
                                          && !Taken(aliases, userId, step.outcome.alias)
                                          && (exists k :: 0 <= k < |draws| && step.outcome.alias == GenerateAlias(draws[k])))
            && (!step.outcome.Resolved? ==> step.table == aliases)
  {
    var step := ResolveAlias(aliases, userId, socketId, draws, faultAt);
    if faultAt != Some(0) && ExistingAlias(aliases, userId, socketId).Some? {
      var a := ExistingAlias(aliases, userId, socketId).value;
      var k :| 0 <= k < |aliases| && aliases[k] == AliasRecord(userId, a, socketId);
      assert aliases[k] in step.table;
    }
  }

  /** An existing session alias is returned as it is and the table does not change (unless the first lookup fails). */
  lemma ExistingSessionKeepsAlias(aliases: seq<AliasRecord>, userId: string, socketId: string, draws: seq<nat>, faultAt: Option<nat>, a: string)
    requires DrawsInRange(draws)
    requires faultAt != Some(0)
    requires ExistingAlias(aliases, userId, socketId) == Some(a)
    ensures ResolveAlias(aliases, userId, socketId, draws, faultAt) == AliasStep(Resolved(a), aliases)
  {
  }

  /** Only the same account's aliases block a candidate: records of other accounts never matter. */
  lemma {:induction false} OtherAccountsNeverCollide(aliases: seq<AliasRecord>, other: AliasRecord, userId: string, alias: string)
    requires other.userId != userId
    ensures Taken(aliases + [other], userId, alias) == Taken(aliases, userId, alias)
    ensures Taken([other] + aliases, userId, alias) == Taken(aliases, userId, alias)
  {
    if FindAlias(aliases, userId, alias).Some? {
      var k := FindAlias(aliases, userId, alias).value;
      assert (aliases + [other])[k] == aliases[k];
      assert ([other] + aliases)[k + 1] == aliases[k];
    }
    if FindAlias(aliases + [other], userId, alias).Some? {
      var k := FindAlias(aliases + [other], userId, alias).value;
      assert k < |aliases| && (aliases + [other])[k] == aliases[k];
    }
    if FindAlias([other] + aliases, userId, alias).Some? {
      var k := FindAlias([other] + aliases, userId, alias).value;
      assert k >= 1 && ([other] + aliases)[k] == aliases[k - 1];
    }
  }

  /** `getAlias` keeps every account's aliases distinct. */
  lemma GetAliasPreservesUnique(aliases: seq<AliasRecord>, userId: string, socketId: string, draws: seq<nat>, faultAt: Option<nat>)
    requires DrawsInRange(draws)
    requires AliasesUniquePerUser(aliases)
    ensures AliasesUniquePerUser(ResolveAlias(aliases, userId, socketId, draws, faultAt).table)
  {
    var step := ResolveAlias(aliases, userId, socketId, draws, faultAt);
    ResolveAliasOutcome(aliases, userId, socketId, draws, faultAt);
    if step.table != aliases {
      var t := step.table;
      var a := step.outcome.alias;
      forall i, j | 0 <= i < j < |t| && t[i].userId == t[j].userId
        ensures t[i].alias != t[j].alias
      {
        if j == |aliases| {
          assert t[j] == AliasRecord(userId, a, socketId);
          assert t[i] == aliases[i];
          assert !(aliases[i].userId == userId && aliases[i].alias == a);
        }
      }
    }
  }

  /** Round trip: once `getAlias(u, s)` resolves `a`, `getSocketId(u, a)` finds `s` (aliases unique per account). */
  lemma GetAliasThenGetSocketId(aliases: seq<AliasRecord>, userId: string, socketId: string, draws: seq<nat>, faultAt: Option<nat>)
    requires DrawsInRange(draws)
    requires AliasesUniquePerUser(aliases)
    requires socketId != ""
    ensures var step := ResolveAlias(aliases, userId, socketId, draws, faultAt);
            step.outcome.Resolved? ==> GetSocketId(step.table, userId, step.outcome.alias, false) == Present(socketId)
  {
    var step := ResolveAlias(aliases, userId, socketId, draws, faultAt);
    if step.outcome.Resolved? {
      var a := step.outcome.alias;
      var t := step.table;
      ResolveAliasOutcome(aliases, userId, socketId, draws, faultAt);
      GetAliasPreservesUnique(aliases, userId, socketId, draws, faultAt);
      var k :| 0 <= k < |t| && t[k] == AliasRecord(userId, a, socketId);
      var f := FindAlias(t, userId, a);
      assert f.Some?;
      assert f.value == k;
    }
  }

  /** `getSocketId` matches on the account too: an alias held only by other accounts reads as absent. */
  lemma GetSocketIdIgnoresOtherAccounts(aliases: seq<AliasRecord>, userId: string, alias: string)
    requires forall k :: 0 <= k < |aliases| && aliases[k].alias == alias ==> aliases[k].userId != userId
    ensures GetSocketId(aliases, userId, alias, false) == Absent
  {
  }
}
