/**
 The claim store of the Kubernetes backend and the calls that change it.  A deleted claim stays
 with its deletion mark until the API server has removed it; every reader passes such claims over.
 */
module Claims {
  import opened Wrappers
  import opened Listing
  import Transfers
  import TransferRuns

  type ClaimName = string
  type Store = map<ClaimName, Claim>

  /** Times are in nanoseconds. */
  const SECOND := 1_000_000_000

  /** Names are those of the claims; what a list call returns is every claim that matches, once each. */
  ghost predicate ListsAll(order: seq<ClaimName>, claims: Store, matches: Claim -> bool) {
    && (forall i, j | 0 <= i < j < |order| :: order[i] != order[j])
    && (forall name | name in order :: name in claims && matches(claims[name]))
    && (forall name | name in claims && matches(claims[name]) :: name in order)
  }

  lemma ListedExist(order: seq<ClaimName>, claims: Store, matches: Claim -> bool)
    requires ListsAll(order, claims, matches)
    ensures forall name | name in order :: name in claims
  {
  }

  predicate Managed(c: Claim) {
    c.managed
  }

  predicate OfKey(c: Claim, scope: Scope, key: string) {
    c.managed && c.scope == scope && c.key == key
  }

  predicate ReadableClaim(c: Claim) {
    RecordFromClaim(c).Some?
  }

  /** Standing and not expired. */
  predicate GoodAt(c: Claim, now: Time) {
    !c.deleting && ReadableClaim(c) && now < RecordFromClaim(c).value.expiresAt
  }

  /** Standing but expired. */
  predicate ExpiredAt(c: Claim, now: Time) {
    !c.deleting && ReadableClaim(c) && RecordFromClaim(c).value.expiresAt <= now
  }

  function Marked(c: Claim): Claim {
    c.(deleting := true)
  }

  /** Nothing but the deletion mark of expired claims has changed. */
  predicate OnlyExpiredMarked(before: Store, after: Store, now: Time) {
    && after.Keys == before.Keys
    && (forall name | name in before :: after[name] == before[name] || (ExpiredAt(before[name], now) && after[name] == Marked(before[name])))
  }

  /** Among claims of one scope and key at most one is good. */
  predicate OneGoodPerKey(claims: Store, now: Time) {
    forall a, b | a in claims && b in claims && SameKey(claims[a], claims[b]) && GoodAt(claims[a], now) && GoodAt(claims[b], now) :: a == b
  }

  predicate SameKey(a: Claim, b: Claim) {
    a.managed && b.managed && a.scope == b.scope && a.key == b.key
  }

  /** Some claims have been marked for deletion and some are gone; nothing else has changed. */
  predicate Reduced(before: Store, after: Store) {
    && after.Keys <= before.Keys
    && (forall name | name in after :: after[name] == before[name] || after[name] == Marked(before[name]))
  }

  /** Passing time, deletions of any claims and their final removal leave a key with no more good claims than it had. */
  lemma GoodClaimsOnlyFade(before: Store, after: Store, now: Time, later: Time)
    requires OneGoodPerKey(before, now) && Reduced(before, after) && now <= later
    ensures OneGoodPerKey(after, later)
  {
    forall a, b | a in after && b in after && SameKey(after[a], after[b]) && GoodAt(after[a], later) && GoodAt(after[b], later) ensures a == b {
      assert after[a] == before[a] && after[b] == before[b];
      assert SameKey(before[a], before[b]) && GoodAt(before[a], now) && GoodAt(before[b], now);
    }
  }

  predicate HasGood(claims: Store, scope: Scope, key: string, now: Time, record: Record) {
    exists name | name in claims :: OfKey(claims[name], scope, key) && GoodAt(claims[name], now) && RecordFromClaim(claims[name]) == Some(record)
  }

  predicate NoneGood(claims: Store, scope: Scope, key: string, now: Time) {
    forall name | name in claims && OfKey(claims[name], scope, key) :: !GoodAt(claims[name], now)
  }

  predicate Unreadable(claims: Store, name: ClaimName, scope: Scope, key: string) {
    name in claims && OfKey(claims[name], scope, key) && !claims[name].deleting && !ReadableClaim(claims[name])
  }

  /** A lookup goes past claims that are being deleted and past expired ones. */
  predicate PassedOver(c: Claim, now: Time) {
    c.deleting || (ReadableClaim(c) && RecordFromClaim(c).value.expiresAt <= now)
  }

  /** The first listed claim that a lookup does not go past. */
  predicate StopsAt(claims: Store, order: seq<ClaimName>, i: nat, now: Time) {
    && i < |order| && (forall name | name in order :: name in claims)
    && !PassedOver(claims[order[i]], now) && forall j: nat | j < i :: PassedOver(claims[order[j]], now)
  }

  /** The lookup comes to a good claim first, with this record. */
  ghost predicate ReachesGood(claims: Store, order: seq<ClaimName>, now: Time, record: Record) {
    exists i: nat | i < |order| :: StopsAt(claims, order, i, now) && RecordFromClaim(claims[order[i]]) == Some(record)
  }

  /** The lookup comes to a claim first that cannot be read. */
  ghost predicate ReachesUnreadable(claims: Store, order: seq<ClaimName>, now: Time) {
    exists i: nat | i < |order| :: StopsAt(claims, order, i, now) && RecordFromClaim(claims[order[i]]).None?
  }

  ghost predicate ReachesNone(claims: Store, order: seq<ClaimName>, now: Time) {
    forall name | name in order :: name in claims && PassedOver(claims[name], now)
  }

  lemma StopsOnce(claims: Store, order: seq<ClaimName>, now: Time)
    ensures forall i: nat, j: nat | StopsAt(claims, order, i, now) && StopsAt(claims, order, j, now) :: i == j
  {
    forall i: nat, j: nat | StopsAt(claims, order, i, now) && StopsAt(claims, order, j, now) ensures i == j {
      assert !(i < j) && !(j < i);
    }
  }

  /** The lookup comes to exactly one of these. */
  lemma ReachesOne(claims: Store, order: seq<ClaimName>, now: Time)
    requires forall name | name in order :: name in claims
    ensures ReachesNone(claims, order, now) ==> !ReachesUnreadable(claims, order, now) && forall record :: !ReachesGood(claims, order, now, record)
    ensures ReachesUnreadable(claims, order, now) ==> forall record :: !ReachesGood(claims, order, now, record)
    ensures forall record, other | ReachesGood(claims, order, now, record) && ReachesGood(claims, order, now, other) :: other == record
  {
    StopsOnce(claims, order, now);
  }

  /** Where a lookup stands after n claims: they were passed over, and the expired ones deleted if that was accepted. */
  ghost predicate Looked(before: Store, after: Store, order: seq<ClaimName>, n: nat, now: Time, accepts: ClaimName -> bool) {
    && n <= |order| && OnlyExpiredMarked(before, after, now) && (forall name | name in order :: name in before)
    && (forall j: nat | j < n :: PassedOver(before[order[j]], now))
    && (forall j: nat | j < n && ExpiredAt(before[order[j]], now) && accepts(order[j]) :: after[order[j]].deleting)
    && (forall j: nat | n <= j < |order| :: after[order[j]] == before[order[j]])
  }

  lemma LookedOneMore(first: Store, before: Store, after: Store, order: seq<ClaimName>, n: nat, now: Time, accepts: ClaimName -> bool)
    requires Looked(first, before, order, n, now, accepts) && n < |order| && PassedOver(first[order[n]], now)
    requires forall i, j | 0 <= i < j < |order| :: order[i] != order[j]
    requires if ExpiredAt(first[order[n]], now) && accepts(order[n]) then after == before[order[n] := Marked(before[order[n]])] else after == before
    ensures Looked(first, after, order, n + 1, now, accepts)
  {
    if ExpiredAt(first[order[n]], now) {
      MarkedOne(first, before, after, order[n], now);
    }
  }

  lemma NothingLooked(claims: Store, order: seq<ClaimName>, now: Time, accepts: ClaimName -> bool)
    requires forall name | name in order :: name in claims
    ensures Looked(claims, claims, order, 0, now, accepts)
  {
  }

  lemma LookedMarks(before: Store, after: Store, order: seq<ClaimName>, now: Time, accepts: ClaimName -> bool)
    requires Looked(before, after, order, |order|, now, accepts)
    ensures after.Keys == before.Keys && forall name | name in order && ExpiredAt(before[name], now) && accepts(name) :: after[name].deleting
  {
    forall name | name in order && ExpiredAt(before[name], now) && accepts(name) ensures after[name].deleting {
      var j: nat :| j < |order| && order[j] == name;
      assert after[order[j]].deleting;
    }
  }

  /** What the end of a lookup says about all claims of the key. */
  lemma LookedAtAll(before: Store, after: Store, order: seq<ClaimName>, n: nat, now: Time, accepts: ClaimName -> bool, scope: Scope, key: string)
    requires Looked(before, after, order, n, now, accepts) && ListsAll(order, before, (c: Claim) => OfKey(c, scope, key))
    ensures OnlyExpiredMarked(before, after, now) && Reduced(before, after)
    ensures n == |order| ==> ReachesNone(before, order, now) && NoneGood(before, scope, key, now)
    ensures n < |order| && !PassedOver(before[order[n]], now) ==>
              if RecordFromClaim(before[order[n]]).Some? then
                var record := RecordFromClaim(before[order[n]]).value;
                ReachesGood(before, order, now, record) && HasGood(before, scope, key, now, record)
              else ReachesUnreadable(before, order, now) && Unreadable(before, order[n], scope, key)
  {
    var matches := (c: Claim) => OfKey(c, scope, key);
    assert forall name | name in order :: matches(before[name]);
    if n == |order| {
      forall name | name in before && OfKey(before[name], scope, key) ensures !GoodAt(before[name], now) {
        assert matches(before[name]);
        var j: nat :| j < |order| && order[j] == name;
        assert PassedOver(before[order[j]], now);
      }
    } else if !PassedOver(before[order[n]], now) {
      assert StopsAt(before, order, n, now);
    }
  }

  lemma MarkedOne(first: Store, before: Store, after: Store, name: ClaimName, now: Time)
    requires OnlyExpiredMarked(first, before, now) && name in before && before[name] == first[name] && ExpiredAt(first[name], now)
    requires after == before || after == before[name := Marked(before[name])]
    ensures OnlyExpiredMarked(first, after, now)
  {
  }

  datatype FindResult = Found(record: Record) | NotFound | Malformed

  datatype AcquireResult = Created(record: Record) | Replayed(record: Record) | NoSuchPool | InvalidTtl | Failed

  datatype ReleaseStatus = Released | Expired

  datatype ReleaseResult = Ended(record: Record, status: ReleaseStatus) | NoSuchClaim | BadClaim | StopFailed | DeleteFailed

  datatype DeleteError = Missing | NotStopped | NotAccepted

  class ClaimStore {
    const pools: set<string>
    const defaultTtl: int
    const maxTtl: int
    var claims: Store

    constructor (pools: set<string>, defaultTtl: int, maxTtl: int)
      ensures claims == map[] && this.pools == pools && this.defaultTtl == defaultTtl && this.maxTtl == maxTtl
    {
      this.pools, this.defaultTtl, this.maxTtl, claims := pools, defaultTtl, maxTtl, map[];
    }

    /** Ask for a deletion; `accepted` is the API server's answer, and a claim that is gone is no error. */
    method DeleteClaim(name: ClaimName, accepted: bool) returns (ok: bool)
      modifies this`claims
      ensures ok <==> name !in old(claims) || accepted
      ensures claims == if name in old(claims) && accepted then old(claims)[name := Marked(old(claims)[name])] else old(claims)
    {
      if name !in claims {
        return true;
      }
      if accepted {
        claims := claims[name := Marked(claims[name])];
      }
      return accepted;
    }

    /** The claim of a key: the first good one; expired ones are deleted on the way, and failing to is ignored. */
    method FindByIdempotencyKey(order: seq<ClaimName>, scope: Scope, key: string, now: Time, accepts: ClaimName -> bool)
      returns (result: FindResult)
      requires ListsAll(order, claims, (c: Claim) => OfKey(c, scope, key))
      modifies this`claims
      ensures OnlyExpiredMarked(old(claims), claims, now) && Reduced(old(claims), claims)
      ensures result.Found? ==> ReachesGood(old(claims), order, now, result.record)
      ensures result.Malformed? ==> ReachesUnreadable(old(claims), order, now)
      ensures result.NotFound? ==> ReachesNone(old(claims), order, now)
      ensures result.NotFound? ==> forall name | name in order && ExpiredAt(old(claims)[name], now) && accepts(name) :: claims[name].deleting
      ensures result.Found? ==> HasGood(old(claims), scope, key, now, result.record)
      ensures result.NotFound? ==> NoneGood(old(claims), scope, key, now)
      ensures result.Malformed? ==> exists name :: Unreadable(old(claims), name, scope, key)
    {
      hide OnlyExpiredMarked, Looked, ReachesGood, ReachesUnreadable, ReachesNone, HasGood, NoneGood, Reduced;
      NothingLooked(claims, order, now, accepts);
      for i := 0 to |order|
        invariant Looked(old(claims), claims, order, i, now, accepts) && claims.Keys == old(claims).Keys
        invariant forall j: nat | i <= j < |order| :: claims[order[j]] == old(claims)[order[j]]
      {
        LookedAtAll(old(claims), claims, order, i, now, accepts, scope, key);
        var name := order[i];
        var claim := claims[name];
        ghost var before := claims;
        if !claim.deleting {
          var record := RecordFromClaim(claim);
          if record.None? {
            return Malformed;
          }
          if now < record.value.expiresAt {
            return Found(record.value);
          }
          var _ := DeleteClaim(name, accepts(name));
        }
        LookedOneMore(old(claims), before, claims, order, i, now, accepts);
      }
      LookedAtAll(old(claims), claims, order, |order|, now, accepts, scope, key);
      LookedMarks(old(claims), claims, order, now, accepts);
      return NotFound;
    }

    /**
     Acquire a lease, under the mutex that keeps acquisitions apart.  `ready` says whether the new
     claim becomes ready with the runtime of its pool; if not it is deleted again, as far as the API goes.
     */
    method Acquire(order: seq<ClaimName>, scope: Scope, pool: string, key: string, ttl: Option<int>, now: Time,
                   newName: ClaimName, accepts: ClaimName -> bool, created: bool, ready: bool) returns (result: AcquireResult)
      requires ListsAll(order, claims, (c: Claim) => OfKey(c, scope, key)) && newName !in claims
      requires OneGoodPerKey(claims, now)
      modifies this`claims
      ensures forall later | later >= now :: OneGoodPerKey(claims, later)
      ensures result.NoSuchPool? <==> pool !in pools
      ensures result.InvalidTtl? <==> pool in pools && !(0 < ttl.GetOr(defaultTtl) <= maxTtl)
      ensures pool in pools && 0 < ttl.GetOr(defaultTtl) <= maxTtl ==>
                && (forall record :: result == Replayed(record) <==> ReachesGood(old(claims), order, now, record))
                && (result.Created? <==> ReachesNone(old(claims), order, now) && created && ready)
                && (result.Failed? <==> ReachesUnreadable(old(claims), order, now)
                                        || (ReachesNone(old(claims), order, now) && !(created && ready)))
                && (newName in claims <==> ReachesNone(old(claims), order, now) && created)
                && (newName in claims && !ready ==> claims[newName].deleting == accepts(newName))
      ensures result.NoSuchPool? || result.InvalidTtl? ==> claims == old(claims)
      ensures OnlyExpiredMarked(old(claims), claims - {newName}, now)
      ensures result.Replayed? ==> HasGood(old(claims), scope, key, now, result.record)
      ensures result.Created? ==>
                && NoneGood(old(claims), scope, key, now)
                && newName in claims && OfKey(claims[newName], scope, key) && !claims[newName].deleting
                && claims[newName].managed && claims[newName].scope == scope && claims[newName].key == key && claims[newName].poolLabel == pool
                && RecordFromClaim(claims[newName]) == Some(result.record)
                && result.record == Record(newName, pool, now, now + ttl.GetOr(defaultTtl) * SECOND)
    {
      hide ReachesGood, ReachesUnreadable, ReachesNone, HasGood, OneGoodPerKey;
      ListedExist(order, claims, (c: Claim) => OfKey(c, scope, key));
      if pool !in pools {
        FadeAlways(claims, claims, now);
        return NoSuchPool;
      }
      var seconds := ttl.GetOr(defaultTtl);
      if seconds <= 0 || seconds > maxTtl {
        FadeAlways(claims, claims, now);
        return InvalidTtl;
      }
      ReachesOne(claims, order, now);
      var found := FindByIdempotencyKey(order, scope, key, now, accepts);
      FadeAlways(old(claims), claims, now);
      match found {
        case Found(record) => return Replayed(record);
        case Malformed => return Failed;
        case NotFound =>
      }
      if !created {
        return Failed;
      }
      var claim := Claim(newName, true, scope, key, pool, false, pool, Some(now), Some(now + seconds * SECOND));
      ghost var swept := claims;
      claims := claims[newName := claim];
      assert claims - {newName} == swept;
      if !ready {
        var _ := DeleteClaim(newName, accepts(newName));
        NewClaimAlways(swept, claims, newName, scope, key, now);
        return Failed;
      }
      NewClaimAlways(swept, claims, newName, scope, key, now);
      return Created(Record(newName, pool, now, now + seconds * SECOND));
    }

    /**
     Stop the transfers of the lease, then delete its claim.  `signalled` are the transfers that
     end before the caller gives up waiting for them.
     */
    method Release(scope: Scope, name: ClaimName, now: Time, transfers: Transfers.TransferManager, signalled: set<Transfers.OpId>, accepted: bool)
      returns (result: ReleaseResult)
      modifies this`claims, transfers`blocked
      ensures result.NoSuchClaim? <==>
                !(name in old(claims) && !old(claims)[name].deleting && old(claims)[name].managed && old(claims)[name].scope == scope)
      ensures result.BadClaim? <==> Owns(old(claims), scope, name) && !ReadableClaim(old(claims)[name])
      ensures result.Ended? <==> Owns(old(claims), scope, name) && ReadableClaim(old(claims)[name])
                                 && Transfers.Stops(old(transfers.Model()), name, signalled) && accepted
      ensures result.Ended? ==>
                && RecordFromClaim(old(claims)[name]) == Some(result.record)
                && (result.status.Expired? <==> ExpiredAt(old(claims)[name], now))
                && claims == old(claims)[name := Marked(old(claims)[name])]
      ensures result.Ended? ==> TransferRuns.IdleOnceSignalled(old(transfers.Model()), name, signalled)
      ensures !result.Ended? ==> claims == old(claims)
      ensures Reduced(old(claims), claims)
      ensures transfers.Model() == if result.NoSuchClaim? || result.BadClaim? then old(transfers.Model())
                                   else Transfers.Block(old(transfers.Model()), name).0
    {
      if !Owns(claims, scope, name) {
        return NoSuchClaim;
      }
      var record := RecordFromClaim(claims[name]);
      if record.None? {
        return BadClaim;
      }
      var status := if now < record.value.expiresAt then Released else Expired;
      var stopped := transfers.StopLease(name, signalled);
      if !stopped {
        return StopFailed;
      }
      TransferRuns.StopsIsIdle(old(transfers.Model()), name, signalled);
      var ok := DeleteClaim(name, accepted);
      return if ok then Ended(record.value, status) else DeleteFailed;
    }

    method Delete(scope: Scope, name: ClaimName, transfers: Transfers.TransferManager, signalled: set<Transfers.OpId>, accepted: bool)
      returns (result: Option<DeleteError>)
      modifies this`claims, transfers`blocked
      ensures result == if !Owns(old(claims), scope, name) then Some(Missing)
                        else if !Transfers.Stops(old(transfers.Model()), name, signalled) then Some(NotStopped)
                        else if !accepted then Some(NotAccepted) else None
      ensures result == Some(Missing) <==>
                !(name in old(claims) && !old(claims)[name].deleting && old(claims)[name].managed && old(claims)[name].scope == scope)
      ensures result.None? ==> TransferRuns.IdleOnceSignalled(old(transfers.Model()), name, signalled)
      ensures claims == if result.None? then old(claims)[name := Marked(old(claims)[name])] else old(claims)
      ensures Reduced(old(claims), claims)
      ensures transfers.Model() == if result == Some(Missing) then old(transfers.Model()) else Transfers.Block(old(transfers.Model()), name).0
    {
      if !Owns(claims, scope, name) {
        return Some(Missing);
      }
      var stopped := transfers.StopLease(name, signalled);
      if !stopped {
        return Some(NotStopped);
      }
      TransferRuns.StopsIsIdle(old(transfers.Model()), name, signalled);
      var ok := DeleteClaim(name, accepted);
      return if ok then None else Some(NotAccepted);
    }

    /** A claim of a sweep: an expired one is deleted after its transfers were stopped. */
    method SweepOne(name: ClaimName, now: Time, transfers: Transfers.TransferManager, signalled: set<Transfers.OpId>, accepted: bool) returns (ok: bool)
      requires name in claims
      modifies this`claims, transfers`blocked
      ensures claims == old(claims) || (ok && claims == old(claims)[name := Marked(old(claims)[name])])
      ensures claims != old(claims) ==> name in transfers.blocked && Transfers.Stops(old(transfers.Model()), name, signalled) && ExpiredAt(old(claims)[name], now)
      ensures ok ==> claims[name].deleting || GoodAt(claims[name], now)
      ensures !ok ==> claims == old(claims) && ObstructsAt(claims[name], now, Transfers.Stops(old(transfers.Model()), name, signalled), accepted)
      ensures transfers.Model() == old(transfers.Model()).(blocked := transfers.blocked) && old(transfers.blocked) <= transfers.blocked
    {
      var claim := claims[name];
      if claim.deleting {
        return true;
      }
      var record := RecordFromClaim(claim);
      if record.None? {
        return false;
      }
      if now < record.value.expiresAt {
        return true;
      }
      ok := transfers.StopLease(name, signalled);
      if ok {
        ok := DeleteClaim(name, accepted);
      }
    }

    /**
     Delete every expired claim, each after its transfers were stopped; the first error ends the sweep.
     The clock is read for every claim anew.
     */
    method SweepExpired(order: seq<ClaimName>, clock: nat -> Time, transfers: Transfers.TransferManager, signalled: set<Transfers.OpId>, accepts: ClaimName -> bool)
      returns (ok: bool)
      requires ListsAll(order, claims, Managed)
      modifies this`claims, transfers`blocked
      ensures Swept(old(claims), claims, order, |order|, clock)
      ensures forall name | name in claims && claims[name] != old(claims)[name] ::
                && name in transfers.blocked && Transfers.Stops(old(transfers.Model()), name, signalled)
                && TransferRuns.IdleOnceSignalled(old(transfers.Model()), name, signalled)
      ensures ok ==> Settled(claims, order, |order|, clock)
      ensures !ok ==> exists i :: Obstructs(old(claims), order, i, clock, old(transfers.Model()), signalled, accepts)
      ensures transfers.Model() == old(transfers.Model()).(blocked := transfers.blocked) && old(transfers.blocked) <= transfers.blocked
    {
      hide GoodAt, ExpiredAt, ObstructsAt, SameKey, Swept, Settled, Reduced;
      NothingSwept(claims, order, clock);
      for i := 0 to |order|
        invariant Swept(old(claims), claims, order, i, clock) && claims.Keys == old(claims).Keys
        invariant Settled(claims, order, i, clock)
        invariant forall j | i <= j < |order| :: claims[order[j]] == old(claims)[order[j]]
        invariant forall name | name in claims && claims[name] != old(claims)[name] ::
                    name in transfers.blocked && Transfers.Stops(old(transfers.Model()), name, signalled)
        invariant transfers.Model() == old(transfers.Model()).(blocked := transfers.blocked) && old(transfers.blocked) <= transfers.blocked
      {
        ghost var before := claims;
        var swept := SweepOne(order[i], clock(i), transfers, signalled, accepts(order[i]));
        if !swept {
          assert Obstructs(old(claims), order, i, clock, old(transfers.Model()), signalled, accepts);
          SweptStays(old(claims), claims, order, i, clock);
          SweptIdle(old(claims), claims, old(transfers.Model()), signalled);
          return false;
        }
        SweptOneMore(old(claims), before, claims, order, i, clock);
      }
      SweptIdle(old(claims), claims, old(transfers.Model()), signalled);
      return true;
    }
  }

  lemma SweptIdle(before: Store, after: Store, p: Transfers.Permits, signalled: set<Transfers.OpId>)
    requires forall name | name in after && name in before && after[name] != before[name] :: Transfers.Stops(p, name, signalled)
    ensures forall name | name in after && name in before && after[name] != before[name] :: TransferRuns.IdleOnceSignalled(p, name, signalled)
  {
    forall name | name in after && name in before && after[name] != before[name] ensures TransferRuns.IdleOnceSignalled(p, name, signalled) {
      TransferRuns.StopsIsIdle(p, name, signalled);
    }
  }

  /** Nothing but the deletion mark of claims that were expired when the sweep came to them has changed. */
  predicate Swept(before: Store, after: Store, order: seq<ClaimName>, n: nat, clock: nat -> Time) {
    && n <= |order| && Reduced(before, after) && after.Keys == before.Keys
    && forall name | name in after && after[name] != before[name] ::
         exists i: nat | i < n :: order[i] == name && ExpiredAt(before[name], clock(i))
  }

  /** None of these claims stood expired when the sweep came to it, or it is marked now. */
  predicate Settled(claims: Store, order: seq<ClaimName>, n: nat, clock: nat -> Time) {
    n <= |order| && forall i: nat | i < n :: order[i] in claims && (claims[order[i]].deleting || GoodAt(claims[order[i]], clock(i)))
  }

  lemma SweptStays(before: Store, after: Store, order: seq<ClaimName>, n: nat, clock: nat -> Time)
    requires Swept(before, after, order, n, clock)
    ensures Swept(before, after, order, |order|, clock)
  {
  }

  lemma NothingSwept(claims: Store, order: seq<ClaimName>, clock: nat -> Time)
    ensures Swept(claims, claims, order, 0, clock) && Settled(claims, order, 0, clock)
  {
  }

  lemma SweptOneMore(first: Store, before: Store, after: Store, order: seq<ClaimName>, n: nat, clock: nat -> Time)
    requires n < |order| && Swept(first, before, order, n, clock) && order[n] in before && before[order[n]] == first[order[n]]
    requires after == before || (after == before[order[n] := Marked(before[order[n]])] && ExpiredAt(before[order[n]], clock(n)))
    requires Settled(before, order, n, clock) && (after[order[n]].deleting || GoodAt(after[order[n]], clock(n)))
    ensures Swept(first, after, order, n + 1, clock) && Settled(after, order, n + 1, clock)
  {
  }

  /** A claim that ends a sweep: unreadable, or expired and not to be stopped or deleted. */
  predicate ObstructsAt(claim: Claim, now: Time, drained: bool, accepted: bool) {
    !claim.deleting && (!ReadableClaim(claim) || (ExpiredAt(claim, now) && !(drained && accepted)))
  }

  predicate Obstructs(claims: Store, order: seq<ClaimName>, i: nat, clock: nat -> Time, p: Transfers.Permits, signalled: set<Transfers.OpId>, accepts: ClaimName -> bool) {
    i < |order| && order[i] in claims && ObstructsAt(claims[order[i]], clock(i), Transfers.Stops(p, order[i], signalled), accepts(order[i]))
  }

  /** What the backend takes to be a claim of this tenant. */
  predicate Owns(claims: Store, scope: Scope, name: ClaimName) {
    name in claims && !claims[name].deleting && claims[name].managed && claims[name].scope == scope
  }

  lemma FadeAlways(before: Store, after: Store, now: Time)
    requires OneGoodPerKey(before, now) && Reduced(before, after)
    ensures forall later | later >= now :: OneGoodPerKey(after, later)
  {
    forall later | later >= now ensures OneGoodPerKey(after, later) {
      GoodClaimsOnlyFade(before, after, now, later);
    }
  }

  /** A new claim of a key without a good one keeps it to one. */
  lemma NewClaimAlways(before: Store, after: Store, name: ClaimName, scope: Scope, key: string, now: Time)
    requires name !in before && name in after && after - {name} == before && OfKey(after[name], scope, key)
    requires forall later | later >= now :: OneGoodPerKey(before, later)
    requires NoneGood(before, scope, key, now)
    ensures forall later | later >= now :: OneGoodPerKey(after, later)
  {
    forall later | later >= now ensures OneGoodPerKey(after, later) {
      forall a, b | a in after && b in after && SameKey(after[a], after[b]) && GoodAt(after[a], later) && GoodAt(after[b], later) ensures a == b {
        assert a != name ==> a in after - {name} && after[a] == before[a];
        assert b != name ==> b in after - {name} && after[b] == before[b];
        if a != name && b != name {
          assert OneGoodPerKey(before, later);
        }
      }
    }
  }
}
