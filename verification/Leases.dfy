/**
 The process lease backend: leases by id and the id for each idempotency key.  Each function is
 what one call does between two suspension points; the class does it on its maps in place.
 */
module Leases {
  import opened Wrappers

  type Time = int
  type LeaseId = string

  datatype Scope = Scope(consumer: string, subject: string)

  /** The mapping key of a request: its tenant scope and its idempotency key. */
  datatype Key = Key(scope: Scope, idempotencyKey: string)

  datatype Status = Active | Expired | Released

  datatype Lease = Lease(key: Key, pool: string, status: Status, expiresAt: Time)

  datatype Store = Store(leases: map<LeaseId, Lease>, byKey: map<Key, LeaseId>)

  const EMPTY := Store(map[], map[])

  function Expire(l: Lease, now: Time): Lease {
    if l.status.Active? && now >= l.expiresAt then l.(status := Expired) else l
  }

  function ExpireOne(st: Store, id: LeaseId, now: Time): Store {
    if id in st.leases then st.(leases := st.leases[id := Expire(st.leases[id], now)]) else st
  }

  function ExpireAll(st: Store, now: Time): Store {
    st.(leases := map id | id in st.leases :: Expire(st.leases[id], now))
  }

  function Unmap(byKey: map<Key, LeaseId>, key: Key, id: LeaseId): map<Key, LeaseId> {
    if key in byKey && byKey[key] == id then byKey - {key} else byKey
  }

  function Drop(st: Store, id: LeaseId): Store {
    if id in st.leases then Store(st.leases - {id}, Unmap(st.byKey, st.leases[id].key, id)) else st
  }

  /** The lease of a key; an expired one is deleted on the way. */
  function Find(st: Store, key: Key, now: Time): (Store, Option<LeaseId>) {
    if key !in st.byKey || st.byKey[key] !in st.leases then (st, None)
    else
      var id := st.byKey[key];
      var st' := ExpireOne(st, id, now);
      if st'.leases[id].status.Expired? then (Drop(st', id), None) else (st', Some(id))
  }

  function Insert(st: Store, id: LeaseId, key: Key, pool: string, expiresAt: Time): Store {
    Store(st.leases[id := Lease(key, pool, Active, expiresAt)], st.byKey[key := id])
  }

  datatype Error = NotFound | NotActive

  predicate Owned(st: Store, scope: Scope, id: LeaseId) {
    id in st.leases && st.leases[id].key.scope == scope
  }

  function Release(st: Store, scope: Scope, id: LeaseId, now: Time): (Store, Option<Error>) {
    if !Owned(st, scope, id) then (st, Some(NotFound))
    else
      var st' := ExpireOne(st, id, now);
      if !st'.leases[id].status.Active? then (st', Some(NotActive))
      else (Store(st'.leases[id := st'.leases[id].(status := Released)], Unmap(st'.byKey, st'.leases[id].key, id)), None)
  }

  function Delete(st: Store, scope: Scope, id: LeaseId, now: Time): (Store, Option<Error>) {
    if !Owned(st, scope, id) then (st, Some(NotFound)) else (Drop(ExpireOne(st, id, now), id), None)
  }

  // ----- What the calls answer and change ----------------------------------------------------

  /** Everything but this lease and its mapping is as it was. */
  predicate OnlyLease(st: Store, st': Store, id: LeaseId) {
    && st'.leases - {id} == st.leases - {id}
    && (forall key | key in st'.byKey :: key in st.byKey && st'.byKey[key] == st.byKey[key])
    && (forall key | key in st.byKey && st.byKey[key] != id :: key in st'.byKey)
  }

  /** A release succeeds exactly for the tenant's own lease that is active and has not expired; it is then released, and its key is free. */
  lemma ReleasedExactly(st: Store, scope: Scope, id: LeaseId, now: Time)
    ensures var (st', error) := Release(st, scope, id, now);
      && (error == Some(NotFound) <==> !(id in st.leases && st.leases[id].key.scope == scope))
      && (error.None? <==> id in st.leases && st.leases[id].key.scope == scope && st.leases[id].status == Active && now < st.leases[id].expiresAt)
      && OnlyLease(st, st', id)
      && (error.None? ==>
            && id in st'.leases && st'.leases[id] == st.leases[id].(status := Released)
            && forall key | key in st'.byKey && key == st.leases[id].key :: st'.byKey[key] != id)
      && (error == Some(NotActive) ==>
            && id in st'.leases && st'.byKey == st.byKey
            && st'.leases[id] == if st.leases[id].status == Active then st.leases[id].(status := Expired) else st.leases[id])
      && (error == Some(NotFound) ==> st' == st)
  {
  }

  /** A delete succeeds exactly for the tenant's own lease; it is then gone, and its key is free. */
  lemma DeletedExactly(st: Store, scope: Scope, id: LeaseId, now: Time)
    ensures var (st', error) := Delete(st, scope, id, now);
      && (error.None? <==> id in st.leases && st.leases[id].key.scope == scope)
      && OnlyLease(st, st', id)
      && (error.None? ==> id !in st'.leases && forall key | key in st'.byKey && key == st.leases[id].key :: st'.byKey[key] != id)
      && (error.Some? ==> st' == st && error == Some(NotFound))
  {
  }

  /** Time expires exactly the active leases whose time has come. */
  lemma ExpiredExactly(st: Store, now: Time)
    ensures var st' := ExpireAll(st, now);
      && st'.byKey == st.byKey && st'.leases.Keys == st.leases.Keys
      && forall id | id in st.leases ::
           st'.leases[id] == if st.leases[id].status == Active && st.leases[id].expiresAt <= now then st.leases[id].(status := Expired) else st.leases[id]
    ensures forall id :: ExpireOne(st, id, now) == if id in st.leases then st.(leases := st.leases[id := ExpireAll(st, now).leases[id]]) else st
  {
  }

  // ----- Active leases -----------------------------------------------------------------------

  predicate IsActive(st: Store, id: LeaseId) {
    id in st.leases && st.leases[id].status.Active?
  }

  function ActiveOfScope(st: Store, scope: Scope): set<LeaseId> {
    set id | id in st.leases && st.leases[id].status.Active? && st.leases[id].key.scope == scope
  }

  function ActiveOfConsumer(st: Store, consumer: string): set<LeaseId> {
    set id | id in st.leases && st.leases[id].status.Active? && st.leases[id].key.scope.consumer == consumer
  }

  function ActiveOfPool(st: Store, pool: string): set<LeaseId> {
    set id | id in st.leases && st.leases[id].status.Active? && st.leases[id].pool == pool
  }

  // ----- The backend object ------------------------------------------------------------------

  class ProcessBackend {
    var leases: map<LeaseId, Lease>
    var byKey: map<Key, LeaseId>

    function Model(): Store
      reads this
    {
      Store(leases, byKey)
    }

    constructor ()
      ensures Model() == EMPTY
    {
      leases, byKey := map[], map[];
    }

    method UpdateExpiration(id: LeaseId, now: Time)
      requires id in leases
      modifies this`leases
      ensures Model() == ExpireOne(old(Model()), id, now)
    {
      var l := leases[id];
      if l.status.Active? && now >= l.expiresAt {
        leases := leases[id := l.(status := Expired)];
      }
    }

    method DeleteLease(id: LeaseId)
      requires id in leases
      modifies this
      ensures Model() == Drop(old(Model()), id)
    {
      var key := leases[id].key;
      leases := leases - {id};
      if key in byKey && byKey[key] == id {
        byKey := byKey - {key};
      }
    }

    method FindByIdempotencyKey(key: Key, now: Time) returns (found: Option<LeaseId>)
      modifies this
      ensures (Model(), found) == Find(old(Model()), key, now)
    {
      if key !in byKey || byKey[key] !in leases {
        return None;
      }
      var id := byKey[key];
      UpdateExpiration(id, now);
      if leases[id].status.Expired? {
        DeleteLease(id);
        return None;
      }
      return Some(id);
    }

    /** Mark every lease that has expired, and collect the active ones. */
    method ListActive(now: Time) returns (active: set<LeaseId>)
      modifies this`leases
      ensures Model() == ExpireAll(old(Model()), now)
      ensures active == set id | id in leases && leases[id].status.Active?
    {
      var unseen := leases.Keys;
      active := {};
      while unseen != {}
        invariant unseen <= leases.Keys == old(leases.Keys)
        invariant forall id | id in leases :: leases[id] == if id in unseen then old(leases[id]) else Expire(old(leases[id]), now)
        invariant forall id :: id in active <==> id in leases && id !in unseen && leases[id].status.Active?
        decreases unseen
      {
        var id :| id in unseen;
        UpdateExpiration(id, now);
        if leases[id].status.Active? {
          active := active + {id};
        }
        unseen := unseen - {id};
      }
      assert leases == ExpireAll(old(Model()), now).leases;
    }

    method InsertLease(id: LeaseId, key: Key, pool: string, expiresAt: Time)
      modifies this
      ensures Model() == Insert(old(Model()), id, key, pool, expiresAt)
    {
      leases := leases[id := Lease(key, pool, Active, expiresAt)];
      byKey := byKey[key := id];
    }

    method ReleaseLease(scope: Scope, id: LeaseId, now: Time) returns (error: Option<Error>)
      modifies this
      ensures (Model(), error) == Release(old(Model()), scope, id, now)
    {
      if id !in leases || leases[id].key.scope != scope {
        return Some(NotFound);
      }
      UpdateExpiration(id, now);
      if !leases[id].status.Active? {
        return Some(NotActive);
      }
      var key := leases[id].key;
      leases := leases[id := leases[id].(status := Released)];
      if key in byKey && byKey[key] == id {
        byKey := byKey - {key};
      }
      return None;
    }
  }
}
