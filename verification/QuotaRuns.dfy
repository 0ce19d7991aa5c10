/**
 Quotas over the process backend.  Acquisitions take turns on a promise chain; releases,
 deletions and expiry come in between at every suspension point.  The limits hold in every
 run, a key has at most one active lease, and a failed acquisition does not hold up the chain.
 */
module QuotaRuns {
  import opened Wrappers
  import opened Leases

  /** An absent limit is infinite. */
  datatype Limits = Limits(perScope: Option<int>, perConsumer: Option<int>, perPool: Option<int>)

  predicate Below(count: int, limit: Option<int>) {
    limit.Some? ==> count < limit.value
  }

  predicate Within(count: int, limit: Option<int>) {
    limit.Some? ==> count <= limit.value
  }

  datatype Job = Job(key: Key, pool: string, ttl: int)

  /** Where the acquisition that holds the chain is suspended. */
  datatype Turn =
    | Finding(job: Job)
    | Listing(job: Job)
    | Enforcing(job: Job, ofScope: int, ofConsumer: int, ofPool: int)
    | Acquiring(job: Job)
    | Making(job: Job)

  datatype Outcome = Acquired(id: LeaseId) | Replayed(id: LeaseId) | QuotaExceeded | InvalidTtl | Failed

  datatype World = World(
    st: Store,
    turn: Option<Turn>,
    queue: seq<Job>,
    outcomes: seq<(Job, Outcome)>,
    limits: Limits,
    maxTtl: int)

  function Initial(limits: Limits, maxTtl: int): World {
    World(EMPTY, None, [], [], limits, maxTtl)
  }

  /** The chain's own steps; `fails` says that something the acquisition waits for is rejected. */
  datatype ChainStep = ChainStep(now: Time, newId: LeaseId, fails: bool)

  datatype Step =
    | Submit(job: Job)
    | Advance(c: ChainStep)
    | DoRelease(scope: Scope, id: LeaseId, now: Time)
    | DoDelete(scope: Scope, id: LeaseId, now: Time)
    | DoExpire(id: LeaseId, now: Time)

  predicate Busy(w: World) {
    w.turn.Some? || w.queue != []
  }

  predicate Enabled(w: World, s: Step) {
    s.Advance? ==> Busy(w) && s.c.newId !in w.st.leases
  }

  function Settle(w: World, st: Store, job: Job, outcome: Outcome): World {
    w.(st := st, turn := None, outcomes := w.outcomes + [(job, outcome)])
  }

  function At(w: World, st: Store, turn: Turn): World {
    w.(st := st, turn := Some(turn))
  }

  function TakeTurn(w: World, turn: Turn, c: ChainStep): World {
    var job := turn.job;
    if c.fails then Settle(w, w.st, job, Failed)
    else
      match turn
      case Finding(_) =>
        var (st, found) := Find(w.st, job.key, c.now);
        if found.Some? then Settle(w, st, job, Replayed(found.value)) else At(w, st, Listing(job))
      case Listing(_) =>
        var st := ExpireAll(w.st, c.now);
        At(w, st, Enforcing(job, |ActiveOfScope(st, job.key.scope)|, |ActiveOfConsumer(st, job.key.scope.consumer)|, |ActiveOfPool(st, job.pool)|))
      case Enforcing(_, ofScope, ofConsumer, ofPool) =>
        if Below(ofScope, w.limits.perScope) && Below(ofConsumer, w.limits.perConsumer) && Below(ofPool, w.limits.perPool)
        then At(w, w.st, Acquiring(job))
        else Settle(w, w.st, job, QuotaExceeded)
      case Acquiring(_) =>
        if job.ttl <= 0 || job.ttl > w.maxTtl then Settle(w, w.st, job, InvalidTtl)
        else
          var (st, found) := Find(w.st, job.key, c.now);
          if found.Some? then Settle(w, st, job, Replayed(found.value)) else At(w, st, Making(job))
      case Making(_) =>
        Settle(w, Insert(w.st, c.newId, job.key, job.pool, c.now + job.ttl * 1000), job, Acquired(c.newId))
  }

  function Apply(w: World, s: Step): World
    requires Enabled(w, s)
  {
    match s
    case Submit(job) => w.(queue := w.queue + [job])
    case Advance(c) =>
      (match w.turn
       case Some(turn) => TakeTurn(w, turn, c)
       case None => w.(turn := Some(Finding(w.queue[0])), queue := w.queue[1..]))
    case DoRelease(scope, id, now) => w.(st := Release(w.st, scope, id, now).0)
    case DoDelete(scope, id, now) => w.(st := Delete(w.st, scope, id, now).0)
    case DoExpire(id, now) => w.(st := ExpireOne(w.st, id, now))
  }

  predicate AllEnabled(w: World, steps: seq<Step>)
    decreases |steps|
  {
    steps != [] ==> Enabled(w, steps[0]) && AllEnabled(Apply(w, steps[0]), steps[1..])
  }

  function Run(w: World, steps: seq<Step>): World
    requires AllEnabled(w, steps)
    decreases |steps|
  {
    if steps == [] then w else Run(Apply(w, steps[0]), steps[1..])
  }

  // ----- The invariant -----------------------------------------------------------------------

  ghost predicate GoodEntry(st: Store, key: Key) {
    key in st.byKey && st.byKey[key] in st.leases && st.leases[st.byKey[key]].key == key && !st.leases[st.byKey[key]].status.Released?
  }

  ghost predicate Mapped(st: Store, id: LeaseId) {
    id in st.leases && st.leases[id].key in st.byKey && st.byKey[st.leases[id].key] == id
  }

  /** Every active lease is the one its key maps to. */
  ghost predicate StoreInv(st: Store) {
    && (forall key | key in st.byKey :: GoodEntry(st, key))
    && (forall id | IsActive(st, id) :: Mapped(st, id))
  }

  ghost predicate CountsInv(st: Store, limits: Limits) {
    && (forall scope :: Within(|ActiveOfScope(st, scope)|, limits.perScope))
    && (forall consumer :: Within(|ActiveOfConsumer(st, consumer)|, limits.perConsumer))
    && (forall pool :: Within(|ActiveOfPool(st, pool)|, limits.perPool))
  }

  predicate Room(st: Store, limits: Limits, job: Job) {
    && Below(|ActiveOfScope(st, job.key.scope)|, limits.perScope)
    && Below(|ActiveOfConsumer(st, job.key.scope.consumer)|, limits.perConsumer)
    && Below(|ActiveOfPool(st, job.pool)|, limits.perPool)
  }

  ghost predicate Unclaimed(st: Store, key: Key) {
    forall id | IsActive(st, id) :: st.leases[id].key != key
  }

  /** What a suspended acquisition has learned stays true while it waits. */
  ghost predicate TurnInv(st: Store, limits: Limits, turn: Turn) {
    match turn
    case Enforcing(job, ofScope, ofConsumer, ofPool) =>
      |ActiveOfScope(st, job.key.scope)| <= ofScope && |ActiveOfConsumer(st, job.key.scope.consumer)| <= ofConsumer && |ActiveOfPool(st, job.pool)| <= ofPool
    case Acquiring(job) => Room(st, limits, job)
    case Making(job) => Room(st, limits, job) && Unclaimed(st, job.key)
    case _ => true
  }

  ghost predicate WorldInv(w: World) {
    StoreInv(w.st) && CountsInv(w.st, w.limits) && (w.turn.Some? ==> TurnInv(w.st, w.limits, w.turn.value))
  }

  predicate PositiveLimits(limits: Limits) {
    && (limits.perScope.Some? ==> limits.perScope.value > 0)
    && (limits.perConsumer.Some? ==> limits.perConsumer.value > 0)
    && (limits.perPool.Some? ==> limits.perPool.value > 0)
  }

  lemma InitialInv(limits: Limits, maxTtl: int)
    requires PositiveLimits(limits)
    ensures WorldInv(Initial(limits, maxTtl))
  {
  }

  // ----- Active leases only become fewer -----------------------------------------------------

  ghost predicate Kept(st: Store, st': Store, id: LeaseId) {
    IsActive(st, id) && id in st'.leases && st'.leases[id].key == st.leases[id].key && st'.leases[id].pool == st.leases[id].pool
  }

  ghost predicate Shrinks(st: Store, st': Store) {
    forall id | IsActive(st', id) :: Kept(st, st', id)
  }

  lemma Subset<T>(a: set<T>, b: set<T>)
    requires a <= b
    ensures |a| <= |b|
  {
    assert b == a + (b - a);
  }

  lemma FewerOfScope(st: Store, st': Store, scope: Scope)
    requires Shrinks(st, st')
    ensures |ActiveOfScope(st', scope)| <= |ActiveOfScope(st, scope)|
  {
    forall id | id in ActiveOfScope(st', scope) ensures id in ActiveOfScope(st, scope) {
      assert IsActive(st', id) && Kept(st, st', id);
    }
    Subset(ActiveOfScope(st', scope), ActiveOfScope(st, scope));
  }

  lemma FewerOfConsumer(st: Store, st': Store, consumer: string)
    requires Shrinks(st, st')
    ensures |ActiveOfConsumer(st', consumer)| <= |ActiveOfConsumer(st, consumer)|
  {
    forall id | id in ActiveOfConsumer(st', consumer) ensures id in ActiveOfConsumer(st, consumer) {
      assert IsActive(st', id) && Kept(st, st', id);
    }
    Subset(ActiveOfConsumer(st', consumer), ActiveOfConsumer(st, consumer));
  }

  lemma FewerOfPool(st: Store, st': Store, pool: string)
    requires Shrinks(st, st')
    ensures |ActiveOfPool(st', pool)| <= |ActiveOfPool(st, pool)|
  {
    forall id | id in ActiveOfPool(st', pool) ensures id in ActiveOfPool(st, pool) {
      assert IsActive(st', id) && Kept(st, st', id);
    }
    Subset(ActiveOfPool(st', pool), ActiveOfPool(st, pool));
  }

  lemma ShrinksCounts(st: Store, st': Store, limits: Limits)
    requires Shrinks(st, st') && CountsInv(st, limits)
    ensures CountsInv(st', limits)
  {
    hide ActiveOfScope, ActiveOfConsumer, ActiveOfPool, Shrinks;
    forall scope ensures Within(|ActiveOfScope(st', scope)|, limits.perScope) {
      FewerOfScope(st, st', scope);
    }
    forall consumer ensures Within(|ActiveOfConsumer(st', consumer)|, limits.perConsumer) {
      FewerOfConsumer(st, st', consumer);
    }
    forall pool ensures Within(|ActiveOfPool(st', pool)|, limits.perPool) {
      FewerOfPool(st, st', pool);
    }
  }

  lemma ShrinksTurn(st: Store, st': Store, limits: Limits, turn: Turn)
    requires Shrinks(st, st') && TurnInv(st, limits, turn)
    ensures TurnInv(st', limits, turn)
  {
    hide ActiveOfScope, ActiveOfConsumer, ActiveOfPool, Unclaimed, Shrinks;
    var job := turn.job;
    FewerOfScope(st, st', job.key.scope);
    FewerOfConsumer(st, st', job.key.scope.consumer);
    FewerOfPool(st, st', job.pool);
    if turn.Making? {
      StaysUnclaimed(st, st', job.key);
    }
  }

  lemma StaysUnclaimed(st: Store, st': Store, key: Key)
    requires Shrinks(st, st') && Unclaimed(st, key)
    ensures Unclaimed(st', key)
  {
    forall id | IsActive(st', id) ensures st'.leases[id].key != key {
      assert Kept(st, st', id);
    }
  }

  // ----- What each operation keeps -----------------------------------------------------------

  lemma ExpireOneKeeps(st: Store, id: LeaseId, now: Time)
    requires StoreInv(st)
    ensures StoreInv(ExpireOne(st, id, now)) && Shrinks(st, ExpireOne(st, id, now))
  {
    var st' := ExpireOne(st, id, now);
    forall key | key in st'.byKey ensures GoodEntry(st', key) {
      assert GoodEntry(st, key);
    }
    forall i | IsActive(st', i) ensures Mapped(st', i) && Kept(st, st', i) {
      assert IsActive(st, i) && Mapped(st, i);
    }
  }

  lemma ExpireAllKeeps(st: Store, now: Time)
    requires StoreInv(st)
    ensures StoreInv(ExpireAll(st, now)) && Shrinks(st, ExpireAll(st, now))
  {
    var st' := ExpireAll(st, now);
    forall key | key in st'.byKey ensures GoodEntry(st', key) {
      assert GoodEntry(st, key);
    }
    forall i | IsActive(st', i) ensures Mapped(st', i) && Kept(st, st', i) {
      assert IsActive(st, i) && Mapped(st, i);
    }
  }

  lemma DropKeeps(st: Store, id: LeaseId)
    requires StoreInv(st)
    ensures StoreInv(Drop(st, id)) && Shrinks(st, Drop(st, id))
  {
    var st' := Drop(st, id);
    forall key | key in st'.byKey ensures GoodEntry(st', key) {
      assert GoodEntry(st, key);
    }
    forall i | IsActive(st', i) ensures Mapped(st', i) && Kept(st, st', i) {
      assert IsActive(st, i) && Mapped(st, i);
    }
  }

  lemma ShrinksTrans(a: Store, b: Store, c: Store)
    requires Shrinks(a, b) && Shrinks(b, c)
    ensures Shrinks(a, c)
  {
    forall id | IsActive(c, id) ensures Kept(a, c, id) {
      assert Kept(b, c, id) && Kept(a, b, id);
    }
  }

  /** Looking a key up leaves either its lease, or no active lease of that key at all. */
  lemma FindKeeps(st: Store, key: Key, now: Time)
    requires StoreInv(st)
    ensures StoreInv(Find(st, key, now).0) && Shrinks(st, Find(st, key, now).0)
    ensures match Find(st, key, now).1
            case None => Unclaimed(Find(st, key, now).0, key)
            case Some(id) => IsActive(Find(st, key, now).0, id) && Find(st, key, now).0.leases[id].key == key
  {
    if key in st.byKey {
      var id := st.byKey[key];
      assert GoodEntry(st, key);
      var st1 := ExpireOne(st, id, now);
      ExpireOneKeeps(st, id, now);
      DropKeeps(st1, id);
      ShrinksTrans(st, st1, Drop(st1, id));
      UnmappedIsUnclaimed(Drop(st1, id), key);
    } else {
      UnmappedIsUnclaimed(st, key);
    }
  }

  lemma UnmappedIsUnclaimed(st: Store, key: Key)
    requires StoreInv(st)
    ensures key !in st.byKey ==> Unclaimed(st, key)
  {
    forall id | IsActive(st, id) ensures key !in st.byKey ==> st.leases[id].key != key {
      assert Mapped(st, id);
    }
  }

  lemma ReleaseOneKeeps(st: Store, id: LeaseId)
    requires StoreInv(st) && id in st.leases
    ensures var st' := Store(st.leases[id := st.leases[id].(status := Released)], Unmap(st.byKey, st.leases[id].key, id));
      StoreInv(st') && Shrinks(st, st')
  {
    var st' := Store(st.leases[id := st.leases[id].(status := Released)], Unmap(st.byKey, st.leases[id].key, id));
    forall key | key in st'.byKey ensures GoodEntry(st', key) {
      assert GoodEntry(st, key);
    }
    forall i | IsActive(st', i) ensures Mapped(st', i) && Kept(st, st', i) {
      assert IsActive(st, i) && Mapped(st, i);
    }
  }

  lemma ReleaseKeeps(st: Store, scope: Scope, id: LeaseId, now: Time)
    requires StoreInv(st)
    ensures StoreInv(Release(st, scope, id, now).0) && Shrinks(st, Release(st, scope, id, now).0)
  {
    hide StoreInv, Shrinks;
    var st1 := ExpireOne(st, id, now);
    ExpireOneKeeps(st, id, now);
    Unchanged(st);
    if Owned(st, scope, id) {
      ReleaseOneKeeps(st1, id);
      ShrinksTrans(st, st1, Store(st1.leases[id := st1.leases[id].(status := Released)], Unmap(st1.byKey, st1.leases[id].key, id)));
    }
  }

  lemma Unchanged(st: Store)
    ensures Shrinks(st, st)
  {
  }

  lemma DeleteKeeps(st: Store, scope: Scope, id: LeaseId, now: Time)
    requires StoreInv(st)
    ensures StoreInv(Delete(st, scope, id, now).0) && Shrinks(st, Delete(st, scope, id, now).0)
  {
    hide StoreInv, Shrinks;
    ExpireOneKeeps(st, id, now);
    DropKeeps(ExpireOne(st, id, now), id);
    ShrinksTrans(st, ExpireOne(st, id, now), Drop(ExpireOne(st, id, now), id));
    Unchanged(st);
  }

  // ----- The insertion -----------------------------------------------------------------------

  lemma InsertStore(st: Store, id: LeaseId, key: Key, pool: string, expiresAt: Time)
    requires StoreInv(st) && id !in st.leases && Unclaimed(st, key)
    ensures StoreInv(Insert(st, id, key, pool, expiresAt))
  {
    var st' := Insert(st, id, key, pool, expiresAt);
    forall k | k in st'.byKey ensures GoodEntry(st', k) {
      assert k != key ==> GoodEntry(st, k);
    }
    forall i | IsActive(st', i) ensures Mapped(st', i) {
      assert i != id ==> IsActive(st, i) && Mapped(st, i);
    }
  }

  lemma OneMore<T>(a: set<T>, b: set<T>, x: T)
    requires b <= a + {x}
    ensures |b| <= |a| + 1
  {
    Subset(b, a + {x});
  }

  lemma InsertCounts(st: Store, limits: Limits, id: LeaseId, job: Job, expiresAt: Time)
    requires CountsInv(st, limits) && Room(st, limits, job) && id !in st.leases
    ensures CountsInv(Insert(st, id, job.key, job.pool, expiresAt), limits)
  {
    hide ActiveOfScope, ActiveOfConsumer, ActiveOfPool;
    var st' := Insert(st, id, job.key, job.pool, expiresAt);
    forall scope ensures Within(|ActiveOfScope(st', scope)|, limits.perScope) {
      InsertOfScope(st, id, job, expiresAt, scope);
      OneMore(ActiveOfScope(st, scope), ActiveOfScope(st', scope), id);
    }
    forall consumer ensures Within(|ActiveOfConsumer(st', consumer)|, limits.perConsumer) {
      InsertOfConsumer(st, id, job, expiresAt, consumer);
      OneMore(ActiveOfConsumer(st, consumer), ActiveOfConsumer(st', consumer), id);
    }
    forall pool ensures Within(|ActiveOfPool(st', pool)|, limits.perPool) {
      InsertOfPool(st, id, job, expiresAt, pool);
      OneMore(ActiveOfPool(st, pool), ActiveOfPool(st', pool), id);
    }
  }

  lemma InsertOfScope(st: Store, id: LeaseId, job: Job, expiresAt: Time, scope: Scope)
    requires id !in st.leases
    ensures ActiveOfScope(Insert(st, id, job.key, job.pool, expiresAt), scope)
         == ActiveOfScope(st, scope) + if job.key.scope == scope then {id} else {}
  {
  }

  lemma InsertOfConsumer(st: Store, id: LeaseId, job: Job, expiresAt: Time, consumer: string)
    requires id !in st.leases
    ensures ActiveOfConsumer(Insert(st, id, job.key, job.pool, expiresAt), consumer)
         == ActiveOfConsumer(st, consumer) + if job.key.scope.consumer == consumer then {id} else {}
  {
  }

  lemma InsertOfPool(st: Store, id: LeaseId, job: Job, expiresAt: Time, pool: string)
    requires id !in st.leases
    ensures ActiveOfPool(Insert(st, id, job.key, job.pool, expiresAt), pool)
         == ActiveOfPool(st, pool) + if job.pool == pool then {id} else {}
  {
  }

  // ----- All steps ---------------------------------------------------------------------------

  lemma ShrinkingKeeps(w: World, st: Store)
    requires WorldInv(w) && StoreInv(st) && Shrinks(w.st, st)
    ensures WorldInv(w.(st := st))
  {
    hide StoreInv, CountsInv, TurnInv, Shrinks;
    ShrinksCounts(w.st, st, w.limits);
    if w.turn.Some? {
      ShrinksTurn(w.st, st, w.limits, w.turn.value);
    }
  }

  lemma TurnKeeps(w: World, turn: Turn, c: ChainStep)
    requires WorldInv(w) && w.turn == Some(turn) && c.newId !in w.st.leases
    ensures WorldInv(TakeTurn(w, turn, c))
  {
    hide StoreInv, CountsInv, Room, Unclaimed, Shrinks, Find, ExpireAll, Insert, ActiveOfScope, ActiveOfConsumer, ActiveOfPool;
    var job := turn.job;
    FindKeeps(w.st, job.key, c.now);
    ShrinkingKeeps(w, Find(w.st, job.key, c.now).0);
    ExpireAllKeeps(w.st, c.now);
    ShrinkingKeeps(w, ExpireAll(w.st, c.now));
    if turn.Making? {
      InsertStore(w.st, c.newId, job.key, job.pool, c.now + job.ttl * 1000);
      InsertCounts(w.st, w.limits, c.newId, job, c.now + job.ttl * 1000);
    } else if turn.Enforcing? {
      EnforcedRoom(w, turn);
    }
  }

  lemma EnforcedRoom(w: World, turn: Turn)
    requires turn.Enforcing? && TurnInv(w.st, w.limits, turn)
    ensures Below(turn.ofScope, w.limits.perScope) && Below(turn.ofConsumer, w.limits.perConsumer) && Below(turn.ofPool, w.limits.perPool)
        ==> Room(w.st, w.limits, turn.job)
  {
  }

  lemma StepKeeps(w: World, s: Step)
    requires WorldInv(w) && Enabled(w, s)
    ensures WorldInv(Apply(w, s))
  {
    hide StoreInv, CountsInv, Shrinks, TakeTurn, Release, Delete, ExpireOne;
    match s
    case Submit(_) =>
    case Advance(c) =>
      if w.turn.Some? {
        TurnKeeps(w, w.turn.value, c);
      }
    case DoRelease(scope, id, now) =>
      ReleaseKeeps(w.st, scope, id, now);
      ShrinkingKeeps(w, Release(w.st, scope, id, now).0);
    case DoDelete(scope, id, now) =>
      DeleteKeeps(w.st, scope, id, now);
      ShrinkingKeeps(w, Delete(w.st, scope, id, now).0);
    case DoExpire(id, now) =>
      ExpireOneKeeps(w.st, id, now);
      ShrinkingKeeps(w, ExpireOne(w.st, id, now));
  }

  lemma {:induction false} RunKeeps(w: World, steps: seq<Step>)
    requires WorldInv(w) && AllEnabled(w, steps)
    ensures WorldInv(Run(w, steps)) && Run(w, steps).limits == w.limits
    decreases |steps|
  {
    if steps != [] {
      StepKeeps(w, steps[0]);
      RunKeeps(Apply(w, steps[0]), steps[1..]);
    }
  }

  // ----- What the runs promise ---------------------------------------------------------------

  /** No run takes a scope, a consumer or a pool over its limit, or gives a key two active leases. */
  lemma QuotasHold(limits: Limits, maxTtl: int, steps: seq<Step>)
    requires PositiveLimits(limits) && AllEnabled(Initial(limits, maxTtl), steps)
    ensures var st := Run(Initial(limits, maxTtl), steps).st;
      && (forall scope :: Within(|ActiveOfScope(st, scope)|, limits.perScope))
      && (forall consumer :: Within(|ActiveOfConsumer(st, consumer)|, limits.perConsumer))
      && (forall pool :: Within(|ActiveOfPool(st, pool)|, limits.perPool))
      && (forall i, j | IsActive(st, i) && IsActive(st, j) && st.leases[i].key == st.leases[j].key :: i == j)
  {
    InitialInv(limits, maxTtl);
    RunKeeps(Initial(limits, maxTtl), steps);
    var st := Run(Initial(limits, maxTtl), steps).st;
    forall i, j | IsActive(st, i) && IsActive(st, j) && st.leases[i].key == st.leases[j].key ensures i == j {
      assert Mapped(st, i) && Mapped(st, j);
    }
  }

  // ----- The chain ---------------------------------------------------------------------------

  function TurnRank(turn: Option<Turn>): nat {
    match turn
    case None => 0
    case Some(Making(_)) => 1
    case Some(Acquiring(_)) => 2
    case Some(Enforcing(_, _, _, _)) => 3
    case Some(Listing(_)) => 4
    case Some(Finding(_)) => 5
  }

  /** How many chain steps the waiting acquisitions can still take. */
  function Rank(w: World): nat {
    TurnRank(w.turn) + 6 * |w.queue|
  }

  /** The acquisitions in the order they were submitted: settled, then the one at its turn, then waiting. */
  function Submitted(w: World): seq<Job> {
    Settled(w.outcomes) + (if w.turn.Some? then [w.turn.value.job] else []) + w.queue
  }

  function Settled(outcomes: seq<(Job, Outcome)>): seq<Job> {
    if outcomes == [] then [] else Settled(outcomes[..|outcomes| - 1]) + [outcomes[|outcomes| - 1].0]
  }

  lemma SettledOneMore(outcomes: seq<(Job, Outcome)>, job: Job, outcome: Outcome)
    ensures Settled(outcomes + [(job, outcome)]) == Settled(outcomes) + [job]
  {
    assert (outcomes + [(job, outcome)])[..|outcomes|] == outcomes;
  }

  lemma SettleKeepsOrder(w: World, st: Store, outcome: Outcome)
    requires w.turn.Some?
    ensures Submitted(Settle(w, st, w.turn.value.job, outcome)) == Submitted(w)
    ensures Rank(Settle(w, st, w.turn.value.job, outcome)) < Rank(w)
  {
    hide Settled;
    var job, w' := w.turn.value.job, Settle(w, st, w.turn.value.job, outcome);
    SettledOneMore(w.outcomes, job, outcome);
    assert Submitted(w') == (Settled(w.outcomes) + [job]) + [] + w.queue;
    assert Submitted(w) == Settled(w.outcomes) + [job] + w.queue;
    assert (Settled(w.outcomes) + [job]) + [] == Settled(w.outcomes) + [job];
  }

  lemma TurnAdvances(w: World, turn: Turn, c: ChainStep)
    requires w.turn == Some(turn)
    ensures Rank(TakeTurn(w, turn, c)) < Rank(w) && Submitted(TakeTurn(w, turn, c)) == Submitted(w)
  {
    hide Find, ExpireAll, Insert, Submitted, ActiveOfScope, ActiveOfConsumer, ActiveOfPool;
    var w' := TakeTurn(w, turn, c);
    if w'.turn.None? {
      SettleKeepsOrder(w, w'.st, w'.outcomes[|w.outcomes|].1);
    } else {
      MoveKeepsOrder(w, w'.st, w'.turn.value);
    }
  }

  lemma MoveKeepsOrder(w: World, st: Store, next: Turn)
    requires w.turn.Some? && w.turn.value.job == next.job
    ensures Submitted(At(w, st, next)) == Submitted(w)
  {
  }

  /** Every chain step brings the chain on, succeed or fail, and loses, repeats or reorders nobody. */
  lemma ChainAdvances(w: World, c: ChainStep)
    requires Enabled(w, Advance(c))
    ensures Rank(Apply(w, Advance(c))) < Rank(w) && Submitted(Apply(w, Advance(c))) == Submitted(w)
  {
    hide TakeTurn;
    if w.turn.Some? {
      TurnAdvances(w, w.turn.value, c);
    }
  }

  function AdvanceAll(cs: seq<ChainStep>): seq<Step> {
    seq(|cs|, i requires 0 <= i < |cs| => Advance(cs[i]))
  }

  /** Left to itself the chain settles everyone who was waiting, in order, whatever each of them met with. */
  lemma {:induction false} ChainDrains(w: World, cs: seq<ChainStep>)
    requires AllEnabled(w, AdvanceAll(cs))
    ensures var w' := Run(w, AdvanceAll(cs));
      && Submitted(w') == Submitted(w)
      && |cs| <= Rank(w)
      && (!Busy(w') ==> Settled(w'.outcomes) == Submitted(w))
      && (|cs| == Rank(w) ==> !Busy(w'))
    decreases |cs|
  {
    if cs != [] {
      var steps := AdvanceAll(cs);
      assert steps[1..] == AdvanceAll(cs[1..]);
      ChainAdvances(w, cs[0]);
      ChainDrains(Apply(w, steps[0]), cs[1..]);
    }
  }

  // ----- One acquisition ---------------------------------------------------------------------

  predicate Unexpired(l: Lease, now: Time) {
    l.status.Active? && now < l.expiresAt
  }

  /** The lease of this key that is still good. */
  predicate Holds(st: Store, key: Key, now: Time, id: LeaseId) {
    id in st.leases && st.leases[id].key == key && Unexpired(st.leases[id], now)
  }

  function UnexpiredOfScope(st: Store, scope: Scope, now: Time): set<LeaseId> {
    set id | id in st.leases && Unexpired(st.leases[id], now) && st.leases[id].key.scope == scope
  }

  function UnexpiredOfConsumer(st: Store, consumer: string, now: Time): set<LeaseId> {
    set id | id in st.leases && Unexpired(st.leases[id], now) && st.leases[id].key.scope.consumer == consumer
  }

  function UnexpiredOfPool(st: Store, pool: string, now: Time): set<LeaseId> {
    set id | id in st.leases && Unexpired(st.leases[id], now) && st.leases[id].pool == pool
  }

  predicate RoomAt(w: World, job: Job, now: Time) {
    && Below(|UnexpiredOfScope(w.st, job.key.scope, now)|, w.limits.perScope)
    && Below(|UnexpiredOfConsumer(w.st, job.key.scope.consumer, now)|, w.limits.perConsumer)
    && Below(|UnexpiredOfPool(w.st, job.pool, now)|, w.limits.perPool)
  }

  /** Looking a key up finds the lease that holds it, if any, and deletes nothing that has not expired. */
  lemma FindExactly(st: Store, key: Key, now: Time)
    requires StoreInv(st)
    ensures var (st', found) := Find(st, key, now);
      && (forall id :: found == Some(id) <==> Holds(st, key, now, id))
      && (found.Some? <==> exists id :: Holds(st, key, now, id))
      && (forall id :: id in st'.leases && Unexpired(st'.leases[id], now) <==> id in st.leases && Unexpired(st.leases[id], now))
      && (forall id | id in st'.leases && Unexpired(st'.leases[id], now) :: st'.leases[id] == st.leases[id])
  {
    var (st', found) := Find(st, key, now);
    if key in st.byKey {
      assert GoodEntry(st, key);
    }
    forall id ensures found == Some(id) <==> Holds(st, key, now, id) {
      if Holds(st, key, now, id) {
        assert IsActive(st, id) && Mapped(st, id);
      }
    }
    if found.Some? {
      assert Holds(st, key, now, found.value);
    }
  }

  lemma SweptCounts(st: Store, st1: Store, job: Job, now: Time)
    requires forall id :: id in st1.leases && Unexpired(st1.leases[id], now) <==> id in st.leases && Unexpired(st.leases[id], now)
    requires forall id | id in st1.leases && Unexpired(st1.leases[id], now) :: st1.leases[id] == st.leases[id]
    ensures ActiveOfScope(ExpireAll(st1, now), job.key.scope) == UnexpiredOfScope(st, job.key.scope, now)
    ensures ActiveOfConsumer(ExpireAll(st1, now), job.key.scope.consumer) == UnexpiredOfConsumer(st, job.key.scope.consumer, now)
    ensures ActiveOfPool(ExpireAll(st1, now), job.pool) == UnexpiredOfPool(st, job.pool, now)
  {
  }

  /** An acquisition at its turn, with nothing of others in between; every step has its own reading of the clock. */
  function Uninterrupted(w: World, steps: seq<ChainStep>): World
    requires w.turn.Some? && |steps| >= TurnRank(w.turn)
    decreases TurnRank(w.turn)
  {
    var w' := TakeTurn(w, w.turn.value, steps[0]);
    if w'.turn.None? then w' else Uninterrupted(w', steps[1..])
  }

  /** The key is looked up at the first reading of the clock, and the leases are counted at the second. */
  ghost predicate DecidedRight(w: World, job: Job, steps: seq<ChainStep>, outcome: Outcome)
    requires |steps| == 5
  {
    var looked, counted := steps[0].now, steps[1].now;
    match outcome
    case Replayed(id) => Holds(w.st, job.key, looked, id)
    case QuotaExceeded => Vacant(w, job, looked) && !RoomAt(w, job, counted)
    case InvalidTtl => Vacant(w, job, looked) && RoomAt(w, job, counted) && (job.ttl <= 0 || job.ttl > w.maxTtl)
    case Acquired(id) => Vacant(w, job, looked) && RoomAt(w, job, counted) && 0 < job.ttl <= w.maxTtl && id == steps[4].newId
    case Failed => false
  }

  ghost predicate Vacant(w: World, job: Job, now: Time) {
    forall id :: !Holds(w.st, job.key, now, id)
  }

  /**
   Undisturbed, an acquisition is a replay exactly when the key's lease is still good, and otherwise is
   refused exactly when the good leases leave no room, or the time to live is out of range.
   */
  lemma AcquisitionExactly(w: World, job: Job, steps: seq<ChainStep>)
    requires WorldInv(w) && w.turn == Some(Finding(job)) && |steps| == 5 && (forall c | c in steps :: !c.fails)
    requires steps[0].now <= steps[1].now
    ensures var w' := Uninterrupted(w, steps);
      |w'.outcomes| == |w.outcomes| + 1 && w'.outcomes[..|w.outcomes|] == w.outcomes && w'.outcomes[|w.outcomes|].0 == job
      && DecidedRight(w, job, steps, w'.outcomes[|w.outcomes|].1)
  {
    hide Find, ExpireAll, Insert, Holds, RoomAt, ActiveOfScope, ActiveOfConsumer, ActiveOfPool, StoreInv, CountsInv;
    FindExactly(w.st, job.key, steps[0].now);
    var w1 := TakeTurn(w, Finding(job), steps[0]);
    if w1.turn.Some? {
      EnforcedLater(w, w1.st, job, steps[0].now, steps[1].now);
      NothingFound(w, w1.st, job, steps[0].now, steps[1].now, steps[3].now);
      var w2 := TakeTurn(w1, Listing(job), steps[1]);
      assert Uninterrupted(w, steps) == Uninterrupted(w1, steps[1..]) == Uninterrupted(w2, steps[2..]);
      var w3 := TakeTurn(w2, w2.turn.value, steps[2]);
      if w3.turn.Some? {
        var w4 := TakeTurn(w3, Acquiring(job), steps[3]);
        assert Uninterrupted(w2, steps[2..]) == Uninterrupted(w3, steps[3..]);
        if w4.turn.Some? {
          assert Uninterrupted(w3, steps[3..]) == Uninterrupted(w4, steps[4..]) == TakeTurn(w4, Making(job), steps[4]);
        } else {
          assert Uninterrupted(w3, steps[3..]) == w4;
        }
      }
    }
  }

  /** The counts the enforcement sees are those of the leases good at the time of counting. */
  lemma EnforcedLater(w: World, st1: Store, job: Job, now: Time, later: Time)
    requires StoreInv(w.st) && st1 == Find(w.st, job.key, now).0 && now <= later
    ensures var st2 := ExpireAll(st1, later);
      (Below(|ActiveOfScope(st2, job.key.scope)|, w.limits.perScope) && Below(|ActiveOfConsumer(st2, job.key.scope.consumer)|, w.limits.perConsumer)
       && Below(|ActiveOfPool(st2, job.pool)|, w.limits.perPool))
      <==> RoomAt(w, job, later)
  {
    hide Find;
    FindExactly(w.st, job.key, now);
    FoundLater(w.st, job.key, now, later);
    SweptCounts(w.st, st1, job, later);
  }

  /** What a lookup deletes is expired at any later time. */
  lemma FoundLater(st: Store, key: Key, now: Time, later: Time)
    requires StoreInv(st) && now <= later
    ensures var st' := Find(st, key, now).0;
      && (forall id :: id in st'.leases && Unexpired(st'.leases[id], later) <==> id in st.leases && Unexpired(st.leases[id], later))
      && (forall id | id in st'.leases && Unexpired(st'.leases[id], later) :: st'.leases[id] == st.leases[id])
  {
    hide Find, StoreInv;
    FindExactly(st, key, now);
    assert forall l: Lease :: Unexpired(l, later) ==> Unexpired(l, now);
  }

  /** The second look at the key finds nothing either, whenever it is. */
  lemma NothingFound(w: World, st1: Store, job: Job, now: Time, later: Time, last: Time)
    requires StoreInv(w.st) && st1 == Find(w.st, job.key, now).0 && Find(w.st, job.key, now).1.None?
    ensures Find(ExpireAll(st1, later), job.key, last).1.None?
  {
    FindKeeps(w.st, job.key, now);
    ExpireAllKeeps(st1, later);
    StaysUnclaimed(st1, ExpireAll(st1, later), job.key);
    UnclaimedIsNotFound(ExpireAll(st1, later), job.key, last);
  }

  lemma UnclaimedIsNotFound(st: Store, key: Key, now: Time)
    requires StoreInv(st) && Unclaimed(st, key)
    ensures Find(st, key, now).1.None?
  {
    hide Find;
    FindExactly(st, key, now);
    forall id ensures !Holds(st, key, now, id) {
      assert Holds(st, key, now, id) ==> IsActive(st, id);
    }
  }

  // ----- What an acquisition leaves behind ---------------------------------------------------

  predicate GoodThroughout(l: Lease, steps: seq<ChainStep>) {
    l.status.Active? && forall c | c in steps :: c.now < l.expiresAt
  }

  /** No lease has come in, and those that were good all the time are as they were. */
  ghost predicate Spares(st: Store, st': Store, steps: seq<ChainStep>) {
    && st'.leases.Keys <= st.leases.Keys
    && forall id | id in st.leases && GoodThroughout(st.leases[id], steps) :: id in st'.leases && st'.leases[id] == st.leases[id]
  }

  lemma TurnSpares(w: World, turn: Turn, steps: seq<ChainStep>, i: nat)
    requires i < |steps| && !turn.Making? && StoreInv(w.st)
    ensures Spares(w.st, TakeTurn(w, turn, steps[i]).st, steps) && StoreInv(TakeTurn(w, turn, steps[i]).st)
  {
    var c := steps[i];
    FindExactly(w.st, turn.job.key, c.now);
    FindKeeps(w.st, turn.job.key, c.now);
    ExpireAllKeeps(w.st, c.now);
    forall id | id in w.st.leases && GoodThroughout(w.st.leases[id], steps) ensures Unexpired(w.st.leases[id], c.now) {
    }
  }

  /** The lease as the job asks for it, made at this time. */
  predicate Stored(st: Store, id: LeaseId, job: Job, made: Time) {
    && id in st.leases
    && st.leases[id].key.scope == job.key.scope && st.leases[id].key.idempotencyKey == job.key.idempotencyKey
    && st.leases[id].pool == job.pool && st.leases[id].status == Active && st.leases[id].expiresAt == made + job.ttl * 1000
    && job.key in st.byKey && st.byKey[job.key] == id
  }

  lemma MakingStores(w: World, job: Job, c: ChainStep)
    requires !c.fails && c.newId !in w.st.leases
    ensures var w' := TakeTurn(w, Making(job), c);
      && Stored(w'.st, c.newId, job, c.now)
      && w'.st.leases.Keys == w.st.leases.Keys + {c.newId}
      && forall id | id in w.st.leases :: w'.st.leases[id] == w.st.leases[id]
  {
  }

  /**
   An acquisition that ends in a new lease has stored it, under its key, for its time to live from the
   moment it was made.  Nothing else comes in, and leases good throughout are left alone.
   */
  lemma AcquisitionStores(w: World, job: Job, steps: seq<ChainStep>)
    requires WorldInv(w) && w.turn == Some(Finding(job)) && |steps| == 5 && (forall c | c in steps :: !c.fails)
    requires steps[4].newId !in w.st.leases
    ensures var w' := Uninterrupted(w, steps);
      && |w'.outcomes| == |w.outcomes| + 1
      && (w'.outcomes[|w.outcomes|].1.Acquired? ==>
            var id := w'.outcomes[|w.outcomes|].1.id;
            && Stored(w'.st, id, job, steps[4].now) && id !in w.st.leases
            && w'.st.leases.Keys <= w.st.leases.Keys + {id}
            && Spares(w.st, w'.st.(leases := w'.st.leases - {id}), steps))
      && (!w'.outcomes[|w.outcomes|].1.Acquired? ==> Spares(w.st, w'.st, steps))
  {
    hide StoreInv, CountsInv, Spares, Stored, TakeTurn;
    var w1 := TakeTurn(w, Finding(job), steps[0]);
    TurnSpares(w, Finding(job), steps, 0);
    TurnGoes(w, Finding(job), steps[0]);
    if w1.turn.Some? {
      var w2 := TakeTurn(w1, Listing(job), steps[1]);
      TurnSpares(w1, Listing(job), steps, 1);
      TurnGoes(w1, Listing(job), steps[1]);
      SparesTwice(w.st, w1.st, w2.st, steps);
      assert Uninterrupted(w, steps) == Uninterrupted(w1, steps[1..]) == Uninterrupted(w2, steps[2..]);
      var w3 := TakeTurn(w2, w2.turn.value, steps[2]);
      TurnSpares(w2, w2.turn.value, steps, 2);
      TurnGoes(w2, w2.turn.value, steps[2]);
      SparesTwice(w.st, w2.st, w3.st, steps);
      if w3.turn.Some? {
        var w4 := TakeTurn(w3, Acquiring(job), steps[3]);
        TurnSpares(w3, Acquiring(job), steps, 3);
        TurnGoes(w3, Acquiring(job), steps[3]);
        SparesTwice(w.st, w3.st, w4.st, steps);
        assert Uninterrupted(w2, steps[2..]) == Uninterrupted(w3, steps[3..]);
        if w4.turn.Some? {
          MakingAfter(w, w4, job, steps);
          assert Uninterrupted(w3, steps[3..]) == Uninterrupted(w4, steps[4..]) == TakeTurn(w4, Making(job), steps[4]);
        } else {
          assert Uninterrupted(w3, steps[3..]) == w4;
        }
      } else {
        assert Uninterrupted(w2, steps[2..]) == w3;
      }
    }
  }

  /** Where a turn can go next, and that only making a lease ends in a new one. */
  lemma TurnGoes(w: World, turn: Turn, c: ChainStep)
    requires !turn.Making? && !c.fails
    ensures var w' := TakeTurn(w, turn, c);
      if w'.turn.Some? then
        && w'.outcomes == w.outcomes
        && w'.turn.value.job == turn.job && (turn.Finding? ==> w'.turn.value.Listing?) && (turn.Listing? ==> w'.turn.value.Enforcing?)
        && (turn.Enforcing? ==> w'.turn.value.Acquiring?) && (turn.Acquiring? ==> w'.turn.value.Making?)
      else |w'.outcomes| == |w.outcomes| + 1 && !w'.outcomes[|w.outcomes|].1.Acquired? && !turn.Listing?
  {
    hide Find, ExpireAll, ActiveOfScope, ActiveOfConsumer, ActiveOfPool;
  }

  lemma SparesTwice(a: Store, b: Store, c: Store, steps: seq<ChainStep>)
    requires Spares(a, b, steps) && Spares(b, c, steps)
    ensures Spares(a, c, steps)
  {
  }

  lemma MakingAfter(w: World, w4: World, job: Job, steps: seq<ChainStep>)
    requires |steps| == 5 && !steps[4].fails && steps[4].newId !in w.st.leases && Spares(w.st, w4.st, steps)
    ensures var w', id := TakeTurn(w4, Making(job), steps[4]), steps[4].newId;
      && w'.turn.None? && w'.outcomes == w4.outcomes + [(job, Acquired(id))]
      && Stored(w'.st, id, job, steps[4].now)
      && w'.st.leases.Keys <= w.st.leases.Keys + {id}
      && Spares(w.st, w'.st.(leases := w'.st.leases - {id}), steps)
  {
    MakingStores(w4, job, steps[4]);
  }

  /** So an acquisition of the same key is a replay of it until it expires, as long as it is stored. */
  lemma StoredIsReplayed(w: World, id: LeaseId, first: Job, made: Time, job: Job, steps: seq<ChainStep>)
    requires WorldInv(w) && w.turn == Some(Finding(job)) && |steps| == 5 && (forall c | c in steps :: !c.fails)
    requires Stored(w.st, id, first, made) && job.key == first.key && steps[0].now < made + first.ttl * 1000 && steps[0].now <= steps[1].now
    ensures var w' := Uninterrupted(w, steps);
      |w'.outcomes| == |w.outcomes| + 1 && w'.outcomes[|w.outcomes|] == (job, Replayed(id))
  {
    AcquisitionExactly(w, job, steps);
    hide WorldInv, Uninterrupted;
    assert Holds(w.st, job.key, steps[0].now, id);
    OneHolds(w, job.key, steps[0].now);
  }

  lemma OneHolds(w: World, key: Key, now: Time)
    requires WorldInv(w)
    ensures forall i, j :: Holds(w.st, key, now, i) && Holds(w.st, key, now, j) ==> i == j
  {
    forall i, j | Holds(w.st, key, now, i) && Holds(w.st, key, now, j) ensures i == j {
      assert IsActive(w.st, i) && IsActive(w.st, j) && Mapped(w.st, i) && Mapped(w.st, j);
    }
  }

  // ----- One step, whatever came in between --------------------------------------------------

  function Ends(w: World, job: Job, outcome: Outcome): seq<(Job, Outcome)> {
    w.outcomes + [(job, outcome)]
  }

  /** A turn that is rejected ends in a failure and changes no lease. */
  lemma RejectedTurn(w: World, turn: Turn, c: ChainStep)
    requires c.fails
    ensures var w' := TakeTurn(w, turn, c); w'.st == w.st && w'.turn.None? && w'.outcomes == Ends(w, turn.job, Failed)
  {
  }

  /** Both looks at the key, whatever came in between: a replay of the lease that holds it, and onwards without one. */
  lemma LookingTurn(w: World, turn: Turn, c: ChainStep)
    requires StoreInv(w.st) && !c.fails && (turn.Finding? || (turn.Acquiring? && 0 < turn.job.ttl <= w.maxTtl))
    ensures var w', job := TakeTurn(w, turn, c), turn.job;
      && (forall id | Holds(w.st, job.key, c.now, id) :: w'.turn.None? && w'.outcomes == Ends(w, job, Replayed(id)))
      && ((forall id :: !Holds(w.st, job.key, c.now, id)) ==>
            w'.outcomes == w.outcomes && w'.turn == Some(if turn.Finding? then Listing(job) else Making(job)))
  {
    hide Find, StoreInv;
    FindExactly(w.st, turn.job.key, c.now);
  }

  /** The other turns: the time to live is checked against its range, and the counts against the limits. */
  lemma DecidingTurn(w: World, turn: Turn, c: ChainStep)
    requires !c.fails
    ensures var w', job := TakeTurn(w, turn, c), turn.job;
      && (turn.Acquiring? && !(0 < job.ttl <= w.maxTtl) ==> w'.st == w.st && w'.turn.None? && w'.outcomes == Ends(w, job, InvalidTtl))
      && (turn.Listing? ==>
            && w'.outcomes == w.outcomes
            && w'.turn == Some(Enforcing(job, |UnexpiredOfScope(w.st, job.key.scope, c.now)|,
                                         |UnexpiredOfConsumer(w.st, job.key.scope.consumer, c.now)|, |UnexpiredOfPool(w.st, job.pool, c.now)|)))
      && (turn.Enforcing? ==>
            var full := (w.limits.perScope.Some? && turn.ofScope >= w.limits.perScope.value)
                        || (w.limits.perConsumer.Some? && turn.ofConsumer >= w.limits.perConsumer.value)
                        || (w.limits.perPool.Some? && turn.ofPool >= w.limits.perPool.value);
            && w'.st == w.st
            && (if full then w'.turn.None? && w'.outcomes == Ends(w, job, QuotaExceeded) else w'.turn == Some(Acquiring(job)) && w'.outcomes == w.outcomes))
      && (turn.Making? ==> w'.turn.None? && w'.outcomes == Ends(w, job, Acquired(c.newId)))
  {
    if turn.Listing? {
      SweptCounts(w.st, w.st, turn.job, c.now);
    }
  }

  predicate Holding(st: Store, scope: Scope, id: LeaseId) {
    id in st.leases && st.leases[id].key.scope.consumer == scope.consumer && st.leases[id].key.scope.subject == scope.subject
  }

  /** Other calls between the turns do to the leases what they do on their own, and nothing to the chain. */
  lemma CallsInBetween(w: World, s: Step)
    requires Enabled(w, s) && !s.Advance? && !s.Submit?
    ensures var w' := Apply(w, s);
      && w' == w.(st := w'.st)
      && (s.DoRelease? && Holding(w.st, s.scope, s.id) && Unexpired(w.st.leases[s.id], s.now) ==>
            s.id in w'.st.leases && w'.st.leases[s.id].status == Released)
      && (s.DoDelete? && Holding(w.st, s.scope, s.id) ==> s.id !in w'.st.leases)
      && (s.DoExpire? && IsActive(w.st, s.id) && !Unexpired(w.st.leases[s.id], s.now) ==>
            s.id in w'.st.leases && w'.st.leases[s.id].status == Expired)
      && OnlyLease(w.st, w'.st, s.id)
  {
  }
}
