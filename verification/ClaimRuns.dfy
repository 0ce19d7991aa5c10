/**
 Runs of the claim store: acquisitions take turns under their mutex, and between any two steps of one
 claims are released, deleted, swept and finally removed, and time passes.  At every moment a key has
 at most one good claim.
 */
module ClaimRuns {
  import opened Wrappers
  import opened Listing
  import opened Claims

  /** Where the acquisition that holds the mutex stands; `todo` are the listed claims it has still to look at. */
  datatype Turn =
    | Looking(scope: Scope, key: string, todo: seq<(ClaimName, Claim)>)
    | Vacant(scope: Scope, key: string)
    | Awaiting(name: ClaimName)

  datatype World = World(claims: Store, now: Time, turn: Option<Turn>)

  function Initial(now: Time): World {
    World(map[], now, None)
  }

  /** `Reduce` stands for what any other call, or the API server, does to the claims. */
  datatype Step =
    | Tick(now: Time)
    | Reduce(after: Store)
    | BeginAcquire(scope: Scope, key: string, order: seq<ClaimName>)
    | Look(accepted: bool)
    | Create(name: ClaimName, pool: string, ttl: int)
    | Await(ready: bool, accepted: bool)
    | FailTurn

  ghost predicate Enabled(w: World, s: Step) {
    match s
    case Tick(now) => now >= w.now
    case Reduce(after) => Reduced(w.claims, after)
    case BeginAcquire(scope, key, order) => w.turn.None? && ListsAll(order, w.claims, (c: Claim) => OfKey(c, scope, key))
    case Look(_) => w.turn.Some? && w.turn.value.Looking?
    case Create(name, _, _) => w.turn.Some? && w.turn.value.Vacant? && name !in w.claims
    case Await(_, _) => w.turn.Some? && w.turn.value.Awaiting?
    case FailTurn => w.turn.Some?
  }

  /** The claims as the list call returned them. */
  function Snapshot(order: seq<ClaimName>, claims: Store): (items: seq<(ClaimName, Claim)>)
    ensures |items| <= |order|
    ensures forall name | name in order && name in claims :: (name, claims[name]) in items
  {
    if order == [] then []
    else (if order[0] in claims then [(order[0], claims[order[0]])] else []) + Snapshot(order[1..], claims)
  }

  function DeleteIf(claims: Store, name: ClaimName, accepted: bool): Store {
    if accepted && name in claims then claims[name := Marked(claims[name])] else claims
  }

  function LookAt(w: World, turn: Turn, accepted: bool): World
    requires turn.Looking?
  {
    if turn.todo == [] then w.(turn := Some(Vacant(turn.scope, turn.key)))
    else
      var (name, c) := turn.todo[0];
      var next := Some(turn.(todo := turn.todo[1..]));
      if c.deleting then w.(turn := next)
      else if !ReadableClaim(c) || w.now < RecordFromClaim(c).value.expiresAt then w.(turn := None)
      else w.(claims := DeleteIf(w.claims, name, accepted), turn := next)
  }

  function Apply(w: World, s: Step): World
    requires Enabled(w, s)
  {
    match s
    case Tick(now) => w.(now := now)
    case Reduce(after) => w.(claims := after)
    case BeginAcquire(scope, key, order) => w.(turn := Some(Looking(scope, key, Snapshot(order, w.claims))))
    case Look(accepted) => LookAt(w, w.turn.value, accepted)
    case Create(name, pool, ttl) =>
      var c := Claim(name, true, w.turn.value.scope, w.turn.value.key, pool, false, pool, Some(w.now), Some(w.now + ttl * SECOND));
      w.(claims := w.claims[name := c], turn := Some(Awaiting(name)))
    case Await(ready, accepted) =>
      w.(claims := DeleteIf(w.claims, w.turn.value.name, accepted && !ready), turn := None)
    case FailTurn => w.(turn := None)
  }

  ghost predicate AllEnabled(w: World, steps: seq<Step>)
    decreases |steps|
  {
    steps != [] ==> Enabled(w, steps[0]) && AllEnabled(Apply(w, steps[0]), steps[1..])
  }

  function Run(w: World, steps: seq<Step>): World
    requires AllEnabled(w, steps)
    decreases |steps|
  {
    if steps == [] then w else Run(Apply(w, steps[0]), steps[1..])
  }

  /** Every good claim of the key is still to be looked at, as it is. */
  predicate AllAhead(claims: Store, now: Time, scope: Scope, key: string, todo: seq<(ClaimName, Claim)>) {
    forall name | name in claims && OfKey(claims[name], scope, key) && GoodAt(claims[name], now) :: (name, claims[name]) in todo
  }

  predicate TurnInv(claims: Store, now: Time, turn: Turn) {
    match turn
    case Looking(scope, key, todo) => AllAhead(claims, now, scope, key, todo)
    case Vacant(scope, key) => NoneGood(claims, scope, key, now)
    case Awaiting(_) => true
  }

  predicate WorldInv(w: World) {
    OneGoodPerKey(w.claims, w.now) && (w.turn.Some? ==> TurnInv(w.claims, w.now, w.turn.value))
  }

  /** What an acquisition has found out stays true while claims are reduced and time passes. */
  lemma TurnFades(claims: Store, after: Store, now: Time, later: Time, turn: Turn)
    requires TurnInv(claims, now, turn) && Reduced(claims, after) && now <= later
    ensures TurnInv(after, later, turn)
  {
    match turn
    case Looking(scope, key, todo) =>
      forall name | name in after && OfKey(after[name], scope, key) && GoodAt(after[name], later) ensures (name, after[name]) in todo {
        assert after[name] == claims[name] && GoodAt(claims[name], now);
      }
    case Vacant(scope, key) =>
      forall name | name in after && OfKey(after[name], scope, key) ensures !GoodAt(after[name], later) {
        assert !GoodAt(claims[name], now);
      }
    case Awaiting(_) =>
  }

  lemma FadeKeeps(w: World, after: Store, later: Time)
    requires WorldInv(w) && Reduced(w.claims, after) && w.now <= later
    ensures WorldInv(w.(claims := after, now := later))
  {
    hide OneGoodPerKey, TurnInv, Reduced;
    GoodClaimsOnlyFade(w.claims, after, w.now, later);
    if w.turn.Some? {
      TurnFades(w.claims, after, w.now, later, w.turn.value);
    }
  }

  lemma DeleteIfReduces(claims: Store, name: ClaimName, accepted: bool)
    ensures Reduced(claims, DeleteIf(claims, name, accepted)) && Reduced(claims, claims)
  {
  }

  lemma LookKeeps(w: World, accepted: bool)
    requires WorldInv(w) && Enabled(w, Look(accepted))
    ensures WorldInv(Apply(w, Look(accepted)))
  {
    var turn := w.turn.value;
    if turn.todo != [] {
      var (name, c) := turn.todo[0];
      DeleteIfReduces(w.claims, name, accepted);
      FadeKeeps(w, w.claims, w.now);
      FadeKeeps(w, DeleteIf(w.claims, name, accepted), w.now);
      var claims' := Apply(w, Look(accepted)).claims;
      assert turn.todo == [turn.todo[0]] + turn.todo[1..];
      if !GoodAt(c, w.now) && (c.deleting || ReadableClaim(c)) {
        assert AllAhead(claims', w.now, turn.scope, turn.key, turn.todo);
        assert AllAhead(claims', w.now, turn.scope, turn.key, turn.todo[1..]);
      }
    }
  }

  lemma BeginKeeps(w: World, scope: Scope, key: string, order: seq<ClaimName>)
    requires WorldInv(w) && Enabled(w, BeginAcquire(scope, key, order))
    ensures WorldInv(Apply(w, BeginAcquire(scope, key, order)))
  {
    var matches := (c: Claim) => OfKey(c, scope, key);
    forall name | name in w.claims && OfKey(w.claims[name], scope, key) ensures (name, w.claims[name]) in Snapshot(order, w.claims) {
      assert matches(w.claims[name]);
    }
  }

  lemma CreateKeeps(w: World, name: ClaimName, pool: string, ttl: int)
    requires WorldInv(w) && Enabled(w, Create(name, pool, ttl))
    ensures WorldInv(Apply(w, Create(name, pool, ttl)))
  {
    var w' := Apply(w, Create(name, pool, ttl));
    forall a, b | a in w'.claims && b in w'.claims && SameKey(w'.claims[a], w'.claims[b]) && GoodAt(w'.claims[a], w.now) && GoodAt(w'.claims[b], w.now)
      ensures a == b
    {
      assert a != name ==> w'.claims[a] == w.claims[a];
      assert b != name ==> w'.claims[b] == w.claims[b];
    }
  }

  lemma StepKeeps(w: World, s: Step)
    requires WorldInv(w) && Enabled(w, s)
    ensures WorldInv(Apply(w, s))
  {
    match s
    case Tick(now) =>
      DeleteIfReduces(w.claims, "", false);
      FadeKeeps(w, w.claims, now);
    case Reduce(after) => FadeKeeps(w, after, w.now);
    case BeginAcquire(scope, key, order) => BeginKeeps(w, scope, key, order);
    case Look(accepted) => LookKeeps(w, accepted);
    case Create(name, pool, ttl) => CreateKeeps(w, name, pool, ttl);
    case Await(ready, accepted) =>
      DeleteIfReduces(w.claims, w.turn.value.name, accepted && !ready);
      FadeKeeps(w, DeleteIf(w.claims, w.turn.value.name, accepted && !ready), w.now);
    case FailTurn =>
  }

  lemma {:induction false} RunKeeps(w: World, steps: seq<Step>)
    requires WorldInv(w) && AllEnabled(w, steps)
    ensures WorldInv(Run(w, steps))
    decreases |steps|
  {
    hide WorldInv, Apply, Enabled;
    if steps != [] {
      StepKeeps(w, steps[0]);
      RunKeeps(Apply(w, steps[0]), steps[1..]);
    }
  }

  /** Over every history, at every moment, no two good claims share a scope and an idempotency key. */
  lemma OneGoodClaimPerKey(start: Time, steps: seq<Step>)
    requires AllEnabled(Initial(start), steps)
    ensures var w := Run(Initial(start), steps); OneGoodPerKey(w.claims, w.now)
  {
    RunKeeps(Initial(start), steps);
  }

  // ----- A turn, step by step ----------------------------------------------------------------

  /** The lookup looks on until it decides, with these answers to its deletions. */
  function LookOn(w: World, accepts: ClaimName -> bool): World
    requires w.turn.Some? && w.turn.value.Looking?
    decreases |w.turn.value.todo|
  {
    var w' := LookAt(w, w.turn.value, w.turn.value.todo != [] && accepts(w.turn.value.todo[0].0));
    if w'.turn.Some? && w'.turn.value.Looking? then LookOn(w', accepts) else w'
  }

  /** The steps in which it does. */
  function LookSteps(w: World, accepts: ClaimName -> bool): seq<Step>
    requires w.turn.Some? && w.turn.value.Looking?
    decreases |w.turn.value.todo|
  {
    var accepted := w.turn.value.todo != [] && accepts(w.turn.value.todo[0].0);
    var w' := LookAt(w, w.turn.value, accepted);
    [Look(accepted)] + if w'.turn.Some? && w'.turn.value.Looking? then LookSteps(w', accepts) else []
  }

  lemma {:induction false} LooksAreSteps(w: World, accepts: ClaimName -> bool)
    requires w.turn.Some? && w.turn.value.Looking?
    ensures AllEnabled(w, LookSteps(w, accepts)) && Run(w, LookSteps(w, accepts)) == LookOn(w, accepts)
    decreases |w.turn.value.todo|
  {
    var steps := LookSteps(w, accepts);
    var w' := Apply(w, steps[0]);
    if w'.turn.Some? && w'.turn.value.Looking? {
      LooksAreSteps(w', accepts);
      assert steps[1..] == LookSteps(w', accepts);
    } else {
      assert steps[1..] == [];
    }
  }

  lemma {:induction false} SnapshotIsAll(order: seq<ClaimName>, claims: Store)
    requires forall name | name in order :: name in claims
    ensures |Snapshot(order, claims)| == |order|
    ensures forall i | 0 <= i < |order| :: Snapshot(order, claims)[i] == (order[i], claims[order[i]])
  {
    if order != [] {
      SnapshotIsAll(order[1..], claims);
    }
  }

  predicate AllPassed(todo: seq<(ClaimName, Claim)>, now: Time) {
    forall i | 0 <= i < |todo| :: PassedOver(todo[i].1, now)
  }

  /** The lookup finds the key vacant exactly when every listed claim is being deleted or has expired. */
  lemma {:induction false} LooksExactly(w: World, accepts: ClaimName -> bool)
    requires w.turn.Some? && w.turn.value.Looking?
    ensures var w', turn := LookOn(w, accepts), w.turn.value;
      && w'.now == w.now && Reduced(w.claims, w'.claims) && w'.claims.Keys == w.claims.Keys
      && w'.turn == if AllPassed(turn.todo, w.now) then Some(Vacant(turn.scope, turn.key)) else None
    decreases |w.turn.value.todo|
  {
    var turn := w.turn.value;
    if turn.todo != [] {
      var (name, c) := turn.todo[0];
      assert turn.todo == [turn.todo[0]] + turn.todo[1..];
      if PassedOver(c, w.now) {
        var w1 := LookAt(w, turn, accepts(name));
        LooksExactly(w1, accepts);
      }
    }
  }

  /** A turn that nothing disturbs decides as the acquisition in place does. */
  lemma TurnDecides(w: World, scope: Scope, key: string, order: seq<ClaimName>, accepts: ClaimName -> bool)
    requires Enabled(w, BeginAcquire(scope, key, order))
    ensures var begun := Apply(w, BeginAcquire(scope, key, order));
      && begun.turn.Some? && begun.turn.value.Looking? && AllEnabled(begun, LookSteps(begun, accepts))
      && Run(begun, LookSteps(begun, accepts)).turn == if ReachesNone(w.claims, order, w.now) then Some(Vacant(scope, key)) else None
  {
    LooksAreSteps(Apply(w, BeginAcquire(scope, key, order)), accepts);
    SnapshotIsAll(order, w.claims);
    LooksExactly(Apply(w, BeginAcquire(scope, key, order)), accepts);
    var todo := Snapshot(order, w.claims);
    assert AllPassed(todo, w.now) <==> ReachesNone(w.claims, order, w.now) by {
      if AllPassed(todo, w.now) {
        forall name | name in order ensures PassedOver(w.claims[name], w.now) {
          var i :| 0 <= i < |order| && order[i] == name;
          assert PassedOver(todo[i].1, w.now);
        }
      }
    }
  }

  /** A vacant key gets a claim of its own, with its tenant, its pool and its times, that stays exactly if it becomes ready or its deletion is refused. */
  lemma TurnCreates(w: World, name: ClaimName, pool: string, ttl: int, ready: bool, accepted: bool)
    requires Enabled(w, Create(name, pool, ttl))
    ensures Enabled(Apply(w, Create(name, pool, ttl)), Await(ready, accepted))
    ensures var turn, w' := w.turn.value, Apply(Apply(w, Create(name, pool, ttl)), Await(ready, accepted));
      && w'.turn.None? && name in w'.claims && w'.claims - {name} == w.claims
      && var c := w'.claims[name];
      && c.managed && c.scope == turn.scope && c.key == turn.key && c.poolLabel == pool
      && RecordFromClaim(c) == Some(Record(name, pool, w.now, w.now + ttl * 1_000_000_000))
      && (c.deleting <==> !ready && accepted)
  {
    assert w.claims[name := Apply(w, Create(name, pool, ttl)).claims[name]] - {name} == w.claims;
  }
}
