/**
 Runs of transfers and lease teardowns in any interleaving: permits are accounted for exactly,
 stopping a lease and closing the manager are barriers, and a teardown deletes a claim only
 when no transfer for it is left.
 */
module TransferRuns {
  import opened Wrappers
  import opened Transfers

  type Thread = nat

  /** How far an operation has come: it leaves the tables, then the wait group, then signals its end. */
  datatype Phase = Running | Returned | Counted | Signalled

  datatype Op = Op(lease: LeaseId, expiresAt: Time, deadline: Time, phase: Phase)

  /**
   A teardown works through a list of leases: one lease for Release and Delete and for what is found
   expired on the way, all expired ones for the sweep.  `waiting` are the operations it still waits for.
   */
  datatype Pending =
    | Tearing(todo: seq<LeaseId>)
    | Stopping(lease: LeaseId, waiting: set<OpId>, todo: seq<LeaseId>)
    | Stopped(lease: LeaseId, todo: seq<LeaseId>)
    | ClosingDown

  /**
   `claims` are the standing claims with their expiry, `created` all that ever stood, `acquiring` those
   whose acquisition has not returned.
   */
  datatype World = World(
    p: Permits,
    ops: map<OpId, Op>,
    wg: int,
    threads: map<Thread, Pending>,
    claims: map<LeaseId, Time>,
    created: map<LeaseId, Time>,
    acquiring: set<LeaseId>,
    limits: Limits,
    stopped: set<LeaseId>,
    drained: bool)

  function Initial(limits: Limits): World {
    World(NO_PERMITS, map[], 0, map[], map[], map[], {}, limits, {}, false)
  }

  datatype Step =
    | CreateClaim(lease: LeaseId, expiresAt: Time)
    | Acquired(lease: LeaseId)
    | Abandon(lease: LeaseId)
    | DoBegin(op: OpId, lease: LeaseId, expiresAt: Time, now: Time)
    | DoFinish(op: OpId)
    | CountDown(op: OpId)
    | Signal(op: OpId)
    | StartTeardown(t: Thread, leases: seq<LeaseId>)
    | DoBlock(t: Thread)
    | SeeSignal(t: Thread, op: OpId)
    | StopReturns(t: Thread)
    | DeleteClaim(t: Thread)
    | DeleteExpired(lease: LeaseId, now: Time)
    | BeginClose(t: Thread)
    | CloseReturns(t: Thread)
    | GiveUp(t: Thread)

  /** Claim names are random and therefore new; a transfer begins with the expiry read from its claim, perhaps long before. */
  predicate Enabled(w: World, s: Step) {
    match s
    case CreateClaim(l, _) => l !in w.created
    case Acquired(l) => l in w.acquiring
    case Abandon(l) => l in w.acquiring
    case DoBegin(op, l, expiresAt, _) => op !in w.ops && l in w.created && w.created[l] == expiresAt
    case DoFinish(op) => op in w.ops
    case CountDown(op) => op in w.ops && w.ops[op].phase.Returned?
    case Signal(op) => op in w.ops && w.ops[op].phase.Counted?
    case StartTeardown(t, _) => t !in w.threads
    case DoBlock(t) => t in w.threads && w.threads[t].Tearing? && w.threads[t].todo != []
    case SeeSignal(t, op) => t in w.threads && w.threads[t].Stopping? && op in w.threads[t].waiting && op in w.ops && w.ops[op].phase.Signalled?
    case StopReturns(t) => t in w.threads && w.threads[t].Stopping? && w.threads[t].waiting == {}
    case DeleteClaim(t) => t in w.threads && w.threads[t].Stopped?
    case DeleteExpired(l, now) => l in w.claims && w.claims[l] <= now
    case BeginClose(t) => t !in w.threads
    case CloseReturns(t) => t in w.threads && w.threads[t].ClosingDown? && w.wg == 0
    case GiveUp(t) => t in w.threads
  }

  function At(w: World, t: Thread, p: Pending): World {
    w.(threads := w.threads[t := p])
  }

  function InPhase(w: World, op: OpId, phase: Phase): World
    requires op in w.ops
  {
    w.(ops := w.ops[op := w.ops[op].(phase := phase)])
  }

  /** `stopped` and `drained` remember that a stop or a close has returned without an error. */
  function Apply(w: World, s: Step): World
    requires Enabled(w, s)
  {
    match s
    case CreateClaim(l, expiresAt) =>
      w.(claims := w.claims[l := expiresAt], created := w.created[l := expiresAt], acquiring := w.acquiring + {l})
    case Acquired(l) => w.(acquiring := w.acquiring - {l})
    case Abandon(l) => w.(claims := w.claims - {l}, acquiring := w.acquiring - {l})
    case DoBegin(op, l, expiresAt, now) =>
      var (p, result) := Begin(w.p, w.limits, op, l, expiresAt, now);
      if result.Started? then w.(p := p, ops := w.ops[op := Op(l, expiresAt, result.deadline, Running)], wg := w.wg + 1) else w
    case DoFinish(op) =>
      if w.ops[op].phase.Running? then InPhase(w, op, Returned).(p := GiveBack(w.p, op, w.ops[op].lease)) else w
    case CountDown(op) => InPhase(w, op, Counted).(wg := w.wg - 1)
    case Signal(op) => InPhase(w, op, Signalled)
    case StartTeardown(t, leases) => At(w, t, Tearing(leases))
    case DoBlock(t) =>
      var l, todo := w.threads[t].todo[0], w.threads[t].todo[1..];
      var (p, operations) := Block(w.p, l);
      At(w, t, Stopping(l, operations, todo)).(p := p)
    case SeeSignal(t, op) => At(w, t, w.threads[t].(waiting := w.threads[t].waiting - {op}))
    case StopReturns(t) => At(w, t, Stopped(w.threads[t].lease, w.threads[t].todo)).(stopped := w.stopped + {w.threads[t].lease})
    case DeleteClaim(t) => At(w, t, Tearing(w.threads[t].todo)).(claims := w.claims - {w.threads[t].lease})
    case DeleteExpired(l, _) => w.(claims := w.claims - {l})
    case BeginClose(t) => At(w, t, ClosingDown).(p := Shut(w.p))
    case CloseReturns(t) => w.(threads := w.threads - {t}, drained := true)
    case GiveUp(t) => w.(threads := w.threads - {t})
  }

  predicate AllEnabled(w: World, steps: seq<Step>)
    decreases |steps|
  {
    steps != [] ==> Enabled(w, steps[0]) && AllEnabled(Apply(w, steps[0]), steps[1..])
  }

  function Run(w: World, steps: seq<Step>): World
    requires AllEnabled(w, steps)
    decreases |steps|
  {
    if steps == [] then w else Run(Apply(w, steps[0]), steps[1..])
  }

  // ----- Counting ----------------------------------------------------------------------------

  function RunningOps(ops: map<OpId, Op>): set<OpId> {
    set op | op in ops && ops[op].phase.Running?
  }

  function RunningFor(ops: map<OpId, Op>, l: LeaseId): set<OpId> {
    set op | op in ops && ops[op].phase.Running? && ops[op].lease == l
  }

  /** What the wait group counts: operations that have not been counted down. */
  function Uncounted(ops: map<OpId, Op>): set<OpId> {
    set op | op in ops && (ops[op].phase.Running? || ops[op].phase.Returned?)
  }

  ghost function Total(counts: map<LeaseId, int>): int
    decreases |counts|
  {
    if counts == map[] then 0
    else
      var l :| l in counts;
      counts[l] + Total(counts - {l})
  }

  lemma {:induction false} TotalWithout(counts: map<LeaseId, int>, l: LeaseId)
    requires l in counts
    ensures Total(counts) == counts[l] + Total(counts - {l})
    decreases |counts|
  {
    var k :| k in counts && Total(counts) == counts[k] + Total(counts - {k});
    if k != l {
      TotalWithout(counts - {k}, l);
      TotalWithout(counts - {l}, k);
      assert counts - {k} - {l} == counts - {l} - {k};
    }
  }

  lemma TotalUpdate(counts: map<LeaseId, int>, l: LeaseId, n: int)
    ensures Total(counts[l := n]) == Total(counts) - CountOf(counts, l) + n
  {
    TotalWithout(counts[l := n], l);
    if l in counts {
      TotalWithout(counts, l);
      assert counts[l := n] - {l} == counts - {l};
    } else {
      assert counts[l := n] - {l} == counts;
    }
  }

  // ----- The invariant -----------------------------------------------------------------------

  /** The entries of one lease: absent, or its running operations with their number. */
  predicate GoodLease(p: Permits, ops: map<OpId, Op>, limits: Limits, l: LeaseId) {
    && ActiveOf(p, l) == RunningFor(ops, l) && CountOf(p.perLease, l) == |RunningFor(ops, l)| <= limits.maxPerLease
    && (l in p.active <==> RunningFor(ops, l) != {}) && (l in p.perLease <==> RunningFor(ops, l) != {})
  }

  ghost predicate PermitsInv(p: Permits, ops: map<OpId, Op>, wg: int, limits: Limits) {
    && (forall l :: GoodLease(p, ops, limits, l))
    && p.global == Total(p.perLease) == |RunningOps(ops)| <= limits.maxGlobal
    && wg == |Uncounted(ops)|
  }

  /** No deadline is past the expiry of the claim. */
  predicate OpsInv(ops: map<OpId, Op>, created: map<LeaseId, Time>) {
    forall op | op in ops ::
      ops[op].lease in created && ops[op].deadline <= ops[op].expiresAt == created[ops[op].lease]
  }

  predicate ClaimsInv(claims: map<LeaseId, Time>, created: map<LeaseId, Time>) {
    forall l | l in claims :: l in created && claims[l] == created[l]
  }

  /** A stop has blocked its lease, and waits for everything of it that still runs. */
  predicate GoodThread(w: World, t: Thread)
    requires t in w.threads
  {
    match w.threads[t]
    case Stopping(l, waiting, _) =>
      l in w.p.blocked && RunningFor(w.ops, l) <= waiting && (forall op | op in waiting :: op in w.ops && w.ops[op].lease == l)
    case Stopped(l, _) => l in w.stopped
    case ClosingDown => w.p.closed
    case Tearing(_) => true
  }

  ghost predicate BarrierInv(w: World) {
    && (forall t | t in w.threads :: GoodThread(w, t))
    && (forall l | l in w.stopped :: l in w.p.blocked && RunningFor(w.ops, l) == {})
    && (w.drained ==> w.p.closed && w.wg == 0)
  }

  ghost predicate WorldInv(w: World) {
    PermitsInv(w.p, w.ops, w.wg, w.limits) && OpsInv(w.ops, w.created) && ClaimsInv(w.claims, w.created) && BarrierInv(w)
  }

  lemma InitialInv(limits: Limits)
    requires limits.maxGlobal >= 1 && limits.maxPerLease >= 1
    ensures WorldInv(Initial(limits))
  {
    forall l ensures GoodLease(NO_PERMITS, map[], limits, l) {
      assert RunningFor(map[], l) == {};
    }
    assert RunningOps(map[]) == {} && Uncounted(map[]) == {};
  }

  // ----- Permits are accounted for -----------------------------------------------------------

  lemma BegunSets(ops: map<OpId, Op>, op: OpId, x: Op, l: LeaseId)
    requires op !in ops && x.phase.Running?
    ensures op !in RunningFor(ops, l)
    ensures RunningFor(ops[op := x], l) == if l == x.lease then RunningFor(ops, l) + {op} else RunningFor(ops, l)
  {
    if l == x.lease {
      assert RunningFor(ops[op := x], l) == RunningFor(ops, l) + {op};
    } else {
      assert RunningFor(ops[op := x], l) == RunningFor(ops, l);
    }
  }

  lemma BegunUnions(ops: map<OpId, Op>, op: OpId, x: Op)
    requires op !in ops && x.phase.Running?
    ensures RunningOps(ops[op := x]) == RunningOps(ops) + {op} && op !in RunningOps(ops)
    ensures Uncounted(ops[op := x]) == Uncounted(ops) + {op} && op !in Uncounted(ops)
  {
    var ops' := ops[op := x];
    forall o ensures o in RunningOps(ops') <==> o in RunningOps(ops) || o == op {
    }
    forall o ensures o in Uncounted(ops') <==> o in Uncounted(ops) || o == op {
    }
  }

  lemma BegunCounts(ops: map<OpId, Op>, op: OpId, x: Op)
    requires op !in ops && x.phase.Running?
    ensures |RunningOps(ops[op := x])| == |RunningOps(ops)| + 1 && |Uncounted(ops[op := x])| == |Uncounted(ops)| + 1
  {
    hide RunningOps, Uncounted;
    BegunUnions(ops, op, x);
  }

  lemma BegunLease(p: Permits, ops: map<OpId, Op>, limits: Limits, op: OpId, x: Op, l: LeaseId, now: Time)
    requires GoodLease(p, ops, limits, l) && op !in ops && x.phase.Running?
    requires Begin(p, limits, op, x.lease, x.expiresAt, now).1.Started?
    ensures GoodLease(Begin(p, limits, op, x.lease, x.expiresAt, now).0, ops[op := x], limits, l)
  {
    hide RunningFor;
    BegunSets(ops, op, x, l);
  }

  lemma BeginKeepsPermits(p: Permits, ops: map<OpId, Op>, wg: int, limits: Limits, op: OpId, x: Op, now: Time)
    requires PermitsInv(p, ops, wg, limits) && op !in ops && x.phase.Running?
    requires Begin(p, limits, op, x.lease, x.expiresAt, now).1.Started?
    ensures PermitsInv(Begin(p, limits, op, x.lease, x.expiresAt, now).0, ops[op := x], wg + 1, limits)
  {
    hide GoodLease, RunningFor, RunningOps, Uncounted;
    var p', ops' := Begin(p, limits, op, x.lease, x.expiresAt, now).0, ops[op := x];
    forall l ensures GoodLease(p', ops', limits, l) {
      BegunLease(p, ops, limits, op, x, l, now);
    }
    TotalUpdate(p.perLease, x.lease, CountOf(p.perLease, x.lease) + 1);
    BegunCounts(ops, op, x);
  }

  lemma FinishedSets(ops: map<OpId, Op>, op: OpId)
    requires op in ops && ops[op].phase.Running?
    ensures var ops' := ops[op := ops[op].(phase := Returned)];
      && op in RunningFor(ops, ops[op].lease)
      && (forall l :: RunningFor(ops', l) == if l == ops[op].lease then RunningFor(ops, l) - {op} else RunningFor(ops, l))
      && |RunningOps(ops')| == |RunningOps(ops)| - 1 && Uncounted(ops') == Uncounted(ops)
  {
    var ops' := ops[op := ops[op].(phase := Returned)];
    assert op in RunningOps(ops) && RunningOps(ops') == RunningOps(ops) - {op};
  }

  lemma FinishedLease(p: Permits, ops: map<OpId, Op>, limits: Limits, op: OpId, l: LeaseId)
    requires GoodLease(p, ops, limits, l) && op in ops && ops[op].phase.Running?
    ensures GoodLease(GiveBack(p, op, ops[op].lease), ops[op := ops[op].(phase := Returned)], limits, l)
  {
    hide RunningFor, RunningOps, Uncounted;
    FinishedSets(ops, op);
  }

  lemma GiveBackTotal(p: Permits, op: OpId, l: LeaseId)
    requires l in p.perLease
    ensures Total(GiveBack(p, op, l).perLease) == Total(p.perLease) - 1
  {
    var count := p.perLease[l] - 1;
    TotalUpdate(p.perLease, l, count);
    if count == 0 {
      TotalWithout(p.perLease, l);
    }
  }

  lemma FinishKeepsPermits(p: Permits, ops: map<OpId, Op>, wg: int, limits: Limits, op: OpId)
    requires PermitsInv(p, ops, wg, limits) && op in ops && ops[op].phase.Running?
    ensures PermitsInv(GiveBack(p, op, ops[op].lease), ops[op := ops[op].(phase := Returned)], wg, limits)
  {
    hide RunningFor, RunningOps, Uncounted;
    var ops' := ops[op := ops[op].(phase := Returned)];
    forall l ensures GoodLease(GiveBack(p, op, ops[op].lease), ops', limits, l) {
      FinishedLease(p, ops, limits, op, l);
    }
    FinishedSets(ops, op);
    assert GoodLease(p, ops, limits, ops[op].lease);
    GiveBackTotal(p, op, ops[op].lease);
  }

  /** Later phases: nothing that runs changes. */
  lemma LaterKeepsPermits(p: Permits, ops: map<OpId, Op>, wg: int, limits: Limits, op: OpId, phase: Phase)
    requires PermitsInv(p, ops, wg, limits) && op in ops
    requires (ops[op].phase.Returned? && phase.Counted?) || (ops[op].phase.Counted? && phase.Signalled?)
    ensures PermitsInv(p, ops[op := ops[op].(phase := phase)], if phase.Counted? then wg - 1 else wg, limits)
  {
    var ops' := ops[op := ops[op].(phase := phase)];
    forall l ensures GoodLease(p, ops', limits, l) {
      assert GoodLease(p, ops, limits, l) && RunningFor(ops', l) == RunningFor(ops, l);
    }
    assert RunningOps(ops') == RunningOps(ops);
    if phase.Counted? {
      assert op in Uncounted(ops) && Uncounted(ops') == Uncounted(ops) - {op};
    } else {
      assert Uncounted(ops') == Uncounted(ops);
    }
  }

  lemma MarksKeepPermits(p: Permits, p': Permits, ops: map<OpId, Op>, wg: int, limits: Limits)
    requires PermitsInv(p, ops, wg, limits) && p' == p.(closed := p'.closed, blocked := p'.blocked)
    ensures PermitsInv(p', ops, wg, limits)
  {
    forall l ensures GoodLease(p', ops, limits, l) {
      assert GoodLease(p, ops, limits, l);
    }
  }

  // ----- Barriers hold -----------------------------------------------------------------------

  /** Fewer operations run for every lease that is blocked, and nothing is unblocked or forgotten. */
  ghost predicate Advances(w: World, w': World) {
    && (forall op | op in w.ops :: op in w'.ops && w'.ops[op].lease == w.ops[op].lease)
    && w.p.blocked <= w'.p.blocked && (w.p.closed ==> w'.p.closed) && w.stopped <= w'.stopped
    && forall l | l in w.p.blocked :: RunningFor(w'.ops, l) <= RunningFor(w.ops, l)
  }

  lemma ThreadAdvances(w: World, w': World, t: Thread)
    requires Advances(w, w') && t in w.threads && GoodThread(w, t) && t in w'.threads && w'.threads[t] == w.threads[t]
    ensures GoodThread(w', t)
  {
  }

  /** An operation begins, finishes or moves on. */
  lemma OpStepsKeepBarriers(w: World, s: Step)
    requires BarrierInv(w) && Enabled(w, s) && (s.DoBegin? || s.DoFinish? || s.CountDown? || s.Signal?)
    requires PermitsInv(w.p, w.ops, w.wg, w.limits)
    ensures BarrierInv(Apply(w, s))
  {
    hide PermitsInv;
    var w' := Apply(w, s);
    OpStepsAdvance(w, s);
    forall t | t in w'.threads ensures GoodThread(w', t) {
      ThreadAdvances(w, w', t);
    }
    if w.drained {
      DrainedStays(w, s);
    }
  }

  lemma OpStepsAdvance(w: World, s: Step)
    requires Enabled(w, s) && (s.DoBegin? || s.DoFinish? || s.CountDown? || s.Signal?)
    ensures Advances(w, Apply(w, s)) && Apply(w, s).threads == w.threads
    ensures Apply(w, s).stopped == w.stopped && Apply(w, s).drained == w.drained
  {
    hide Advances;
    var w' := Apply(w, s);
    match s
    case DoBegin(op, l, expiresAt, now) => BeginAdvances(w, w', op);
    case DoFinish(op) => PhaseAdvances(w, w', op);
    case CountDown(op) => PhaseAdvances(w, w', op);
    case Signal(op) => PhaseAdvances(w, w', op);
  }

  lemma BeginAdvances(w: World, w': World, op: OpId)
    requires w' == w || (op !in w.ops && op in w'.ops && w'.ops == w.ops[op := w'.ops[op]] && w'.ops[op].phase.Running? && w'.ops[op].lease !in w.p.blocked)
    requires w'.p.blocked == w.p.blocked && w'.p.closed == w.p.closed && w'.stopped == w.stopped
    ensures Advances(w, w')
  {
    hide RunningFor;
    if w' != w {
      forall l | l in w.p.blocked ensures RunningFor(w'.ops, l) <= RunningFor(w.ops, l) {
        BegunSets(w.ops, op, w'.ops[op], l);
      }
    }
  }

  lemma PhaseAdvances(w: World, w': World, op: OpId)
    requires op in w.ops && (w' == w || exists phase | phase != Running :: w'.ops == w.ops[op := w.ops[op].(phase := phase)])
    requires w'.p.blocked == w.p.blocked && w'.p.closed == w.p.closed && w'.stopped == w.stopped
    ensures Advances(w, w')
  {
    hide RunningFor;
    if w' != w {
      EndedSets(w.ops, op, w'.ops[op]);
    }
  }

  /** An operation that does not run is none of the running ones. */
  lemma EndedSets(ops: map<OpId, Op>, op: OpId, x: Op)
    requires !x.phase.Running?
    ensures forall l :: RunningFor(ops[op := x], l) <= RunningFor(ops, l)
  {
  }

  lemma DrainedStays(w: World, s: Step)
    requires w.wg == 0 && w.p.closed && PermitsInv(w.p, w.ops, w.wg, w.limits) && Enabled(w, s)
    ensures Apply(w, s).wg == 0
  {
    hide PermitsInv;
    if s.CountDown? {
      UncountedCounts(w, s.op);
    }
  }

  lemma UncountedCounts(w: World, op: OpId)
    requires PermitsInv(w.p, w.ops, w.wg, w.limits) && op in w.ops && w.ops[op].phase.Returned?
    ensures w.wg > 0
  {
    assert op in Uncounted(w.ops);
  }

  lemma ThreadStepsKeepBarriers(w: World, s: Step)
    requires BarrierInv(w) && PermitsInv(w.p, w.ops, w.wg, w.limits) && Enabled(w, s)
    requires s.DoBlock? || s.SeeSignal? || s.StopReturns? || s.DeleteClaim?
    ensures BarrierInv(Apply(w, s))
  {
    var w' := Apply(w, s);
    match s
    case DoBlock(t) =>
      var l := w.threads[t].todo[0];
      assert GoodLease(w.p, w.ops, w.limits, l);
      forall u | u in w'.threads ensures GoodThread(w', u) {
        assert u != t ==> GoodThread(w, u);
      }
    case SeeSignal(t, op) =>
      forall u | u in w'.threads ensures GoodThread(w', u) {
        assert GoodThread(w, u);
      }
    case StopReturns(t) =>
      assert GoodThread(w, t);
      forall u | u in w'.threads ensures GoodThread(w', u) {
        assert GoodThread(w, u);
      }
    case DeleteClaim(t) =>
      forall u | u in w'.threads ensures GoodThread(w', u) {
        assert GoodThread(w, u);
      }
  }

  lemma OtherStepsKeepBarriers(w: World, s: Step)
    requires BarrierInv(w) && Enabled(w, s)
    requires s.CreateClaim? || s.Acquired? || s.Abandon? || s.StartTeardown? || s.DeleteExpired? || s.BeginClose? || s.CloseReturns? || s.GiveUp?
    ensures BarrierInv(Apply(w, s))
  {
    var w' := Apply(w, s);
    forall u | u in w'.threads ensures GoodThread(w', u) {
      assert u in w.threads ==> GoodThread(w, u);
    }
    match s
    case CloseReturns(t) => assert GoodThread(w, t);
    case _ =>
  }

  // ----- All steps ---------------------------------------------------------------------------

  lemma StepKeepsPermits(w: World, s: Step)
    requires PermitsInv(w.p, w.ops, w.wg, w.limits) && Enabled(w, s)
    ensures PermitsInv(Apply(w, s).p, Apply(w, s).ops, Apply(w, s).wg, Apply(w, s).limits)
  {
    hide PermitsInv;
    match s
    case DoBegin(op, l, expiresAt, now) =>
      var result := Begin(w.p, w.limits, op, l, expiresAt, now).1;
      if result.Started? {
        BeginKeepsPermits(w.p, w.ops, w.wg, w.limits, op, Op(l, expiresAt, result.deadline, Running), now);
      }
    case DoFinish(op) =>
      if w.ops[op].phase.Running? {
        FinishKeepsPermits(w.p, w.ops, w.wg, w.limits, op);
      }
    case CountDown(op) => LaterKeepsPermits(w.p, w.ops, w.wg, w.limits, op, Counted);
    case Signal(op) => LaterKeepsPermits(w.p, w.ops, w.wg, w.limits, op, Signalled);
    case DoBlock(t) => MarksKeepPermits(w.p, Apply(w, s).p, w.ops, w.wg, w.limits);
    case BeginClose(t) => MarksKeepPermits(w.p, Apply(w, s).p, w.ops, w.wg, w.limits);
    case _ =>
  }

  lemma StepKeepsClaims(w: World, s: Step)
    requires OpsInv(w.ops, w.created) && ClaimsInv(w.claims, w.created) && Enabled(w, s)
    ensures OpsInv(Apply(w, s).ops, Apply(w, s).created) && ClaimsInv(Apply(w, s).claims, Apply(w, s).created)
  {
    hide GiveBack, Block;
  }

  lemma StepKeeps(w: World, s: Step)
    requires WorldInv(w) && Enabled(w, s)
    ensures WorldInv(Apply(w, s))
  {
    hide PermitsInv, OpsInv, ClaimsInv, BarrierInv, Apply;
    StepKeepsPermits(w, s);
    StepKeepsClaims(w, s);
    if s.DoBegin? || s.DoFinish? || s.CountDown? || s.Signal? {
      OpStepsKeepBarriers(w, s);
    } else if s.DoBlock? || s.SeeSignal? || s.StopReturns? || s.DeleteClaim? {
      ThreadStepsKeepBarriers(w, s);
    } else {
      OtherStepsKeepBarriers(w, s);
    }
  }

  lemma {:induction false} RunKeeps(w: World, steps: seq<Step>)
    requires WorldInv(w) && AllEnabled(w, steps)
    ensures WorldInv(Run(w, steps))
    decreases |steps|
  {
    if steps != [] {
      StepKeeps(w, steps[0]);
      RunKeeps(Apply(w, steps[0]), steps[1..]);
    }
  }

  lemma Reachable(limits: Limits, steps: seq<Step>)
    requires limits.maxGlobal >= 1 && limits.maxPerLease >= 1 && AllEnabled(Initial(limits), steps)
    ensures WorldInv(Run(Initial(limits), steps))
  {
    InitialInv(limits);
    RunKeeps(Initial(limits), steps);
  }

  // ----- What the runs promise ---------------------------------------------------------------

  /** The global count is the sum of the counts per lease and the number of running operations, within all limits. */
  lemma PermitsAreConserved(limits: Limits, steps: seq<Step>)
    requires limits.maxGlobal >= 1 && limits.maxPerLease >= 1 && AllEnabled(Initial(limits), steps)
    ensures var w := Run(Initial(limits), steps);
      && w.p.global == Total(w.p.perLease) == |RunningOps(w.ops)| <= limits.maxGlobal
      && w.p.perLease.Keys == w.p.active.Keys
      && (forall l | l in w.p.active :: w.p.active[l] == RunningFor(w.ops, l) && 0 < |w.p.active[l]| == w.p.perLease[l] <= limits.maxPerLease)
      && (forall op | op in w.ops :: w.ops[op].deadline <= w.ops[op].expiresAt)
  {
    Reachable(limits, steps);
    LimitsStay(Initial(limits), steps);
    EntriesAgree(Run(Initial(limits), steps));
  }

  lemma EntriesAgree(w: World)
    requires WorldInv(w)
    ensures w.p.perLease.Keys == w.p.active.Keys
    ensures forall l | l in w.p.active :: w.p.active[l] == RunningFor(w.ops, l) && 0 < |w.p.active[l]| == w.p.perLease[l] <= w.limits.maxPerLease
  {
    hide RunningFor;
    forall l ensures l in w.p.perLease <==> l in w.p.active {
      assert GoodLease(w.p, w.ops, w.limits, l);
    }
    forall l | l in w.p.active ensures w.p.active[l] == RunningFor(w.ops, l) && 0 < |w.p.active[l]| == w.p.perLease[l] <= w.limits.maxPerLease {
      assert GoodLease(w.p, w.ops, w.limits, l);
    }
  }

  lemma {:induction false} LimitsStay(w: World, steps: seq<Step>)
    requires AllEnabled(w, steps)
    ensures Run(w, steps).limits == w.limits
    decreases |steps|
  {
    if steps != [] {
      LimitsStay(Apply(w, steps[0]), steps[1..]);
    }
  }

  /** This step gives the permit of the operation back. */
  predicate GivesBack(w: World, s: Step, op: OpId)
    requires Enabled(w, s)
  {
    s == DoFinish(op) && Apply(w, s).p.global < w.p.global
  }

  /** How often a run gives the permit of an operation back. */
  function TimesGivenBack(w: World, steps: seq<Step>, op: OpId): nat
    requires AllEnabled(w, steps)
    decreases |steps|
  {
    if steps == [] then 0
    else (if GivesBack(w, steps[0], op) then 1 else 0) + TimesGivenBack(Apply(w, steps[0]), steps[1..], op)
  }

  predicate Ended(w: World, op: OpId) {
    op in w.ops && !w.ops[op].phase.Running?
  }

  lemma EndsByGivingBack(w: World, s: Step, op: OpId)
    requires Enabled(w, s)
    ensures Ended(Apply(w, s), op) <==> Ended(w, op) || GivesBack(w, s, op)
    ensures !(Ended(w, op) && GivesBack(w, s, op))
  {
  }

  /** Over any run an operation that has ended gave its permit back once, however often it was finished, and one that has not, never. */
  lemma {:induction false} GivenBackOnce(w: World, steps: seq<Step>, op: OpId)
    requires AllEnabled(w, steps)
    ensures TimesGivenBack(w, steps, op) == if Ended(Run(w, steps), op) && !Ended(w, op) then 1 else 0
    ensures Ended(w, op) ==> Ended(Run(w, steps), op)
    decreases |steps|
  {
    hide GivesBack, Ended, Apply, Enabled;
    if steps != [] {
      EndsByGivingBack(w, steps[0], op);
      GivenBackOnce(Apply(w, steps[0]), steps[1..], op);
    }
  }

  /** A transfer begins exactly when its lease is not blocked and fewer transfers run than the limits allow. */
  lemma BegunExactly(w: World, op: OpId, l: LeaseId, expiresAt: Time, now: Time)
    requires WorldInv(w)
    ensures Begin(w.p, w.limits, op, l, expiresAt, now).1 ==
      if w.p.closed || l in w.p.blocked then Aborted
      else if |RunningOps(w.ops)| >= w.limits.maxGlobal || |RunningFor(w.ops, l)| >= w.limits.maxPerLease then LimitReached
      else Started(Deadline(w.limits, expiresAt, now))
  {
    assert GoodLease(w.p, w.ops, w.limits, l);
  }

  /** What a stop waits for are operations of its own lease, so it returns once they have signalled. */
  lemma StopWaitsForItsOwn(w: World, t: Thread)
    requires WorldInv(w) && t in w.threads && w.threads[t].Stopping?
    requires forall op | op in w.ops && w.ops[op].lease == w.threads[t].lease :: w.ops[op].phase.Signalled?
    ensures Enabled(w, StopReturns(t)) || exists op :: Enabled(w, SeeSignal(t, op))
  {
    assert GoodThread(w, t);
    if w.threads[t].waiting != {} {
      var op :| op in w.threads[t].waiting;
      assert Enabled(w, SeeSignal(t, op));
    }
  }

  lemma {:induction false} StoppedStays(w: World, steps: seq<Step>)
    requires AllEnabled(w, steps)
    ensures w.stopped <= Run(w, steps).stopped && (w.drained ==> Run(w, steps).drained)
    decreases |steps|
  {
    if steps != [] {
      StoppedStays(Apply(w, steps[0]), steps[1..]);
    }
  }

  /** Stopping a lease is a barrier: once it has returned, nothing is active for the lease and nothing ever will be. */
  lemma StopIsABarrier(w: World, t: Thread, steps: seq<Step>)
    requires WorldInv(w) && Enabled(w, StopReturns(t)) && AllEnabled(Apply(w, StopReturns(t)), steps)
    ensures var w', l := Run(Apply(w, StopReturns(t)), steps), w.threads[t].lease;
      && RunningFor(w'.ops, l) == {} && l !in w'.p.active && l !in w'.p.perLease
      && forall op, expiresAt, now :: Begin(w'.p, w'.limits, op, l, expiresAt, now) == (w'.p, Aborted)
  {
    var w1, l := Apply(w, StopReturns(t)), w.threads[t].lease;
    StepKeeps(w, StopReturns(t));
    RunKeeps(w1, steps);
    StoppedStays(w1, steps);
    assert l in Run(w1, steps).stopped;
    assert GoodLease(Run(w1, steps).p, Run(w1, steps).ops, Run(w1, steps).limits, l);
  }

  /**
   What a stop without an error means: from the moment it blocks its lease, through any steps, until all
   the operations it waited for have signalled, whoever they are, nothing is left running for the lease.
   */
  ghost predicate IdleOnceSignalled(p: Permits, l: LeaseId, signalled: set<OpId>) {
    forall w, steps | WorldInv(w) && w.p == Block(p, l).0 && AllEnabled(w, steps) && AllSignalled(Run(w, steps), signalled) ::
      RunningFor(Run(w, steps).ops, l) == {}
  }

  predicate AllSignalled(w: World, signalled: set<OpId>) {
    forall op | op in signalled && op in w.ops :: w.ops[op].phase.Signalled?
  }

  lemma StopsIsIdle(p: Permits, l: LeaseId, signalled: set<OpId>)
    requires Stops(p, l, signalled)
    ensures IdleOnceSignalled(p, l, signalled)
  {
    forall w, steps | WorldInv(w) && w.p == Block(p, l).0 && AllEnabled(w, steps) && AllSignalled(Run(w, steps), signalled)
      ensures RunningFor(Run(w, steps).ops, l) == {}
    {
      BlockedOnlyFinish(w, steps, l);
      assert GoodLease(w.p, w.ops, w.limits, l);
    }
  }

  /** For a blocked lease operations only finish. */
  lemma {:induction false} BlockedOnlyFinish(w: World, steps: seq<Step>, l: LeaseId)
    requires WorldInv(w) && AllEnabled(w, steps) && l in w.p.blocked
    ensures RunningFor(Run(w, steps).ops, l) <= RunningFor(w.ops, l) && l in Run(w, steps).p.blocked
    decreases |steps|
  {
    hide WorldInv, RunningFor, Apply, Enabled;
    if steps != [] {
      StepKeeps(w, steps[0]);
      BlockedStep(w, steps[0], l);
      BlockedOnlyFinish(Apply(w, steps[0]), steps[1..], l);
    }
  }

  lemma BlockedStep(w: World, s: Step, l: LeaseId)
    requires Enabled(w, s) && l in w.p.blocked
    ensures RunningFor(Apply(w, s).ops, l) <= RunningFor(w.ops, l) && l in Apply(w, s).p.blocked
  {
    if s.DoBegin? || s.DoFinish? || s.CountDown? || s.Signal? {
      OpStepsAdvance(w, s);
    }
  }

  /** Release, Delete and the sweep delete a claim only when no transfer for it is in flight. */
  lemma TeardownDeletesIdleClaims(w: World, t: Thread)
    requires WorldInv(w) && Enabled(w, DeleteClaim(t))
    ensures RunningFor(w.ops, w.threads[t].lease) == {} && w.threads[t].lease !in w.p.active
  {
    assert GoodThread(w, t);
    assert GoodLease(w.p, w.ops, w.limits, w.threads[t].lease);
  }

  /** Once closing has returned without an error, no transfer runs and none ever will. */
  lemma CloseIsABarrier(w: World, t: Thread, steps: seq<Step>)
    requires WorldInv(w) && Enabled(w, CloseReturns(t)) && AllEnabled(Apply(w, CloseReturns(t)), steps)
    ensures var w' := Run(Apply(w, CloseReturns(t)), steps); w'.p.global == 0 && w'.wg == 0 && RunningOps(w'.ops) == {}
  {
    var w1 := Apply(w, CloseReturns(t));
    StepKeeps(w, CloseReturns(t));
    RunKeeps(w1, steps);
    StoppedStays(w1, steps);
    assert Uncounted(Run(w1, steps).ops) == {};
    assert RunningOps(Run(w1, steps).ops) <= Uncounted(Run(w1, steps).ops);
  }

  /** Which steps take a claim away, and which bring one. */
  lemma ClaimsChangeExactly(w: World, s: Step)
    requires Enabled(w, s)
    ensures Apply(w, s).claims ==
      if s.DeleteClaim? then w.claims - {w.threads[s.t].lease}
      else if s.DeleteExpired? || s.Abandon? then w.claims - {s.lease}
      else if s.CreateClaim? then w.claims[s.lease := s.expiresAt]
      else w.claims
  {
    hide Begin, GiveBack, Block;
  }

  /** A transfer that begins with room, and finishes, has run under its own lease and deadline, and leaves the tables as they were. */
  lemma TransferCompletes(w: World, op: OpId, l: LeaseId, expiresAt: Time, now: Time)
    requires WorldInv(w) && Enabled(w, DoBegin(op, l, expiresAt, now))
    requires !w.p.closed && l !in w.p.blocked && w.p.global < w.limits.maxGlobal && CountOf(w.p.perLease, l) < w.limits.maxPerLease
    ensures var w1 := Apply(w, DoBegin(op, l, expiresAt, now));
      && op in w1.ops && w1.ops[op].phase.Running? && w1.ops[op].lease == l && w1.ops[op].expiresAt == expiresAt
      && w1.ops[op].deadline == (if expiresAt < now + w.limits.timeout then expiresAt else now + w.limits.timeout)
      && Enabled(w1, DoFinish(op)) && Enabled(Apply(w1, DoFinish(op)), CountDown(op))
      && Enabled(Apply(Apply(w1, DoFinish(op)), CountDown(op)), Signal(op))
      && var w' := Apply(Apply(Apply(w1, DoFinish(op)), CountDown(op)), Signal(op));
         w'.p == w.p && w'.wg == w.wg && op in w'.ops && w'.ops[op].phase.Signalled?
  {
    hide WorldInv, GiveBack;
    GivenBackAgain(w, op, l, expiresAt, now);
  }

  lemma NotRunning(w: World, op: OpId, l: LeaseId)
    requires WorldInv(w) && op !in w.ops
    ensures op !in ActiveOf(w.p, l) && CountOf(w.p.perLease, l) == |ActiveOf(w.p, l)|
    ensures l in w.p.active <==> ActiveOf(w.p, l) != {}
    ensures l in w.p.perLease <==> l in w.p.active
  {
    assert GoodLease(w.p, w.ops, w.limits, l);
  }

  lemma GivenBackAgain(w: World, op: OpId, l: LeaseId, expiresAt: Time, now: Time)
    requires WorldInv(w) && op !in w.ops && Begin(w.p, w.limits, op, l, expiresAt, now).1.Started?
    ensures GiveBack(Begin(w.p, w.limits, op, l, expiresAt, now).0, op, l) == w.p
  {
    NotRunning(w, op, l);
    hide WorldInv, GoodLease;
    var p1 := Begin(w.p, w.limits, op, l, expiresAt, now).0;
    assert ActiveOf(p1, l) - {op} == ActiveOf(w.p, l);
    assert (w.p.active[l := ActiveOf(w.p, l) + {op}])[l := ActiveOf(w.p, l)] == if l in w.p.active then w.p.active else w.p.active[l := ActiveOf(w.p, l)];
    if l !in w.p.active {
      assert ActiveOf(w.p, l) == {} && p1.active - {l} == w.p.active && p1.perLease - {l} == w.p.perLease;
    } else {
      assert p1.active[l := w.p.active[l]] == w.p.active && p1.perLease[l := w.p.perLease[l]] == w.p.perLease;
    }
  }

  /** The steps of a teardown for leases without transfers. */
  function TeardownSteps(t: Thread, leases: seq<LeaseId>): seq<Step> {
    if leases == [] then [] else [DoBlock(t)] + ([StopReturns(t)] + ([DeleteClaim(t)] + TeardownSteps(t, leases[1..])))
  }

  lemma TeardownOne(w: World, t: Thread)
    requires WorldInv(w) && t in w.threads && w.threads[t].Tearing? && w.threads[t].todo != [] && RunningFor(w.ops, w.threads[t].todo[0]) == {}
    ensures Enabled(w, DoBlock(t)) && Enabled(Apply(w, DoBlock(t)), StopReturns(t))
    ensures Enabled(Apply(Apply(w, DoBlock(t)), StopReturns(t)), DeleteClaim(t))
    ensures var w', l, todo := Apply(Apply(Apply(w, DoBlock(t)), StopReturns(t)), DeleteClaim(t)), w.threads[t].todo[0], w.threads[t].todo[1..];
      && w'.claims == w.claims - {l} && w'.ops == w.ops && t in w'.threads && w'.threads[t] == Tearing(todo)
  {
    assert GoodLease(w.p, w.ops, w.limits, w.threads[t].todo[0]);
    hide WorldInv, RunningFor;
  }

  /** A teardown of leases without transfers goes through by itself, and deletes exactly their claims. */
  lemma {:induction false} TeardownCompletes(w: World, t: Thread)
    requires WorldInv(w) && t in w.threads && w.threads[t].Tearing?
    requires forall l | l in w.threads[t].todo :: RunningFor(w.ops, l) == {}
    ensures var steps := TeardownSteps(t, w.threads[t].todo);
      AllEnabled(w, steps) && Run(w, steps).claims == w.claims - (set l | l in w.threads[t].todo)
    decreases |w.threads[t].todo|
  {
    hide WorldInv, RunningFor, Apply, Enabled;
    var todo := w.threads[t].todo;
    if todo == [] {
      assert w.claims - (set l | l in todo) == w.claims;
    } else {
      TeardownOne(w, t);
      var w1 := Apply(w, DoBlock(t));
      var w2 := Apply(w1, StopReturns(t));
      var w3 := Apply(w2, DeleteClaim(t));
      StepKeeps(w, DoBlock(t));
      StepKeeps(w1, StopReturns(t));
      StepKeeps(w2, DeleteClaim(t));
      TeardownCompletes(w3, t);
      var rest := TeardownSteps(t, todo[1..]);
      var w' := Run(w3, rest);
      RunsToStep(w2, DeleteClaim(t), rest, w');
      RunsToStep(w1, StopReturns(t), [DeleteClaim(t)] + rest, w');
      RunsToStep(w, DoBlock(t), [StopReturns(t)] + ([DeleteClaim(t)] + rest), w');
      assert todo == [todo[0]] + todo[1..];
      assert w.claims - {todo[0]} - (set l | l in todo[1..]) == w.claims - (set l | l in todo);
    }
  }

  /** Acquisitions and waits end: the lease is no longer being acquired, and the thread is free again. */
  lemma EndsExactly(w: World, s: Step)
    requires Enabled(w, s)
    ensures var w' := Apply(w, s);
      && (s.Acquired? || s.Abandon? ==> w'.acquiring == w.acquiring - {s.lease} && w'.ops == w.ops && w'.p == w.p)
      && (s.GiveUp? || s.CloseReturns? ==> w'.threads == w.threads - {s.t} && w'.ops == w.ops && w'.p == w.p && w'.claims == w.claims)
      && (s.StartTeardown? ==> w'.threads == w.threads[s.t := Tearing(s.leases)] && w'.ops == w.ops && w'.p == w.p && w'.claims == w.claims)
  {
    hide Begin, GiveBack, Block;
  }

  /** A running transfer of a lease whose claim has expired. */
  predicate Overdue(w: World, op: OpId, l: LeaseId, now: Time) {
    op in RunningFor(w.ops, l) && w.ops[op].deadline <= now
  }

  /** The claim is deleted as expired while a transfer for it is in flight. */
  predicate DeletesUnderTransfer(w: World, l: LeaseId, now: Time) {
    Enabled(w, DeleteExpired(l, now)) && RunningFor(w.ops, l) != {}
  }

  /** Every transfer in flight under a claim that is deleted as expired is past its deadline. */
  lemma ExpiredTransfersAreOverdue(w: World, l: LeaseId, now: Time)
    requires WorldInv(w) && Enabled(w, DeleteExpired(l, now))
    ensures forall op | op in RunningFor(w.ops, l) :: Overdue(w, op, l, now)
  {
    hide PermitsInv, BarrierInv;
  }

  /** So the deletion is under a transfer exactly when one that is past its deadline has not returned yet. */
  lemma DeletesUnderTransferExactly(w: World, l: LeaseId, now: Time)
    requires WorldInv(w)
    ensures DeletesUnderTransfer(w, l, now) <==> l in w.claims && w.claims[l] <= now && exists op :: Overdue(w, op, l, now)
  {
    if DeletesUnderTransfer(w, l, now) {
      ExpiredTransfersAreOverdue(w, l, now);
      var op :| op in RunningFor(w.ops, l);
      assert Overdue(w, op, l, now);
    }
  }

  /** The operations of a lease that a run begins before the acquisition of the lease has returned. */
  ghost function EarlyBegins(w: World, steps: seq<Step>, l: LeaseId): set<OpId>
    requires AllEnabled(w, steps)
    decreases |steps|
  {
    if steps == [] then {} else EarlyBegin(w, steps[0], l) + EarlyBegins(Apply(w, steps[0]), steps[1..], l)
  }

  function EarlyBegin(w: World, s: Step, l: LeaseId): set<OpId> {
    if s.DoBegin? && s.lease == l && l in w.acquiring && Begin(w.p, w.limits, s.op, l, s.expiresAt, s.now).1.Started?
    then {s.op} else {}
  }

  /** While a lease is being acquired, all its operations are early ones. */
  predicate AllEarly(w: World, l: LeaseId, early: set<OpId>) {
    && (forall op | op in early :: op in w.ops && w.ops[op].lease == l)
    && (l in w.acquiring || l !in w.created ==> forall op | op in w.ops && w.ops[op].lease == l :: op in early)
  }

  lemma AllEarlyStep(w: World, s: Step, l: LeaseId, early: set<OpId>)
    requires Enabled(w, s) && AllEarly(w, l, early)
    ensures AllEarly(Apply(w, s), l, early + EarlyBegin(w, s, l))
  {
    hide GiveBack, Block;
  }

  lemma {:induction false} AllEarlyRun(w: World, steps: seq<Step>, l: LeaseId, early: set<OpId>)
    requires AllEnabled(w, steps) && AllEarly(w, l, early)
    ensures AllEarly(Run(w, steps), l, early + EarlyBegins(w, steps, l))
    decreases |steps|
  {
    hide AllEarly, Apply, Enabled, EarlyBegin;
    if steps == [] {
      assert early + {} == early;
    } else {
      AllEarlyStep(w, steps[0], l, early);
      AllEarlyRun(Apply(w, steps[0]), steps[1..], l, early + EarlyBegin(w, steps[0], l));
      assert early + EarlyBegins(w, steps, l) == early + EarlyBegin(w, steps[0], l) + EarlyBegins(Apply(w, steps[0]), steps[1..], l);
    }
  }

  predicate AbandonsUnderTransfer(w: World, l: LeaseId) {
    Enabled(w, Abandon(l)) && RunningFor(w.ops, l) != {}
  }

  /**
   After any run, a failing acquisition deletes its claim under a transfer exactly when an operation that
   was begun before the acquisition returned has not finished.
   */
  lemma AbandonsUnderTransferExactly(limits: Limits, steps: seq<Step>, l: LeaseId)
    requires AllEnabled(Initial(limits), steps)
    ensures var w := Run(Initial(limits), steps);
      AbandonsUnderTransfer(w, l) <==> l in w.acquiring && exists op :: op in EarlyBegins(Initial(limits), steps, l) && op in w.ops && w.ops[op].phase.Running?
  {
    hide Apply, EarlyBegins, AllEnabled, Run;
    var w, early := Run(Initial(limits), steps), EarlyBegins(Initial(limits), steps, l);
    AllEarlyRun(Initial(limits), steps, l, {});
    assert {} + early == early;
    assert forall op :: op in RunningFor(w.ops, l) <==> op in w.ops && w.ops[op].phase.Running? && w.ops[op].lease == l;
    if AbandonsUnderTransfer(w, l) {
      var op :| op in RunningFor(w.ops, l);
      assert op in early;
    }
  }

  /** This run asks for no transfer of the lease before its acquisition has returned. */
  predicate WaitsForLease(w: World, steps: seq<Step>, l: LeaseId)
    requires AllEnabled(w, steps)
    decreases |steps|
  {
    steps != [] ==>
      && !(steps[0].DoBegin? && steps[0].lease == l && l in w.acquiring)
      && WaitsForLease(Apply(w, steps[0]), steps[1..], l)
  }

  lemma {:induction false} NothingEarly(w: World, steps: seq<Step>, l: LeaseId)
    requires AllEnabled(w, steps) && WaitsForLease(w, steps, l)
    ensures EarlyBegins(w, steps, l) == {}
    decreases |steps|
  {
    if steps != [] {
      NothingEarly(Apply(w, steps[0]), steps[1..], l);
    }
  }

  /** Whoever transfers only after the acquire call has returned never has a claim deleted by its failure underneath. */
  lemma AbandonIsIdle(limits: Limits, steps: seq<Step>, l: LeaseId)
    requires AllEnabled(Initial(limits), steps) && WaitsForLease(Initial(limits), steps, l)
    ensures var w := Run(Initial(limits), steps); l in w.acquiring ==> RunningFor(w.ops, l) == {}
  {
    hide AllEnabled, Run, EarlyBegins, WaitsForLease;
    NothingEarly(Initial(limits), steps, l);
    AbandonsUnderTransferExactly(limits, steps, l);
  }

  predicate RunsTo(w: World, steps: seq<Step>, w': World) {
    AllEnabled(w, steps) && Run(w, steps) == w'
  }

  lemma RunsToStep(w: World, s: Step, steps: seq<Step>, w': World)
    requires Enabled(w, s) && RunsTo(Apply(w, s), steps, w')
    ensures RunsTo(w, [s] + steps, w')
  {
    assert ([s] + steps)[1..] == steps;
  }

  /** A lookup by idempotency key, at the expiry of a claim, can delete it while a transfer has not returned yet. */
  lemma DirectDeleteIsNotABarrier()
    ensures exists steps, l, now :: AllEnabled(Initial(Limits(8, 2, 120)), steps) && DeletesUnderTransfer(Run(Initial(Limits(8, 2, 120)), steps), l, now)
  {
    var w0 := Initial(Limits(8, 2, 120));
    var s0, s1, s2 := CreateClaim("l", 10), Acquired("l"), DoBegin(0, "l", 10, 5);
    var w1 := Apply(w0, s0);
    var w2 := Apply(w1, s1);
    var w3 := Apply(w2, s2);
    RunsToStep(w2, s2, [], w3);
    RunsToStep(w1, s1, [s2] + [], w3);
    RunsToStep(w0, s0, [s1] + ([s2] + []), w3);
    assert 0 in RunningFor(w3.ops, "l");
    assert DeletesUnderTransfer(w3, "l", 10);
  }

  /** Such a run: a transfer begins as soon as the claim stands, and the acquisition fails after that. */
  lemma AbandonIsNotABarrier()
    ensures exists steps, l :: AllEnabled(Initial(Limits(8, 2, 120)), steps) && AbandonsUnderTransfer(Run(Initial(Limits(8, 2, 120)), steps), l)
  {
    var w0 := Initial(Limits(8, 2, 120));
    var s0, s1 := CreateClaim("l", 10), DoBegin(0, "l", 10, 5);
    var w1 := Apply(w0, s0);
    var w2 := Apply(w1, s1);
    RunsToStep(w1, s1, [], w2);
    RunsToStep(w0, s0, [s1] + [], w2);
    assert 0 in RunningFor(w2.ops, "l");
    assert AbandonsUnderTransfer(w2, "l");
  }
}
