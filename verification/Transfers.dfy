/**
 Permits for file transfers: at most so many at once, per lease and over all leases, none for
 a lease whose transfers were stopped, none after closing.
 */
module Transfers {
  import opened Wrappers

  type LeaseId = string
  type OpId = nat
  type Time = int

  datatype Limits = Limits(maxGlobal: int, maxPerLease: int, timeout: int)

  /** `blocked` holds the leases mapped to true; `active` has no entry for a lease without transfers. */
  datatype Permits = Permits(
    closed: bool,
    blocked: set<LeaseId>,
    active: map<LeaseId, set<OpId>>,
    global: int,
    perLease: map<LeaseId, int>)

  const NO_PERMITS := Permits(false, {}, map[], 0, map[])

  datatype BeginResult = Started(deadline: Time) | Aborted | LimitReached

  function CountOf(perLease: map<LeaseId, int>, l: LeaseId): int {
    if l in perLease then perLease[l] else 0
  }

  function ActiveOf(p: Permits, l: LeaseId): set<OpId> {
    if l in p.active then p.active[l] else {}
  }

  /** The earlier of the expiry and the timeout. */
  function Deadline(limits: Limits, expiresAt: Time, now: Time): (deadline: Time)
    ensures deadline <= expiresAt && deadline <= now + limits.timeout && (deadline == expiresAt || deadline == now + limits.timeout)
  {
    if expiresAt < now + limits.timeout then expiresAt else now + limits.timeout
  }

  function Begin(p: Permits, limits: Limits, op: OpId, l: LeaseId, expiresAt: Time, now: Time): (Permits, BeginResult) {
    if p.closed || l in p.blocked then (p, Aborted)
    else if p.global >= limits.maxGlobal || CountOf(p.perLease, l) >= limits.maxPerLease then (p, LimitReached)
    else
      (p.(active := p.active[l := ActiveOf(p, l) + {op}],
          global := p.global + 1,
          perLease := p.perLease[l := CountOf(p.perLease, l) + 1]),
       Started(Deadline(limits, expiresAt, now)))
  }

  /** What finishing an operation does under the mutex. */
  function GiveBack(p: Permits, op: OpId, l: LeaseId): Permits {
    var left := ActiveOf(p, l) - {op};
    var count := CountOf(p.perLease, l) - 1;
    p.(active := if left == {} then p.active - {l} else p.active[l := left],
       global := p.global - 1,
       perLease := if count == 0 then p.perLease - {l} else p.perLease[l := count])
  }

  /** First region of stopping a lease: block it, and remember what has to finish. */
  function Block(p: Permits, l: LeaseId): (Permits, set<OpId>) {
    (p.(blocked := p.blocked + {l}), ActiveOf(p, l))
  }

  /** Everything that runs for the lease signals its end. */
  predicate Stops(p: Permits, l: LeaseId, signalled: set<OpId>): (stops: bool)
    ensures stops <==> forall op | l in p.active && op in p.active[l] :: op in signalled
  {
    ActiveOf(p, l) <= signalled
  }

  function Shut(p: Permits): Permits {
    p.(closed := true)
  }

  // ----- Objects -----------------------------------------------------------------------------

  class TransferManager {
    const limits: Limits
    var closed: bool
    var blocked: set<LeaseId>
    var active: map<LeaseId, set<OpId>>
    var global: int
    var perLease: map<LeaseId, int>
    /** The wait group's counter. */
    var wg: int

    function Model(): Permits
      reads this
    {
      Permits(closed, blocked, active, global, perLease)
    }

    constructor (limits: Limits)
      ensures Model() == NO_PERMITS && this.limits == limits && wg == 0
    {
      this.limits := limits;
      closed, blocked, active, global, perLease, wg := false, {}, map[], 0, map[], 0;
    }

    method BeginTransfer(id: OpId, l: LeaseId, expiresAt: Time, now: Time) returns (result: BeginResult, op: Operation?)
      modifies this
      ensures (Model(), result) == Begin(old(Model()), limits, id, l, expiresAt, now)
      ensures result.Started? <==> op != null
      ensures op != null ==> fresh(op) && op.id == id && op.leaseId == l && op.deadline == result.deadline && !op.finished && !op.done
      ensures wg == old(wg) + (if result.Started? then 1 else 0)
    {
      op := null;
      if closed || l in blocked {
        return Aborted, op;
      }
      if global >= limits.maxGlobal || CountOf(perLease, l) >= limits.maxPerLease {
        return LimitReached, op;
      }
      var deadline := now + limits.timeout;
      if expiresAt < deadline {
        deadline := expiresAt;
      }
      op := new Operation(id, l, deadline);
      var others := if l in active then active[l] else {};
      active := active[l := others + {id}];
      global := global + 1;
      perLease := perLease[l := CountOf(perLease, l) + 1];
      wg := wg + 1;
      return Started(deadline), op;
    }

    method BlockLease(l: LeaseId) returns (operations: set<OpId>)
      modifies this`blocked
      ensures (Model(), operations) == Block(old(Model()), l)
    {
      blocked := blocked + {l};
      operations := if l in active then active[l] else {};
    }

    /**
     Block the lease, then wait for what runs for it, one operation after the other.  `signalled` are the
     operations that end before the caller gives up.
     */
    method StopLease(l: LeaseId, signalled: set<OpId>) returns (stopped: bool)
      modifies this`blocked
      ensures Model() == Block(old(Model()), l).0
      ensures stopped <==> Stops(old(Model()), l, signalled)
      ensures stopped <==> forall op | l in old(active) && op in old(active)[l] :: op in signalled
    {
      var waiting := BlockLease(l);
      while waiting != {}
        invariant waiting <= ActiveOf(old(Model()), l) && ActiveOf(old(Model()), l) - waiting <= signalled
        decreases waiting
      {
        var op :| op in waiting;
        if op !in signalled {
          return false;
        }
        waiting := waiting - {op};
      }
      return true;
    }

    method Close()
      modifies this`closed
      ensures Model() == Shut(old(Model()))
    {
      closed := true;
    }
  }

  class Operation {
    const id: OpId
    const leaseId: LeaseId
    const deadline: Time
    var finished: bool
    /** The channel that stops wait on is closed. */
    var done: bool

    constructor (id: OpId, leaseId: LeaseId, deadline: Time)
      ensures this.id == id && this.leaseId == leaseId && this.deadline == deadline && !finished && !done
    {
      this.id, this.leaseId, this.deadline, finished, done := id, leaseId, deadline, false, false;
    }

    /** Only the first call gives the permit back, counts the wait group down and signals the end, in this order. */
    method Finish(m: TransferManager)
      modifies this, m
      ensures finished
      ensures done == (old(done) || !old(finished)) && m.wg == old(m.wg) - (if old(finished) then 0 else 1)
      ensures m.Model() == if old(finished) then old(m.Model()) else GiveBack(old(m.Model()), id, leaseId)
    {
      if !finished {
        finished := true;
        var left := (if leaseId in m.active then m.active[leaseId] else {}) - {id};
        if left == {} {
          m.active := m.active - {leaseId};
        } else {
          m.active := m.active[leaseId := left];
        }
        m.global := m.global - 1;
        var count := CountOf(m.perLease, leaseId) - 1;
        if count == 0 {
          m.perLease := m.perLease - {leaseId};
        } else {
          m.perLease := m.perLease[leaseId := count];
        }
        m.wg := m.wg - 1;
        done := true;
      }
    }
  }
}
