/** What the registry promises over every run: see the invariants this follows from in the modules it imports. */
module RegistryTheorems {
  import opened Wrappers
  import opened Registry
  import opened RegistryRuns
  import opened RegistryConnections

  // ----- Every run only adds to the ledger ---------------------------------------------------

  /** What later worlds cannot take back. */
  ghost predicate Grows(w: World, w': World) {
    && w.ledger.issued <= w'.ledger.issued && w.ledger.consumed <= w'.ledger.consumed
    && w.ledger.exchanged <= w'.ledger.exchanged && w.ledger.revoked <= w'.ledger.revoked
    && (w.st.closed ==> w'.st.closed)
  }

  lemma StepGrows(w: World, s: Step)
    requires Enabled(w, s)
    ensures Grows(w, Apply(w, s))
  {
  }

  lemma {:induction false} RunGrows(w: World, steps: seq<Step>)
    requires AllEnabled(w, steps)
    ensures Grows(w, Run(w, steps))
    decreases |steps|
  {
    if steps != [] {
      StepGrows(w, steps[0]);
      RunGrows(Apply(w, steps[0]), steps[1..]);
    }
  }

  lemma Reachable(sessionTTL: int, bootstrapTTL: int, steps: seq<Step>)
    requires AllEnabled(Initial(sessionTTL, bootstrapTTL), steps)
    ensures WorldInv(Run(Initial(sessionTTL, bootstrapTTL), steps))
  {
    InitialInv(sessionTTL, bootstrapTTL);
    RunsKeep(Initial(sessionTTL, bootstrapTTL), steps);
  }

  // ----- Authentication ----------------------------------------------------------------------

  /** The last region of an authentication accepts the session. */
  predicate Authenticates(w: World, t: Thread, now: Time) {
    && Enabled(w, DoAuthenticate(t, now))
    && CheckSession(w.st, w.threads[t].exposure, w.threads[t].session, now).1
  }

  /**
   An accepted session goes back to exactly one exchange `x` of exactly one consumption `c` of the
   capability of one registration, which is still standing: the one of this host and generation.
   */
  ghost predicate TracedTo(l: Ledger, host: Host, e: Exposure, session: Credential, now: Time, x: nat, c: nat) {
    && InLedger(l, e) && e.host == host && RefFor(e) !in l.revoked
    && x < |l.exchanged| && l.exchanged[x].session == session && l.exchanged[x].ref == RefFor(e)
    && now < l.exchanged[x].expiry <= e.expiresAt
    && c < |l.consumed| && l.consumed[c].ref == RefFor(e) && l.consumed[c].at < Issued(l, RefFor(e)).expiry <= e.expiresAt
    && l.exchanged[x].capability == l.consumed[c].capability == Issued(l, RefFor(e)).capability
    && (forall i | 0 <= i < |l.exchanged| && (l.exchanged[i].session == session || l.exchanged[i].ref == RefFor(e)) :: i == x)
    && (forall i | 0 <= i < |l.consumed| && l.consumed[i].ref == RefFor(e) :: i == c)
  }

  ghost predicate AcceptanceTraced(w: World, t: Thread, now: Time) {
    && t in w.threads && w.threads[t].Authenticating?
    && var p := w.threads[t];
       exists x: nat, c: nat :: TracedTo(w.ledger, p.host, p.exposure, p.session, now, x, c)
  }

  lemma AcceptedExchange(l: Ledger, e: Exposure, session: Credential, g: Grant) returns (x: nat, c: nat)
    requires LedgerInv(l) && InLedger(l, e) && IssuedSession(l, session, g) && g.exposure == RefFor(e)
    ensures x < |l.exchanged| && l.exchanged[x].session == session && l.exchanged[x].ref == RefFor(e) && l.exchanged[x].expiry == g.expiresAt
    ensures GoodExchange(l, l.exchanged[x])
    ensures c < |l.consumed| && l.consumed[c].capability == l.exchanged[x].capability
  {
    x :| 0 <= x < |l.exchanged| && l.exchanged[x].session == session && l.exchanged[x].ref == g.exposure && l.exchanged[x].expiry == g.expiresAt;
    assert GoodExchange(l, l.exchanged[x]);
    c :| 0 <= c < |l.consumed| && l.consumed[c].capability == l.exchanged[x].capability;
  }

  lemma OnlyExchange(l: Ledger, e: Exposure, x: nat)
    requires LedgerInv(l) && InLedger(l, e) && x < |l.exchanged| && l.exchanged[x].ref == RefFor(e)
    ensures forall i | 0 <= i < |l.exchanged| && (l.exchanged[i].session == l.exchanged[x].session || l.exchanged[i].ref == RefFor(e)) :: i == x
  {
    forall i | 0 <= i < |l.exchanged| && (l.exchanged[i].session == l.exchanged[x].session || l.exchanged[i].ref == RefFor(e)) ensures i == x {
      assert GoodExchange(l, l.exchanged[i]) && GoodExchange(l, l.exchanged[x]);
    }
  }

  /** Distinct registrations have distinct capabilities, so a consumption names its registration. */
  lemma OnlyConsumption(l: Ledger, e: Exposure, c: nat)
    requires LedgerInv(l) && InLedger(l, e) && c < |l.consumed| && l.consumed[c].capability == Issued(l, RefFor(e)).capability
    ensures l.consumed[c].ref == RefFor(e) && l.consumed[c].at < Issued(l, RefFor(e)).expiry
    ensures forall i | 0 <= i < |l.consumed| && l.consumed[i].ref == RefFor(e) :: i == c
  {
    assert GoodConsumption(l, l.consumed[c]);
    forall i | 0 <= i < |l.consumed| && l.consumed[i].ref == RefFor(e) ensures i == c {
      assert GoodConsumption(l, l.consumed[i]);
    }
  }

  /** Whole-run safety of authentication, in every interleaving. */
  lemma AuthenticatedSafely(sessionTTL: int, bootstrapTTL: int, steps: seq<Step>, t: Thread, now: Time)
    requires AllEnabled(Initial(sessionTTL, bootstrapTTL), steps)
    requires Authenticates(Run(Initial(sessionTTL, bootstrapTTL), steps), t, now)
    ensures AcceptanceTraced(Run(Initial(sessionTTL, bootstrapTTL), steps), t, now)
  {
    hide Authenticates, SafetyInv, AcceptanceTraced;
    Reachable(sessionTTL, bootstrapTTL, steps);
    AcceptedIsTraced(Run(Initial(sessionTTL, bootstrapTTL), steps), t, now);
  }

  lemma AcceptedIsTraced(w: World, t: Thread, now: Time)
    requires SafetyInv(w) && Authenticates(w, t, now)
    ensures AcceptanceTraced(w, t, now)
  {
    hide LedgerInv;
    var p := w.threads[t];
    assert GoodThread(p, w.ledger);
    assert GoodSession(w.st, w.ledger, p.session, w.st.sessions[p.session]);
    assert GoodExposure(w.st, w.ledger, p.exposure.id);
    var x, c := AcceptedExchange(w.ledger, p.exposure, p.session, w.st.sessions[p.session]);
    OnlyExchange(w.ledger, p.exposure, x);
    OnlyConsumption(w.ledger, p.exposure, c);
    CapabilityWithinExposure(w.ledger, p.exposure);
    assert TracedTo(w.ledger, p.host, p.exposure, p.session, now, x, c);
  }

  lemma CapabilityWithinExposure(l: Ledger, e: Exposure)
    requires LedgerInv(l) && InLedger(l, e)
    ensures Issued(l, RefFor(e)).expiry <= e.expiresAt
  {
  }

  /** No capability yields two sessions, although an exchange gives up the mutex half way. */
  lemma OneSessionPerCapability(sessionTTL: int, bootstrapTTL: int, steps: seq<Step>, i: nat, j: nat)
    requires AllEnabled(Initial(sessionTTL, bootstrapTTL), steps)
    requires var l := Run(Initial(sessionTTL, bootstrapTTL), steps).ledger;
      i < |l.exchanged| && j < |l.exchanged| && l.exchanged[i].capability == l.exchanged[j].capability
    ensures i == j
  {
    Reachable(sessionTTL, bootstrapTTL, steps);
  }

  /** Hosts and exposures are a bijection, and every grant belongs to a live exposure and ends no later than it. */
  lemma TablesAgree(sessionTTL: int, bootstrapTTL: int, steps: seq<Step>)
    requires AllEnabled(Initial(sessionTTL, bootstrapTTL), steps)
    ensures var st := Run(Initial(sessionTTL, bootstrapTTL), steps).st;
      && (forall h | h in st.hosts :: Live(st, st.hosts[h]) && st.exposures[st.hosts[h].id].exposure.host == h)
      && (forall id | id in st.exposures :: var e := st.exposures[id].exposure; e.host in st.hosts && st.hosts[e.host] == Ref(id, e.generation))
      && (forall c | c in st.capabilities :: var g := st.capabilities[c]; Live(st, g.exposure) && g.expiresAt <= st.exposures[g.exposure.id].exposure.expiresAt)
      && (forall c | c in st.sessions :: var g := st.sessions[c]; Live(st, g.exposure) && g.expiresAt <= st.exposures[g.exposure.id].exposure.expiresAt)
  {
    Reachable(sessionTTL, bootstrapTTL, steps);
    var w := Run(Initial(sessionTTL, bootstrapTTL), steps);
    var st, l := w.st, w.ledger;
    forall h | h in st.hosts ensures Live(st, st.hosts[h]) && st.exposures[st.hosts[h].id].exposure.host == h {
      assert GoodHost(st, h);
    }
    forall id | id in st.exposures ensures GoodExposure(st, l, id) {
    }
    forall c | c in st.capabilities
      ensures Live(st, st.capabilities[c].exposure) && st.capabilities[c].expiresAt <= st.exposures[st.capabilities[c].exposure.id].exposure.expiresAt
    {
      CapabilityEndsInTime(st, l, c);
    }
    forall c | c in st.sessions
      ensures Live(st, st.sessions[c].exposure) && st.sessions[c].expiresAt <= st.exposures[st.sessions[c].exposure.id].exposure.expiresAt
    {
      SessionEndsInTime(st, l, c);
    }
  }

  lemma CapabilityEndsInTime(st: State, l: Ledger, c: Credential)
    requires TablesInv(st, l) && LedgerInv(l) && CapabilitiesInv(st, l) && c in st.capabilities
    ensures Live(st, st.capabilities[c].exposure)
    ensures st.capabilities[c].expiresAt <= st.exposures[st.capabilities[c].exposure.id].exposure.expiresAt
  {
    assert GoodCapability(st, l, c, st.capabilities[c]);
    assert GoodExposure(st, l, st.capabilities[c].exposure.id);
  }

  lemma SessionEndsInTime(st: State, l: Ledger, s: Credential)
    requires TablesInv(st, l) && LedgerInv(l) && SessionsInv(st, l) && s in st.sessions
    ensures Live(st, st.sessions[s].exposure)
    ensures st.sessions[s].expiresAt <= st.exposures[st.sessions[s].exposure.id].exposure.expiresAt
  {
    assert GoodSession(st, l, s, st.sessions[s]);
    assert GoodExposure(st, l, st.sessions[s].exposure.id);
    var i :| 0 <= i < |l.exchanged| && l.exchanged[i].session == s && l.exchanged[i].ref == st.sessions[s].exposure
             && l.exchanged[i].expiry == st.sessions[s].expiresAt;
    assert GoodExchange(l, l.exchanged[i]);
  }

  // ----- A registration does grant access ----------------------------------------------------

  /** The times of a registration, its exchange and a later authentication, each before what they use has expired. */
  datatype Times = Times(register: Time, lookup: Time, consume: Time, insert: Time, lookupAgain: Time, check: Time)

  predicate InTime(expiresAt: Time, bootstrapTTL: int, sessionTTL: int, x: Times) {
    && x.register < expiresAt && x.lookup < expiresAt && x.insert < expiresAt && x.lookupAgain < expiresAt
    && x.consume < Earlier(expiresAt, x.register + bootstrapTTL)
    && x.check < Earlier(expiresAt, x.insert + sessionTTL)
  }

  /**
   A new registration, exchanged in time, authenticates the session it was exchanged for, at its own
   host; the capability is spent, and the session is no use at another exposure.
   */
  lemma RegistrationGrantsAccess(st: State, reg: Registration, capability: Credential, session: Credential,
                                 bootstrapTTL: int, sessionTTL: int, x: Times)
    requires CheckRegistration(reg, x.register).None? && InTime(reg.expiresAt, bootstrapTTL, sessionTTL, x)
    requires !st.closed && reg.id !in st.exposures && reg.host.value !in st.hosts
    ensures var (st1, result) := Register(st, reg, capability, bootstrapTTL, x.register);
      && result.Registered?
      && var e := result.exposure;
         var (st2, consumed) := Consume(st1, e, capability, x.consume);
         var (st3, expiry) := InsertSession(st2, e, session, sessionTTL, x.insert);
      && e.host == reg.host.value && e.id == reg.id && e.generation == st.nextGen + 1
      && LookupHost(st1, e.host, x.lookup) == Found(e) && LookupHost(st3, e.host, x.lookupAgain) == Found(e)
      && consumed && expiry == Some(Earlier(reg.expiresAt, x.insert + sessionTTL))
      && CheckSession(st3, e, session, x.check) == (st3, true)
      && (forall now :: !Consume(st3, e, capability, now).1)
      && (forall other, now | RefFor(other) != RefFor(e) :: !CheckSession(st3, other, session, now).1)
  {
  }

  // ----- Old generations are inert -----------------------------------------------------------

  /** A late release, connection close or expiry timer of a registration that is gone changes nothing. */
  predicate Inert(st: State, ref: Ref) {
    && !Live(st, ref) && ReleaseSlot(st, ref) == st && TakeOut(st, ref) == (st, {})
    && (forall c | c in st.capabilities :: st.capabilities[c].exposure != ref)
    && (forall s | s in st.sessions :: st.sessions[s].exposure != ref)
  }

  lemma RevokedIsInert(w: World, ref: Ref)
    requires WorldInv(w) && ref in w.ledger.revoked
    ensures Inert(w.st, ref) && forall conn :: Untrack(w.st, ref, conn) == w.st
  {
    assert ref.id in w.st.exposures ==> GoodExposure(w.st, w.ledger, ref.id);
    forall c | c in w.st.capabilities ensures w.st.capabilities[c].exposure != ref {
      assert GoodCapability(w.st, w.ledger, c, w.st.capabilities[c]);
    }
    forall s | s in w.st.sessions ensures w.st.sessions[s].exposure != ref {
      assert GoodSession(w.st, w.ledger, s, w.st.sessions[s]);
    }
  }

  /** A registration that was issued and does not stand any more was revoked. */
  lemma IssuedStandsOrWasRevoked(w: World, ref: Ref)
    requires WorldInv(w) && Known(w.ledger, ref) && !Live(w.st, ref)
    ensures ref in w.ledger.revoked
  {
    assert Placed(w.st, w.ledger, ref.generation - 1);
  }

  /**
   Once a registration that was issued does not stand any more, its callbacks cannot touch whatever is
   registered later, under the same id and host or not, and none of its grants comes back.
   */
  lemma OldGenerationsStayInert(w: World, ref: Ref, steps: seq<Step>)
    requires WorldInv(w) && Known(w.ledger, ref) && !Live(w.st, ref) && AllEnabled(w, steps)
    ensures Inert(Run(w, steps).st, ref) && forall conn :: Untrack(Run(w, steps).st, ref, conn) == Run(w, steps).st
  {
    hide WorldInv;
    IssuedStandsOrWasRevoked(w, ref);
    RunsKeep(w, steps);
    RunGrows(w, steps);
    RevokedIsInert(Run(w, steps), ref);
  }

  // ----- Slots -------------------------------------------------------------------------------

  /** A live exposure's count is the number of closures of its own generation that have not run, within its limit. */
  lemma SlotsAreConserved(sessionTTL: int, bootstrapTTL: int, steps: seq<Step>)
    requires AllEnabled(Initial(sessionTTL, bootstrapTTL), steps)
    ensures var w := Run(Initial(sessionTTL, bootstrapTTL), steps);
      forall id | id in w.st.exposures ::
        w.st.exposures[id].active == |OpenSlots(w.slots, RefFor(w.st.exposures[id].exposure))| <= w.st.exposures[id].exposure.maxConnections
  {
    Reachable(sessionTTL, bootstrapTTL, steps);
    var w := Run(Initial(sessionTTL, bootstrapTTL), steps);
    forall id | id in w.st.exposures ensures GoodCount(w.st.exposures[id], w.slots) {
    }
  }

  /** Each closure takes one off the count when it first runs, which the guard at zero never prevents, and nothing after that. */
  lemma ReleaseCountsOnce(w: World, slot: SlotId)
    requires WorldInv(w) && slot in w.slots
    ensures var w', ref := Apply(w, DoRelease(slot)), w.slots[slot].ref;
      && (Live(w.st, ref) ==>
            && Live(w'.st, ref)
            && w'.st.exposures[ref.id].active == w.st.exposures[ref.id].active - (if w.slots[slot].released then 0 else 1))
      && Apply(w', DoRelease(slot)) == w'
  {
    hide SafetyInv, ConnsInv, ClosersInv;
    if !w.slots[slot].released {
      ReleasedTables(w);
      ReleaseSlots(w.st, w.slots, w.ledger, slot);
    }
  }

  lemma ReleasedTables(w: World)
    requires SafetyInv(w)
    ensures TablesInv(w.st, w.ledger)
  {
  }

  /** A slot is granted exactly to a standing exposure with fewer open closures than its limit. */
  lemma AcquiredExactly(w: World, e: Exposure, now: Time)
    requires WorldInv(w) && WasIssued(w, e)
    ensures AcquireSlot(w.st, e, now).1 ==
      if !Live(w.st, RefFor(e)) || e.expiresAt <= now then Unauthorized
      else if |OpenSlots(w.slots, RefFor(e))| >= e.maxConnections then LimitReached
      else Granted
  {
    if Live(w.st, RefFor(e)) {
      assert GoodExposure(w.st, w.ledger, e.id) && GoodCount(w.st.exposures[e.id], w.slots);
    }
  }

  // ----- Revocation --------------------------------------------------------------------------

  /** The registration was taken out and its remover has returned. */
  ghost predicate Gone(w: World, ref: Ref) {
    ref in w.ledger.revoked && forall t :: !Remover(w.threads, t, ref)
  }

  lemma GoneStep(w: World, s: Step, ref: Ref)
    requires WorldInv(w) && Enabled(w, s) && Gone(w, ref)
    ensures Gone(Apply(w, s), ref)
  {
    hide WorldInv, Grows;
    StepGrows(w, s);
    RevokedIsInert(w, ref);
    forall t ensures !Remover(Apply(w, s).threads, t, ref) {
      NewRemover(w, s, t, ref);
    }
    GrowsRevoked(w, Apply(w, s), ref);
  }

  /** Only who finds the registration live becomes its remover. */
  lemma NewRemover(w: World, s: Step, t: Thread, ref: Ref)
    requires Enabled(w, s)
    ensures Remover(Apply(w, s).threads, t, ref) ==> Remover(w.threads, t, ref) || Live(w.st, ref)
  {
    hide Register, LookupHost, Consume, InsertSession, CheckSession, AcquireSlot, ReleaseSlot, Track, Untrack, TakeOut, MarkClosed, NewCredential, CheckRegistration;
  }

  lemma GrowsRevoked(w: World, w': World, ref: Ref)
    requires Grows(w, w') && ref in w.ledger.revoked
    ensures ref in w'.ledger.revoked
  {
  }

  lemma {:induction false} GoneForever(w: World, steps: seq<Step>, ref: Ref)
    requires WorldInv(w) && AllEnabled(w, steps) && Gone(w, ref)
    ensures Gone(Run(w, steps), ref)
    decreases |steps|
  {
    if steps != [] {
      GoneStep(w, steps[0], ref);
      StepKeeps(w, steps[0]);
      GoneForever(Apply(w, steps[0]), steps[1..], ref);
    }
  }

  lemma GoneIsClosed(w: World, ref: Ref)
    requires WorldInv(w) && Gone(w, ref)
    ensures forall c | c in w.conns && w.conns[c].ref == ref :: w.conns[c].closed
    ensures Inert(w.st, ref)
  {
    RevokedIsInert(w, ref);
    forall c | c in w.conns && w.conns[c].ref == ref ensures w.conns[c].closed {
      assert Accounted(w.st, w.threads, c, w.conns[c]);
    }
  }

  /** The revocation in this thread has closed all it held, and the thread returns or goes on to the next registration. */
  predicate Returns(s: Step, t: Thread) {
    (s.EndRevoke? || s.EndClose? || s.NextClose?) && s.t == t
  }

  lemma RemoverLeaves(w: World, s: Step, t: Thread, u: Thread, ref: Ref)
    requires Enabled(w, s) && Returns(s, t) && !Live(w.st, ref) && Remover(Apply(w, s).threads, u, ref)
    ensures u != t && Remover(w.threads, u, ref)
  {
  }

  lemma RemoverReturns(w: World, s: Step, t: Thread)
    requires WorldInv(w) && Enabled(w, s) && Returns(s, t) && w.threads[t].removed
    ensures Gone(Apply(w, s), w.threads[t].ref)
  {
    var ref := w.threads[t].ref;
    assert GoodRevoker(w.threads, t, w.conns, w.ledger) && Remover(w.threads, t, ref);
    RevokedIsInert(w, ref);
    StepGrows(w, s);
    hide SafetyInv, SlotsInv, AllAccounted, SetsInv, ClosersInv, Apply, Enabled;
    forall u ensures !Remover(Apply(w, s).threads, u, ref) {
      if Remover(Apply(w, s).threads, u, ref) {
        RemoverLeaves(w, s, t, u, ref);
      }
    }
  }

  /**
   When the revocation that removed a registration is done, on its own or as part of closing, all its
   tracked connections are closed and none of its grants is left; and so it stays.
   */
  lemma RevocationIsComplete(w: World, s: Step, t: Thread, steps: seq<Step>)
    requires WorldInv(w) && Enabled(w, s) && Returns(s, t) && w.threads[t].removed && AllEnabled(Apply(w, s), steps)
    ensures var w', ref := Run(Apply(w, s), steps), w.threads[t].ref;
      && (forall c | c in w'.conns && w'.conns[c].ref == ref :: w'.conns[c].closed)
      && Inert(w'.st, ref)
  {
    hide WorldInv, Gone, Inert;
    var ref := w.threads[t].ref;
    RemoverReturns(w, s, t);
    StepKeeps(w, s);
    GoneForever(Apply(w, s), steps, ref);
    RunsKeep(Apply(w, s), steps);
    GoneIsClosed(Run(Apply(w, s), steps), ref);
  }

  const EXAMPLE := Exposure("a", "h", 100, 1, 1)
  const REGISTER := DoRegister(Registration("a", Some("h"), 100, 1), 7, 0, 0)
  const TRACK := DoTrack(EXAMPLE, 5, 0)

  /** One exposure with one tracked connection. */
  function Tracking(): World {
    var ref := RefFor(EXAMPLE);
    World(State(false, 1, map["a" := ExposureState(EXAMPLE, 0, {5})], map["h" := ref], map[7 := Grant(ref, 60)], map[]),
          map[], map[], map[5 := Tracked(ref, false)], Ledger([Issuance(EXAMPLE, 7, 60)], [], [], {}), 900, 60)
  }

  lemma TrackingReached(steps: seq<Step>, w: World)
    requires RunsTo(Tracking(), steps, w)
    ensures RunsTo(Initial(900, 60), [REGISTER, TRACK] + steps, w)
  {
    var w1 := Apply(Initial(900, 60), REGISTER);
    assert w1.ledger.issued == [Issuance(EXAMPLE, 7, 60)];
    assert w1.st.exposures["a"].conns + {5} == {5};
    var w2 := Apply(w1, TRACK);
    assert w2.st.exposures == Tracking().st.exposures && w2.st.hosts == Tracking().st.hosts;
    assert w2.st.capabilities == Tracking().st.capabilities && w2.conns == Tracking().conns;
    assert w2 == Tracking();
    RunsToStep(w1, TRACK, steps, w);
    RunsToStep(Initial(900, 60), REGISTER, [TRACK] + steps, w);
    assert [REGISTER] + ([TRACK] + steps) == [REGISTER, TRACK] + steps;
  }

  function SecondRevocation(): World {
    Apply(Apply(Tracking(), BeginRevoke(0, RefFor(EXAMPLE))), BeginRevoke(1, RefFor(EXAMPLE)))
  }

  lemma SecondRevocationReached()
    ensures RunsTo(Tracking(), [BeginRevoke(0, RefFor(EXAMPLE))] + [BeginRevoke(1, RefFor(EXAMPLE))], SecondRevocation())
  {
    var ref := RefFor(EXAMPLE);
    RunsToStep(Apply(Tracking(), BeginRevoke(0, ref)), BeginRevoke(1, ref), [], SecondRevocation());
    RunsToStep(Tracking(), BeginRevoke(0, ref), [BeginRevoke(1, ref)], SecondRevocation());
  }

  lemma SecondRevocationLeavesOpen()
    ensures LeavesOpen(SecondRevocation(), 1, 5)
  {
  }

  /** A revocation that finds the registration already removed returns at once, before the remover has closed anything. */
  lemma SecondRevokeReturnsEarly()
    ensures exists steps, t, c :: AllEnabled(Initial(900, 60), steps) && LeavesOpen(Run(Initial(900, 60), steps), t, c)
  {
    hide SecondRevocation, Tracking, LeavesOpen;
    SecondRevocationReached();
    SecondRevocationLeavesOpen();
    TrackingReached([BeginRevoke(0, RefFor(EXAMPLE))] + [BeginRevoke(1, RefFor(EXAMPLE))], SecondRevocation());
  }

  /** When a returning revocation leaves a connection open: exactly when another thread removed the registration and still holds one. */
  lemma LeavesOpenExactly(w: World, t: Thread)
    requires WorldInv(w) && Enabled(w, EndRevoke(t))
    ensures (exists c :: LeavesOpen(w, t, c)) <==> exists u, c :: StillHolds(w, t, u, c)
  {
    var ref := w.threads[t].ref;
    assert GoodRevoker(w.threads, t, w.conns, w.ledger);
    RevokedIsInert(w, ref);
    if c :| LeavesOpen(w, t, c) {
      assert Accounted(w.st, w.threads, c, w.conns[c]);
      var u :| Remover(w.threads, u, ref) && c in w.threads[u].held;
      assert StillHolds(w, t, u, c);
    }
    if u, c :| StillHolds(w, t, u, c) {
      assert GoodRevoker(w.threads, u, w.conns, w.ledger);
      assert LeavesOpen(w, t, c);
    }
  }

  /** Another thread removed the registration and holds this connection, not closed yet. */
  predicate StillHolds(w: World, t: Thread, u: Thread, c: Conn) {
    t in w.threads && w.threads[t].Revoking? && u != t && Remover(w.threads, u, w.threads[t].ref)
    && c in w.threads[u].held && c in w.conns && !w.conns[c].closed
  }

  predicate LeavesOpen(w: World, t: Thread, c: Conn) {
    && Enabled(w, EndRevoke(t)) && w.threads[t].ref in w.ledger.revoked
    && c in w.conns && w.conns[c].ref == w.threads[t].ref && !Apply(w, EndRevoke(t)).conns[c].closed
  }

  predicate RunsTo(w: World, steps: seq<Step>, w': World) {
    AllEnabled(w, steps) && Run(w, steps) == w'
  }

  lemma RunsToStep(w: World, s: Step, steps: seq<Step>, w': World)
    requires Enabled(w, s) && RunsTo(Apply(w, s), steps, w')
    ensures RunsTo(w, [s] + steps, w')
  {
    assert ([s] + steps)[1..] == steps;
  }

  // ----- Shutdown ----------------------------------------------------------------------------

  ghost predicate Emptied(w: World) {
    w.st.closed && w.st.exposures == map[]
  }

  lemma EmptiedStep(w: World, s: Step)
    requires Emptied(w) && Enabled(w, s)
    ensures Emptied(Apply(w, s))
  {
  }

  lemma {:induction false} EmptiedForever(w: World, steps: seq<Step>)
    requires Emptied(w) && AllEnabled(w, steps)
    ensures Emptied(Run(w, steps))
    decreases |steps|
  {
    if steps != [] {
      EmptiedStep(w, steps[0]);
      EmptiedForever(Apply(w, steps[0]), steps[1..]);
    }
  }

  lemma NothingLive(st: State)
    ensures st.exposures != map[] ==> LiveRefs(st) != {}
  {
    if st.exposures != map[] {
      var id :| id in st.exposures;
      assert RefFor(st.exposures[id].exposure) in LiveRefs(st);
    }
  }

  /** Once closing has returned, all four tables are empty for good and nothing can be registered. */
  lemma CloseIsFinal(w: World, t: Thread, steps: seq<Step>)
    requires WorldInv(w) && Enabled(w, EndClose(t)) && AllEnabled(Apply(w, EndClose(t)), steps)
    ensures var st := Run(Apply(w, EndClose(t)), steps).st;
      && st.exposures == map[] && st.hosts == map[] && st.capabilities == map[] && st.sessions == map[]
      && forall reg: Registration, c, now | reg.host.Some? :: Register(st, reg, c, w.bootstrapTTL, now) == (st, Refused(RegistryClosed))
  {
    NothingLive(w.st);
    StepKeeps(w, EndClose(t));
    EmptiedForever(Apply(w, EndClose(t)), steps);
    RunsKeep(Apply(w, EndClose(t)), steps);
    EmptyTables(Run(Apply(w, EndClose(t)), steps));
  }

  /** Another thread removed the connection's registration and holds the connection, not closed yet. */
  predicate OtherHolds(w: World, t: Thread, u: Thread, c: Conn) {
    u != t && c in w.conns && Remover(w.threads, u, w.conns[c].ref) && c in w.threads[u].held && !w.conns[c].closed
  }

  predicate CloseLeavesOpen(w: World, t: Thread, c: Conn) {
    Enabled(w, EndClose(t)) && c in w.conns && !Apply(w, EndClose(t)).conns[c].closed
  }

  /** Closing returns with a connection open exactly when a revocation of another thread still has it in its hands. */
  lemma CloseLeavesOpenExactly(w: World, t: Thread, c: Conn)
    requires WorldInv(w) && Enabled(w, EndClose(t))
    ensures CloseLeavesOpen(w, t, c) <==> exists u :: OtherHolds(w, t, u, c)
  {
    NothingLive(w.st);
    if CloseLeavesOpen(w, t, c) {
      assert Accounted(w.st, w.threads, c, w.conns[c]);
      var u :| Remover(w.threads, u, w.conns[c].ref) && c in w.threads[u].held;
      assert OtherHolds(w, t, u, c);
    }
  }

  /** Once closing has returned, a connection that is not closed is in the hands of a revocation, so that all are when the last of them returns. */
  lemma CloseLeavesOnlyRevocations(w: World, t: Thread, steps: seq<Step>)
    requires WorldInv(w) && Enabled(w, EndClose(t)) && AllEnabled(Apply(w, EndClose(t)), steps)
    ensures var w' := Run(Apply(w, EndClose(t)), steps);
      && (forall c | c in w'.conns :: w'.conns[c].closed || Held(w'.threads, w'.conns[c].ref, c))
      && ((forall u :: !Revoker(w'.threads, u)) ==> forall c | c in w'.conns :: w'.conns[c].closed)
  {
    hide SafetyInv, SlotsInv, RevokersInv, SetsInv;
    NothingLive(w.st);
    StepKeeps(w, EndClose(t));
    EmptiedForever(Apply(w, EndClose(t)), steps);
    RunsKeep(Apply(w, EndClose(t)), steps);
    var w' := Run(Apply(w, EndClose(t)), steps);
    forall c | c in w'.conns ensures w'.conns[c].closed || Held(w'.threads, w'.conns[c].ref, c) {
      assert Accounted(w'.st, w'.threads, c, w'.conns[c]);
    }
  }

  function ClosedBeside(): World {
    Apply(Apply(Tracking(), BeginRevoke(0, RefFor(EXAMPLE))), BeginClose(1))
  }

  lemma ClosedBesideReached()
    ensures RunsTo(Tracking(), [BeginRevoke(0, RefFor(EXAMPLE))] + [BeginClose(1)], ClosedBeside())
  {
    var ref := RefFor(EXAMPLE);
    RunsToStep(Apply(Tracking(), BeginRevoke(0, ref)), BeginClose(1), [], ClosedBeside());
    RunsToStep(Tracking(), BeginRevoke(0, ref), [BeginClose(1)], ClosedBeside());
  }

  lemma ClosedBesideLeavesOpen()
    ensures CloseLeavesOpen(ClosedBeside(), 1, 5)
  {
    assert LiveRefs(Apply(Tracking(), BeginRevoke(0, RefFor(EXAMPLE))).st) == {};
  }

  /** Closing passes over a registration that is being revoked, and can return before that revocation has closed anything. */
  lemma CloseReturnsEarly()
    ensures exists steps, t, c :: AllEnabled(Initial(900, 60), steps) && CloseLeavesOpen(Run(Initial(900, 60), steps), t, c)
  {
    hide ClosedBeside, Tracking, CloseLeavesOpen;
    ClosedBesideReached();
    ClosedBesideLeavesOpen();
    TrackingReached([BeginRevoke(0, RefFor(EXAMPLE))] + [BeginClose(1)], ClosedBeside());
  }

  lemma EmptyTables(w: World)
    requires SafetyInv(w) && w.st.exposures == map[]
    ensures w.st.hosts == map[] && w.st.capabilities == map[] && w.st.sessions == map[]
  {
    hide SafetyInv;
    EntriesNeedExposures(w);
  }

  lemma EntriesNeedExposures(w: World)
    requires SafetyInv(w)
    ensures w.st.hosts != map[] || w.st.capabilities != map[] || w.st.sessions != map[] ==> w.st.exposures != map[]
  {
    if w.st.hosts != map[] {
      var h :| h in w.st.hosts;
      assert GoodHost(w.st, h);
    }
    if w.st.capabilities != map[] {
      var c :| c in w.st.capabilities;
      assert GoodCapability(w.st, w.ledger, c, w.st.capabilities[c]);
    }
    if w.st.sessions != map[] {
      var s :| s in w.st.sessions;
      assert GoodSession(w.st, w.ledger, s, w.st.sessions[s]);
    }
  }
}
