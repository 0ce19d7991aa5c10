/**
 What each region of the registry answers and changes, said on the tables themselves: every answer by
 its exact condition, and nothing of one registration changed by what concerns another.
 */
module RegistryLaws {
  import opened Wrappers
  import opened Registry
  import opened RegistryRuns
  import opened RegistryConnections
  import opened RegistryTheorems

  /** The exposure that stands under this id is of this generation. */
  predicate Stands(st: State, id: ExposureId, generation: nat) {
    id in st.exposures && st.exposures[id].exposure.id == id && st.exposures[id].exposure.generation == generation
  }

  lemma LiveStands(st: State, ref: Ref)
    ensures Live(st, ref) <==> Stands(st, ref.id, ref.generation)
  {
  }

  // ----- Answers -----------------------------------------------------------------------------

  lemma CheckedExactly(reg: Registration, now: Time)
    ensures CheckRegistration(reg, now).None? <==> reg.host.Some? && 1 <= |reg.id| <= 128 && now < reg.expiresAt && reg.maxConnections >= 1
  {
  }

  /** A registration is entered exactly when the registry is open, its id and host are free and it has not expired, with its own data. */
  lemma RegisteredExactly(st: State, reg: Registration, capability: Credential, bootstrapTTL: int, now: Time)
    requires reg.host.Some?
    ensures var (st', result) := Register(st, reg, capability, bootstrapTTL, now);
      && (result.Registered? <==> !st.closed && reg.id !in st.exposures && reg.host.value !in st.hosts && now < reg.expiresAt)
      && (result.Refused? ==> st' == st && (result.error.RegistryClosed? <==> st.closed))
      && (result.Registered? ==>
            && Stands(st', reg.id, st.nextGen + 1) && st'.nextGen == st.nextGen + 1 && !st'.closed
            && st'.exposures[reg.id].exposure == result.exposure
            && result.exposure.host == reg.host.value && result.exposure.expiresAt == reg.expiresAt && result.exposure.maxConnections == reg.maxConnections
            && st'.exposures[reg.id].active == 0 && st'.exposures[reg.id].conns == {}
            && st'.hosts == st.hosts[reg.host.value := Ref(reg.id, st.nextGen + 1)]
            && st'.exposures - {reg.id} == st.exposures && st'.sessions == st.sessions
            && st'.capabilities == st.capabilities[capability := Grant(Ref(reg.id, st.nextGen + 1), result.capabilityExpiry)]
            && result.capabilityExpiry <= reg.expiresAt && result.capabilityExpiry <= now + bootstrapTTL
            && (result.capabilityExpiry == reg.expiresAt || result.capabilityExpiry == now + bootstrapTTL))
  {
  }

  /** A host is looked up exactly to its standing, unexpired exposure. */
  lemma FoundExactly(w: World, host: Host, now: Time, e: Exposure)
    requires SafetyInv(w)
    ensures LookupHost(w.st, host, now) == Found(e)
       <==> e.id in w.st.exposures && w.st.exposures[e.id].exposure == e && e.host == host && now < e.expiresAt
    ensures e.id in w.st.exposures && w.st.exposures[e.id].exposure == e && e.host == host && e.expiresAt <= now
            ==> LookupHost(w.st, host, now) == Expired(Ref(e.id, e.generation))
  {
    if e.id in w.st.exposures {
      assert GoodExposure(w.st, w.ledger, e.id);
    }
    if host in w.st.hosts {
      assert GoodHost(w.st, host) && GoodExposure(w.st, w.ledger, w.st.hosts[host].id);
    }
  }

  /** A grant that admits: stored for exactly this registration, which stands, and not expired. */
  predicate Admits(st: State, grants: map<Credential, Grant>, e: Exposure, credential: Credential, now: Time) {
    && credential in grants && grants[credential].exposure.id == e.id && grants[credential].exposure.generation == e.generation
    && Stands(st, e.id, e.generation) && now < grants[credential].expiresAt
  }

  /** This credential is gone, and all others are as they were. */
  predicate OnlyDropped(grants: map<Credential, Grant>, grants': map<Credential, Grant>, gone: Credential) {
    && gone !in grants'
    && (forall c | c in grants && c != gone :: c in grants' && grants'[c] == grants[c])
    && (forall c | c in grants' :: c in grants)
  }

  /** A capability is spent exactly when it admits, and leaves the table then or when it has expired. */
  lemma ConsumedExactly(st: State, e: Exposure, capability: Credential, now: Time)
    ensures var (st', ok) := Consume(st, e, capability, now);
      && (ok <==> Admits(st, st.capabilities, e, capability, now))
      && st' == st.(capabilities := st'.capabilities)
      && (if ok || (capability in st.capabilities && st.capabilities[capability].expiresAt <= now)
          then OnlyDropped(st.capabilities, st'.capabilities, capability)
          else st'.capabilities == st.capabilities)
  {
  }

  /** A session is accepted exactly when it admits; an expired one leaves the table. */
  lemma AcceptedExactly(st: State, e: Exposure, session: Credential, now: Time)
    ensures var (st', ok) := CheckSession(st, e, session, now);
      && (ok <==> Admits(st, st.sessions, e, session, now))
      && st' == st.(sessions := st'.sessions)
      && (if session in st.sessions && st.sessions[session].expiresAt <= now
          then OnlyDropped(st.sessions, st'.sessions, session)
          else st'.sessions == st.sessions)
  {
  }

  /** A session is stored exactly for a standing, unexpired exposure, until it or the time to live ends. */
  lemma StoredExactly(st: State, e: Exposure, session: Credential, sessionTTL: int, now: Time)
    ensures var (st', expiry) := InsertSession(st, e, session, sessionTTL, now);
      && (expiry.Some? <==> Stands(st, e.id, e.generation) && now < st.exposures[e.id].exposure.expiresAt)
      && (expiry.None? ==> st' == st)
      && (expiry.Some? ==>
            && st' == st.(sessions := st.sessions[session := Grant(Ref(e.id, e.generation), expiry.value)])
            && expiry.value <= e.expiresAt && expiry.value <= now + sessionTTL
            && (expiry.value == e.expiresAt || expiry.value == now + sessionTTL))
  {
  }

  /** A slot is taken off a standing, unexpired exposure below its limit, which is then one closer to it. */
  lemma SlotTakenExactly(st: State, e: Exposure, now: Time)
    ensures var (st', result) := AcquireSlot(st, e, now);
      && (result.Unauthorized? <==> !(Stands(st, e.id, e.generation) && now < st.exposures[e.id].exposure.expiresAt))
      && (result.Granted? ==>
            && st.exposures[e.id].active < st.exposures[e.id].exposure.maxConnections
            && OnlyExposure(st, st', e.id) && st'.exposures[e.id] == st.exposures[e.id].(active := st.exposures[e.id].active + 1))
      && (!result.Granted? ==> st' == st)
  {
  }

  /** A connection is tracked exactly for a standing, unexpired exposure, and forgotten for a standing one. */
  lemma TrackedExactly(st: State, e: Exposure, conn: Conn, now: Time)
    ensures var (st', ok) := Track(st, e, conn, now);
      && (ok <==> Stands(st, e.id, e.generation) && now < st.exposures[e.id].exposure.expiresAt)
      && (ok ==> OnlyExposure(st, st', e.id) && st'.exposures[e.id] == st.exposures[e.id].(conns := st.exposures[e.id].conns + {conn}))
      && (!ok ==> st' == st)
    ensures var st' := Untrack(st, RefFor(e), conn);
      if Stands(st, e.id, e.generation)
      then OnlyExposure(st, st', e.id) && st'.exposures[e.id] == st.exposures[e.id].(conns := st.exposures[e.id].conns - {conn})
      else st' == st
  {
  }

  predicate OnlyExposure(st: State, st': State, id: ExposureId) {
    && st'.closed == st.closed && st'.nextGen == st.nextGen && st'.hosts == st.hosts
    && st'.capabilities == st.capabilities && st'.sessions == st.sessions
    && id in st.exposures && id in st'.exposures && st'.exposures - {id} == st.exposures - {id}
  }

  /** What the steps on slots and connections do to the closures and connections that are out. */
  lemma HandlesExactly(w: World, s: Step)
    requires Enabled(w, s)
    ensures var w' := Apply(w, s);
      && (s.DoAcquire? ==>
            && w'.st == AcquireSlot(w.st, s.exposure, s.now).0 && w'.conns == w.conns
            && w'.slots == if AcquireSlot(w.st, s.exposure, s.now).1.Granted? then w.slots[s.slot := Slot(Ref(s.exposure.id, s.exposure.generation), false)] else w.slots)
      && (s.DoTrack? ==>
            && w'.st == Track(w.st, s.exposure, s.conn, s.now).0 && w'.slots == w.slots
            && w'.conns == w.conns[s.conn := Tracked(Ref(s.exposure.id, s.exposure.generation), !Track(w.st, s.exposure, s.conn, s.now).1)])
      && (s.CloseConn? ==> w'.st == w.st && w'.slots == w.slots && w'.conns == w.conns[s.conn := Tracked(w.conns[s.conn].ref, true)])
      && (s.DoUntrack? ==> w'.st == Untrack(w.st, w.conns[s.conn].ref, s.conn) && w'.slots == w.slots && w'.conns == w.conns)
      && (s.CloseHeld? ==> w'.st == w.st && s.conn !in w'.threads[s.t].held && (s.conn in w.conns ==> w'.conns == w.conns[s.conn := Tracked(w.conns[s.conn].ref, true)]))
  {
    hide AcquireSlot, Track, Untrack, OnlyExposure;
    if s.DoAcquire? {
      SlotTakenExactly(w.st, s.exposure, s.now);
    }
  }

  // ----- Nothing of one registration is touched by another -----------------------------------

  /** The registration a step is about. */
  function Subject(w: World, s: Step): Option<Ref>
    requires Enabled(w, s)
  {
    match s
    case DoConsume(t, _) => Some(RefFor(w.threads[t].exposure))
    case DoInsert(t, _, _) => Some(RefFor(w.threads[t].exposure))
    case DoAuthenticate(t, _) => Some(RefFor(w.threads[t].exposure))
    case DoAcquire(_, e, _) => Some(RefFor(e))
    case DoRelease(slot) => Some(w.slots[slot].ref)
    case DoTrack(e, _, _) => Some(RefFor(e))
    case DoUntrack(conn) => Some(w.conns[conn].ref)
    case BeginRevoke(_, ref) => Some(ref)
    case NextClose(_, ref) => Some(ref)
    case _ => None
  }

  /** The clock reading with which a step drops an expired credential. */
  function Reading(s: Step): Option<Time> {
    match s
    case DoConsume(_, now) => Some(now)
    case DoAuthenticate(_, now) => Some(now)
    case _ => None
  }

  predicate Unexpired(g: Grant, now: Option<Time>) {
    now.Some? ==> now.value < g.expiresAt
  }

  /** Its grants are the same, but for expired ones that were dropped. */
  predicate SameGrants(grants: map<Credential, Grant>, grants': map<Credential, Grant>, ref: Ref, now: Option<Time>) {
    && (forall c | c in grants && grants[c].exposure == ref && Unexpired(grants[c], now) :: c in grants' && grants'[c] == grants[c])
    && (forall c | c in grants' && grants'[c].exposure == ref :: c in grants && grants[c] == grants'[c])
  }

  predicate SameStanding(st: State, st': State, ref: Ref, now: Option<Time>)
    requires ref.id in st.exposures
  {
    && ref.id in st'.exposures && st'.exposures[ref.id] == st.exposures[ref.id]
    && (forall h | h in st.hosts && st.hosts[h] == ref :: h in st'.hosts && st'.hosts[h] == ref)
    && (forall h | h in st'.hosts && st'.hosts[h] == ref :: h in st.hosts && st.hosts[h] == ref)
    && SameGrants(st.capabilities, st'.capabilities, ref, now) && SameGrants(st.sessions, st'.sessions, ref, now)
  }

  lemma NewIsUnused(w: World, c: Credential)
    requires SafetyInv(w) && NewCredential(w, c)
    ensures c !in w.st.capabilities && c !in w.st.sessions
  {
    hide LedgerInv, TablesInv, ThreadsInv;
    assert forall x | x in w.st.capabilities :: GoodCapability(w.st, w.ledger, x, w.st.capabilities[x]);
    assert forall x | x in w.st.sessions :: GoodSession(w.st, w.ledger, x, w.st.sessions[x]);
  }

  lemma RegisteredBeside(st: State, reg: Registration, capability: Credential, bootstrapTTL: int, now: Time, ref: Ref)
    requires reg.host.Some? && Live(st, ref) && capability !in st.capabilities && ref.generation <= st.nextGen
    ensures SameStanding(st, Register(st, reg, capability, bootstrapTTL, now).0, ref, None)
  {
  }

  lemma RegisterTouchesNoOther(w: World, reg: Registration, capability: Credential, before: Time, now: Time, ref: Ref)
    requires SafetyInv(w) && Enabled(w, DoRegister(reg, capability, before, now)) && Live(w.st, ref)
    ensures SameStanding(w.st, Apply(w, DoRegister(reg, capability, before, now)).st, ref, None)
  {
    NewIsUnused(w, capability);
    LiveIsKnown(w, ref);
    hide SafetyInv, SameStanding, Register, NewCredential;
    RegisteredBeside(w.st, reg, capability, w.bootstrapTTL, now, ref);
  }

  lemma LiveIsKnown(w: World, ref: Ref)
    requires SafetyInv(w) && Live(w.st, ref)
    ensures ref.generation <= w.st.nextGen
  {
    hide LedgerInv, GrantsInv, ThreadsInv;
    assert GoodExposure(w.st, w.ledger, ref.id);
  }

  lemma StoredBeside(st: State, e: Exposure, session: Credential, sessionTTL: int, now: Time, ref: Ref)
    requires Live(st, ref) && RefFor(e) != ref && session !in st.sessions
    ensures SameStanding(st, InsertSession(st, e, session, sessionTTL, now).0, ref, None)
  {
  }

  lemma InsertTouchesNoOther(w: World, t: Thread, session: Credential, now: Time, ref: Ref)
    requires SafetyInv(w) && Enabled(w, DoInsert(t, session, now)) && Live(w.st, ref) && RefFor(w.threads[t].exposure) != ref
    ensures SameStanding(w.st, Apply(w, DoInsert(t, session, now)).st, ref, None)
  {
    NewIsUnused(w, session);
    hide SafetyInv, SameStanding, InsertSession, NewCredential;
    StoredBeside(w.st, w.threads[t].exposure, session, w.sessionTTL, now, ref);
    SameItself(w.st, ref);
  }

  lemma SameItself(st: State, ref: Ref)
    requires Live(st, ref)
    ensures SameStanding(st, st, ref, None)
  {
  }

  lemma RevokeTouchesNoOther(w: World, gone: Ref, ref: Ref)
    requires SafetyInv(w) && Live(w.st, ref) && gone != ref
    ensures SameStanding(w.st, TakeOut(w.st, gone).0, ref, None)
  {
    if Live(w.st, gone) {
      assert GoodExposure(w.st, w.ledger, gone.id) && GoodExposure(w.st, w.ledger, ref.id);
      var host := w.st.exposures[gone.id].exposure.host;
      if host in w.st.hosts {
        assert GoodHost(w.st, host);
      }
    }
  }

  lemma CheckedBeside(st: State, e: Exposure, c: Credential, now: Time, ref: Ref)
    requires Live(st, ref) && RefFor(e) != ref
    ensures SameStanding(st, Consume(st, e, c, now).0, ref, Some(now)) && SameStanding(st, CheckSession(st, e, c, now).0, ref, Some(now))
  {
  }

  lemma GrantChecksTouchNoOther(w: World, s: Step, ref: Ref)
    requires Enabled(w, s) && Live(w.st, ref) && (s.DoConsume? || s.DoAuthenticate?) && Subject(w, s) != Some(ref)
    ensures SameStanding(w.st, Apply(w, s).st, ref, Reading(s))
  {
    hide SameStanding, Consume, CheckSession;
    var p := w.threads[s.t];
    CheckedBeside(w.st, p.exposure, if p.Exchanging? then p.capability else p.session, s.now, ref);
  }

  lemma OnlyBeside(st: State, st': State, id: ExposureId, ref: Ref)
    requires OnlyExposure(st, st', id) && ref.id in st.exposures && ref.id != id
    ensures SameStanding(st, st', ref, None)
  {
    assert ref.id in st'.exposures - {id} && st'.exposures[ref.id] == (st'.exposures - {id})[ref.id];
  }

  lemma TakenBeside(st: State, e: Exposure, conn: Conn, now: Time, ref: Ref)
    requires Live(st, ref) && RefFor(e) != ref
    ensures SameStanding(st, AcquireSlot(st, e, now).0, ref, None) && SameStanding(st, Track(st, e, conn, now).0, ref, None)
  {
    hide AcquireSlot, Track, SameStanding, OnlyExposure;
    SlotTakenExactly(st, e, now);
    TrackedExactly(st, e, conn, now);
    SameItself(st, ref);
    if AcquireSlot(st, e, now).1.Granted? {
      OnlyBeside(st, AcquireSlot(st, e, now).0, e.id, ref);
    }
    if Track(st, e, conn, now).1 {
      OnlyBeside(st, Track(st, e, conn, now).0, e.id, ref);
    }
  }

  lemma GivenBackBeside(st: State, gone: Ref, conn: Conn, ref: Ref)
    requires Live(st, ref) && gone != ref
    ensures SameStanding(st, ReleaseSlot(st, gone), ref, None) && SameStanding(st, Untrack(st, gone, conn), ref, None)
  {
  }

  lemma SlotStepsTouchNoOther(w: World, s: Step, ref: Ref)
    requires Enabled(w, s) && Live(w.st, ref) && (s.DoAcquire? || s.DoRelease? || s.DoTrack? || s.DoUntrack?) && Subject(w, s) != Some(ref)
    ensures SameStanding(w.st, Apply(w, s).st, ref, None)
  {
    hide SameStanding, AcquireSlot, ReleaseSlot, Track, Untrack;
    SameItself(w.st, ref);
    match s
    case DoAcquire(_, e, now) => TakenBeside(w.st, e, 0, now, ref);
    case DoTrack(e, conn, now) => TakenBeside(w.st, e, conn, now, ref);
    case DoRelease(slot) => GivenBackBeside(w.st, w.slots[slot].ref, 0, ref);
    case DoUntrack(conn) => GivenBackBeside(w.st, w.conns[conn].ref, conn, ref);
  }

  lemma OtherStepsTouchNothing(w: World, s: Step, ref: Ref)
    requires Enabled(w, s) && Live(w.st, ref)
    requires s.BeginExchange? || s.BeginAuthenticate? || s.CloseConn? || s.CloseHeld? || s.EndRevoke? || s.BeginClose? || s.EndClose?
    ensures SameStanding(w.st, Apply(w, s).st, ref, None)
  {
  }

  /**
   Isolation: whatever is done for one registration, another that stands keeps its exposure, its host, its
   slots and connections and all its unexpired capabilities and sessions, and gets no new ones.
   */
  lemma OthersUntouched(w: World, s: Step, ref: Ref)
    requires SafetyInv(w) && Enabled(w, s) && Live(w.st, ref) && Subject(w, s) != Some(ref)
    ensures SameStanding(w.st, Apply(w, s).st, ref, Reading(s))
  {
    hide SafetyInv, SameStanding, TakeOut;
    match s
    case DoRegister(reg, capability, before, now) => RegisterTouchesNoOther(w, reg, capability, before, now, ref);
    case DoInsert(t, session, now) => InsertTouchesNoOther(w, t, session, now, ref);
    case DoConsume(_, _) => GrantChecksTouchNoOther(w, s, ref);
    case DoAuthenticate(_, _) => GrantChecksTouchNoOther(w, s, ref);
    case BeginRevoke(_, gone) => RevokeTouchesNoOther(w, gone, ref);
    case NextClose(_, gone) => RevokeTouchesNoOther(w, gone, ref);
    case DoAcquire(_, _, _) => SlotStepsTouchNoOther(w, s, ref);
    case DoRelease(_) => SlotStepsTouchNoOther(w, s, ref);
    case DoTrack(_, _, _) => SlotStepsTouchNoOther(w, s, ref);
    case DoUntrack(_) => SlotStepsTouchNoOther(w, s, ref);
    case _ => OtherStepsTouchNothing(w, s, ref);
  }

  // ----- An exchange over a run --------------------------------------------------------------

  /** The steps of a registration, its exchange and an authentication up to its last region. */
  function AccessSteps(reg: Registration, capability: Credential, session: Credential, t: Thread, x: Times): seq<Step>
    requires reg.host.Some?
  {
    [DoRegister(reg, capability, x.register, x.register)]
    + ([BeginExchange(t, reg.host.value, capability, x.lookup)]
       + ([DoConsume(t, x.consume)]
          + ([DoInsert(t, session, x.insert)]
             + ([BeginAuthenticate(t, reg.host.value, session, x.lookupAgain)] + []))))
  }

  /** In any reachable world a registration that is exchanged in time leads to an accepted session. */
  lemma AccessIsGranted(w: World, reg: Registration, capability: Credential, session: Credential, t: Thread, x: Times)
    requires SafetyInv(w) && Enabled(w, DoRegister(reg, capability, x.register, x.register)) && t !in w.threads
    requires !w.st.closed && reg.id !in w.st.exposures && reg.host.Some? && reg.host.value !in w.st.hosts
    requires InTime(reg.expiresAt, w.bootstrapTTL, w.sessionTTL, x)
    requires NewCredential(w, session) && session != capability
    ensures RunsTo(w, AccessSteps(reg, capability, session, t, x), Accessing(w, reg, capability, session, t, x))
    ensures Authenticates(Accessing(w, reg, capability, session, t, x), t, x.check)
  {
    RegistrationGrantsAccess(w.st, reg, capability, session, w.bootstrapTTL, w.sessionTTL, x);
    AccessRuns(w, reg, capability, session, t, x);
  }

  /** The world these steps lead to. */
  function Accessing(w: World, reg: Registration, capability: Credential, session: Credential, t: Thread, x: Times): World
    requires reg.host.Some?
  {
    var (st1, result) := Register(w.st, reg, capability, w.bootstrapTTL, x.register);
    if result.Refused? then w
    else
      var e := result.exposure;
      var st2 := Consume(st1, e, capability, x.consume).0;
      var (st3, expiry) := InsertSession(st2, e, session, w.sessionTTL, x.insert);
      var l := w.ledger.(
        issued := w.ledger.issued + [Issuance(e, capability, result.capabilityExpiry)],
        consumed := w.ledger.consumed + [Consumption(capability, RefFor(e), x.consume)],
        exchanged := w.ledger.exchanged + [SessionIssue(session, capability, RefFor(e), expiry.GetOr(0))]);
      w.(st := st3, ledger := l, threads := w.threads[t := Authenticating(reg.host.value, e, session)])
  }

  lemma AccessRuns(w: World, reg: Registration, capability: Credential, session: Credential, t: Thread, x: Times)
    requires Enabled(w, DoRegister(reg, capability, x.register, x.register)) && t !in w.threads && reg.host.Some?
    requires NewCredential(w, session) && session != capability
    requires var (st1, result) := Register(w.st, reg, capability, w.bootstrapTTL, x.register);
      && result.Registered?
      && var e := result.exposure;
         var (st2, consumed) := Consume(st1, e, capability, x.consume);
         var (st3, expiry) := InsertSession(st2, e, session, w.sessionTTL, x.insert);
      && LookupHost(st1, reg.host.value, x.lookup) == Found(e) && LookupHost(st3, reg.host.value, x.lookupAgain) == Found(e)
      && consumed && expiry.Some?
    ensures RunsTo(w, AccessSteps(reg, capability, session, t, x), Accessing(w, reg, capability, session, t, x))
  {
    hide Register, Consume, InsertSession, LookupHost;
    var s1, s2, s3 := DoRegister(reg, capability, x.register, x.register), BeginExchange(t, reg.host.value, capability, x.lookup), DoConsume(t, x.consume);
    var s4, s5 := DoInsert(t, session, x.insert), BeginAuthenticate(t, reg.host.value, session, x.lookupAgain);
    var w1 := Apply(w, s1);
    var w2 := Apply(w1, s2);
    var w3 := Apply(w2, s3);
    var w4 := Apply(w3, s4);
    var w5 := Apply(w4, s5);
    assert w5.threads == w.threads[t := w5.threads[t]];
    assert w5 == Accessing(w, reg, capability, session, t, x);
    RunsToStep(w4, s5, [], w5);
    RunsToStep(w3, s4, [s5] + [], w5);
    RunsToStep(w2, s3, [s4] + ([s5] + []), w5);
    RunsToStep(w1, s2, [s3] + ([s4] + ([s5] + [])), w5);
    RunsToStep(w, s1, [s2] + ([s3] + ([s4] + ([s5] + []))), w5);
  }
}
