/**
 Runs of the registry under arbitrary interleaving.  An exchange is three regions with
 anything in between; revocations, expiry timers, release closures and connection closes of
 any generation may come at any later time.
 */
module RegistryRuns {
  import opened Wrappers
  import opened Registry

  type Thread = nat
  type SlotId = nat

  /** Where a call that has left its first region stands. */
  datatype Pending =
    | Exchanging(exposure: Exposure, capability: Credential)
    | Exchanged(exposure: Exposure, capability: Credential)
    | Authenticating(host: Host, exposure: Exposure, session: Credential)
    | Revoking(ref: Ref, removed: bool, held: set<Conn>)
    | Closing(refs: set<Ref>, ref: Ref, removed: bool, held: set<Conn>)

  /** A slot closure and the flag it captures. */
  datatype Slot = Slot(ref: Ref, released: bool)

  datatype Tracked = Tracked(ref: Ref, closed: bool)

  /** What was issued: history variables. */
  datatype Issuance = Issuance(exposure: Exposure, capability: Credential, expiry: Time)
  datatype Consumption = Consumption(capability: Credential, ref: Ref, at: Time)
  datatype SessionIssue = SessionIssue(session: Credential, capability: Credential, ref: Ref, expiry: Time)

  /** `issued[g - 1]` is the registration of generation g. */
  datatype Ledger = Ledger(
    issued: seq<Issuance>,
    consumed: seq<Consumption>,
    exchanged: seq<SessionIssue>,
    revoked: set<Ref>)

  datatype World = World(
    st: State,
    threads: map<Thread, Pending>,
    slots: map<SlotId, Slot>,
    conns: map<Conn, Tracked>,
    ledger: Ledger,
    sessionTTL: int,
    bootstrapTTL: int)

  function Initial(sessionTTL: int, bootstrapTTL: int): World {
    World(State(false, 0, map[], map[], map[], map[]), map[], map[], map[], Ledger([], [], [], {}), sessionTTL, bootstrapTTL)
  }

  datatype Step =
    | DoRegister(reg: Registration, capability: Credential, before: Time, now: Time)
    | BeginExchange(t: Thread, host: Host, capability: Credential, now: Time)
    | DoConsume(t: Thread, now: Time)
    | DoInsert(t: Thread, session: Credential, now: Time)
    | BeginAuthenticate(t: Thread, host: Host, session: Credential, now: Time)
    | DoAuthenticate(t: Thread, now: Time)
    | DoAcquire(slot: SlotId, exposure: Exposure, now: Time)
    | DoRelease(slot: SlotId)
    | DoTrack(exposure: Exposure, conn: Conn, now: Time)
    | CloseConn(conn: Conn)
    | DoUntrack(conn: Conn)
    | BeginRevoke(t: Thread, ref: Ref)
    | CloseHeld(t: Thread, conn: Conn)
    | EndRevoke(t: Thread)
    | BeginClose(t: Thread)
    | NextClose(t: Thread, ref: Ref)
    | EndClose(t: Thread)

  /** A fresh credential was never used as a capability or a session. */
  predicate NewCredential(w: World, c: Credential) {
    && (forall i | 0 <= i < |w.ledger.issued| :: w.ledger.issued[i].capability != c)
    && (forall i | 0 <= i < |w.ledger.exchanged| :: w.ledger.exchanged[i].session != c)
  }

  predicate Enabled(w: World, s: Step) {
    match s
    case DoRegister(reg, capability, before, _) => CheckRegistration(reg, before).None? && NewCredential(w, capability)
    case BeginExchange(t, _, _, _) => t !in w.threads
    case DoConsume(t, _) => t in w.threads && w.threads[t].Exchanging?
    case DoInsert(t, session, _) => t in w.threads && w.threads[t].Exchanged? && NewCredential(w, session)
    case BeginAuthenticate(t, _, _, _) => t !in w.threads
    case DoAuthenticate(t, _) => t in w.threads && w.threads[t].Authenticating?
    case DoAcquire(slot, e, _) => slot !in w.slots && WasIssued(w, e)
    case DoRelease(slot) => slot in w.slots
    case DoTrack(e, conn, _) => conn !in w.conns && WasIssued(w, e)
    case CloseConn(conn) => conn in w.conns
    case DoUntrack(conn) => conn in w.conns && w.conns[conn].closed
    case BeginRevoke(t, ref) => t !in w.threads && Known(w.ledger, ref)
    case CloseHeld(t, conn) => t in w.threads && Holds(w.threads[t], conn)
    case EndRevoke(t) => t in w.threads && w.threads[t].Revoking? && w.threads[t].held == {}
    case BeginClose(t) => t !in w.threads
    case NextClose(t, ref) => t in w.threads && w.threads[t].Closing? && w.threads[t].held == {} && ref in w.threads[t].refs
    case EndClose(t) => t in w.threads && w.threads[t].Closing? && w.threads[t].held == {} && w.threads[t].refs == {}
  }

  /** Exposure values come from the registry and cannot be made up: their generation is private. */
  predicate WasIssued(w: World, e: Exposure) {
    1 <= e.generation <= |w.ledger.issued| && w.ledger.issued[e.generation - 1].exposure == e
  }

  predicate Holds(p: Pending, conn: Conn) {
    (p.Revoking? || p.Closing?) && conn in p.held
  }

  /** A revocation step: registration out of the tables, its connections in the hands of the caller. */
  function Revoke(w: World, t: Thread, ref: Ref, after: Pending): World {
    w.(st := TakeOut(w.st, ref).0,
       threads := w.threads[t := after],
       ledger := if Live(w.st, ref) then w.ledger.(revoked := w.ledger.revoked + {ref}) else w.ledger)
  }

  function Apply(w: World, s: Step): World
    requires Enabled(w, s)
  {
    match s
    case DoRegister(reg, capability, _, now) =>
      (var (st, result) := Register(w.st, reg, capability, w.bootstrapTTL, now);
       match result
       case Refused(_) => w.(st := st)
       case Registered(e, expiry) =>
         w.(st := st, ledger := w.ledger.(issued := w.ledger.issued + [Issuance(e, capability, expiry)])))
    case BeginExchange(t, host, capability, now) =>
      (match LookupHost(w.st, host, now)
       case Found(e) => w.(threads := w.threads[t := Exchanging(e, capability)])
       case _ => w)
    case DoConsume(t, now) =>
      var p := w.threads[t];
      var (st, ok) := Consume(w.st, p.exposure, p.capability, now);
      if ok then
        w.(st := st,
           threads := w.threads[t := Exchanged(p.exposure, p.capability)],
           ledger := w.ledger.(consumed := w.ledger.consumed + [Consumption(p.capability, RefFor(p.exposure), now)]))
      else w.(st := st, threads := w.threads - {t})
    case DoInsert(t, session, now) =>
      (var p := w.threads[t];
       var (st, expiry) := InsertSession(w.st, p.exposure, session, w.sessionTTL, now);
       match expiry
       case None => w.(threads := w.threads - {t})
       case Some(e) =>
         w.(st := st, threads := w.threads - {t},
            ledger := w.ledger.(exchanged := w.ledger.exchanged + [SessionIssue(session, p.capability, RefFor(p.exposure), e)])))
    case BeginAuthenticate(t, host, session, now) =>
      (match LookupHost(w.st, host, now)
       case Found(e) => w.(threads := w.threads[t := Authenticating(host, e, session)])
       case _ => w)
    case DoAuthenticate(t, now) =>
      var p := w.threads[t];
      w.(st := CheckSession(w.st, p.exposure, p.session, now).0, threads := w.threads - {t})
    case DoAcquire(slot, e, now) =>
      var (st, result) := AcquireSlot(w.st, e, now);
      if result.Granted? then w.(st := st, slots := w.slots[slot := Slot(RefFor(e), false)]) else w
    case DoRelease(slot) =>
      if w.slots[slot].released then w
      else w.(st := ReleaseSlot(w.st, w.slots[slot].ref), slots := w.slots[slot := w.slots[slot].(released := true)])
    case DoTrack(e, conn, now) =>
      var (st, ok) := Track(w.st, e, conn, now);
      w.(st := st, conns := w.conns[conn := Tracked(RefFor(e), !ok)])
    case CloseConn(conn) => w.(conns := w.conns[conn := w.conns[conn].(closed := true)])
    case DoUntrack(conn) => w.(st := Untrack(w.st, w.conns[conn].ref, conn))
    case BeginRevoke(t, ref) => Revoke(w, t, ref, Revoking(ref, Live(w.st, ref), TakeOut(w.st, ref).1))
    case CloseHeld(t, conn) =>
      w.(threads := w.threads[t := w.threads[t].(held := w.threads[t].held - {conn})],
         conns := if conn in w.conns then w.conns[conn := w.conns[conn].(closed := true)] else w.conns)
    case EndRevoke(t) => w.(threads := w.threads - {t})
    case BeginClose(t) =>
      var (st, refs) := MarkClosed(w.st);
      w.(st := st, threads := w.threads[t := Closing(refs, Ref("", 0), false, {})])
    case NextClose(t, ref) =>
      Revoke(w, t, ref, Closing(w.threads[t].refs - {ref}, ref, Live(w.st, ref), TakeOut(w.st, ref).1))
    case EndClose(t) => w.(threads := w.threads - {t})
  }

  predicate AllEnabled(w: World, steps: seq<Step>)
    decreases |steps|
  {
    steps != [] ==> Enabled(w, steps[0]) && AllEnabled(Apply(w, steps[0]), steps[1..])
  }

  function Run(w: World, steps: seq<Step>): World
    requires AllEnabled(w, steps)
    decreases |steps|
  {
    if steps == [] then w else Run(Apply(w, steps[0]), steps[1..])
  }

  // ----- The invariant -----------------------------------------------------------------------

  /** The ledger entry of a reference. */
  predicate Known(l: Ledger, ref: Ref) {
    1 <= ref.generation <= |l.issued| && RefFor(l.issued[ref.generation - 1].exposure) == ref
  }

  function Issued(l: Ledger, ref: Ref): Issuance
    requires Known(l, ref)
  {
    l.issued[ref.generation - 1]
  }

  predicate GoodHost(st: State, h: Host) {
    h in st.hosts && Live(st, st.hosts[h]) && st.exposures[st.hosts[h].id].exposure.host == h
  }

  predicate GoodExposure(st: State, l: Ledger, id: ExposureId) {
    && id in st.exposures
    && var e := st.exposures[id].exposure;
       && e.id == id
       && e.host in st.hosts && st.hosts[e.host] == RefFor(e)
       && InLedger(l, e) && RefFor(e) !in l.revoked
  }

  /** A registration stands or was revoked. */
  predicate Placed(st: State, l: Ledger, i: nat)
    requires i < |l.issued|
  {
    var ref := RefFor(l.issued[i].exposure);
    Live(st, ref) || ref in l.revoked
  }

  predicate HostsInv(st: State) {
    forall h | h in st.hosts :: GoodHost(st, h)
  }

  predicate ExposuresInv(st: State, l: Ledger) {
    forall id | id in st.exposures :: GoodExposure(st, l, id)
  }

  predicate PlacedInv(st: State, l: Ledger) {
    forall i | 0 <= i < |l.issued| :: Placed(st, l, i)
  }

  /** Hosts and exposures are in one-to-one correspondence, and each exposure is the one that was registered. */
  predicate TablesInv(st: State, l: Ledger) {
    st.nextGen == |l.issued| && HostsInv(st) && ExposuresInv(st, l) && PlacedInv(st, l)
  }

  /** Registrations carry their own generation, distinct capabilities, and expiries within the exposure's. */
  predicate IssuedInv(l: Ledger) {
    && (forall i | 0 <= i < |l.issued| ::
          && l.issued[i].exposure.generation == i + 1
          && l.issued[i].expiry <= l.issued[i].exposure.expiresAt)
    && (forall i, j | 0 <= i < j < |l.issued| :: l.issued[i].capability != l.issued[j].capability)
    && (forall ref | ref in l.revoked :: Known(l, ref))
  }

  predicate GoodConsumption(l: Ledger, c: Consumption) {
    Known(l, c.ref) && c.capability == Issued(l, c.ref).capability && c.at < Issued(l, c.ref).expiry
  }

  /** Each capability is consumed at most once, for its own registration and in time. */
  predicate ConsumedInv(l: Ledger) {
    && (forall i | 0 <= i < |l.consumed| :: GoodConsumption(l, l.consumed[i]))
    && (forall i, j | 0 <= i < j < |l.consumed| :: l.consumed[i].capability != l.consumed[j].capability)
  }

  predicate GoodExchange(l: Ledger, x: SessionIssue) {
    && Known(l, x.ref) && x.capability == Issued(l, x.ref).capability
    && WasConsumed(l, x.capability)
    && x.expiry <= Issued(l, x.ref).exposure.expiresAt
  }

  /** Each capability yields at most one session, after it was consumed. */
  predicate ExchangedInv(l: Ledger) {
    && (forall i | 0 <= i < |l.exchanged| :: GoodExchange(l, l.exchanged[i]))
    && (forall i, j | 0 <= i < j < |l.exchanged| ::
          l.exchanged[i].capability != l.exchanged[j].capability && l.exchanged[i].session != l.exchanged[j].session)
  }

  predicate LedgerInv(l: Ledger) {
    IssuedInv(l) && ConsumedInv(l) && ExchangedInv(l)
  }

  predicate WasConsumed(l: Ledger, capability: Credential) {
    exists i | 0 <= i < |l.consumed| :: l.consumed[i].capability == capability
  }

  predicate WasExchanged(l: Ledger, capability: Credential) {
    exists i | 0 <= i < |l.exchanged| :: l.exchanged[i].capability == capability
  }

  /** Stored capabilities are the unconsumed ones of live registrations. */
  predicate CapabilitiesInv(st: State, l: Ledger) {
    forall c | c in st.capabilities :: GoodCapability(st, l, c, st.capabilities[c])
  }

  /** Stored sessions belong to live registrations and were each issued. */
  predicate SessionsInv(st: State, l: Ledger) {
    forall s | s in st.sessions :: GoodSession(st, l, s, st.sessions[s])
  }

  predicate GrantsInv(st: State, l: Ledger) {
    CapabilitiesInv(st, l) && SessionsInv(st, l)
  }

  predicate GoodSession(st: State, l: Ledger, s: Credential, g: Grant) {
    Live(st, g.exposure) && IssuedSession(l, s, g)
  }

  predicate GoodCapability(st: State, l: Ledger, c: Credential, g: Grant) {
    && Live(st, g.exposure) && Known(l, g.exposure)
    && c == Issued(l, g.exposure).capability && g.expiresAt == Issued(l, g.exposure).expiry
    && !WasConsumed(l, c)
  }

  predicate IssuedSession(l: Ledger, session: Credential, g: Grant) {
    exists i | 0 <= i < |l.exchanged| ::
      l.exchanged[i].session == session && l.exchanged[i].ref == g.exposure && l.exchanged[i].expiry == g.expiresAt
  }

  predicate InLedger(l: Ledger, e: Exposure) {
    Known(l, RefFor(e)) && Issued(l, RefFor(e)).exposure == e
  }

  predicate GoodThread(p: Pending, l: Ledger) {
    match p
    case Exchanging(e, _) => InLedger(l, e)
    case Exchanged(e, c) => InLedger(l, e) && c == Issued(l, RefFor(e)).capability && WasConsumed(l, c) && !WasExchanged(l, c)
    case Authenticating(host, e, _) => InLedger(l, e) && e.host == host
    case _ => true
  }

  /** A thread between consuming and inserting owns its capability alone. */
  predicate ThreadsInv(threads: map<Thread, Pending>, l: Ledger) {
    && (forall t | t in threads :: GoodThread(threads[t], l))
    && (forall t, u | t in threads && u in threads && threads[t].Exchanged? && threads[u].Exchanged?
                      && threads[t].capability == threads[u].capability :: t == u)
  }

  predicate SafetyInv(w: World) {
    TablesInv(w.st, w.ledger) && LedgerInv(w.ledger) && GrantsInv(w.st, w.ledger) && ThreadsInv(w.threads, w.ledger)
  }

  lemma InitialSafe(sessionTTL: int, bootstrapTTL: int)
    ensures SafetyInv(Initial(sessionTTL, bootstrapTTL))
  {
  }

  // ----- Every step keeps the safety invariant -----------------------------------------------

  /** The same registrations; slots and connection sets may differ. */
  predicate SameExposures(st: State, st': State) {
    && st'.exposures.Keys == st.exposures.Keys
    && (forall id | id in st.exposures :: st'.exposures[id].exposure == st.exposures[id].exposure)
  }

  predicate Submap(m: map<Credential, Grant>, m': map<Credential, Grant>) {
    forall c | c in m' :: c in m && m'[c] == m[c]
  }

  lemma TablesFrame(st: State, st': State, l: Ledger, l': Ledger)
    requires TablesInv(st, l) && SameExposures(st, st') && st'.hosts == st.hosts && st'.nextGen == st.nextGen
    requires l'.issued == l.issued && l'.revoked == l.revoked
    ensures TablesInv(st', l')
  {
    forall h | h in st'.hosts ensures GoodHost(st', h) {
      assert GoodHost(st, h);
    }
    forall id | id in st'.exposures ensures GoodExposure(st', l', id) {
      assert GoodExposure(st, l, id);
    }
    forall i | 0 <= i < |l'.issued| ensures Placed(st', l', i) {
      assert Placed(st, l, i);
    }
  }

  lemma CapabilitiesFrame(st: State, st': State, l: Ledger, l': Ledger)
    requires CapabilitiesInv(st, l) && SameExposures(st, st') && Submap(st.capabilities, st'.capabilities)
    requires l'.issued == l.issued && forall c | c in st'.capabilities && WasConsumed(l', c) :: WasConsumed(l, c)
    ensures CapabilitiesInv(st', l')
  {
    forall c | c in st'.capabilities ensures GoodCapability(st', l', c, st'.capabilities[c]) {
      assert GoodCapability(st, l, c, st.capabilities[c]);
    }
  }

  lemma SessionsFrame(st: State, st': State, l: Ledger, l': Ledger)
    requires SessionsInv(st, l) && SameExposures(st, st') && Submap(st.sessions, st'.sessions)
    requires l'.exchanged == l.exchanged
    ensures SessionsInv(st', l')
  {
    forall s | s in st'.sessions ensures GoodSession(st', l', s, st'.sessions[s]) {
      assert GoodSession(st, l, s, st.sessions[s]);
    }
  }

  /** The tables of `st`, perhaps without some grants. */
  predicate Drops(st: State, st': State) {
    && st'.nextGen == st.nextGen && st'.hosts == st.hosts && SameExposures(st, st')
    && Submap(st.capabilities, st'.capabilities) && Submap(st.sessions, st'.sessions)
  }

  lemma DropsKeeps(st: State, st': State, l: Ledger)
    requires Drops(st, st') && TablesInv(st, l) && GrantsInv(st, l)
    ensures TablesInv(st', l) && GrantsInv(st', l)
  {
    hide TablesInv, CapabilitiesInv, SessionsInv, SameExposures, Submap;
    TablesFrame(st, st', l, l);
    CapabilitiesFrame(st, st', l, l);
    SessionsFrame(st, st', l, l);
  }

  // ----- Registering -------------------------------------------------------------------------

  function AddIssuance(l: Ledger, x: Issuance): Ledger {
    l.(issued := l.issued + [x])
  }

  lemma AddIssuanceKnown(l: Ledger, x: Issuance)
    ensures forall ref | Known(l, ref) :: Known(AddIssuance(l, x), ref) && Issued(AddIssuance(l, x), ref) == Issued(l, ref)
    ensures forall e | InLedger(l, e) :: InLedger(AddIssuance(l, x), e)
  {
  }

  lemma AddIssuanceKeeps(l: Ledger, x: Issuance)
    requires LedgerInv(l) && x.exposure.generation == |l.issued| + 1 && x.expiry <= x.exposure.expiresAt
    requires forall i | 0 <= i < |l.issued| :: l.issued[i].capability != x.capability
    ensures LedgerInv(AddIssuance(l, x)) && InLedger(AddIssuance(l, x), x.exposure)
    ensures Issued(AddIssuance(l, x), RefFor(x.exposure)) == x && !WasConsumed(l, x.capability)
  {
    AddIssuanceKnown(l, x);
    forall i | 0 <= i < |l.consumed| ensures GoodConsumption(AddIssuance(l, x), l.consumed[i]) && l.consumed[i].capability != x.capability {
      assert GoodConsumption(l, l.consumed[i]);
    }
    forall i | 0 <= i < |l.exchanged| ensures GoodExchange(AddIssuance(l, x), l.exchanged[i]) {
      assert GoodExchange(l, l.exchanged[i]);
      assert WasConsumed(AddIssuance(l, x), l.exchanged[i].capability);
    }
  }

  lemma AddIssuanceThreads(threads: map<Thread, Pending>, l: Ledger, x: Issuance)
    requires ThreadsInv(threads, l)
    ensures ThreadsInv(threads, AddIssuance(l, x))
  {
    AddIssuanceKnown(l, x);
    forall t | t in threads ensures GoodThread(threads[t], AddIssuance(l, x)) {
      assert GoodThread(threads[t], l);
    }
  }

  /** The state after a new exposure was entered. */
  function Entered(st: State, e: Exposure, capability: Credential, expiry: Time): State {
    st.(nextGen := e.generation,
        exposures := st.exposures[e.id := ExposureState(e, 0, {})],
        hosts := st.hosts[e.host := RefFor(e)],
        capabilities := st.capabilities[capability := Grant(RefFor(e), expiry)])
  }

  lemma EnteredHosts(st: State, e: Exposure, capability: Credential, expiry: Time)
    requires HostsInv(st) && e.id !in st.exposures
    ensures HostsInv(Entered(st, e, capability, expiry))
  {
    var st' := Entered(st, e, capability, expiry);
    forall h | h in st'.hosts ensures GoodHost(st', h) {
      assert h != e.host ==> GoodHost(st, h);
    }
  }

  lemma EnteredExposures(st: State, l: Ledger, e: Exposure, capability: Credential, expiry: Time)
    requires ExposuresInv(st, l) && IssuedInv(l) && e.generation == |l.issued| + 1 && e.host !in st.hosts
    ensures ExposuresInv(Entered(st, e, capability, expiry), AddIssuance(l, Issuance(e, capability, expiry)))
  {
    var st', l' := Entered(st, e, capability, expiry), AddIssuance(l, Issuance(e, capability, expiry));
    NewIsUnrevoked(l, RefFor(e));
    forall id | id in st'.exposures ensures GoodExposure(st', l', id) {
      assert id != e.id ==> GoodExposure(st, l, id);
    }
  }

  lemma NewIsUnrevoked(l: Ledger, ref: Ref)
    requires IssuedInv(l) && ref.generation == |l.issued| + 1
    ensures ref !in l.revoked
  {
    assert ref in l.revoked ==> Known(l, ref);
  }

  lemma EnteredPlaced(st: State, l: Ledger, e: Exposure, capability: Credential, expiry: Time)
    requires PlacedInv(st, l) && e.id !in st.exposures
    ensures PlacedInv(Entered(st, e, capability, expiry), AddIssuance(l, Issuance(e, capability, expiry)))
  {
    var st', l' := Entered(st, e, capability, expiry), AddIssuance(l, Issuance(e, capability, expiry));
    forall i | 0 <= i < |l'.issued| ensures Placed(st', l', i) {
      assert i < |l.issued| ==> Placed(st, l, i);
    }
  }

  lemma EnteredTables(st: State, l: Ledger, e: Exposure, capability: Credential, expiry: Time)
    requires TablesInv(st, l) && IssuedInv(l) && e.generation == |l.issued| + 1 && e.id !in st.exposures && e.host !in st.hosts
    ensures TablesInv(Entered(st, e, capability, expiry), AddIssuance(l, Issuance(e, capability, expiry)))
  {
    hide HostsInv, ExposuresInv, PlacedInv, IssuedInv;
    EnteredHosts(st, e, capability, expiry);
    EnteredExposures(st, l, e, capability, expiry);
    EnteredPlaced(st, l, e, capability, expiry);
  }

  lemma EnteredCapabilities(st: State, l: Ledger, e: Exposure, capability: Credential, expiry: Time)
    requires CapabilitiesInv(st, l) && e.generation == |l.issued| + 1 && e.id !in st.exposures
    requires !WasConsumed(l, capability)
    ensures CapabilitiesInv(Entered(st, e, capability, expiry), AddIssuance(l, Issuance(e, capability, expiry)))
  {
    var st', l' := Entered(st, e, capability, expiry), AddIssuance(l, Issuance(e, capability, expiry));
    forall c | c in st'.capabilities ensures GoodCapability(st', l', c, st'.capabilities[c]) {
      assert c != capability ==> GoodCapability(st, l, c, st.capabilities[c]);
    }
  }

  lemma EnteredSessions(st: State, l: Ledger, e: Exposure, capability: Credential, expiry: Time)
    requires SessionsInv(st, l) && e.id !in st.exposures
    ensures SessionsInv(Entered(st, e, capability, expiry), AddIssuance(l, Issuance(e, capability, expiry)))
  {
    var st', l' := Entered(st, e, capability, expiry), AddIssuance(l, Issuance(e, capability, expiry));
    forall s | s in st'.sessions ensures GoodSession(st', l', s, st'.sessions[s]) {
      assert GoodSession(st, l, s, st.sessions[s]);
    }
  }

  lemma RegisterKeeps(w: World, reg: Registration, capability: Credential, before: Time, now: Time)
    requires SafetyInv(w) && Enabled(w, DoRegister(reg, capability, before, now))
    ensures SafetyInv(Apply(w, DoRegister(reg, capability, before, now)))
  {
    var (st, result) := Register(w.st, reg, capability, w.bootstrapTTL, now);
    if result.Registered? {
      var e, expiry := result.exposure, result.capabilityExpiry;
      AddIssuanceKeeps(w.ledger, Issuance(e, capability, expiry));
      AddIssuanceThreads(w.threads, w.ledger, Issuance(e, capability, expiry));
      EnteredTables(w.st, w.ledger, e, capability, expiry);
      EnteredCapabilities(w.st, w.ledger, e, capability, expiry);
      EnteredSessions(w.st, w.ledger, e, capability, expiry);
      assert st == Entered(w.st, e, capability, expiry);
    }
  }

  // ----- Consuming ---------------------------------------------------------------------------

  function AddConsumption(l: Ledger, x: Consumption): Ledger {
    l.(consumed := l.consumed + [x])
  }

  lemma AddConsumptionConsumed(l: Ledger, x: Consumption)
    ensures forall c :: WasConsumed(AddConsumption(l, x), c) <==> WasConsumed(l, c) || c == x.capability
  {
    forall c ensures WasConsumed(AddConsumption(l, x), c) <==> WasConsumed(l, c) || c == x.capability {
      if WasConsumed(l, c) {
        var i :| 0 <= i < |l.consumed| && l.consumed[i].capability == c;
        assert AddConsumption(l, x).consumed[i].capability == c;
      }
      if c == x.capability {
        assert AddConsumption(l, x).consumed[|l.consumed|] == x;
      }
    }
  }

  lemma AddConsumptionKeeps(l: Ledger, x: Consumption)
    requires LedgerInv(l) && GoodConsumption(l, x) && !WasConsumed(l, x.capability)
    ensures LedgerInv(AddConsumption(l, x))
  {
    var l' := AddConsumption(l, x);
    AddConsumptionConsumed(l, x);
    forall i | 0 <= i < |l'.consumed| ensures GoodConsumption(l', l'.consumed[i]) {
      assert i < |l.consumed| ==> GoodConsumption(l, l.consumed[i]);
    }
    forall i | 0 <= i < |l'.exchanged| ensures GoodExchange(l', l'.exchanged[i]) {
      assert GoodExchange(l, l.exchanged[i]);
    }
  }

  lemma ConsumedGrants(st: State, l: Ledger, x: Consumption)
    requires TablesInv(st, l) && GrantsInv(st, l)
    ensures TablesInv(st.(capabilities := st.capabilities - {x.capability}), AddConsumption(l, x))
    ensures GrantsInv(st.(capabilities := st.capabilities - {x.capability}), AddConsumption(l, x))
  {
    hide TablesInv, CapabilitiesInv, SessionsInv, WasConsumed;
    var st', l' := st.(capabilities := st.capabilities - {x.capability}), AddConsumption(l, x);
    AddConsumptionConsumed(l, x);
    TablesFrame(st, st', l, l');
    CapabilitiesFrame(st, st', l, l');
    SessionsFrame(st, st', l, l');
  }

  lemma ConsumedThreads(threads: map<Thread, Pending>, l: Ledger, t: Thread, x: Consumption)
    requires ThreadsInv(threads, l) && LedgerInv(l) && t in threads && threads[t].Exchanging?
    requires GoodConsumption(l, x) && x.capability == threads[t].capability && x.ref == RefFor(threads[t].exposure)
    requires !WasConsumed(l, x.capability)
    ensures ThreadsInv(threads[t := Exchanged(threads[t].exposure, x.capability)], AddConsumption(l, x))
  {
    var threads', l' := threads[t := Exchanged(threads[t].exposure, x.capability)], AddConsumption(l, x);
    AddConsumptionConsumed(l, x);
    assert GoodThread(threads[t], l);
    assert !WasExchanged(l, x.capability) by {
      if i :| 0 <= i < |l.exchanged| && l.exchanged[i].capability == x.capability {
        assert GoodExchange(l, l.exchanged[i]);
      }
    }
    forall u | u in threads' ensures GoodThread(threads'[u], l') && (u != t && threads'[u].Exchanged? ==> threads'[u].capability != x.capability) {
      if u != t {
        assert GoodThread(threads[u], l);
      }
    }
  }

  lemma UsableIsUnconsumed(st: State, l: Ledger, e: Exposure, capability: Credential, now: Time)
    requires CapabilitiesInv(st, l) && Usable(st, st.capabilities, e, capability, now)
    ensures GoodConsumption(l, Consumption(capability, RefFor(e), now)) && !WasConsumed(l, capability)
  {
    assert GoodCapability(st, l, capability, st.capabilities[capability]);
  }

  lemma ConsumeKeeps(w: World, t: Thread, now: Time)
    requires SafetyInv(w) && Enabled(w, DoConsume(t, now))
    ensures SafetyInv(Apply(w, DoConsume(t, now)))
  {
    hide TablesInv, CapabilitiesInv, SessionsInv, LedgerInv, ThreadsInv, GoodConsumption, WasConsumed;
    var p := w.threads[t];
    var (st, ok) := Consume(w.st, p.exposure, p.capability, now);
    if ok {
      var x := Consumption(p.capability, RefFor(p.exposure), now);
      UsableIsUnconsumed(w.st, w.ledger, p.exposure, p.capability, now);
      AddConsumptionKeeps(w.ledger, x);
      ConsumedGrants(w.st, w.ledger, x);
      ConsumedThreads(w.threads, w.ledger, t, x);
    } else {
      DropsKeeps(w.st, st, w.ledger);
      FewerThreads(w.threads, w.ledger, t);
    }
  }

  lemma FewerThreads(threads: map<Thread, Pending>, l: Ledger, t: Thread)
    requires ThreadsInv(threads, l)
    ensures ThreadsInv(threads - {t}, l)
  {
    forall u | u in threads - {t} ensures GoodThread((threads - {t})[u], l) {
      assert GoodThread(threads[u], l);
    }
  }

  // ----- Inserting the session ---------------------------------------------------------------

  function AddExchange(l: Ledger, x: SessionIssue): Ledger {
    l.(exchanged := l.exchanged + [x])
  }

  lemma AddExchangeKeeps(l: Ledger, x: SessionIssue)
    requires LedgerInv(l) && GoodExchange(l, x) && !WasExchanged(l, x.capability)
    requires forall i | 0 <= i < |l.exchanged| :: l.exchanged[i].session != x.session
    ensures LedgerInv(AddExchange(l, x))
  {
    var l' := AddExchange(l, x);
    forall i | 0 <= i < |l'.exchanged| ensures GoodExchange(l', l'.exchanged[i]) {
      assert GoodExchange(l, l'.exchanged[i]);
      assert WasConsumed(l', l'.exchanged[i].capability);
    }
    forall i | 0 <= i < |l'.consumed| ensures GoodConsumption(l', l'.consumed[i]) {
      assert GoodConsumption(l, l.consumed[i]);
    }
  }

  lemma InsertedSessions(st: State, l: Ledger, x: SessionIssue)
    requires SessionsInv(st, l) && Live(st, x.ref)
    ensures SessionsInv(st.(sessions := st.sessions[x.session := Grant(x.ref, x.expiry)]), AddExchange(l, x))
  {
    var st', l' := st.(sessions := st.sessions[x.session := Grant(x.ref, x.expiry)]), AddExchange(l, x);
    forall s | s in st'.sessions ensures GoodSession(st', l', s, st'.sessions[s]) {
      if s == x.session {
        assert l'.exchanged[|l.exchanged|] == x;
      } else {
        assert GoodSession(st, l, s, st.sessions[s]);
        var i :| 0 <= i < |l.exchanged| && l.exchanged[i].session == s && l.exchanged[i].ref == st.sessions[s].exposure
                 && l.exchanged[i].expiry == st.sessions[s].expiresAt;
        assert l'.exchanged[i] == l.exchanged[i];
      }
    }
  }

  lemma InsertedGrants(st: State, l: Ledger, x: SessionIssue)
    requires TablesInv(st, l) && GrantsInv(st, l) && Live(st, x.ref)
    ensures TablesInv(st.(sessions := st.sessions[x.session := Grant(x.ref, x.expiry)]), AddExchange(l, x))
    ensures GrantsInv(st.(sessions := st.sessions[x.session := Grant(x.ref, x.expiry)]), AddExchange(l, x))
  {
    hide TablesInv, CapabilitiesInv, SessionsInv;
    var st', l' := st.(sessions := st.sessions[x.session := Grant(x.ref, x.expiry)]), AddExchange(l, x);
    InsertedSessions(st, l, x);
    TablesFrame(st, st', l, l');
    CapabilitiesFrame(st, st', l, l');
  }

  lemma InsertedThreads(threads: map<Thread, Pending>, l: Ledger, t: Thread, x: SessionIssue)
    requires ThreadsInv(threads, l) && t in threads && threads[t].Exchanged? && x.capability == threads[t].capability
    ensures ThreadsInv(threads - {t}, AddExchange(l, x))
  {
    var threads', l' := threads - {t}, AddExchange(l, x);
    forall u | u in threads' ensures GoodThread(threads'[u], l') {
      assert GoodThread(threads[u], l);
      if threads[u].Exchanged? {
        assert threads[u].capability != x.capability;
        assert WasConsumed(l', threads[u].capability);
      }
    }
  }

  lemma InsertKeeps(w: World, t: Thread, session: Credential, now: Time)
    requires SafetyInv(w) && Enabled(w, DoInsert(t, session, now))
    ensures SafetyInv(Apply(w, DoInsert(t, session, now)))
  {
    var p := w.threads[t];
    var (st, expiry) := InsertSession(w.st, p.exposure, session, w.sessionTTL, now);
    if expiry.Some? {
      var x := SessionIssue(session, p.capability, RefFor(p.exposure), expiry.value);
      assert GoodThread(p, w.ledger);
      AddExchangeKeeps(w.ledger, x);
      InsertedGrants(w.st, w.ledger, x);
      InsertedThreads(w.threads, w.ledger, t, x);
    } else {
      FewerThreads(w.threads, w.ledger, t);
    }
  }

  // ----- Revoking ----------------------------------------------------------------------------

  function AddRevocation(l: Ledger, ref: Ref): Ledger {
    l.(revoked := l.revoked + {ref})
  }

  /** Distinct exposures have distinct hosts, so taking one out leaves the others in place. */
  lemma TakenOutHosts(st: State, l: Ledger, ref: Ref)
    requires HostsInv(st) && ExposuresInv(st, l) && Live(st, ref)
    ensures HostsInv(TakeOut(st, ref).0) && ExposuresInv(TakeOut(st, ref).0, AddRevocation(l, ref))
  {
    var st', l' := TakeOut(st, ref).0, AddRevocation(l, ref);
    assert GoodExposure(st, l, ref.id);
    forall h | h in st'.hosts ensures GoodHost(st', h) {
      assert GoodHost(st, h);
    }
    forall id | id in st'.exposures ensures GoodExposure(st', l', id) {
      assert GoodExposure(st, l, id);
    }
  }

  lemma TakenOutTables(st: State, l: Ledger, ref: Ref)
    requires TablesInv(st, l) && Live(st, ref)
    ensures TablesInv(TakeOut(st, ref).0, AddRevocation(l, ref))
  {
    hide HostsInv, ExposuresInv;
    TakenOutHosts(st, l, ref);
    forall i | 0 <= i < |l.issued| ensures Placed(TakeOut(st, ref).0, AddRevocation(l, ref), i) {
      assert Placed(st, l, i);
    }
  }

  lemma TakenOutGrants(st: State, l: Ledger, ref: Ref)
    requires GrantsInv(st, l) && Live(st, ref)
    ensures GrantsInv(TakeOut(st, ref).0, AddRevocation(l, ref))
  {
    var st', l' := TakeOut(st, ref).0, AddRevocation(l, ref);
    forall c | c in st'.capabilities ensures GoodCapability(st', l', c, st'.capabilities[c]) {
      assert GoodCapability(st, l, c, st.capabilities[c]);
    }
    forall s | s in st'.sessions ensures GoodSession(st', l', s, st'.sessions[s]) {
      assert GoodSession(st, l, s, st.sessions[s]);
    }
  }

  lemma AddRevocationKeeps(threads: map<Thread, Pending>, l: Ledger, ref: Ref)
    requires LedgerInv(l) && ThreadsInv(threads, l) && Known(l, ref)
    ensures LedgerInv(AddRevocation(l, ref)) && ThreadsInv(threads, AddRevocation(l, ref))
  {
    var l' := AddRevocation(l, ref);
    forall i | 0 <= i < |l.consumed| ensures GoodConsumption(l', l.consumed[i]) {
      assert GoodConsumption(l, l.consumed[i]);
    }
    forall i | 0 <= i < |l.exchanged| ensures GoodExchange(l', l.exchanged[i]) {
      assert GoodExchange(l, l.exchanged[i]);
    }
    forall t | t in threads ensures GoodThread(threads[t], l') {
      assert GoodThread(threads[t], l);
    }
  }

  lemma RevokeKeeps(w: World, t: Thread, ref: Ref, after: Pending)
    requires SafetyInv(w) && (after.Revoking? || after.Closing?)
    ensures SafetyInv(Revoke(w, t, ref, after))
  {
    OtherThread(w.threads, w.ledger, t, after);
    if Live(w.st, ref) {
      assert GoodExposure(w.st, w.ledger, ref.id);
      TakenOutTables(w.st, w.ledger, ref);
      TakenOutGrants(w.st, w.ledger, ref);
      AddRevocationKeeps(w.threads[t := after], w.ledger, ref);
    }
  }

  lemma OtherThread(threads: map<Thread, Pending>, l: Ledger, t: Thread, after: Pending)
    requires ThreadsInv(threads, l) && !after.Exchanged? && GoodThread(after, l)
    ensures ThreadsInv(threads[t := after], l)
  {
    var threads' := threads[t := after];
    forall u | u in threads' ensures GoodThread(threads'[u], l) {
      assert u != t ==> GoodThread(threads[u], l);
    }
  }

  // ----- All steps ---------------------------------------------------------------------------

  lemma LookupFound(w: World, host: Host, now: Time)
    requires SafetyInv(w) && LookupHost(w.st, host, now).Found?
    ensures var e := LookupHost(w.st, host, now).exposure; InLedger(w.ledger, e) && e.host == host
  {
    assert GoodHost(w.st, host);
    assert GoodExposure(w.st, w.ledger, w.st.hosts[host].id);
  }

  lemma BeginKeeps(w: World, t: Thread, host: Host, now: Time, after: Pending)
    requires SafetyInv(w) && LookupHost(w.st, host, now).Found?
    requires (after.Exchanging? || after.Authenticating?) && after.exposure == LookupHost(w.st, host, now).exposure
    requires after.Authenticating? ==> after.host == host
    ensures SafetyInv(w.(threads := w.threads[t := after]))
  {
    LookupFound(w, host, now);
    OtherThread(w.threads, w.ledger, t, after);
  }

  /** Steps that touch slots, connections or stale grants only. */
  lemma QuietKeeps(w: World, w': World)
    requires SafetyInv(w) && Drops(w.st, w'.st) && w'.ledger == w.ledger && ThreadsInv(w'.threads, w.ledger)
    ensures SafetyInv(w')
  {
    DropsKeeps(w.st, w'.st, w.ledger);
  }

  lemma ThreadStepDrops(w: World, s: Step)
    requires Enabled(w, s)
    requires s.DoAuthenticate? || s.CloseHeld? || s.EndRevoke? || s.BeginClose? || s.EndClose?
    ensures Drops(w.st, Apply(w, s).st) && Apply(w, s).ledger == w.ledger
  {
  }

  lemma ThreadStepThreads(w: World, s: Step)
    requires ThreadsInv(w.threads, w.ledger) && Enabled(w, s)
    requires s.DoAuthenticate? || s.CloseHeld? || s.EndRevoke? || s.BeginClose? || s.EndClose?
    ensures ThreadsInv(Apply(w, s).threads, w.ledger)
  {
    hide ThreadsInv, CheckSession;
    match s
    case DoAuthenticate(t, _) => FewerThreads(w.threads, w.ledger, t);
    case EndRevoke(t) => FewerThreads(w.threads, w.ledger, t);
    case EndClose(t) => FewerThreads(w.threads, w.ledger, t);
    case CloseHeld(t, conn) => OtherThread(w.threads, w.ledger, t, w.threads[t].(held := w.threads[t].held - {conn}));
    case BeginClose(t) => OtherThread(w.threads, w.ledger, t, Closing(MarkClosed(w.st).1, Ref("", 0), false, {}));
  }

  lemma ThreadStepKeeps(w: World, s: Step)
    requires SafetyInv(w) && Enabled(w, s)
    requires s.DoAuthenticate? || s.CloseHeld? || s.EndRevoke? || s.BeginClose? || s.EndClose?
    ensures SafetyInv(Apply(w, s))
  {
    hide TablesInv, LedgerInv, GrantsInv, ThreadsInv, Apply, Enabled, Drops;
    ThreadStepDrops(w, s);
    ThreadStepThreads(w, s);
    QuietKeeps(w, Apply(w, s));
  }

  lemma ApplyKeeps(w: World, s: Step)
    requires SafetyInv(w) && Enabled(w, s)
    ensures SafetyInv(Apply(w, s))
  {
    hide SafetyInv;
    match s
    case DoRegister(reg, capability, before, now) => RegisterKeeps(w, reg, capability, before, now);
    case BeginExchange(t, host, capability, now) =>
      if LookupHost(w.st, host, now).Found? {
        BeginKeeps(w, t, host, now, Exchanging(LookupHost(w.st, host, now).exposure, capability));
      }
    case DoConsume(t, now) => ConsumeKeeps(w, t, now);
    case DoInsert(t, session, now) => InsertKeeps(w, t, session, now);
    case BeginAuthenticate(t, host, session, now) =>
      if LookupHost(w.st, host, now).Found? {
        BeginKeeps(w, t, host, now, Authenticating(host, LookupHost(w.st, host, now).exposure, session));
      }
    case BeginRevoke(t, ref) => RevokeKeeps(w, t, ref, Revoking(ref, Live(w.st, ref), TakeOut(w.st, ref).1));
    case NextClose(t, ref) =>
      RevokeKeeps(w, t, ref, Closing(w.threads[t].refs - {ref}, ref, Live(w.st, ref), TakeOut(w.st, ref).1));
    case DoAuthenticate(_, _) => ThreadStepKeeps(w, s);
    case EndRevoke(_) => ThreadStepKeeps(w, s);
    case EndClose(_) => ThreadStepKeeps(w, s);
    case CloseHeld(_, _) => ThreadStepKeeps(w, s);
    case BeginClose(_) => ThreadStepKeeps(w, s);
    case DoAcquire(_, _, _) => SlotStepKeeps(w, s);
    case DoRelease(_) => SlotStepKeeps(w, s);
    case DoTrack(_, _, _) => SlotStepKeeps(w, s);
    case DoUntrack(_) => SlotStepKeeps(w, s);
    case CloseConn(_) => SlotStepKeeps(w, s);
  }

  lemma SlotStepDrops(w: World, s: Step)
    requires Enabled(w, s)
    requires s.DoAcquire? || s.DoRelease? || s.DoTrack? || s.DoUntrack? || s.CloseConn?
    ensures Drops(w.st, Apply(w, s).st) && Apply(w, s).ledger == w.ledger && Apply(w, s).threads == w.threads
  {
  }

  lemma SlotStepKeeps(w: World, s: Step)
    requires SafetyInv(w) && Enabled(w, s)
    requires s.DoAcquire? || s.DoRelease? || s.DoTrack? || s.DoUntrack? || s.CloseConn?
    ensures SafetyInv(Apply(w, s))
  {
    hide Drops, TablesInv, LedgerInv, GrantsInv, ThreadsInv, Apply;
    SlotStepDrops(w, s);
    QuietKeeps(w, Apply(w, s));
  }

  lemma {:induction false} RunKeeps(w: World, steps: seq<Step>)
    requires SafetyInv(w) && AllEnabled(w, steps)
    ensures SafetyInv(Run(w, steps))
    decreases |steps|
  {
    if steps != [] {
      ApplyKeeps(w, steps[0]);
      RunKeeps(Apply(w, steps[0]), steps[1..]);
    }
  }
}
