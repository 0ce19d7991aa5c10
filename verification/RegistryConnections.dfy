/**
 Slots, tracked connections and shutdown over runs of the registry: slot counts are conserved,
 a tracked connection is never lost by a revocation, and a closed registry stays empty.
 */
module RegistryConnections {
  import opened Wrappers
  import opened Registry
  import opened RegistryRuns

  // ----- Slots -------------------------------------------------------------------------------

  /** The closures of one registration that have not run yet. */
  function OpenSlots(slots: map<SlotId, Slot>, ref: Ref): set<SlotId> {
    set s | s in slots && slots[s] == Slot(ref, false)
  }

  ghost predicate GoodCount(x: ExposureState, slots: map<SlotId, Slot>) {
    x.active == |OpenSlots(slots, RefFor(x.exposure))| <= x.exposure.maxConnections
  }

  ghost predicate SlotsInv(st: State, slots: map<SlotId, Slot>, l: Ledger) {
    && (forall id | id in st.exposures :: GoodCount(st.exposures[id], slots))
    && (forall s | s in slots :: Known(l, slots[s].ref))
  }

  lemma OtherSlots(slots: map<SlotId, Slot>, s: SlotId, slot: Slot, ref: Ref)
    requires slot.ref != ref && (s in slots ==> slots[s].ref != ref)
    ensures OpenSlots(slots[s := slot], ref) == OpenSlots(slots, ref)
  {
  }

  lemma OpenedSlot(slots: map<SlotId, Slot>, s: SlotId, ref: Ref)
    requires s !in slots
    ensures |OpenSlots(slots[s := Slot(ref, false)], ref)| == |OpenSlots(slots, ref)| + 1
  {
    assert OpenSlots(slots[s := Slot(ref, false)], ref) == OpenSlots(slots, ref) + {s};
  }

  lemma ReleasedSlot(slots: map<SlotId, Slot>, s: SlotId)
    requires s in slots && !slots[s].released
    ensures |OpenSlots(slots[s := Slot(slots[s].ref, true)], slots[s].ref)| == |OpenSlots(slots, slots[s].ref)| - 1
  {
    assert OpenSlots(slots, slots[s].ref) == OpenSlots(slots[s := Slot(slots[s].ref, true)], slots[s].ref) + {s};
  }

  // ----- Connections -------------------------------------------------------------------------

  predicate Revoker(threads: map<Thread, Pending>, t: Thread) {
    t in threads && (threads[t].Revoking? || threads[t].Closing?)
  }

  /** This thread is the one that took the registration out. */
  predicate Remover(threads: map<Thread, Pending>, t: Thread, ref: Ref) {
    Revoker(threads, t) && threads[t].removed && threads[t].ref == ref
  }

  ghost predicate Held(threads: map<Thread, Pending>, ref: Ref, conn: Conn) {
    exists t :: Remover(threads, t, ref) && conn in threads[t].held
  }

  predicate InSet(st: State, ref: Ref, conn: Conn) {
    Live(st, ref) && conn in st.exposures[ref.id].conns
  }

  /** Where a tracked connection is: closed, in a live exposure's set, or in the hands of the remover. */
  ghost predicate Accounted(st: State, threads: map<Thread, Pending>, conn: Conn, x: Tracked) {
    x.closed || InSet(st, x.ref, conn) || Held(threads, x.ref, conn)
  }

  ghost predicate GoodRevoker(threads: map<Thread, Pending>, t: Thread, conns: map<Conn, Tracked>, l: Ledger)
    requires Revoker(threads, t)
  {
    var p := threads[t];
    && (if p.removed then p.ref in l.revoked else p.held == {})
    && (p.Revoking? ==> p.ref in l.revoked)
    && (forall c | c in p.held :: c in conns && conns[c].ref == p.ref)
  }

  ghost predicate AllAccounted(st: State, threads: map<Thread, Pending>, conns: map<Conn, Tracked>) {
    forall c | c in conns :: Accounted(st, threads, c, conns[c])
  }

  ghost predicate SetsInv(st: State, conns: map<Conn, Tracked>) {
    forall id, c | id in st.exposures && c in st.exposures[id].conns ::
      c in conns && conns[c].ref == RefFor(st.exposures[id].exposure)
  }

  ghost predicate RevokersInv(threads: map<Thread, Pending>, conns: map<Conn, Tracked>, l: Ledger) {
    && (forall t | Revoker(threads, t) :: GoodRevoker(threads, t, conns, l))
    && (forall t, u, ref | Remover(threads, t, ref) && Remover(threads, u, ref) :: t == u)
  }

  ghost predicate ConnsInv(st: State, threads: map<Thread, Pending>, conns: map<Conn, Tracked>, l: Ledger) {
    AllAccounted(st, threads, conns) && SetsInv(st, conns) && RevokersInv(threads, conns, l)
  }

  // ----- Shutdown ----------------------------------------------------------------------------

  /** What is still registered once the registry was closed is on the list of whoever closed it. */
  ghost predicate ClosersInv(st: State, threads: map<Thread, Pending>) {
    forall t | t in threads && threads[t].Closing? :: st.closed && LiveRefs(st) <= threads[t].refs
  }

  ghost predicate WorldInv(w: World) {
    && SafetyInv(w)
    && SlotsInv(w.st, w.slots, w.ledger)
    && ConnsInv(w.st, w.threads, w.conns, w.ledger)
    && ClosersInv(w.st, w.threads)
  }

  lemma InitialInv(sessionTTL: int, bootstrapTTL: int)
    ensures WorldInv(Initial(sessionTTL, bootstrapTTL))
  {
    InitialSafe(sessionTTL, bootstrapTTL);
  }

  // ----- Frames ------------------------------------------------------------------------------

  ghost predicate SameRevokers(threads: map<Thread, Pending>, threads': map<Thread, Pending>) {
    forall t | Revoker(threads, t) || Revoker(threads', t) :: t in threads && t in threads' && threads'[t] == threads[t]
  }

  lemma HeldFrame(threads: map<Thread, Pending>, threads': map<Thread, Pending>, ref: Ref, conn: Conn)
    requires SameRevokers(threads, threads') && Held(threads, ref, conn)
    ensures Held(threads', ref, conn)
  {
    var t :| Remover(threads, t, ref) && conn in threads[t].held;
    assert Remover(threads', t, ref);
  }

  /** Steps of an exchange or an authentication leave slots, connections and shutdown alone. */
  lemma GrantStepKeeps(w: World, w': World)
    requires WorldInv(w) && SafetyInv(w') && SameRevokers(w.threads, w'.threads)
    requires w'.slots == w.slots && w'.conns == w.conns && w'.st.exposures == w.st.exposures && w'.st.closed == w.st.closed
    requires w'.ledger.issued == w.ledger.issued && w'.ledger.revoked == w.ledger.revoked
    ensures WorldInv(w')
  {
    hide SafetyInv;
    forall c | c in w'.conns ensures Accounted(w'.st, w'.threads, c, w'.conns[c]) {
      assert Accounted(w.st, w.threads, c, w.conns[c]);
      if Held(w.threads, w.conns[c].ref, c) {
        HeldFrame(w.threads, w'.threads, w.conns[c].ref, c);
      }
    }
    RevokersFrame(w.threads, w'.threads, w.conns, w.ledger, w'.ledger);
  }

  lemma RevokersFrame(threads: map<Thread, Pending>, threads': map<Thread, Pending>, conns: map<Conn, Tracked>, l: Ledger, l': Ledger)
    requires RevokersInv(threads, conns, l) && SameRevokers(threads, threads') && l.revoked <= l'.revoked
    ensures RevokersInv(threads', conns, l')
  {
    forall t | Revoker(threads', t) ensures GoodRevoker(threads', t, conns, l') {
      assert GoodRevoker(threads, t, conns, l);
    }
    forall t, u, ref | Remover(threads', t, ref) && Remover(threads', u, ref) ensures t == u {
      assert Remover(threads, t, ref) && Remover(threads, u, ref);
    }
  }

  /** Another set of slot counts and connection sets over the same registrations. */
  lemma AccountedFrame(st: State, st': State, threads: map<Thread, Pending>, conns: map<Conn, Tracked>)
    requires AllAccounted(st, threads, conns) && SetsInv(st, conns)
    requires SameExposures(st, st') && forall id | id in st.exposures :: st'.exposures[id].conns == st.exposures[id].conns
    ensures AllAccounted(st', threads, conns) && SetsInv(st', conns)
  {
    forall c | c in conns ensures Accounted(st', threads, c, conns[c]) {
      assert Accounted(st, threads, c, conns[c]);
    }
  }

  lemma ClosersFrame(st: State, st': State, threads: map<Thread, Pending>)
    requires ClosersInv(st, threads) && SameExposures(st, st') && st'.closed == st.closed
    ensures ClosersInv(st', threads)
  {
    assert LiveRefs(st') == LiveRefs(st);
  }

  // ----- Registering -------------------------------------------------------------------------

  lemma RegisterSlots(st: State, slots: map<SlotId, Slot>, l: Ledger, e: Exposure, capability: Credential, expiry: Time)
    requires SlotsInv(st, slots, l) && e.generation == |l.issued| + 1 && e.id !in st.exposures && e.maxConnections > 0
    ensures SlotsInv(Entered(st, e, capability, expiry), slots, AddIssuance(l, Issuance(e, capability, expiry)))
  {
    AddIssuanceKnown(l, Issuance(e, capability, expiry));
    assert OpenSlots(slots, RefFor(e)) == {};
    forall id | id in Entered(st, e, capability, expiry).exposures
      ensures GoodCount(Entered(st, e, capability, expiry).exposures[id], slots)
    {
      assert id != e.id ==> GoodCount(st.exposures[id], slots);
    }
  }

  lemma RegisterConns(st: State, threads: map<Thread, Pending>, conns: map<Conn, Tracked>, e: Exposure, capability: Credential, expiry: Time)
    requires AllAccounted(st, threads, conns) && SetsInv(st, conns) && e.id !in st.exposures
    ensures AllAccounted(Entered(st, e, capability, expiry), threads, conns) && SetsInv(Entered(st, e, capability, expiry), conns)
  {
    forall c | c in conns ensures Accounted(Entered(st, e, capability, expiry), threads, c, conns[c]) {
      assert Accounted(st, threads, c, conns[c]);
    }
  }

  lemma RegisterClosers(st: State, threads: map<Thread, Pending>, e: Exposure, capability: Credential, expiry: Time)
    requires ClosersInv(st, threads) && !st.closed
    ensures ClosersInv(Entered(st, e, capability, expiry), threads)
  {
  }

  lemma EnteredKeeps(w: World, e: Exposure, capability: Credential, expiry: Time)
    requires WorldInv(w) && e.generation == |w.ledger.issued| + 1 && e.id !in w.st.exposures && e.maxConnections > 0 && !w.st.closed
    requires SafetyInv(w.(st := Entered(w.st, e, capability, expiry), ledger := AddIssuance(w.ledger, Issuance(e, capability, expiry))))
    ensures WorldInv(w.(st := Entered(w.st, e, capability, expiry), ledger := AddIssuance(w.ledger, Issuance(e, capability, expiry))))
  {
    hide SafetyInv, SlotsInv, AllAccounted, SetsInv, RevokersInv, ClosersInv;
    RegisterSlots(w.st, w.slots, w.ledger, e, capability, expiry);
    RegisterConns(w.st, w.threads, w.conns, e, capability, expiry);
    RegisterClosers(w.st, w.threads, e, capability, expiry);
    RevokersFrame(w.threads, w.threads, w.conns, w.ledger, AddIssuance(w.ledger, Issuance(e, capability, expiry)));
  }

  lemma RegisterStepKeeps(w: World, reg: Registration, capability: Credential, before: Time, now: Time)
    requires WorldInv(w) && Enabled(w, DoRegister(reg, capability, before, now))
    ensures WorldInv(Apply(w, DoRegister(reg, capability, before, now)))
  {
    hide LedgerInv, GrantsInv, ThreadsInv, SlotsInv, ConnsInv, ClosersInv;
    ApplyKeeps(w, DoRegister(reg, capability, before, now));
    var result := Register(w.st, reg, capability, w.bootstrapTTL, now).1;
    if result.Registered? {
      EnteredKeeps(w, result.exposure, capability, result.capabilityExpiry);
    }
  }

  // ----- Slots taken and given back ----------------------------------------------------------

  lemma AcquireSlots(w: World, slot: SlotId, e: Exposure, now: Time)
    requires SlotsInv(w.st, w.slots, w.ledger) && Enabled(w, DoAcquire(slot, e, now)) && AcquireSlot(w.st, e, now).1.Granted?
    requires TablesInv(w.st, w.ledger)
    ensures SlotsInv(AcquireSlot(w.st, e, now).0, w.slots[slot := Slot(RefFor(e), false)], w.ledger)
  {
    var st', slots' := AcquireSlot(w.st, e, now).0, w.slots[slot := Slot(RefFor(e), false)];
    assert GoodExposure(w.st, w.ledger, e.id);
    forall id | id in st'.exposures ensures GoodCount(st'.exposures[id], slots') {
      assert GoodCount(w.st.exposures[id], w.slots) && GoodExposure(w.st, w.ledger, id);
      if id == e.id {
        OpenedSlot(w.slots, slot, RefFor(e));
      } else {
        OtherSlots(w.slots, slot, Slot(RefFor(e), false), RefFor(w.st.exposures[id].exposure));
      }
    }
  }

  lemma ReleaseSlots(st: State, slots: map<SlotId, Slot>, l: Ledger, slot: SlotId)
    requires SlotsInv(st, slots, l) && slot in slots && !slots[slot].released && TablesInv(st, l)
    ensures SlotsInv(ReleaseSlot(st, slots[slot].ref), slots[slot := slots[slot].(released := true)], l)
    ensures Live(st, slots[slot].ref) ==> st.exposures[slots[slot].ref.id].active > 0
  {
    var st', slots', ref := ReleaseSlot(st, slots[slot].ref), slots[slot := slots[slot].(released := true)], slots[slot].ref;
    assert slot in OpenSlots(slots, ref);
    if Live(st, ref) {
      assert GoodCount(st.exposures[ref.id], slots);
    }
    forall id | id in st'.exposures ensures GoodCount(st'.exposures[id], slots') {
      assert GoodCount(st.exposures[id], slots) && GoodExposure(st, l, id);
      if RefFor(st.exposures[id].exposure) == ref {
        ReleasedSlot(slots, slot);
      } else {
        OtherSlots(slots, slot, Slot(ref, true), RefFor(st.exposures[id].exposure));
      }
    }
  }

  lemma ReslottedKeeps(w: World, w': World)
    requires WorldInv(w) && SafetyInv(w') && SlotsInv(w'.st, w'.slots, w'.ledger)
    requires w'.threads == w.threads && w'.conns == w.conns && w'.ledger == w.ledger && w'.st.closed == w.st.closed
    requires SameExposures(w.st, w'.st) && forall id | id in w.st.exposures :: w'.st.exposures[id].conns == w.st.exposures[id].conns
    ensures WorldInv(w')
  {
    hide SafetyInv, SlotsInv, AllAccounted, SetsInv, RevokersInv, ClosersInv;
    AccountedFrame(w.st, w'.st, w.threads, w.conns);
    ClosersFrame(w.st, w'.st, w.threads);
  }

  lemma AcquireKeeps(w: World, slot: SlotId, e: Exposure, now: Time)
    requires WorldInv(w) && Enabled(w, DoAcquire(slot, e, now))
    ensures WorldInv(Apply(w, DoAcquire(slot, e, now)))
  {
    hide SlotsInv, ConnsInv, ClosersInv, TablesInv, LedgerInv, GrantsInv, ThreadsInv;
    ApplyKeeps(w, DoAcquire(slot, e, now));
    if AcquireSlot(w.st, e, now).1.Granted? {
      AcquireSlots(w, slot, e, now);
      ReslottedKeeps(w, Apply(w, DoAcquire(slot, e, now)));
    }
  }

  lemma ReleaseKeeps(w: World, slot: SlotId)
    requires WorldInv(w) && Enabled(w, DoRelease(slot))
    ensures WorldInv(Apply(w, DoRelease(slot)))
  {
    hide SlotsInv, ConnsInv, ClosersInv, TablesInv, LedgerInv, GrantsInv, ThreadsInv;
    ApplyKeeps(w, DoRelease(slot));
    if !w.slots[slot].released {
      ReleaseSlots(w.st, w.slots, w.ledger, slot);
      ReslottedKeeps(w, Apply(w, DoRelease(slot)));
    }
  }

  // ----- Connections tracked, closed and forgotten -------------------------------------------

  lemma CountsFrame(st: State, st': State, slots: map<SlotId, Slot>, l: Ledger)
    requires SlotsInv(st, slots, l) && SameExposures(st, st') && forall id | id in st.exposures :: st'.exposures[id].active == st.exposures[id].active
    ensures SlotsInv(st', slots, l)
  {
    forall id | id in st'.exposures ensures GoodCount(st'.exposures[id], slots) {
      assert GoodCount(st.exposures[id], slots);
    }
  }

  lemma TrackConns(w: World, e: Exposure, conn: Conn, now: Time)
    requires AllAccounted(w.st, w.threads, w.conns) && SetsInv(w.st, w.conns) && Enabled(w, DoTrack(e, conn, now))
    ensures var w' := Apply(w, DoTrack(e, conn, now)); AllAccounted(w'.st, w.threads, w'.conns) && SetsInv(w'.st, w'.conns)
  {
    var w' := Apply(w, DoTrack(e, conn, now));
    forall c | c in w'.conns ensures Accounted(w'.st, w.threads, c, w'.conns[c]) {
      assert c != conn ==> Accounted(w.st, w.threads, c, w.conns[c]);
    }
  }

  lemma UntrackConns(w: World, conn: Conn)
    requires AllAccounted(w.st, w.threads, w.conns) && SetsInv(w.st, w.conns) && Enabled(w, DoUntrack(conn))
    ensures var w' := Apply(w, DoUntrack(conn)); AllAccounted(w'.st, w.threads, w.conns) && SetsInv(w'.st, w.conns)
  {
    var w' := Apply(w, DoUntrack(conn));
    forall c | c in w.conns ensures Accounted(w'.st, w.threads, c, w.conns[c]) {
      assert Accounted(w.st, w.threads, c, w.conns[c]);
    }
  }

  ghost predicate MoreClosed(conns: map<Conn, Tracked>, conns': map<Conn, Tracked>) {
    forall c | c in conns :: c in conns' && conns'[c].ref == conns[c].ref && (conns[c].closed ==> conns'[c].closed)
  }

  lemma RevokersConns(threads: map<Thread, Pending>, conns: map<Conn, Tracked>, conns': map<Conn, Tracked>, l: Ledger)
    requires RevokersInv(threads, conns, l) && MoreClosed(conns, conns')
    ensures RevokersInv(threads, conns', l)
  {
    forall t | Revoker(threads, t) ensures GoodRevoker(threads, t, conns', l) {
      assert GoodRevoker(threads, t, conns, l);
    }
  }

  lemma ReconnectedKeeps(w: World, w': World)
    requires WorldInv(w) && SafetyInv(w') && AllAccounted(w'.st, w'.threads, w'.conns) && SetsInv(w'.st, w'.conns)
    requires w'.threads == w.threads && w'.slots == w.slots && w'.ledger == w.ledger && w'.st.closed == w.st.closed
    requires SameExposures(w.st, w'.st) && forall id | id in w.st.exposures :: w'.st.exposures[id].active == w.st.exposures[id].active
    requires MoreClosed(w.conns, w'.conns)
    ensures WorldInv(w')
  {
    hide SafetyInv, SlotsInv, AllAccounted, SetsInv, RevokersInv, ClosersInv, MoreClosed;
    CountsFrame(w.st, w'.st, w.slots, w.ledger);
    ClosersFrame(w.st, w'.st, w.threads);
    RevokersConns(w.threads, w.conns, w'.conns, w.ledger);
  }

  lemma TrackKeeps(w: World, e: Exposure, conn: Conn, now: Time)
    requires WorldInv(w) && Enabled(w, DoTrack(e, conn, now))
    ensures WorldInv(Apply(w, DoTrack(e, conn, now)))
  {
    hide SafetyInv, SlotsInv, AllAccounted, SetsInv, RevokersInv, ClosersInv;
    ApplyKeeps(w, DoTrack(e, conn, now));
    TrackConns(w, e, conn, now);
    ReconnectedKeeps(w, Apply(w, DoTrack(e, conn, now)));
  }

  lemma UntrackKeeps(w: World, conn: Conn)
    requires WorldInv(w) && Enabled(w, DoUntrack(conn))
    ensures WorldInv(Apply(w, DoUntrack(conn)))
  {
    hide SafetyInv, SlotsInv, AllAccounted, SetsInv, RevokersInv, ClosersInv;
    ApplyKeeps(w, DoUntrack(conn));
    UntrackConns(w, conn);
    ReconnectedKeeps(w, Apply(w, DoUntrack(conn)));
  }

  lemma CloseConnKeeps(w: World, conn: Conn)
    requires WorldInv(w) && Enabled(w, CloseConn(conn))
    ensures WorldInv(Apply(w, CloseConn(conn)))
  {
    hide SafetyInv, SlotsInv, AllAccounted, SetsInv, RevokersInv, ClosersInv;
    ApplyKeeps(w, CloseConn(conn));
    ClosedConns(w, conn);
    ReconnectedKeeps(w, Apply(w, CloseConn(conn)));
  }

  lemma ClosedConns(w: World, conn: Conn)
    requires AllAccounted(w.st, w.threads, w.conns) && SetsInv(w.st, w.conns) && conn in w.conns
    ensures var conns' := w.conns[conn := w.conns[conn].(closed := true)]; AllAccounted(w.st, w.threads, conns') && SetsInv(w.st, conns')
  {
    forall c | c in w.conns ensures c == conn || Accounted(w.st, w.threads, c, w.conns[c]) {
    }
  }

  // ----- Revocation --------------------------------------------------------------------------

  lemma TakenOutSlots(st: State, slots: map<SlotId, Slot>, l: Ledger, ref: Ref)
    requires SlotsInv(st, slots, l)
    ensures SlotsInv(TakeOut(st, ref).0, slots, AddRevocation(l, ref)) && SlotsInv(TakeOut(st, ref).0, slots, l)
  {
    forall id | id in TakeOut(st, ref).0.exposures ensures GoodCount(TakeOut(st, ref).0.exposures[id], slots) {
      assert GoodCount(st.exposures[id], slots);
    }
  }

  /** A thread with nothing in its hands moves on to remove `ref`. */
  ghost predicate Moves(w: World, t: Thread, ref: Ref, after: Pending) {
    && (after.Revoking? || after.Closing?)
    && after.ref == ref && after.removed == Live(w.st, ref) && after.held == TakeOut(w.st, ref).1
    && (t in w.threads ==> w.threads[t].Closing? && w.threads[t].held == {})
  }

  lemma RevokeConns(w: World, t: Thread, ref: Ref, after: Pending)
    requires AllAccounted(w.st, w.threads, w.conns) && SetsInv(w.st, w.conns) && Moves(w, t, ref, after)
    ensures var w' := Revoke(w, t, ref, after); AllAccounted(w'.st, w'.threads, w.conns) && SetsInv(w'.st, w.conns)
  {
    var w' := Revoke(w, t, ref, after);
    forall c | c in w.conns ensures Accounted(w'.st, w'.threads, c, w.conns[c]) {
      var r := w.conns[c].ref;
      assert Accounted(w.st, w.threads, c, w.conns[c]);
      if Held(w.threads, r, c) {
        var u :| Remover(w.threads, u, r) && c in w.threads[u].held;
        assert Remover(w'.threads, u, r) && c in w'.threads[u].held;
      } else if InSet(w.st, r, c) && r.id == ref.id && Live(w.st, ref) {
        assert Remover(w'.threads, t, r) && c in w'.threads[t].held;
      }
    }
  }

  lemma RevokeRevokers(w: World, t: Thread, ref: Ref, after: Pending)
    requires RevokersInv(w.threads, w.conns, w.ledger) && SetsInv(w.st, w.conns) && TablesInv(w.st, w.ledger) && Moves(w, t, ref, after)
    requires after.Revoking? ==> Known(w.ledger, ref)
    ensures RevokersInv(Revoke(w, t, ref, after).threads, w.conns, Revoke(w, t, ref, after).ledger)
  {
    var w' := Revoke(w, t, ref, after);
    if after.Revoking? {
      assert Placed(w.st, w.ledger, ref.generation - 1);
    }
    forall u | Revoker(w'.threads, u) ensures GoodRevoker(w'.threads, u, w.conns, w'.ledger) {
      assert u != t ==> GoodRevoker(w.threads, u, w.conns, w.ledger);
    }
    forall u, v, r | Remover(w'.threads, u, r) && Remover(w'.threads, v, r) ensures u == v {
      assert u != t ==> Remover(w.threads, u, r) && GoodRevoker(w.threads, u, w.conns, w.ledger);
      assert v != t ==> Remover(w.threads, v, r) && GoodRevoker(w.threads, v, w.conns, w.ledger);
      assert Live(w.st, ref) ==> GoodExposure(w.st, w.ledger, ref.id);
    }
  }

  lemma LiveRefsTakenOut(st: State, l: Ledger, ref: Ref)
    requires TablesInv(st, l)
    ensures LiveRefs(TakeOut(st, ref).0) == LiveRefs(st) - {ref}
  {
    forall id | id in st.exposures ensures st.exposures[id].exposure.id == id {
      assert GoodExposure(st, l, id);
    }
    forall r | r in LiveRefs(st) - {ref} ensures r in LiveRefs(TakeOut(st, ref).0) {
      var id :| id in st.exposures && RefFor(st.exposures[id].exposure) == r;
      assert id in TakeOut(st, ref).0.exposures;
    }
  }

  lemma RevokeClosers(w: World, t: Thread, ref: Ref, after: Pending)
    requires ClosersInv(w.st, w.threads) && TablesInv(w.st, w.ledger)
    requires after.Closing? ==> t in w.threads && w.threads[t].Closing? && after.refs == w.threads[t].refs - {ref}
    ensures ClosersInv(Revoke(w, t, ref, after).st, Revoke(w, t, ref, after).threads)
  {
    LiveRefsTakenOut(w.st, w.ledger, ref);
  }

  lemma RevokeStepsKeep(w: World, t: Thread, ref: Ref, after: Pending)
    requires WorldInv(w) && Moves(w, t, ref, after)
    requires after.Revoking? ==> Known(w.ledger, ref)
    requires after.Closing? ==> t in w.threads && w.threads[t].Closing? && after.refs == w.threads[t].refs - {ref}
    ensures WorldInv(Revoke(w, t, ref, after))
  {
    hide SlotsInv, AllAccounted, SetsInv, RevokersInv, ClosersInv, TablesInv, LedgerInv, GrantsInv, ThreadsInv;
    RevokeKeeps(w, t, ref, after);
    TakenOutSlots(w.st, w.slots, w.ledger, ref);
    RevokeConns(w, t, ref, after);
    RevokeRevokers(w, t, ref, after);
    RevokeClosers(w, t, ref, after);
  }

  // ----- Closing what was taken out, and returning -------------------------------------------

  lemma CloseHeldConns(w: World, t: Thread, conn: Conn)
    requires ConnsInv(w.st, w.threads, w.conns, w.ledger) && Enabled(w, CloseHeld(t, conn))
    ensures var w' := Apply(w, CloseHeld(t, conn)); AllAccounted(w'.st, w'.threads, w'.conns) && SetsInv(w'.st, w'.conns)
  {
    var w' := Apply(w, CloseHeld(t, conn));
    assert GoodRevoker(w.threads, t, w.conns, w.ledger);
    forall c | c in w'.conns ensures Accounted(w'.st, w'.threads, c, w'.conns[c]) {
      assert Accounted(w.st, w.threads, c, w.conns[c]);
      if c != conn && Held(w.threads, w.conns[c].ref, c) {
        var u :| Remover(w.threads, u, w.conns[c].ref) && c in w.threads[u].held;
        assert Remover(w'.threads, u, w.conns[c].ref) && c in w'.threads[u].held;
      }
    }
  }

  lemma CloseHeldRevokers(w: World, t: Thread, conn: Conn)
    requires RevokersInv(w.threads, w.conns, w.ledger) && Enabled(w, CloseHeld(t, conn))
    ensures RevokersInv(Apply(w, CloseHeld(t, conn)).threads, Apply(w, CloseHeld(t, conn)).conns, w.ledger)
  {
    var w' := Apply(w, CloseHeld(t, conn));
    forall u | Revoker(w'.threads, u) ensures GoodRevoker(w'.threads, u, w'.conns, w.ledger) {
      assert GoodRevoker(w.threads, u, w.conns, w.ledger);
    }
    forall u, v, r | Remover(w'.threads, u, r) && Remover(w'.threads, v, r) ensures u == v {
      assert Remover(w.threads, u, r) && Remover(w.threads, v, r);
    }
  }

  lemma CloseHeldKeeps(w: World, t: Thread, conn: Conn)
    requires WorldInv(w) && Enabled(w, CloseHeld(t, conn))
    ensures WorldInv(Apply(w, CloseHeld(t, conn)))
  {
    hide SlotsInv, AllAccounted, SetsInv, RevokersInv, TablesInv, LedgerInv, GrantsInv, ThreadsInv;
    ApplyKeeps(w, CloseHeld(t, conn));
    CloseHeldConns(w, t, conn);
    CloseHeldRevokers(w, t, conn);
  }

  lemma ReturnKeeps(w: World, t: Thread)
    requires WorldInv(w) && t in w.threads && (w.threads[t].Revoking? || w.threads[t].Closing?) && w.threads[t].held == {}
    requires SafetyInv(w.(threads := w.threads - {t}))
    ensures WorldInv(w.(threads := w.threads - {t}))
  {
    hide SafetyInv;
    var threads' := w.threads - {t};
    forall c | c in w.conns ensures Accounted(w.st, threads', c, w.conns[c]) {
      assert Accounted(w.st, w.threads, c, w.conns[c]);
      if Held(w.threads, w.conns[c].ref, c) {
        var u :| Remover(w.threads, u, w.conns[c].ref) && c in w.threads[u].held;
        assert Remover(threads', u, w.conns[c].ref) && c in threads'[u].held;
      }
    }
    forall u | Revoker(threads', u) ensures GoodRevoker(threads', u, w.conns, w.ledger) {
      assert GoodRevoker(w.threads, u, w.conns, w.ledger);
    }
    forall u, v, r | Remover(threads', u, r) && Remover(threads', v, r) ensures u == v {
      assert Remover(w.threads, u, r) && Remover(w.threads, v, r);
    }
  }

  lemma EmptyHandedConns(st: State, threads: map<Thread, Pending>, conns: map<Conn, Tracked>, t: Thread, after: Pending)
    requires AllAccounted(st, threads, conns) && t !in threads
    ensures AllAccounted(st, threads[t := after], conns)
  {
    var threads' := threads[t := after];
    forall c | c in conns ensures Accounted(st, threads', c, conns[c]) {
      assert Accounted(st, threads, c, conns[c]);
      if Held(threads, conns[c].ref, c) {
        var u :| Remover(threads, u, conns[c].ref) && c in threads[u].held;
        assert Remover(threads', u, conns[c].ref) && c in threads'[u].held;
      }
    }
  }

  lemma EmptyHandedRevokers(threads: map<Thread, Pending>, conns: map<Conn, Tracked>, l: Ledger, t: Thread, after: Pending)
    requires RevokersInv(threads, conns, l) && t !in threads && after.Closing? && !after.removed && after.held == {}
    ensures RevokersInv(threads[t := after], conns, l)
  {
    var threads' := threads[t := after];
    forall u | Revoker(threads', u) ensures GoodRevoker(threads', u, conns, l) {
      assert u != t ==> GoodRevoker(threads, u, conns, l);
    }
    forall u, v, r | Remover(threads', u, r) && Remover(threads', v, r) ensures u == v {
      assert Remover(threads, u, r) && Remover(threads, v, r);
    }
  }

  lemma ClosedState(st: State, threads: map<Thread, Pending>, t: Thread)
    requires ClosersInv(st, threads)
    ensures ClosersInv(MarkClosed(st).0, threads[t := Closing(LiveRefs(st), Ref("", 0), false, {})])
  {
    assert LiveRefs(MarkClosed(st).0) == LiveRefs(st);
  }

  lemma BeginCloseKeeps(w: World, t: Thread)
    requires WorldInv(w) && t !in w.threads
    ensures WorldInv(Apply(w, BeginClose(t)))
  {
    hide SafetyInv, SlotsInv, AllAccounted, SetsInv, RevokersInv, ClosersInv;
    ApplyKeeps(w, BeginClose(t));
    var after := Closing(LiveRefs(w.st), Ref("", 0), false, {});
    CountsFrame(w.st, MarkClosed(w.st).0, w.slots, w.ledger);
    AccountedFrame(w.st, MarkClosed(w.st).0, w.threads, w.conns);
    EmptyHandedConns(MarkClosed(w.st).0, w.threads, w.conns, t, after);
    EmptyHandedRevokers(w.threads, w.conns, w.ledger, t, after);
    ClosedState(w.st, w.threads, t);
  }

  // ----- All steps ---------------------------------------------------------------------------

  predicate GrantStep(s: Step) {
    s.BeginExchange? || s.DoConsume? || s.DoInsert? || s.BeginAuthenticate? || s.DoAuthenticate?
  }

  lemma GrantStepThreads(w: World, s: Step)
    requires Enabled(w, s) && GrantStep(s)
    ensures SameRevokers(w.threads, Apply(w, s).threads)
  {
  }

  lemma GrantTables(st: State, e: Exposure, c: Credential, ttl: int, now: Time)
    ensures Consume(st, e, c, now).0.exposures == st.exposures && Consume(st, e, c, now).0.closed == st.closed
    ensures InsertSession(st, e, c, ttl, now).0.exposures == st.exposures && InsertSession(st, e, c, ttl, now).0.closed == st.closed
    ensures CheckSession(st, e, c, now).0.exposures == st.exposures && CheckSession(st, e, c, now).0.closed == st.closed
  {
  }

  lemma GrantStepFrames(w: World, s: Step)
    requires Enabled(w, s) && GrantStep(s)
    ensures var w' := Apply(w, s);
      && w'.slots == w.slots && w'.conns == w.conns
      && w'.st.exposures == w.st.exposures && w'.st.closed == w.st.closed
      && w'.ledger.issued == w.ledger.issued && w'.ledger.revoked == w.ledger.revoked
  {
    hide Consume, InsertSession, CheckSession, LookupHost;
    match s
    case DoConsume(t, now) => GrantTables(w.st, w.threads[t].exposure, w.threads[t].capability, w.sessionTTL, now);
    case DoInsert(t, session, now) => GrantTables(w.st, w.threads[t].exposure, session, w.sessionTTL, now);
    case DoAuthenticate(t, now) => GrantTables(w.st, w.threads[t].exposure, w.threads[t].session, w.sessionTTL, now);
    case _ =>
  }

  lemma GrantStepsKeep(w: World, s: Step)
    requires WorldInv(w) && Enabled(w, s) && GrantStep(s)
    ensures WorldInv(Apply(w, s))
  {
    hide SafetyInv, SlotsInv, ConnsInv, ClosersInv, Apply, SameRevokers;
    ApplyKeeps(w, s);
    GrantStepThreads(w, s);
    GrantStepFrames(w, s);
    GrantStepKeeps(w, Apply(w, s));
  }

  lemma StepKeeps(w: World, s: Step)
    requires WorldInv(w) && Enabled(w, s)
    ensures WorldInv(Apply(w, s))
  {
    hide WorldInv;
    match s
    case DoRegister(reg, capability, before, now) => RegisterStepKeeps(w, reg, capability, before, now);
    case DoAcquire(slot, e, now) => AcquireKeeps(w, slot, e, now);
    case DoRelease(slot) => ReleaseKeeps(w, slot);
    case DoTrack(e, conn, now) => TrackKeeps(w, e, conn, now);
    case DoUntrack(conn) => UntrackKeeps(w, conn);
    case CloseConn(conn) => CloseConnKeeps(w, conn);
    case BeginRevoke(t, ref) => RevokeStepsKeep(w, t, ref, Revoking(ref, Live(w.st, ref), TakeOut(w.st, ref).1));
    case NextClose(t, ref) =>
      RevokeStepsKeep(w, t, ref, Closing(w.threads[t].refs - {ref}, ref, Live(w.st, ref), TakeOut(w.st, ref).1));
    case CloseHeld(t, conn) => CloseHeldKeeps(w, t, conn);
    case EndRevoke(t) => EndKeeps(w, s, t);
    case EndClose(t) => EndKeeps(w, s, t);
    case BeginClose(t) => BeginCloseKeeps(w, t);
    case BeginExchange(_, _, _, _) => GrantStepsKeep(w, s);
    case DoConsume(_, _) => GrantStepsKeep(w, s);
    case DoInsert(_, _, _) => GrantStepsKeep(w, s);
    case BeginAuthenticate(_, _, _, _) => GrantStepsKeep(w, s);
    case DoAuthenticate(_, _) => GrantStepsKeep(w, s);
  }

  lemma EndKeeps(w: World, s: Step, t: Thread)
    requires WorldInv(w) && Enabled(w, s) && (s == EndRevoke(t) || s == EndClose(t))
    ensures WorldInv(Apply(w, s))
  {
    ApplyKeeps(w, s);
    ReturnKeeps(w, t);
  }

  lemma {:induction false} RunsKeep(w: World, steps: seq<Step>)
    requires WorldInv(w) && AllEnabled(w, steps)
    ensures WorldInv(Run(w, steps))
    decreases |steps|
  {
    if steps != [] {
      StepKeeps(w, steps[0]);
      RunsKeep(Apply(w, steps[0]), steps[1..]);
    }
  }
}
