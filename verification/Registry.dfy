/**
 The capability registry of the workload router: exposures, one-time bootstrap capabilities,
 sessions, connection slots and tracked connections.

 Every region the registry runs under its mutex is a function on its state; the class below
 does the same in place.  Credentials stand for their digests, which are taken to be injective;
 times are plain instants.
 */
module Registry {
  import opened Wrappers

  type ExposureId = string
  type Host = string
  type Credential = nat
  type Conn = nat
  type Time = int

  const MAX_EXPOSURE_ID := 128

  datatype Registration = Registration(id: ExposureId, host: Option<Host>, expiresAt: Time, maxConnections: int)

  /** The generation tells apart successive registrations of the same id and host. */
  datatype Ref = Ref(id: ExposureId, generation: nat)

  datatype Exposure = Exposure(id: ExposureId, host: Host, expiresAt: Time, maxConnections: int, generation: nat)

  function RefFor(e: Exposure): Ref {
    Ref(e.id, e.generation)
  }

  datatype ExposureState = ExposureState(exposure: Exposure, active: int, conns: set<Conn>)

  /** A stored capability or session. */
  datatype Grant = Grant(exposure: Ref, expiresAt: Time)

  datatype State = State(
    closed: bool,
    nextGen: nat,
    exposures: map<ExposureId, ExposureState>,
    hosts: map<Host, Ref>,
    capabilities: map<Credential, Grant>,
    sessions: map<Credential, Grant>)

  /** The exposure registered under exactly this reference is still there. */
  predicate Live(st: State, ref: Ref) {
    ref.id in st.exposures && RefFor(st.exposures[ref.id].exposure) == ref
  }

  function Earlier(a: Time, b: Time): Time {
    if a < b then a else b
  }

  // ----- Register ----------------------------------------------------------------------------

  datatype RegisterError = InvalidHost | InvalidId | AlreadyExpired | InvalidLimit | RegistryClosed | ExposureExists | HostExists

  datatype RegisterResult = Registered(exposure: Exposure, capabilityExpiry: Time) | Refused(error: RegisterError)

  /** The checks made before the mutex is taken. */
  function CheckRegistration(reg: Registration, now: Time): Option<RegisterError> {
    if reg.host.None? then Some(InvalidHost)
    else if reg.id == "" || |reg.id| > MAX_EXPOSURE_ID then Some(InvalidId)
    else if reg.expiresAt <= now then Some(AlreadyExpired)
    else if reg.maxConnections <= 0 then Some(InvalidLimit)
    else None
  }

  function Register(st: State, reg: Registration, capability: Credential, bootstrapTTL: int, now: Time): (State, RegisterResult)
    requires reg.host.Some?
  {
    var host := reg.host.value;
    if st.closed then (st, Refused(RegistryClosed))
    else if reg.id in st.exposures then (st, Refused(ExposureExists))
    else if host in st.hosts then (st, Refused(HostExists))
    else if reg.expiresAt <= now then (st, Refused(AlreadyExpired))
    else
      var e := Exposure(reg.id, host, reg.expiresAt, reg.maxConnections, st.nextGen + 1);
      var expiry := Earlier(reg.expiresAt, now + bootstrapTTL);
      (st.(nextGen := st.nextGen + 1,
           exposures := st.exposures[reg.id := ExposureState(e, 0, {})],
           hosts := st.hosts[host := RefFor(e)],
           capabilities := st.capabilities[capability := Grant(RefFor(e), expiry)]),
       Registered(e, expiry))
  }

  // ----- Lookup, exchange, authenticate ------------------------------------------------------

  datatype LookupResult = Found(exposure: Exposure) | Expired(ref: Ref) | Unknown

  /** An expired exposure that is still registered is revoked by the caller afterwards. */
  function LookupHost(st: State, host: Host, now: Time): LookupResult {
    if host !in st.hosts || !Live(st, st.hosts[host]) then Unknown
    else
      var e := st.exposures[st.hosts[host].id].exposure;
      if now < e.expiresAt then Found(e) else Expired(st.hosts[host])
  }

  predicate Usable(st: State, grants: map<Credential, Grant>, e: Exposure, credential: Credential, now: Time) {
    && credential in grants && grants[credential].exposure == RefFor(e)
    && Live(st, RefFor(e)) && now < grants[credential].expiresAt
  }

  predicate Stale(grants: map<Credential, Grant>, credential: Credential, now: Time) {
    credential in grants && grants[credential].expiresAt <= now
  }

  /** First region of an exchange: take the capability out, or drop it when it has expired. */
  function Consume(st: State, e: Exposure, capability: Credential, now: Time): (State, bool) {
    if Usable(st, st.capabilities, e, capability, now) then
      (st.(capabilities := st.capabilities - {capability}), true)
    else if Stale(st.capabilities, capability, now) then
      (st.(capabilities := st.capabilities - {capability}), false)
    else (st, false)
  }

  /** Second region: store the session, unless the exposure has gone or expired in between. */
  function InsertSession(st: State, e: Exposure, session: Credential, sessionTTL: int, now: Time): (State, Option<Time>) {
    if !Live(st, RefFor(e)) || st.exposures[e.id].exposure.expiresAt <= now then (st, None)
    else
      var expiry := Earlier(e.expiresAt, now + sessionTTL);
      (st.(sessions := st.sessions[session := Grant(RefFor(e), expiry)]), Some(expiry))
  }

  function CheckSession(st: State, e: Exposure, session: Credential, now: Time): (State, bool) {
    if Usable(st, st.sessions, e, session, now) then (st, true)
    else if Stale(st.sessions, session, now) then (st.(sessions := st.sessions - {session}), false)
    else (st, false)
  }

  // ----- Slots and connections ---------------------------------------------------------------

  datatype SlotResult = Granted | Unauthorized | LimitReached

  function WithActive(st: State, id: ExposureId, active: int): State
    requires id in st.exposures
  {
    st.(exposures := st.exposures[id := st.exposures[id].(active := active)])
  }

  function AcquireSlot(st: State, e: Exposure, now: Time): (State, SlotResult) {
    if !Live(st, RefFor(e)) || st.exposures[e.id].exposure.expiresAt <= now then (st, Unauthorized)
    else if st.exposures[e.id].active >= st.exposures[e.id].exposure.maxConnections then (st, LimitReached)
    else (WithActive(st, e.id, st.exposures[e.id].active + 1), Granted)
  }

  /** What a release closure does the first time it runs. */
  function ReleaseSlot(st: State, ref: Ref): State {
    if Live(st, ref) && st.exposures[ref.id].active > 0
    then WithActive(st, ref.id, st.exposures[ref.id].active - 1)
    else st
  }

  function WithConns(st: State, id: ExposureId, conns: set<Conn>): State
    requires id in st.exposures
  {
    st.(exposures := st.exposures[id := st.exposures[id].(conns := conns)])
  }

  function Track(st: State, e: Exposure, conn: Conn, now: Time): (State, bool) {
    if !Live(st, RefFor(e)) || st.exposures[e.id].exposure.expiresAt <= now then (st, false)
    else (WithConns(st, e.id, st.exposures[e.id].conns + {conn}), true)
  }

  /** What closing a tracked connection does after the connection itself is closed. */
  function Untrack(st: State, ref: Ref, conn: Conn): State {
    if Live(st, ref) then WithConns(st, ref.id, st.exposures[ref.id].conns - {conn}) else st
  }

  // ----- Revocation --------------------------------------------------------------------------

  function Without(grants: map<Credential, Grant>, ref: Ref): map<Credential, Grant> {
    map c | c in grants && grants[c].exposure != ref :: grants[c]
  }

  /** Remove everything of one registration; the caller closes the returned connections. */
  function TakeOut(st: State, ref: Ref): (State, set<Conn>) {
    if !Live(st, ref) then (st, {})
    else
      var host := st.exposures[ref.id].exposure.host;
      (st.(exposures := st.exposures - {ref.id},
           hosts := if host in st.hosts && st.hosts[host] == ref then st.hosts - {host} else st.hosts,
           capabilities := Without(st.capabilities, ref),
           sessions := Without(st.sessions, ref)),
       st.exposures[ref.id].conns)
  }

  function LiveRefs(st: State): set<Ref> {
    set id | id in st.exposures :: RefFor(st.exposures[id].exposure)
  }

  function MarkClosed(st: State): (State, set<Ref>) {
    (st.(closed := true), LiveRefs(st))
  }

  // ----- The registry object -----------------------------------------------------------------

  class RegistryTable {
    const sessionTTL: int
    const bootstrapTTL: int
    var closed: bool
    var nextGen: nat
    var exposures: map<ExposureId, ExposureState>
    var hosts: map<Host, Ref>
    var capabilities: map<Credential, Grant>
    var sessions: map<Credential, Grant>

    function Model(): State
      reads this
    {
      State(closed, nextGen, exposures, hosts, capabilities, sessions)
    }

    constructor (sessionTTL: int, bootstrapTTL: int)
      ensures Model() == State(false, 0, map[], map[], map[], map[])
      ensures this.sessionTTL == (if sessionTTL <= 0 then 15 * 60 else sessionTTL)
      ensures this.bootstrapTTL == (if bootstrapTTL <= 0 then 60 else bootstrapTTL)
    {
      this.sessionTTL := if sessionTTL <= 0 then 15 * 60 else sessionTTL;
      this.bootstrapTTL := if bootstrapTTL <= 0 then 60 else bootstrapTTL;
      closed, nextGen := false, 0;
      exposures, hosts, capabilities, sessions := map[], map[], map[], map[];
    }

    method RegisterExposure(reg: Registration, capability: Credential, before: Time, now: Time) returns (result: RegisterResult)
      modifies this
      ensures if CheckRegistration(reg, before).Some?
              then result == Refused(CheckRegistration(reg, before).value) && Model() == old(Model())
              else (Model(), result) == Register(old(Model()), reg, capability, bootstrapTTL, now)
    {
      var error := CheckRegistration(reg, before);
      if error.Some? {
        return Refused(error.value);
      }
      var host := reg.host.value;
      if closed {
        return Refused(RegistryClosed);
      }
      if reg.id in exposures {
        return Refused(ExposureExists);
      }
      if host in hosts {
        return Refused(HostExists);
      }
      if reg.expiresAt <= now {
        return Refused(AlreadyExpired);
      }
      nextGen := nextGen + 1;
      var ref := Ref(reg.id, nextGen);
      var exposure := Exposure(reg.id, host, reg.expiresAt, reg.maxConnections, nextGen);
      var expiry := now + bootstrapTTL;
      if reg.expiresAt < expiry {
        expiry := reg.expiresAt;
      }
      exposures := exposures[reg.id := ExposureState(exposure, 0, {})];
      hosts := hosts[host := ref];
      capabilities := capabilities[capability := Grant(ref, expiry)];
      return Registered(exposure, expiry);
    }

    method ConsumeCapability(e: Exposure, capability: Credential, now: Time) returns (ok: bool)
      modifies this
      ensures (Model(), ok) == Consume(old(Model()), e, capability, now)
    {
      var ref := RefFor(e);
      if capability !in capabilities || capabilities[capability].exposure != ref
         || !Live(Model(), ref) || capabilities[capability].expiresAt <= now {
        if capability in capabilities && capabilities[capability].expiresAt <= now {
          capabilities := capabilities - {capability};
        }
        return false;
      }
      capabilities := capabilities - {capability};
      return true;
    }

    method StoreSession(e: Exposure, session: Credential, now: Time) returns (expiry: Option<Time>)
      modifies this
      ensures (Model(), expiry) == InsertSession(old(Model()), e, session, sessionTTL, now)
    {
      var expiresAt := now + sessionTTL;
      if e.expiresAt < expiresAt {
        expiresAt := e.expiresAt;
      }
      if !Live(Model(), RefFor(e)) || exposures[e.id].exposure.expiresAt <= now {
        return None;
      }
      sessions := sessions[session := Grant(RefFor(e), expiresAt)];
      return Some(expiresAt);
    }

    method ValidateSession(e: Exposure, session: Credential, now: Time) returns (ok: bool)
      modifies this
      ensures (Model(), ok) == CheckSession(old(Model()), e, session, now)
    {
      var ref := RefFor(e);
      if session !in sessions || sessions[session].exposure != ref
         || !Live(Model(), ref) || sessions[session].expiresAt <= now {
        if session in sessions && sessions[session].expiresAt <= now {
          sessions := sessions - {session};
        }
        return false;
      }
      return true;
    }

    method Acquire(e: Exposure, now: Time) returns (result: SlotResult, release: SlotClosure?)
      modifies this
      ensures (Model(), result) == AcquireSlot(old(Model()), e, now)
      ensures result.Granted? <==> release != null
      ensures release != null ==> fresh(release) && release.ref == RefFor(e) && !release.released
    {
      if !Live(Model(), RefFor(e)) || exposures[e.id].exposure.expiresAt <= now {
        return Unauthorized, null;
      }
      var state := exposures[e.id];
      if state.active >= state.exposure.maxConnections {
        return LimitReached, null;
      }
      exposures := exposures[e.id := state.(active := state.active + 1)];
      release := new SlotClosure(RefFor(e));
      return Granted, release;
    }

    method TrackConnection(e: Exposure, conn: Conn, now: Time) returns (ok: bool)
      modifies this
      ensures (Model(), ok) == Track(old(Model()), e, conn, now)
    {
      if !Live(Model(), RefFor(e)) || exposures[e.id].exposure.expiresAt <= now {
        return false;
      }
      exposures := exposures[e.id := exposures[e.id].(conns := exposures[e.id].conns + {conn})];
      return true;
    }

    method UntrackConnection(ref: Ref, conn: Conn)
      modifies this
      ensures Model() == Untrack(old(Model()), ref, conn)
    {
      if Live(Model(), ref) {
        exposures := exposures[ref.id := exposures[ref.id].(conns := exposures[ref.id].conns - {conn})];
      }
    }

    /** Remove a registration, walking the credential tables. */
    method RevokeRef(ref: Ref) returns (conns: set<Conn>)
      modifies this
      ensures (Model(), conns) == TakeOut(old(Model()), ref)
    {
      if !Live(Model(), ref) {
        return {};
      }
      var state := exposures[ref.id];
      exposures := exposures - {ref.id};
      if state.exposure.host in hosts && hosts[state.exposure.host] == ref {
        hosts := hosts - {state.exposure.host};
      }
      capabilities := DropGrants(capabilities, ref);
      sessions := DropGrants(sessions, ref);
      return state.conns;
    }

    static method DropGrants(grants: map<Credential, Grant>, ref: Ref) returns (kept: map<Credential, Grant>)
      ensures kept == Without(grants, ref)
    {
      kept := grants;
      var unseen := grants.Keys;
      while unseen != {}
        invariant unseen <= grants.Keys
        invariant forall c | c in kept :: c in grants && kept[c] == grants[c]
        invariant forall c | c in grants :: c in kept <==> c in unseen || grants[c].exposure != ref
        decreases unseen
      {
        var c :| c in unseen;
        if grants[c].exposure == ref {
          kept := kept - {c};
        }
        unseen := unseen - {c};
      }
    }

    /** First region of closing: no registration succeeds from here on. */
    method BeginClose() returns (refs: set<Ref>)
      modifies this
      ensures (Model(), refs) == MarkClosed(old(Model()))
    {
      closed := true;
      refs := LiveRefs(Model());
    }
  }

  /** The closure that gives a slot back, with the flag it captures. */
  class SlotClosure {
    const ref: Ref
    var released: bool

    constructor (ref: Ref)
      ensures this.ref == ref && !released
    {
      this.ref, released := ref, false;
    }

    /** Only the first run touches the registry, and only while the registration stands. */
    method Run(table: RegistryTable)
      modifies this, table
      ensures released
      ensures table.Model() == if old(released) then old(table.Model()) else ReleaseSlot(old(table.Model()), ref)
    {
      if !released {
        released := true;
        if Live(table.Model(), ref) && table.exposures[ref.id].active > 0 {
          var state := table.exposures[ref.id];
          table.exposures := table.exposures[ref.id := state.(active := state.active - 1)];
        }
      }
    }
  }
}
