/**
 Idempotent starts, over runs in which the process may die in any step and any write may fail, except
 that a first metadata write which reports an error without dying has not renamed its file.
 */
module SupervisorStarts {
  import opened Wrappers
  import opened Bytes
  import opened SpoolCodec
  import opened Spool
  import opened SpoolRecovery
  import opened Supervisor
  import opened SupervisorInvariant
  import opened SupervisorRecovery
  import opened SupervisorRuns
  import opened SupervisorTheorems

  /** A start that goes on after a failed write has left no metadata behind. */
  predicate ReportsTruly(s: Step) {
    s.Register? ==> !s.p.FailRenamed?
  }

  /** A step completes, whatever the storage answers, or the process dies somewhere inside it. */
  datatype CrashStep = Completes(s: Step) | DiesIn(s: Step)

  ghost predicate CrashEnabled(w: World, c: CrashStep) {
    Enabled(w, c.s) && (c.Completes? ==> ReportsTruly(c.s))
  }

  function CrashApply(w: World, c: CrashStep): World
    requires CrashEnabled(w, c)
  {
    if c.Completes? then Apply(w, c.s) else Apply(Apply(w, c.s), Crash)
  }

  ghost predicate AllCrashEnabled(w: World, steps: seq<CrashStep>)
    decreases |steps|
  {
    steps != [] ==> CrashEnabled(w, steps[0]) && AllCrashEnabled(CrashApply(w, steps[0]), steps[1..])
  }

  function CrashRun(w: World, steps: seq<CrashStep>): World
    requires AllCrashEnabled(w, steps)
    decreases |steps|
  {
    if steps == [] then w else CrashRun(CrashApply(w, steps[0]), steps[1..])
  }

  predicate UniqueRequests(commands: Commands) {
    forall a, b | a in commands && b in commands && SharesRequest(commands, a, b) :: a == b
  }

  predicate MetadataKnown(commands: Commands) {
    forall id | id in commands && commands[id].dir.meta.Some? :: commands[id].proc.Some?
  }

  /** No request id was ever given to two commands, and a running supervisor knows every command with metadata. */
  ghost predicate StartsInv(w: World) {
    && WorldInv(w)
    && UniqueRequests(w.sys.commands)
    && (w.sys.up ==> MetadataKnown(w.sys.commands))
  }

  predicate SameMetadataIdentity(before: Commands, after: Commands) {
    && before.Keys <= after.Keys
    && (forall id | id in before ::
          && before[id].dir.meta.Some? == after[id].dir.meta.Some?
          && SameIdentity(before[id].dir, after[id].dir))
  }

  lemma UniqueFrame(before: Commands, after: Commands)
    requires UniqueRequests(before) && SameMetadataIdentity(before, after) && after.Keys == before.Keys
    ensures UniqueRequests(after)
  {
    forall a, b | a in after && b in after && SharesRequest(after, a, b) ensures a == b {
      assert SharesRequest(before, a, b);
    }
  }

  lemma CommandIdentity(id: Id, c: Command, h: History, s: CommandStep)
    requires CommandInv(id, c, h) && StepEnabled(c, s)
    ensures var after := ApplyStep(c, s).command;
            && SameIdentity(c.dir, after.dir) && c.dir.meta.Some? && after.dir.meta.Some? && after.proc.Some?
  {
  }

  lemma {:induction false} LoadKeepsMetadata(commands: Commands, requests: map<RequestId, Id>, order: seq<Id>, hist: Histories, p: Id -> Persist)
    requires DirsInv(commands, hist) && AllKnown(commands, order) && NoRepeats(order)
    ensures var r := LoadEach(commands, requests, order, p);
            r.commands.Keys == commands.Keys && SameMetadataIdentity(commands, r.commands)
    decreases |order|
  {
    hide LoadCommand, DirInv;
    if order != [] {
      var id, rest := order[0], order[1..];
      assert NoRepeats(rest);
      LoadMetadata(id, commands[id].dir, hist[id].log, hist[id].evicted, p(id));
      match LoadCommand(id, commands[id].dir, p(id))
      case LoadFailed(_) =>
      case Loaded(record, dir) =>
        if record.requestId == "" || record.requestId !in requests {
          var requests' := if record.requestId == "" then requests else requests[record.requestId := id];
          LoadKeepsMetadata(commands[id := Command(dir, Some(Proc(record, Finished, false)))], requests', rest, hist, p);
        }
    }
  }

  lemma LoadMetadata(id: Id, dir: CommandDir, log: seq<Event>, k: nat, p: Persist)
    requires DirInv(id, dir, log, k)
    ensures var after := LoadCommand(id, dir, p).dir;
            DirInv(id, after, log, k) && SameIdentity(dir, after) && dir.meta.Some? == after.meta.Some?
  {
    LoadCommandKeeps(id, dir, log, k, p);
  }

  lemma RestartIdentity(w: World, order: seq<Id>, p: Id -> Persist)
    requires StartsInv(w) && Enabled(w, Restart(order, p))
    ensures UniqueRequests(Apply(w, Restart(order, p)).sys.commands)
    ensures var sys := Apply(w, Restart(order, p)).sys; sys.up ==> MetadataKnown(sys.commands)
  {
    hide LoadEach, CommandInv, Reloaded, RequestsMatch;
    ReloadedFromDown(w, p);
    AllDirsInv(w.sys.commands, w.hist);
    var sys := Load(w.sys, order, p);
    NothingMatched(w.sys.commands);
    LoadEachKeeps(w.sys.commands, map[], order, w.sys.commands, w.hist, p);
    LoadKeepsMetadata(w.sys.commands, map[], order, w.hist, p);
    assert SameMetadataIdentity(w.sys.commands, sys.commands);
    UniqueFrame(w.sys.commands, sys.commands);
  }

  /** A request id that is not bound in a running supervisor is on no disk. */
  lemma UnboundIsUnused(w: World, requestId: RequestId, id: Id)
    requires StartsInv(w) && w.sys.up && requestId !in w.sys.requests && id in w.sys.commands
    ensures w.sys.commands[id].dir.meta.Some? ==> w.sys.commands[id].dir.meta.value.requestId != requestId
  {
    assert CommandInv(id, w.sys.commands[id], w.hist[id]);
  }

  lemma RegisterUnique(w: World, thread: nat, id: Id, p: Persist)
    requires StartsInv(w) && Enabled(w, Register(thread, id, p))
    ensures UniqueRequests(Apply(w, Register(thread, id, p)).sys.commands)
    ensures !p.FailRenamed? ==> MetadataKnown(Apply(w, Register(thread, id, p)).sys.commands)
  {
    hide WorldInv;
    var commands, commands' := w.sys.commands, Apply(w, Register(thread, id, p)).sys.commands;
    var request := w.sys.pending[thread];
    if commands' != commands {
      forall a, b | a in commands' && b in commands' && SharesRequest(commands', a, b) ensures a == b {
        if a != id && b != id {
          assert SharesRequest(commands, a, b);
        } else if a != id {
          UnboundIsUnused(w, request.requestId, a);
        } else if b != id {
          UnboundIsUnused(w, request.requestId, b);
        }
      }
    }
  }

  lemma OnUnique(w: World, id: Id, s: CommandStep)
    requires StartsInv(w) && Enabled(w, On(id, s))
    ensures UniqueRequests(Apply(w, On(id, s)).sys.commands) && MetadataKnown(Apply(w, On(id, s)).sys.commands)
  {
    hide ApplyStep, CommandInv, StepEnabled, Enabled, Apply, WorldInv, UniqueRequests, SameIdentity;
    OnCommands(w, id, s);
    var after := ApplyStep(w.sys.commands[id], s).command;
    var commands' := Apply(w, On(id, s)).sys.commands;
    assert commands' == w.sys.commands[id := after];
    forall other | other in w.sys.commands && other != id
      ensures SameIdentity(w.sys.commands[other].dir, commands'[other].dir)
    {
      GrowsReflexive(w.sys.commands[other].dir, w.hist[other]);
    }
    UniqueFrame(w.sys.commands, commands');
  }

  lemma OnCommands(w: World, id: Id, s: CommandStep)
    requires WorldInv(w) && Enabled(w, On(id, s))
    ensures id in w.sys.commands
    ensures var c := w.sys.commands[id];
            && StepEnabled(c, s) && w.sys.up && w.sys.commands.Keys == w.hist.Keys
            && Apply(w, On(id, s)).sys.commands == w.sys.commands[id := ApplyStep(c, s).command]
            && SameIdentity(c.dir, ApplyStep(c, s).command.dir)
            && c.dir.meta.Some? && ApplyStep(c, s).command.dir.meta.Some? && ApplyStep(c, s).command.proc.Some?
  {
    CommandIdentity(id, w.sys.commands[id], w.hist[id], s);
  }

  /** One step from a good state: request ids stay unique whatever the storage answers. */
  lemma StepUnique(w: World, s: Step)
    requires StartsInv(w) && Enabled(w, s)
    ensures UniqueRequests(Apply(w, s).sys.commands)
    ensures ReportsTruly(s) && Apply(w, s).sys.up ==> MetadataKnown(Apply(w, s).sys.commands)
  {
    hide WorldInv, UniqueRequests, Apply, Enabled;
    match s
    case Begin(thread, request) => BeginChangesNothing(w, thread, request);
    case Register(thread, id, p) => RegisterUnique(w, thread, id, p);
    case On(id, s') => OnUnique(w, id, s');
    case Crash => CrashUnique(w);
    case Restart(order, p) => RestartIdentity(w, order, p);
  }

  lemma BeginChangesNothing(w: World, thread: nat, request: StartRequest)
    requires Enabled(w, Begin(thread, request))
    ensures w.sys.up && Apply(w, Begin(thread, request)).sys.commands == w.sys.commands
  {
  }

  lemma CrashStepKeeps(w: World, c: CrashStep)
    requires StartsInv(w) && CrashEnabled(w, c)
    ensures StartsInv(CrashApply(w, c)) && Evolves(w, CrashApply(w, c))
  {
    hide Apply, Enabled, Evolves, AllCommandsInv;
    ApplyKeeps(w, c.s);
    StepUnique(w, c.s);
    if c.DiesIn? {
      var mid := Apply(w, c.s);
      CrashUnique(mid);
      ApplyKeeps(mid, Crash);
      EvolvesTransitive(w, mid, Apply(mid, Crash));
    }
  }

  lemma CrashUnique(w: World)
    requires UniqueRequests(w.sys.commands)
    ensures Enabled(w, Crash) && !Apply(w, Crash).sys.up && UniqueRequests(Apply(w, Crash).sys.commands)
  {
    assert SameMetadataIdentity(w.sys.commands, Apply(w, Crash).sys.commands);
    UniqueFrame(w.sys.commands, Apply(w, Crash).sys.commands);
  }

  lemma {:induction false} CrashRunKeeps(w: World, steps: seq<CrashStep>)
    requires StartsInv(w) && AllCrashEnabled(w, steps)
    ensures StartsInv(CrashRun(w, steps)) && Evolves(w, CrashRun(w, steps))
    decreases |steps|
  {
    hide CrashApply, CrashEnabled, StartsInv, Evolves;
    if steps == [] {
      EvolvesReflexive(w);
    } else {
      CrashStepKeeps(w, steps[0]);
      CrashRunKeeps(CrashApply(w, steps[0]), steps[1..]);
      EvolvesTransitive(w, CrashApply(w, steps[0]), CrashRun(w, steps));
    }
  }

  lemma EvolvesReflexive(w: World)
    requires StartsInv(w)
    ensures Evolves(w, w)
  {
    UnchangedCommands(w, w);
  }

  /** The command directory a request id is bound to, and the specification it was bound with. */
  predicate Bound(w: World, requestId: RequestId, id: Id, spec: Spec) {
    && id in w.sys.commands && w.sys.commands[id].dir.meta.Some?
    && w.sys.commands[id].dir.meta.value.requestId == requestId
    && w.sys.commands[id].dir.meta.value.spec == spec
  }

  /**
   Idempotent start.  Once a request id is bound to a command, then at any later point of the
   run at which the supervisor is up, a start with that id creates nothing: it returns the
   same command when the specification is the same, and a conflict when it is not.
   */
  lemma IdempotentStart(past: seq<CrashStep>, future: seq<CrashStep>, requestId: RequestId, id: Id, spec: Spec,
                        thread: nat, newId: Id, p: Persist)
    requires AllCrashEnabled(INITIAL, past) && AllCrashEnabled(CrashRun(INITIAL, past), future)
    requires Bound(CrashRun(INITIAL, past), requestId, id, spec)
    requires var w := CrashRun(CrashRun(INITIAL, past), future);
             w.sys.up && thread in w.sys.pending && w.sys.pending[thread].requestId == requestId
    ensures var w := CrashRun(CrashRun(INITIAL, past), future);
            && RequestsResolve(w.sys) && Visible(w, id) && VisibleRecord(w, id).id == id
            && var (sys, response) := RegisterStart(w.sys, thread, newId, p);
               && sys.commands == w.sys.commands && sys.requests == w.sys.requests
               && response == if w.sys.pending[thread].spec == spec then Existing(VisibleRecord(w, id)) else Conflict
  {
    var before := CrashRun(INITIAL, past);
    var w := CrashRun(before, future);
    InitialWorld();
    assert StartsInv(INITIAL);
    CrashRunKeeps(INITIAL, past);
    CrashRunKeeps(before, future);
    BoundIsRegistered(before, w, requestId, id, spec);
  }

  lemma BoundIsRegistered(before: World, w: World, requestId: RequestId, id: Id, spec: Spec)
    requires StartsInv(w) && Evolves(before, w) && Bound(before, requestId, id, spec) && w.sys.up
    ensures Visible(w, id) && VisibleRecord(w, id).id == id && VisibleRecord(w, id).spec == spec
    ensures requestId in w.sys.requests && w.sys.requests[requestId] == id && RequestsResolve(w.sys)
  {
    assert CommandInv(id, w.sys.commands[id], w.hist[id]);
  }

  /** Over such runs the request table stays a bijection onto at most 256 commands, and no request id is on disk twice. */
  lemma RequestsStayBijective(steps: seq<CrashStep>)
    requires AllCrashEnabled(INITIAL, steps)
    ensures var sys := CrashRun(INITIAL, steps).sys;
            && RequestsMatch(sys.commands, sys.requests)
            && |KnownCommands(sys)| <= MAX_COMMANDS
            && UniqueRequests(sys.commands)
  {
    InitialWorld();
    assert StartsInv(INITIAL);
    CrashRunKeeps(INITIAL, steps);
  }

  // ----- Where the promise ends --------------------------------------------------------------

  /** The region of this start writes metadata, whatever it reports. */
  predicate WritesMetadata(w: World, thread: nat, p: Persist)
    requires thread in w.sys.pending
  {
    w.sys.pending[thread].requestId !in w.sys.requests && |KnownCommands(w.sys)| < MAX_COMMANDS && (p.PersistOk? || p.FailRenamed?)
  }

  predicate Carries(w: World, other: Id, requestId: RequestId) {
    other in w.sys.commands && w.sys.commands[other].dir.meta.Some? && w.sys.commands[other].dir.meta.value.requestId == requestId
  }

  /** A start gives a request id to a second command exactly when it writes metadata for an unbound id that a directory already carries. */
  lemma StartDuplicatesExactly(w: World, thread: nat, id: Id, p: Persist)
    requires Enabled(w, Register(thread, id, p)) && UniqueRequests(w.sys.commands)
    ensures !UniqueRequests(Apply(w, Register(thread, id, p)).sys.commands)
       <==> WritesMetadata(w, thread, p) && exists other :: Carries(w, other, w.sys.pending[thread].requestId)
  {
    hide IsCommandId, RequestsResolve;
    var commands, commands' := w.sys.commands, Apply(w, Register(thread, id, p)).sys.commands;
    if WritesMetadata(w, thread, p) {
      var requestId := w.sys.pending[thread].requestId;
      assert commands'[id].dir.meta.Some? && commands'[id].dir.meta.value.requestId == requestId;
      DuplicatesExactly(commands, commands', id, requestId);
      forall other ensures Carries(w, other, requestId) <==> CarriesIn(commands, other, requestId) {
      }
    } else if commands' != commands {
      assert commands' == commands[id := commands'[id]] && commands'[id].dir.meta.None?;
      forall a, b | a in commands' && b in commands' && SharesRequest(commands', a, b) ensures a == b {
        assert SharesRequest(commands, a, b);
      }
    }
  }

  predicate CarriesIn(commands: Commands, other: Id, requestId: RequestId) {
    other in commands && commands[other].dir.meta.Some? && commands[other].dir.meta.value.requestId == requestId
  }

  lemma DuplicatesExactly(commands: Commands, commands': Commands, id: Id, requestId: RequestId)
    requires id !in commands && id in commands' && commands' == commands[id := commands'[id]] && UniqueRequests(commands)
    requires commands'[id].dir.meta.Some? && commands'[id].dir.meta.value.requestId == requestId
    ensures !UniqueRequests(commands') <==> exists other :: CarriesIn(commands, other, requestId)
  {
    if other :| CarriesIn(commands, other, requestId) {
      assert SharesRequest(commands', id, other);
    } else {
      forall a, b | a in commands' && b in commands' && SharesRequest(commands', a, b) ensures a == b {
        assert a != id && b != id ==> SharesRequest(commands, a, b);
        assert a != id && b == id ==> CarriesIn(commands, a, requestId);
        assert a == id && b != id ==> CarriesIn(commands, b, requestId);
      }
    }
  }

  /**
   A metadata write that reports an error after its rename, in a process that lives on: a
   start that was already past the health check then creates a second command for the same
   request id, and the supervisor cannot be restarted.
   */
  lemma LateStartDuplicates(a: Id, b: Id, request: StartRequest)
    requires IsCommandId(a) && IsCommandId(b) && a != b && request.requestId != ""
    ensures var steps := [Begin(0, request)] + ([Begin(1, request)] + ([Register(0, a, FailRenamed)] + ([Register(1, b, PersistOk)] + [])));
            && AllEnabled(INITIAL, steps)
            && !Bootable(Run(INITIAL, steps).sys.commands)
  {
    var w1 := Apply(INITIAL, Begin(0, request));
    var w2 := Apply(w1, Begin(1, request));
    var w3 := Apply(w2, Register(0, a, FailRenamed));
    assert KnownCommands(w3.sys) == {};
    var w4 := Apply(w3, Register(1, b, PersistOk));
    assert w4.sys.commands[a].dir.meta == Some(Record(a, request.requestId, request.spec, Starting, 1));
    assert w4.sys.commands[b].dir.meta == Some(Record(b, request.requestId, request.spec, Starting, 1));
    assert SharesRequest(w4.sys.commands, a, b);
    RunFrom(w3, Register(1, b, PersistOk), []);
    RunFrom(w2, Register(0, a, FailRenamed), [Register(1, b, PersistOk)] + []);
    RunFrom(w1, Begin(1, request), [Register(0, a, FailRenamed)] + ([Register(1, b, PersistOk)] + []));
    RunFrom(INITIAL, Begin(0, request), [Begin(1, request)] + ([Register(0, a, FailRenamed)] + ([Register(1, b, PersistOk)] + [])));
  }

  /** Dying inside the first metadata write, after the directory was made, leaves a directory that blocks every restart. */
  lemma MissingMetadataBlocksRestart(a: Id, request: StartRequest)
    requires IsCommandId(a) && request.requestId != ""
    ensures var steps := [Begin(0, request)] + ([Register(0, a, FailDirOnly)] + []);
            AllEnabled(INITIAL, steps) && !Bootable(Run(INITIAL, steps).sys.commands)
  {
    var w1 := Apply(INITIAL, Begin(0, request));
    assert KnownCommands(w1.sys) == {};
    var w2 := Apply(w1, Register(0, a, FailDirOnly));
    assert w2.sys.commands[a].dir == CommandDir(None, []);
    RunFrom(w1, Register(0, a, FailDirOnly), []);
    RunFrom(INITIAL, Begin(0, request), [Register(0, a, FailDirOnly)] + []);
  }

  /** So does dying inside the version header of a new segment. */
  lemma TornHeaderBlocksRestart(a: Id, request: StartRequest)
    requires IsCommandId(a) && request.requestId != ""
    ensures var torn := On(a, Chunk(Stdout, [0], FailWrite(3), PersistOk));
            var steps := [Begin(0, request)] + ([Register(0, a, PersistOk)] + ([On(a, Spawned(PersistOk))] + ([torn] + [])));
            AllEnabled(INITIAL, steps) && !Bootable(Run(INITIAL, steps).sys.commands)
  {
    var chunk := Chunk(Stdout, [0], FailWrite(3), PersistOk);
    var torn := On(a, chunk);
    var w1 := Apply(INITIAL, Begin(0, request));
    assert KnownCommands(w1.sys) == {};
    var w2 := Apply(w1, Register(0, a, PersistOk));
    var w3 := Apply(w2, On(a, Spawned(PersistOk)));
    var c := w3.sys.commands[a];
    assert c.dir.spool == [] && c.proc.value.phase == Collecting;
    var e := ChunkEvent(c.proc.value.record, Stdout, [0]);
    var out := Append([], e, SPOOL_BUDGET, FailWrite(3));
    TornFirstSegment(e);
    var w4 := Apply(w3, torn);
    assert w4.sys.commands[a].dir.spool == out.parts;
    assert !LoadReady(w4.sys.commands[a].dir);
    RunFrom(w3, torn, []);
    RunFrom(w2, On(a, Spawned(PersistOk)), [torn] + []);
    RunFrom(w1, Register(0, a, PersistOk), [On(a, Spawned(PersistOk))] + ([torn] + []));
    RunFrom(INITIAL, Begin(0, request), [Register(0, a, PersistOk)] + ([On(a, Spawned(PersistOk))] + ([torn] + [])));
  }

  lemma TornFirstSegment(e: Event)
    requires |e.data| == 1
    ensures var out := Append([], e, SPOOL_BUDGET, FailWrite(3));
            !out.ok && |out.parts| == 1 && |out.parts[0].data| == 3
  {
    assert Evictions([], |EncodeEvent(e)| + |VERSION_HEADER|, SPOOL_BUDGET) == 0;
  }
}
