/**
 Crash recovery over whole histories: outside two windows, the first metadata write of a
 command and the version header of a new segment, dying anywhere leaves directories from
 which the next restart succeeds.
 */
module SupervisorRestarts {
  import opened Wrappers
  import opened Bytes
  import opened SpoolCodec
  import opened Spool
  import opened SpoolRecovery
  import opened Supervisor
  import opened SupervisorInvariant
  import opened SupervisorRecovery
  import opened SupervisorRuns
  import opened SupervisorTheorems
  import opened SupervisorStarts

  /** A write that starts a new segment gets at least the segment's version header down. */
  predicate HeaderDown(c: Command, s: CommandStep) {
    match s
    case Chunk(stream, data, fault, _) =>
      c.proc.Some? && fault.FailWrite? && Rotates(c.dir.spool, |EncodeEvent(ChunkEvent(c.proc.value.record, stream, data))|, SPOOL_BUDGET)
      ==> |VERSION_HEADER| <= fault.written
    case _ => true
  }

  /** The step does not stop in one of the two windows. */
  predicate OutsideWindows(w: World, s: Step) {
    match s
    case Register(_, _, p) => !p.FailDirOnly?
    case On(id, s') => id in w.sys.commands ==> HeaderDown(w.sys.commands[id], s')
    case _ => true
  }

  ghost predicate AllOutsideWindows(w: World, steps: seq<CrashStep>)
    requires AllCrashEnabled(w, steps)
    decreases |steps|
  {
    steps != [] ==> OutsideWindows(w, steps[0].s) && AllOutsideWindows(CrashApply(w, steps[0]), steps[1..])
  }

  predicate AllReady(commands: Commands) {
    forall id | id in commands :: LoadReady(commands[id].dir)
  }

  ghost predicate RestartInv(w: World) {
    StartsInv(w) && AllReady(w.sys.commands) && |w.sys.commands| <= MAX_COMMANDS
  }

  // ----- The spool keeps its header ----------------------------------------------------------

  lemma {:induction false} InsertedLast(parts: seq<Segment>, added: Segment)
    ensures var all := InsertSegment(parts, added);
      all != [] && (all[|all| - 1] == added || (parts != [] && all[|all| - 1] == parts[|parts| - 1]))
    decreases |parts|
  {
    if parts != [] && !(added.first < parts[0].first) {
      InsertedLast(parts[1..], added);
    }
  }

  lemma SuffixReadable(parts: seq<Segment>, n: nat)
    requires SpoolReadable(parts) && n <= |parts|
    ensures SpoolReadable(parts[n..])
  {
  }

  lemma AppendReadable(parts: seq<Segment>, e: Event, fault: Fault)
    requires SpoolReadable(parts)
    requires fault.FailWrite? && Rotates(parts, |EncodeEvent(e)|, SPOOL_BUDGET) ==> |VERSION_HEADER| <= fault.written
    ensures SpoolReadable(Append(parts, e, SPOOL_BUDGET, fault).parts)
  {
    hide EncodeEvent, TotalBytes, Evictions;
    if Fits(e, SPOOL_BUDGET) && !fault.FailEarly? && Rotates(parts, |EncodeEvent(e)|, SPOOL_BUDGET) {
      var planned := Evictions(parts, |EncodeEvent(e)| + |VERSION_HEADER|, SPOOL_BUDGET);
      SuffixReadable(parts, planned);
      var payload := Written(VERSION_HEADER + EncodeEvent(e), fault);
      InsertedLast(parts[planned..], Segment(e.seqNo, payload));
      if fault.FailRemove? && fault.removed < planned {
        SuffixReadable(parts, fault.removed);
      }
    }
  }

  /** What a step does to the spool. */
  function SpoolAfter(c: Command, s: CommandStep): seq<Segment>
    requires StepEnabled(c, s)
  {
    match s
    case Chunk(stream, data, fault, _) =>
      if c.proc.value.spoolFailed then c.dir.spool
      else Append(c.dir.spool, ChunkEvent(c.proc.value.record, stream, data), SPOOL_BUDGET, fault).parts
    case ReadSpool => ReadAll(c.dir.spool).parts
    case _ => c.dir.spool
  }

  lemma StepSpool(c: Command, s: CommandStep)
    requires StepEnabled(c, s)
    ensures ApplyStep(c, s).command.dir.spool == SpoolAfter(c, s)
  {
    hide Append, ReadAll;
  }

  lemma SpoolStaysReadable(c: Command, h: History, s: CommandStep)
    requires Recoverable(c.dir.spool, h.log, h.evicted) && StepEnabled(c, s) && HeaderDown(c, s) && SpoolReadable(c.dir.spool)
    ensures SpoolReadable(SpoolAfter(c, s))
  {
    hide Append, ReadAll, Recoverable, SpoolReadable, Rotates;
    match s
    case Chunk(stream, data, fault, _) => AppendReadable(c.dir.spool, ChunkEvent(c.proc.value.record, stream, data), fault);
    case ReadSpool => ReadRecoverable(c.dir.spool, h.log, h.evicted);
    case _ =>
  }

  lemma StepReady(id: Id, c: Command, h: History, s: CommandStep)
    requires CommandInv(id, c, h) && StepEnabled(c, s) && HeaderDown(c, s) && LoadReady(c.dir)
    ensures LoadReady(ApplyStep(c, s).command.dir)
  {
    hide ApplyStep, HeaderDown, SpoolReadable, SpoolAfter, Recoverable, BoundedFrom;
    CommandIdentity(id, c, h, s);
    StepSpool(c, s);
    SpoolStaysReadable(c, h, s);
  }

  // ----- Every step keeps every directory loadable -------------------------------------------

  /** A start adds at most one directory, and a loadable one unless it stops in the first window. */
  lemma RegisterAdds(w: World, thread: nat, id: Id, p: Persist) returns (c: Command)
    requires Enabled(w, Register(thread, id, p)) && !p.FailDirOnly?
    ensures var after := Apply(w, Register(thread, id, p)).sys.commands;
      after == w.sys.commands
      || (|KnownCommands(w.sys)| < MAX_COMMANDS && LoadReady(c.dir) && after == w.sys.commands[id := c])
  {
    hide KnownCommands, IsCommandId;
    var request := w.sys.pending[thread];
    var record := Record(id, request.requestId, request.spec, Starting, 1);
    var dir := PersistTo(CommandDir(None, []), record, p);
    c := Command(dir, if p.PersistOk? then Some(Proc(record, Spawning, false)) else None);
  }

  lemma RegisterReady(w: World, thread: nat, id: Id, p: Persist)
    requires RestartInv(w) && Enabled(w, Register(thread, id, p)) && !p.FailDirOnly?
    ensures AllReady(Apply(w, Register(thread, id, p)).sys.commands)
    ensures |Apply(w, Register(thread, id, p)).sys.commands| <= MAX_COMMANDS
  {
    hide WorldInv, UniqueRequests, Apply, LoadReady, RequestsResolve, IsCommandId;
    var c := RegisterAdds(w, thread, id, p);
    ReadyAreKnown(w);
  }

  lemma ReadyAreKnown(w: World)
    requires RestartInv(w) && w.sys.up
    ensures KnownCommands(w.sys) == w.sys.commands.Keys
  {
    forall id | id in w.sys.commands ensures id in KnownCommands(w.sys) {
      assert LoadReady(w.sys.commands[id].dir);
    }
  }

  lemma OnReady(w: World, id: Id, s: CommandStep)
    requires RestartInv(w) && Enabled(w, On(id, s)) && HeaderDown(w.sys.commands[id], s)
    ensures AllReady(Apply(w, On(id, s)).sys.commands) && |Apply(w, On(id, s)).sys.commands| <= MAX_COMMANDS
  {
    hide UniqueRequests, ApplyStep, CommandInv, HeaderDown, LoadReady;
    StepReady(id, w.sys.commands[id], w.hist[id], s);
    OnCommands(w, id, s);
    assert Apply(w, On(id, s)).sys.commands.Keys == w.sys.commands.Keys;
  }

  lemma {:induction false} LoadEachReady(commands: Commands, requests: map<RequestId, Id>, order: seq<Id>, hist: Histories, p: Id -> Persist)
    requires DirsInv(commands, hist) && AllKnown(commands, order) && AllReady(commands)
    ensures AllReady(LoadEach(commands, requests, order, p).commands)
    ensures LoadEach(commands, requests, order, p).commands.Keys == commands.Keys
    decreases |order|
  {
    hide LoadCommand, DirInv, LoadReady;
    if order != [] {
      var id, rest := order[0], order[1..];
      LoadCommandKeeps(id, commands[id].dir, hist[id].log, hist[id].evicted, p(id));
      match LoadCommand(id, commands[id].dir, p(id))
      case LoadFailed(_) =>
      case Loaded(record, dir) =>
        if record.requestId == "" || record.requestId !in requests {
          var requests' := if record.requestId == "" then requests else requests[record.requestId := id];
          LoadEachReady(commands[id := Command(dir, Some(Proc(record, Finished, false)))], requests', rest, hist, p);
        }
    }
  }

  lemma RestartReady(w: World, order: seq<Id>, p: Id -> Persist)
    requires RestartInv(w) && Enabled(w, Restart(order, p))
    ensures AllReady(Apply(w, Restart(order, p)).sys.commands)
    ensures Apply(w, Restart(order, p)).sys.commands.Keys == w.sys.commands.Keys
  {
    hide LoadEach, CommandInv, LoadReady, UniqueRequests, RequestsMatch, Reloaded;
    ReloadedFromDown(w, p);
    AllDirsInv(w.sys.commands, w.hist);
    LoadEachReady(w.sys.commands, map[], order, w.hist, p);
  }

  lemma ReadyStep(w: World, s: Step)
    requires RestartInv(w) && Enabled(w, s) && OutsideWindows(w, s)
    ensures AllReady(Apply(w, s).sys.commands) && |Apply(w, s).sys.commands| <= MAX_COMMANDS
  {
    match s
    case Begin(_, _) =>
    case Register(thread, id, p) => RegisterReady(w, thread, id, p);
    case On(id, s') => OnReady(w, id, s');
    case Crash =>
      CrashReady(w);
    case Restart(order, p) =>
      RestartReady(w, order, p);
      assert |Apply(w, s).sys.commands.Keys| == |w.sys.commands.Keys|;
  }

  lemma CrashReady(w: World)
    requires AllReady(w.sys.commands)
    ensures AllReady(Apply(w, Crash).sys.commands) && Apply(w, Crash).sys.commands.Keys == w.sys.commands.Keys
    ensures |Apply(w, Crash).sys.commands| == |w.sys.commands|
  {
    var commands' := Apply(w, Crash).sys.commands;
    assert commands'.Keys == w.sys.commands.Keys;
    assert |commands'.Keys| == |w.sys.commands.Keys|;
  }

  lemma CrashStepReady(w: World, c: CrashStep)
    requires RestartInv(w) && CrashEnabled(w, c) && OutsideWindows(w, c.s)
    ensures RestartInv(CrashApply(w, c))
  {
    hide Apply, Enabled, Evolves, StartsInv, AllReady;
    CrashStepKeeps(w, c);
    ReadyStep(w, c.s);
    if c.DiesIn? {
      CrashReady(Apply(w, c.s));
    }
  }

  lemma {:induction false} CrashRunReady(w: World, steps: seq<CrashStep>)
    requires RestartInv(w) && AllCrashEnabled(w, steps) && AllOutsideWindows(w, steps)
    ensures RestartInv(CrashRun(w, steps))
    decreases |steps|
  {
    hide CrashApply, CrashEnabled, RestartInv;
    if steps != [] {
      CrashStepReady(w, steps[0]);
      CrashRunReady(CrashApply(w, steps[0]), steps[1..]);
    }
  }

  /**
   Crash recovery.  After any history of starts, output, deaths and restarts, dying anywhere but in
   the two windows, a restart with working storage succeeds and every command is recovered: its log
   complete up to the end of what reached the disk, at most one event past what was shown, and lost if
   it was in flight.
   */
  lemma EveryRestartSucceeds(steps: seq<CrashStep>, order: seq<Id>, p: Id -> Persist)
    requires AllCrashEnabled(INITIAL, steps) && AllOutsideWindows(INITIAL, steps)
    requires var w := CrashRun(INITIAL, steps); !w.sys.up && Listing(order, w.sys.commands)
    requires forall id | id in order :: p(id).PersistOk?
    ensures var w := CrashRun(INITIAL, steps);
            var after := Load(w.sys, order, p);
            && after.up && after.commands.Keys == w.sys.commands.Keys == w.hist.Keys
            && forall id | id in w.sys.commands :: RecoveredCommand(w.sys.commands[id], w.hist[id], after.commands[id])
  {
    InitialWorld();
    assert RestartInv(INITIAL);
    CrashRunReady(INITIAL, steps);
    var w := CrashRun(INITIAL, steps);
    ReadyIsBootable(w);
    hide RestartInv, WorldInv, RecoveredCommand, LoadEach;
    LoadWorld(w, order, p);
  }

  lemma ReadyIsBootable(w: World)
    requires RestartInv(w)
    ensures Bootable(w.sys.commands) && WorldInv(w)
  {
  }
}
