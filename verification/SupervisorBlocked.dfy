/**
 Where recovery ends: a disk that cannot be booted stays so, whatever comes later, and exactly three
 kinds of steps bring one about.
 */
module SupervisorBlocked {
  import opened Wrappers
  import opened Bytes
  import opened SpoolCodec
  import opened Spool
  import opened SpoolRecovery
  import opened Supervisor
  import opened SupervisorInvariant
  import opened SupervisorRecovery
  import opened SupervisorRuns
  import opened SupervisorTheorems
  import opened SupervisorStarts
  import opened SupervisorRestarts

  // ----- Nothing repairs a directory ---------------------------------------------------------

  /** No step of a command gives its directory what a load needs: a spool without its newest header has failed. */
  lemma StepStaysUnready(id: Id, c: Command, h: History, s: CommandStep)
    requires CommandInv(id, c, h) && StepEnabled(c, s) && !LoadReady(c.dir)
    ensures !LoadReady(ApplyStep(c, s).command.dir)
  {
    hide ApplyStep, SpoolReadable, SpoolAfter, Recoverable, BoundedFrom, CommandInv;
    CommandIdentity(id, c, h, s);
    StepSpool(c, s);
    SpoolStaysUnreadable(id, c, h, s);
  }

  lemma SpoolStaysUnreadable(id: Id, c: Command, h: History, s: CommandStep)
    requires CommandInv(id, c, h) && StepEnabled(c, s) && !SpoolReadable(c.dir.spool)
    ensures !SpoolReadable(SpoolAfter(c, s))
  {
    hide SpoolReadable, Recoverable, BoundedFrom, Append, ReadAll;
    ReadRecoverable(c.dir.spool, h.log, h.evicted);
    if s.Chunk? && !c.proc.value.spoolFailed {
      BoundedIsReadable(c.dir.spool, h.log, h.evicted);
    }
  }

  lemma BoundedIsReadable(parts: seq<Segment>, log: seq<Event>, k: nat)
    requires BoundedFrom(parts, log, k, SPOOL_BUDGET)
    ensures SpoolReadable(parts)
  {
    hide ReadAll, SpoolReadable, BoundedFrom, Recoverable, ReadsFrom;
    BoundedIsRecoverable(parts, log, k, SPOOL_BUDGET);
    ReadRecoverable(parts, log, k);
  }

  lemma {:induction false} LoadEachUnready(commands: Commands, requests: map<RequestId, Id>, order: seq<Id>, hist: Histories, p: Id -> Persist, id: Id)
    requires DirsInv(commands, hist) && AllKnown(commands, order) && id in commands && !LoadReady(commands[id].dir)
    ensures var r := LoadEach(commands, requests, order, p); id in r.commands && !LoadReady(r.commands[id].dir)
    decreases |order|
  {
    hide LoadCommand, DirInv, LoadReady;
    if order != [] {
      var next, rest := order[0], order[1..];
      LoadCommandKeeps(next, commands[next].dir, hist[next].log, hist[next].evicted, p(next));
      match LoadCommand(next, commands[next].dir, p(next))
      case LoadFailed(_) =>
      case Loaded(record, dir) =>
        if record.requestId == "" || record.requestId !in requests {
          var requests' := if record.requestId == "" then requests else requests[record.requestId := next];
          LoadEachUnready(commands[next := Command(dir, Some(Proc(record, Finished, false)))], requests', rest, hist, p, id);
        }
    }
  }

  lemma RestartUnready(w: World, order: seq<Id>, p: Id -> Persist, id: Id)
    requires WorldInv(w) && Enabled(w, Restart(order, p)) && id in w.sys.commands && !LoadReady(w.sys.commands[id].dir)
    ensures var commands' := Apply(w, Restart(order, p)).sys.commands; id in commands' && !LoadReady(commands'[id].dir)
  {
    hide LoadEach, CommandInv, LoadReady, RequestsMatch, Reloaded;
    ReloadedFromDown(w, p);
    AllDirsInv(w.sys.commands, w.hist);
    LoadEachUnready(w.sys.commands, map[], order, w.hist, p, id);
  }

  lemma OnUnready(w: World, on: Id, s: CommandStep, id: Id)
    requires WorldInv(w) && Enabled(w, On(on, s)) && id in w.sys.commands && !LoadReady(w.sys.commands[id].dir)
    ensures var commands' := Apply(w, On(on, s)).sys.commands; id in commands' && !LoadReady(commands'[id].dir)
  {
    hide ApplyStep, CommandInv, LoadReady, SameIdentity, StepEnabled;
    OnCommands(w, on, s);
    if on == id {
      StepStaysUnready(id, w.sys.commands[id], w.hist[id], s);
    }
  }

  lemma RegisterLeavesOthers(w: World, thread: nat, added: Id, p: Persist, id: Id)
    requires Enabled(w, Register(thread, added, p)) && id in w.sys.commands
    ensures var commands' := Apply(w, Register(thread, added, p)).sys.commands; id in commands' && commands'[id] == w.sys.commands[id]
  {
    hide IsCommandId, RequestsResolve, KnownCommands;
  }

  lemma CrashLeavesDirectories(w: World, id: Id)
    requires id in w.sys.commands
    ensures var commands' := Apply(w, Crash).sys.commands; id in commands' && commands'[id].dir == w.sys.commands[id].dir
  {
  }

  /** A directory that cannot be loaded cannot be after any step. */
  lemma UnreadyStays(w: World, s: Step, id: Id)
    requires WorldInv(w) && Enabled(w, s) && id in w.sys.commands && !LoadReady(w.sys.commands[id].dir)
    ensures id in Apply(w, s).sys.commands && !LoadReady(Apply(w, s).sys.commands[id].dir)
  {
    hide WorldInv, LoadReady, Apply, Enabled;
    match s
    case Begin(thread, request) => BeginChangesNothing(w, thread, request);
    case Register(thread, added, p) => RegisterLeavesOthers(w, thread, added, p, id);
    case On(on, s') => OnUnready(w, on, s', id);
    case Crash => CrashLeavesDirectories(w, id);
    case Restart(order, p) => RestartUnready(w, order, p, id);
  }

  // ----- What cannot be booted never can be --------------------------------------------------

  lemma NoFewerCommands(before: Commands, after: Commands)
    requires before.Keys <= after.Keys
    ensures |before| <= |after|
  {
    assert after.Keys == before.Keys + (after.Keys - before.Keys);
    assert |before| == |before.Keys| && |after| == |after.Keys|;
  }

  /** A request id that two directories carry stays with both. */
  lemma DuplicatesStay(w: World, w': World)
    requires Evolves(w, w') && !UniqueRequests(w.sys.commands)
    ensures !UniqueRequests(w'.sys.commands)
  {
    var a, b :| a in w.sys.commands && b in w.sys.commands && SharesRequest(w.sys.commands, a, b) && a != b;
    assert SharesRequest(w'.sys.commands, a, b);
  }

  lemma UnbootableStep(w: World, s: Step)
    requires WorldInv(w) && Enabled(w, s) && !Bootable(w.sys.commands)
    ensures !Bootable(Apply(w, s).sys.commands)
  {
    hide WorldInv, LoadReady, Apply, Enabled, SharesRequest, SameIdentity, HistoryGrows;
    ApplyKeeps(w, s);
    NoFewerCommands(w.sys.commands, Apply(w, s).sys.commands);
    if id :| id in w.sys.commands && !LoadReady(w.sys.commands[id].dir) {
      UnreadyStays(w, s, id);
    } else if !UniqueRequests(w.sys.commands) {
      DuplicatesStay(w, Apply(w, s));
    }
  }

  /** A restart succeeds only from bootable directories, whatever the storage answers. */
  lemma {:induction false} LoadEachNeedsBootable(commands: Commands, requests: map<RequestId, Id>, order: seq<Id>, hist: Histories, p: Id -> Persist)
    requires DirsInv(commands, hist) && AllKnown(commands, order) && NoRepeats(order)
    requires LoadEach(commands, requests, order, p).ok
    ensures BootableFrom(commands, requests, order)
    decreases |order|
  {
    hide LoadCommand, DirInv, LoadReady;
    if order != [] {
      var id, rest := order[0], order[1..];
      assert NoRepeats(rest) && id !in rest;
      LoadNeedsReady(id, commands[id].dir, hist[id].log, hist[id].evicted, p(id));
      var r := LoadCommand(id, commands[id].dir, p(id));
      var commands' := commands[id := Command(r.dir, Some(Proc(r.record, Finished, false)))];
      LoadEachNeedsBootable(commands', requests[r.record.requestId := id], rest, hist, p);
      BootableFromFrame(commands, commands', requests[r.record.requestId := id], rest);
    }
  }

  lemma LoadNeedsReady(id: Id, dir: CommandDir, log: seq<Event>, k: nat, p: Persist)
    requires DirInv(id, dir, log, k)
    ensures var r := LoadCommand(id, dir, p);
            && DirInv(id, r.dir, log, k)
            && (r.Loaded? ==> LoadReady(dir) && r.record.requestId == dir.meta.value.requestId != "")
  {
    hide LoadCommand, ReadAll, Recoverable, SpoolReadable;
    LoadCommandKeeps(id, dir, log, k, p);
    LoadCommandCases(id, dir, log, k, p);
  }

  lemma RestartNeedsBootable(w: World, order: seq<Id>, p: Id -> Persist)
    requires WorldInv(w) && Enabled(w, Restart(order, p)) && Apply(w, Restart(order, p)).sys.up
    ensures Bootable(w.sys.commands)
  {
    hide LoadEach, CommandInv, Bootable, BootableFrom, Reloaded, RequestsMatch;
    ReloadedFromDown(w, p);
    AllDirsInv(w.sys.commands, w.hist);
    LoadEachNeedsBootable(w.sys.commands, map[], order, w.hist, p);
    BootableListing(w.sys.commands, order);
  }

  lemma StaysDown(w: World, s: Step)
    requires WorldInv(w) && Enabled(w, s) && !Bootable(w.sys.commands) && !w.sys.up
    ensures !Apply(w, s).sys.up
  {
    hide WorldInv, Bootable, LoadEach, Listing;
    if s.Restart? && Apply(w, s).sys.up {
      RestartNeedsBootable(w, s.order, s.verdicts);
    }
  }

  lemma {:induction false} UnbootableRun(w: World, steps: seq<Step>)
    requires WorldInv(w) && AllEnabled(w, steps) && !Bootable(w.sys.commands)
    ensures !Bootable(Run(w, steps).sys.commands) && (!w.sys.up ==> !Run(w, steps).sys.up)
    decreases |steps|
  {
    hide Apply, Enabled, WorldInv, Bootable, Evolves;
    if steps != [] {
      ApplyKeeps(w, steps[0]);
      UnbootableStep(w, steps[0]);
      if !w.sys.up {
        StaysDown(w, steps[0]);
      }
      UnbootableRun(Apply(w, steps[0]), steps[1..]);
    }
  }

  /**
   A disk that cannot be booted cannot be at any later point, whatever is started, written or restarted
   and whatever the storage answers; and a supervisor that is down then never comes up again.
   */
  lemma BlockedForever(steps: seq<Step>, more: seq<Step>)
    requires AllEnabled(INITIAL, steps) && AllEnabled(Run(INITIAL, steps), more)
    requires !Bootable(Run(INITIAL, steps).sys.commands)
    ensures !Bootable(Run(Run(INITIAL, steps), more).sys.commands)
    ensures !Run(INITIAL, steps).sys.up ==> !Run(Run(INITIAL, steps), more).sys.up
  {
    InitialWorld();
    RunKeeps(INITIAL, steps);
    UnbootableRun(Run(INITIAL, steps), more);
  }

  // ----- Exactly the steps that block --------------------------------------------------------

  /** The start gets to the first write of a new command. */
  predicate Enters(w: World, thread: nat)
    requires thread in w.sys.pending
  {
    w.sys.pending[thread].requestId !in w.sys.requests && |KnownCommands(w.sys)| < MAX_COMMANDS
  }

  /** A new segment is left with less than its version header. */
  predicate LosesHeader(c: Command, s: CommandStep) {
    && s.Chunk? && c.proc.Some? && !c.proc.value.spoolFailed
    && s.fault.FailWrite? && s.fault.written < |VERSION_HEADER|
    && Rotates(c.dir.spool, |EncodeEvent(ChunkEvent(c.proc.value.record, s.stream, s.data))|, SPOOL_BUDGET)
  }

  /** The step ends in one of the two windows: a directory without metadata, or a segment without its header. */
  predicate EndsInWindow(w: World, s: Step) {
    match s
    case Register(thread, _, p) => thread in w.sys.pending && Enters(w, thread) && p.FailDirOnly?
    case On(id, s') => id in w.sys.commands && LosesHeader(w.sys.commands[id], s')
    case _ => false
  }

  /** A start writes metadata for a request id that a directory carries already. */
  ghost predicate Duplicates(w: World, s: Step) {
    s.Register? && s.thread in w.sys.pending && WritesMetadata(w, s.thread, s.p)
    && exists other :: Carries(w, other, w.sys.pending[s.thread].requestId)
  }

  /** A start makes one directory more than a restart accepts; the limit it checks counts the commands it knows. */
  predicate Overfills(w: World, s: Step) {
    s.Register? && s.thread in w.sys.pending && WritesMetadata(w, s.thread, s.p) && |w.sys.commands| == MAX_COMMANDS
  }

  lemma TornHeader(parts: seq<Segment>, log: seq<Event>, k: nat, e: Event, fault: Fault)
    requires BoundedFrom(parts, log, k, SPOOL_BUDGET) && Contiguous(log) && e.seqNo == |log| + 1 && WellSized(e)
    requires fault.FailWrite? && fault.written < |VERSION_HEADER| && Rotates(parts, |EncodeEvent(e)|, SPOOL_BUDGET)
    ensures !SpoolReadable(Append(parts, e, SPOOL_BUDGET, fault).parts)
  {
    hide EncodeEvent, TotalBytes, Evictions, Ascending, Flatten, Rendered, Recoverable;
    BoundedIsRecoverable(parts, log, k, SPOOL_BUDGET);
    NextIsAscending(log, e);
    var groups :| BoundedLog(parts, groups, log, SPOOL_BUDGET) && k + |Flatten(groups)| == |log|;
    var n := Evictions(parts, |EncodeEvent(e)| + |VERSION_HEADER|, SPOOL_BUDGET);
    NoCollision(parts, groups, log, n, e);
    var torn := Segment(e.seqNo, Written(VERSION_HEADER + EncodeEvent(e), fault));
    assert Append(parts, e, SPOOL_BUDGET, fault).parts == parts[n..] + [torn];
  }

  lemma StepLosesHeader(id: Id, c: Command, h: History, s: CommandStep)
    requires CommandInv(id, c, h) && StepEnabled(c, s) && LosesHeader(c, s)
    ensures !LoadReady(ApplyStep(c, s).command.dir)
  {
    hide ApplyStep, SpoolReadable, Recoverable, BoundedFrom, Append, Rotates, EncodeEvent;
    StepSpool(c, s);
    TornHeader(c.dir.spool, h.log, h.evicted, ChunkEvent(c.proc.value.record, s.stream, s.data), s.fault);
  }

  lemma StepReadyExactly(id: Id, c: Command, h: History, s: CommandStep)
    requires CommandInv(id, c, h) && StepEnabled(c, s) && LoadReady(c.dir)
    ensures LoadReady(ApplyStep(c, s).command.dir) <==> !LosesHeader(c, s)
  {
    hide ApplyStep, SpoolReadable, Recoverable, BoundedFrom, Append, Rotates, EncodeEvent, CommandInv;
    if LosesHeader(c, s) {
      StepLosesHeader(id, c, h, s);
    } else if HeaderDown(c, s) {
      StepReady(id, c, h, s);
    } else {
      assert c.proc.value.spoolFailed;
      StepSpool(c, s);
      CommandIdentity(id, c, h, s);
    }
  }

  lemma OnBlocksExactly(w: World, id: Id, s: CommandStep)
    requires WorldInv(w) && Enabled(w, On(id, s)) && Bootable(w.sys.commands)
    ensures Bootable(Apply(w, On(id, s)).sys.commands) <==> !EndsInWindow(w, On(id, s))
  {
    hide CommandInv, StepEnabled, ApplyStep, LoadReady, LosesHeader, SequenceRoom, RequestsMatch;
    OnCommands(w, id, s);
    StepReadyExactly(id, w.sys.commands[id], w.hist[id], s);
    var commands' := Apply(w, On(id, s)).sys.commands;
    assert SameMetadataIdentity(w.sys.commands, commands');
    UniqueFrame(w.sys.commands, commands');
    assert |commands'.Keys| == |w.sys.commands.Keys|;
  }

  /** What a start does to the directories. */
  lemma RegisteredDirectories(w: World, thread: nat, id: Id, p: Persist)
    requires Enabled(w, Register(thread, id, p))
    ensures var commands' := Apply(w, Register(thread, id, p)).sys.commands;
      if !Enters(w, thread) || p.FailNoDir? then commands' == w.sys.commands
      else && id !in w.sys.commands && id in commands' && commands' == w.sys.commands[id := commands'[id]]
           && (LoadReady(commands'[id].dir) <==> !p.FailDirOnly?)
  {
    hide IsCommandId, RequestsResolve, KnownCommands;
  }

  lemma AddedIsReady(commands: Commands, commands': Commands, id: Id)
    requires id !in commands && id in commands' && commands' == commands[id := commands'[id]] && AllReady(commands)
    ensures AllReady(commands') <==> LoadReady(commands'[id].dir)
    ensures |commands'| == |commands| + 1
  {
    assert commands'.Keys == commands.Keys + {id};
    assert |commands'| == |commands'.Keys| && |commands| == |commands.Keys|;
  }

  lemma RegisterBlocksExactly(w: World, thread: nat, id: Id, p: Persist)
    requires WorldInv(w) && Enabled(w, Register(thread, id, p)) && Bootable(w.sys.commands)
    ensures var s := Register(thread, id, p);
      Bootable(Apply(w, s).sys.commands) <==> !EndsInWindow(w, s) && !Duplicates(w, s) && !Overfills(w, s)
  {
    hide WorldInv, Apply, LoadReady, KnownCommands, Carries, SharesRequest;
    StartDuplicatesExactly(w, thread, id, p);
    RegisteredDirectories(w, thread, id, p);
    var commands' := Apply(w, Register(thread, id, p)).sys.commands;
    if Enters(w, thread) && !p.FailNoDir? {
      AddedIsReady(w.sys.commands, commands', id);
    }
    PendingStart(w, thread, id, p);
    BootableParts(w.sys.commands);
    BootableParts(commands');
  }

  lemma PendingStart(w: World, thread: nat, id: Id, p: Persist)
    requires Enabled(w, Register(thread, id, p))
    ensures thread in w.sys.pending
  {
  }

  lemma BootableParts(commands: Commands)
    ensures Bootable(commands) <==> |commands| <= MAX_COMMANDS && AllReady(commands) && UniqueRequests(commands)
  {
  }

  lemma RestartKeepsBootable(w: World, order: seq<Id>, p: Id -> Persist)
    requires WorldInv(w) && Enabled(w, Restart(order, p)) && Bootable(w.sys.commands)
    ensures Bootable(Apply(w, Restart(order, p)).sys.commands)
  {
    hide Apply, LoadReady, SharesRequest, AllCommandsInv, RequestsMatch;
    RestartReady(w, order, p);
    RestartIdentity(w, order, p);
    assert |Apply(w, Restart(order, p)).sys.commands.Keys| == |w.sys.commands.Keys|;
  }

  lemma CrashKeepsBootable(w: World)
    requires Bootable(w.sys.commands)
    ensures Bootable(Apply(w, Crash).sys.commands)
  {
    CrashUnique(w);
    CrashReady(w);
  }

  /**
   A step makes a bootable disk unbootable exactly when it ends in one of the two windows, duplicates a
   request id, or makes a directory too many.
   */
  lemma BlocksExactly(w: World, s: Step)
    requires WorldInv(w) && Enabled(w, s) && Bootable(w.sys.commands)
    ensures !Bootable(Apply(w, s).sys.commands) <==> EndsInWindow(w, s) || Duplicates(w, s) || Overfills(w, s)
  {
    hide WorldInv, Bootable, Apply, Enabled, LosesHeader, Carries, WritesMetadata;
    match s
    case Begin(thread, request) => BeginChangesNothing(w, thread, request);
    case Register(thread, id, p) => RegisterBlocksExactly(w, thread, id, p);
    case On(id, s') => OnBlocksExactly(w, id, s');
    case Crash => CrashKeepsBootable(w);
    case Restart(order, p) => RestartKeepsBootable(w, order, p);
  }
}
