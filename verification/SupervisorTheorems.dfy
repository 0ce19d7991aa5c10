/** What the supervisor promises, over every run. */
module SupervisorTheorems {
  import opened Wrappers
  import opened Bytes
  import opened SpoolCodec
  import opened Spool
  import opened SpoolRecovery
  import opened Supervisor
  import opened SupervisorInvariant
  import opened SupervisorRecovery
  import opened SupervisorRuns

  // ----- Durable visibility ------------------------------------------------------------------

  predicate Visible(w: World, id: Id) {
    id in w.sys.commands && w.sys.commands[id].proc.Some?
  }

  function VisibleRecord(w: World, id: Id): Record
    requires Visible(w, id)
  {
    w.sys.commands[id].proc.value.record
  }

  /**
   Under any failures, crashes and restarts: a record that is visible was reported as written by the
   storage, or read back from it by a restart; everything acknowledged stays so, and what clients see
   of a command later never goes back on what they saw before.
   */
  lemma DurableVisibility(steps: seq<Step>, more: seq<Step>, id: Id)
    requires AllEnabled(INITIAL, steps) && AllEnabled(Run(INITIAL, steps), more)
    ensures var w, w' := Run(INITIAL, steps), Run(Run(INITIAL, steps), more);
            && (Visible(w, id) ==> id in w.hist && VisibleRecord(w, id) in w.hist[id].acked)
            && (Visible(w, id) && Visible(w', id) ==>
                  && Progress(VisibleRecord(w, id), VisibleRecord(w', id))
                  && id in w'.hist && VisibleRecord(w, id) in w'.hist[id].acked)
  {
    InitialWorld();
    RunKeeps(INITIAL, steps);
    RunKeeps(Run(INITIAL, steps), more);
    hide AllEnabled, Run, AllCommandsInv, Progress;
    var w, w' := Run(INITIAL, steps), Run(Run(INITIAL, steps), more);
    if Visible(w, id) {
      VisibleFacts(w, id);
    }
    if Visible(w', id) {
      VisibleFacts(w', id);
    }
  }

  lemma VisibleFacts(w: World, id: Id)
    requires WorldInv(w) && Visible(w, id)
    ensures id in w.hist && w.hist[id].shown == Some(VisibleRecord(w, id))
    ensures VisibleRecord(w, id) in w.hist[id].acked
    ensures w.sys.commands[id].proc.value.spoolFailed ==> w.hist[id].failed
    ensures w.hist[id].failed && Terminal(VisibleRecord(w, id).state) ==> VisibleRecord(w, id).state.Lost?
  {
    assert CommandInv(id, w.sys.commands[id], w.hist[id]);
  }

  /**
   Once the spool of a command has failed, every terminal state that is ever visible of it is `lost`,
   also after deaths and restarts.
   */
  lemma SpoolFailureEndsLost(steps: seq<Step>, more: seq<Step>, id: Id)
    requires AllEnabled(INITIAL, steps) && AllEnabled(Run(INITIAL, steps), more)
    requires Visible(Run(INITIAL, steps), id) && Run(INITIAL, steps).sys.commands[id].proc.value.spoolFailed
    requires Visible(Run(Run(INITIAL, steps), more), id)
    ensures var r := VisibleRecord(Run(Run(INITIAL, steps), more), id);
            Terminal(r.state) ==> r.state.Lost?
  {
    InitialWorld();
    RunKeeps(INITIAL, steps);
    RunKeeps(Run(INITIAL, steps), more);
    hide AllEnabled, Run, AllCommandsInv;
    VisibleFacts(Run(INITIAL, steps), id);
    VisibleFacts(Run(Run(INITIAL, steps), more), id);
  }

  // ----- An unhealthy supervisor -------------------------------------------------------------

  predicate Interruption(s: Step) {
    s.Crash? || s.Restart?
  }

  /** A write to disk in this step was reported as failed. */
  predicate WriteFails(w: World, s: Step)
    requires Enabled(w, s)
  {
    match s
    case Register(thread, _, p) =>
      w.sys.pending[thread].requestId !in w.sys.requests && |KnownCommands(w.sys)| < MAX_COMMANDS && !p.PersistOk?
    case On(id, s') => CommandWriteFails(w.sys.commands[id], s')
    case _ => false
  }

  predicate CommandWriteFails(c: Command, s: CommandStep)
    requires StepEnabled(c, s)
  {
    match s
    case Spawned(p) => !p.PersistOk?
    case SpawnFailed(p) => !p.PersistOk?
    case Chunk(stream, data, fault, p) =>
      && !c.proc.value.spoolFailed
      && (!Append(c.dir.spool, ChunkEvent(c.proc.value.record, stream, data), SPOOL_BUDGET, fault).ok || !p.PersistOk?)
    case Finish(_, p) => !p.PersistOk?
    case ReadSpool => false
  }

  /** A step other than a crash or a restart makes the supervisor unhealthy exactly when a write in it fails. */
  lemma UnhealthyExactly(w: World, s: Step)
    requires Enabled(w, s) && !Interruption(s)
    ensures Apply(w, s).sys.unhealthy <==> w.sys.unhealthy || WriteFails(w, s)
  {
    hide Append, ReadAll, RequestsResolve, IsCommandId;
  }

  lemma {:induction false} StaysUnhealthy(w: World, steps: seq<Step>)
    requires AllEnabled(w, steps) && w.sys.unhealthy
    requires forall s | s in steps :: !Interruption(s)
    ensures Run(w, steps).sys.unhealthy
    decreases |steps|
  {
    hide Apply, Enabled, WriteFails;
    if steps != [] {
      UnhealthyExactly(w, steps[0]);
      StaysUnhealthy(Apply(w, steps[0]), steps[1..]);
    }
  }

  /** After the first failed write every start that begins later is refused, until a crash or a restart. */
  lemma UnhealthyIsSticky(w: World, s: Step, steps: seq<Step>, thread: nat, request: StartRequest)
    requires Enabled(w, s) && WriteFails(w, s) && AllEnabled(Apply(w, s), steps)
    requires forall s' | s' in steps :: !Interruption(s')
    ensures BeginStart(Run(Apply(w, s), steps).sys, thread, request) == (Run(Apply(w, s), steps).sys, Unhealthy)
  {
    UnhealthyExactly(w, s);
    StaysUnhealthy(Apply(w, s), steps);
  }

  // ----- Crash recovery ----------------------------------------------------------------------

  /** What recovery owes one command: every event of its log that was not evicted, and an outcome. */
  ghost predicate RecoveredCommand(c: Command, h: History, after: Command) {
    && c.dir.meta.Some? && |h.log| + 1 < TWO_TO_THE_64
    && after.proc == Some(Proc(RecoveredRecord(c.dir.meta.value, h.log), Finished, false))
    && after.dir.meta == Some(after.proc.value.record)
    && ReadsFrom(after.dir.spool, h.log, h.evicted)
    && ReadAll(after.dir.spool) == ReadAll(c.dir.spool)
    && (h.shown.Some? ==> h.shown.value.nextSeq - 1 <= |h.log| <= h.shown.value.nextSeq)
  }

  lemma LoadedIsRecovered(id: Id, c: Command, h: History)
    requires CommandInv(id, c, h) && LoadReady(c.dir)
    ensures RecoveredCommand(c, h, LoadedCommand(id, c.dir))
  {
    LoadCommandExactly(id, c.dir, h.log, h.evicted);
    ReadRecoverable(c.dir.spool, h.log, h.evicted);
  }

  lemma AllDirsInv(commands: Commands, hist: Histories)
    requires AllCommandsInv(commands, hist)
    ensures DirsInv(commands, hist)
  {
    forall id | id in commands ensures DirInv(id, commands[id].dir, hist[id].log, hist[id].evicted) {
      assert CommandInv(id, commands[id], hist[id]);
    }
  }

  lemma BootableListing(commands: Commands, order: seq<Id>)
    requires Listing(order, commands)
    ensures Bootable(commands) <==> |order| <= MAX_COMMANDS && BootableFrom(commands, map[], order)
  {
    BootableFromMeans(commands, map[], order);
    ListingSize(order, commands.Keys);
  }

  /**
   After any run, a restart with working storage succeeds exactly when the directories are
   bootable.  Every command then shows the recovered record: the sequence goes to the end of
   what reached the disk (at most one event past what was shown), and a command in flight is
   lost.
   */
  lemma RestartExactly(steps: seq<Step>, order: seq<Id>, p: Id -> Persist)
    requires AllEnabled(INITIAL, steps)
    requires var w := Run(INITIAL, steps); !w.sys.up && Listing(order, w.sys.commands)
    requires forall id | id in order :: p(id).PersistOk?
    ensures var w := Run(INITIAL, steps);
            var after := Load(w.sys, order, p);
            && (after.up <==> Bootable(w.sys.commands))
            && (after.up ==>
                  && after.commands.Keys == w.sys.commands.Keys == w.hist.Keys
                  && forall id | id in w.sys.commands :: RecoveredCommand(w.sys.commands[id], w.hist[id], after.commands[id]))
  {
    var w := Run(INITIAL, steps);
    InitialWorld();
    RunKeeps(INITIAL, steps);
    LoadWorld(w, order, p);
  }

  lemma LoadWorld(w: World, order: seq<Id>, p: Id -> Persist)
    requires WorldInv(w) && !w.sys.up && Listing(order, w.sys.commands)
    requires forall id | id in order :: p(id).PersistOk?
    ensures var after := Load(w.sys, order, p);
            && (after.up <==> Bootable(w.sys.commands))
            && (after.up ==>
                  && after.commands.Keys == w.sys.commands.Keys == w.hist.Keys
                  && RequestsMatch(after.commands, after.requests)
                  && after == System(true, after.commands, after.requests, false, map[])
                  && forall id | id in w.sys.commands ::
                       && after.commands[id] == LoadedCommand(id, w.sys.commands[id].dir)
                       && RecoveredCommand(w.sys.commands[id], w.hist[id], after.commands[id]))
  {
    hide CommandInv, LoadEach, RecoveredCommand, LoadReady, RequestsMatch, Reloaded;
    ReloadedFromDown(w, p);
    AllDirsInv(w.sys.commands, w.hist);
    BootableListing(w.sys.commands, order);
    LoadEachExactly(w.sys.commands, map[], order, w.hist, p);
    LoadEachKeeps(w.sys.commands, map[], order, w.sys.commands, w.hist, p);
    NothingMatched(w.sys.commands);
    if Load(w.sys, order, p).up {
      forall id | id in w.sys.commands
        ensures RecoveredCommand(w.sys.commands[id], w.hist[id], LoadedCommand(id, w.sys.commands[id].dir))
      {
        LoadedIsRecovered(id, w.sys.commands[id], w.hist[id]);
      }
    }
  }

  /** Loading directories that need no repair: every command as it was, whatever the storage would answer. */
  lemma {:induction false} LoadEachSettled(commands: Commands, requests: map<RequestId, Id>, order: seq<Id>, p: Id -> Persist, target: Commands)
    requires AllKnown(commands, order) && AllKnown(target, order) && NoRepeats(order)
    requires forall id | id in order ::
               && target[id].proc.Some?
               && target[id] == Command(target[id].dir, Some(Proc(target[id].proc.value.record, Finished, false)))
               && LoadCommand(id, commands[id].dir, p(id)) == Loaded(target[id].proc.value.record, target[id].dir)
               && target[id].proc.value.record.requestId !in requests
    requires forall a, b | a in order && b in order && a != b ::
               target[a].proc.value.record.requestId != target[b].proc.value.record.requestId
    requires forall id | id in order :: target[id].proc.value.record.requestId != ""
    ensures var r := LoadEach(commands, requests, order, p);
            && r.ok && r.commands.Keys == commands.Keys
            && (forall id | id in order :: r.commands[id] == target[id])
            && (forall id | id in commands && id !in order :: r.commands[id] == commands[id])
    decreases |order|
  {
    hide LoadCommand;
    if order != [] {
      var id, rest := order[0], order[1..];
      assert order == [id] + rest && NoRepeats(rest) && id !in rest;
      LoadEachSettled(commands[id := target[id]], requests[target[id].proc.value.record.requestId := id], rest, p, target);
    }
  }

  lemma RequestsMatchUnique(commands: Commands, a: map<RequestId, Id>, b: map<RequestId, Id>)
    requires RequestsMatch(commands, a) && RequestsMatch(commands, b)
    ensures a == b
  {
  }

  lemma SettledCommand(id: Id, c: Command, h: History, p: Persist)
    requires CommandInv(id, c, h) && LoadReady(c.dir)
    ensures var after := LoadedCommand(id, c.dir);
            && after.proc.Some? && after.proc.value.record.requestId != ""
            && after == Command(after.dir, Some(Proc(after.proc.value.record, Finished, false)))
            && LoadCommand(id, after.dir, p) == Loaded(after.proc.value.record, after.dir)
  {
    LoadCommandExactly(id, c.dir, h.log, h.evicted);
  }

  /** Reloading a system in which every directory is settled and every request id bound once. */
  lemma ReloadSettled(after: System, order: seq<Id>, p: Id -> Persist)
    requires after == System(true, after.commands, after.requests, false, map[])
    requires Listing(order, after.commands) && |order| <= MAX_COMMANDS
    requires RequestsMatch(after.commands, after.requests)
    requires forall id | id in after.commands ::
               && after.commands[id].proc.Some? && after.commands[id].proc.value.record.requestId != ""
               && after.commands[id] == Command(after.commands[id].dir, Some(Proc(after.commands[id].proc.value.record, Finished, false)))
               && LoadCommand(id, after.commands[id].dir, p(id)) == Loaded(after.commands[id].proc.value.record, after.commands[id].dir)
    ensures Load(Down(after.commands), order, p) == after
  {
    hide LoadEach, LoadCommand;
    var down := Down(after.commands);
    assert Forget(down.commands) == down.commands;
    LoadEachSettled(down.commands, map[], order, p, after.commands);
    var r := LoadEach(down.commands, map[], order, p);
    assert r.commands == after.commands;
    LoadRequests(down.commands, map[], order, p);
    RequestsMatchUnique(after.commands, r.requests, after.requests);
  }

  /** A second restart changes nothing, in memory or on disk, whatever the storage would answer. */
  lemma SecondRestartChangesNothing(w: World, order: seq<Id>, p: Id -> Persist, order': seq<Id>, p': Id -> Persist)
    requires WorldInv(w) && !w.sys.up && Listing(order, w.sys.commands)
    requires forall id | id in order :: p(id).PersistOk?
    requires Load(w.sys, order, p).up
    requires Listing(order', Load(w.sys, order, p).commands)
    ensures Load(Down(Load(w.sys, order, p).commands), order', p') == Load(w.sys, order, p)
  {
    hide CommandInv, LoadEach, LoadCommand, RecoveredCommand, LoadReady;
    LoadWorld(w, order, p);
    var after := Load(w.sys, order, p);
    ListingSize(order, w.sys.commands.Keys);
    ListingSize(order', w.sys.commands.Keys);
    forall id | id in after.commands
      ensures
        && after.commands[id].proc.Some? && after.commands[id].proc.value.record.requestId != ""
        && after.commands[id] == Command(after.commands[id].dir, Some(Proc(after.commands[id].proc.value.record, Finished, false)))
        && LoadCommand(id, after.commands[id].dir, p'(id)) == Loaded(after.commands[id].proc.value.record, after.commands[id].dir)
    {
      assert LoadReady(w.sys.commands[id].dir);
      SettledCommand(id, w.sys.commands[id], w.hist[id], p'(id));
    }
    ReloadSettled(after, order', p');
  }

  /** The request ids bound by a load that succeeds. */
  lemma {:induction false} LoadRequests(commands: Commands, requests: map<RequestId, Id>, order: seq<Id>, p: Id -> Persist)
    requires AllKnown(commands, order) && NoRepeats(order) && RequestsMatch(commands, requests)
    requires forall id | id in order :: commands[id].proc.None?
    requires forall id | id in order ::
               LoadCommand(id, commands[id].dir, p(id)).Loaded? ==> LoadCommand(id, commands[id].dir, p(id)).record.requestId != ""
    ensures var r := LoadEach(commands, requests, order, p); r.ok ==> RequestsMatch(r.commands, r.requests)
    decreases |order|
  {
    hide LoadCommand;
    if order != [] {
      var id, rest := order[0], order[1..];
      assert order == [id] + rest && NoRepeats(rest) && id !in rest;
      match LoadCommand(id, commands[id].dir, p(id))
      case LoadFailed(_) =>
      case Loaded(record, dir) =>
        if record.requestId !in requests {
          var c := Command(dir, Some(Proc(record, Finished, false)));
          RequestsGrow(commands, requests, id, c);
          LoadRequests(commands[id := c], requests[record.requestId := id], rest, p);
        }
    }
  }
}
