/**
 Runs of the supervisor: client starts, child output, failures of storage, process death and
 restarts in any order, and what holds over all of them.
 */
module SupervisorRuns {
  import opened Wrappers
  import opened Bytes
  import opened SpoolCodec
  import opened Spool
  import opened SpoolRecovery
  import opened Supervisor
  import opened SupervisorInvariant
  import opened SupervisorRecovery

  datatype World = World(sys: System, hist: Histories)

  const INITIAL := World(System(true, map[], map[], false, map[]), map[])

  datatype Step =
    | Begin(thread: nat, request: StartRequest)
    | Register(thread: nat, id: Id, p: Persist)
    | On(id: Id, s: CommandStep)
    | Crash
    | Restart(order: seq<Id>, verdicts: Id -> Persist)

  /** Which steps can happen: new command ids are random and therefore new, and no command has used up its sequence. */
  ghost predicate Enabled(w: World, s: Step) {
    match s
    case Begin(thread, request) => w.sys.up && request.requestId != "" && thread !in w.sys.pending
    case Register(thread, id, _) =>
      && w.sys.up && thread in w.sys.pending && RequestsResolve(w.sys)
      && IsCommandId(id) && id !in w.sys.commands && id !in w.hist
    case On(id, s) =>
      && w.sys.up && id in w.sys.commands && id in w.hist
      && StepEnabled(w.sys.commands[id], s) && SequenceRoom(w.hist[id].log)
    case Crash => true
    case Restart(order, _) => !w.sys.up && Listing(order, w.sys.commands)
  }

  function NewRecord(w: World, thread: nat, id: Id): Record
    requires thread in w.sys.pending
  {
    Record(id, w.sys.pending[thread].requestId, w.sys.pending[thread].spec, Starting, 1)
  }

  /** A command that a start has entered was acknowledged exactly when its first write was reported successful. */
  function RegisteredHistory(sys: System, id: Id, record: Record, p: Persist, hist: Histories): Histories {
    if id in sys.commands then
      hist[id := History([], 0, if p.PersistOk? then {record} else {}, ShownOf(sys.commands[id]), false, false)]
    else hist
  }

  function ShownOf(c: Command): Option<Record> {
    if c.proc.Some? then Some(c.proc.value.record) else None
  }

  function ReloadedHistories(before: System, sys: System, hist: Histories, p: Id -> Persist): Histories {
    map id | id in hist ::
      if id in before.commands && id in sys.commands && sys.commands[id].proc.Some?
      then LoadedHistory(hist[id], before.commands[id].dir, sys.commands[id].dir, p(id), sys.commands[id].proc.value.record)
      else hist[id]
  }

  function Apply(w: World, s: Step): World
    requires Enabled(w, s)
  {
    match s
    case Begin(thread, request) => w.(sys := BeginStart(w.sys, thread, request).0)
    case Register(thread, id, p) =>
      var sys := RegisterStart(w.sys, thread, id, p).0;
      World(sys, RegisteredHistory(sys, id, NewRecord(w, thread, id), p, w.hist))
    case On(id, s) =>
      assert ApplyStep(w.sys.commands[id], s).command.proc.Some?;
      World(StepOf(w.sys, id, s), w.hist[id := HistoryAfter(w.sys.commands[id], w.hist[id], s)])
    case Crash => w.(sys := Down(w.sys.commands))
    case Restart(order, verdicts) =>
      var sys := Load(w.sys, order, verdicts);
      World(sys, ReloadedHistories(w.sys, sys, w.hist, verdicts))
  }

  ghost predicate AllEnabled(w: World, steps: seq<Step>)
    decreases |steps|
  {
    steps != [] ==> Enabled(w, steps[0]) && AllEnabled(Apply(w, steps[0]), steps[1..])
  }

  function Run(w: World, steps: seq<Step>): World
    requires AllEnabled(w, steps)
    decreases |steps|
  {
    if steps == [] then w else Run(Apply(w, steps[0]), steps[1..])
  }

  lemma RunFrom(w: World, s: Step, rest: seq<Step>)
    requires Enabled(w, s) && AllEnabled(Apply(w, s), rest)
    ensures AllEnabled(w, [s] + rest) && Run(w, [s] + rest) == Run(Apply(w, s), rest)
  {
    assert ([s] + rest)[1..] == rest;
  }

  ghost predicate AllCommandsInv(commands: Commands, hist: Histories) {
    && commands.Keys == hist.Keys
    && (forall id | id in commands :: CommandInv(id, commands[id], hist[id]))
  }

  ghost predicate WorldInv(w: World) {
    && AllCommandsInv(w.sys.commands, w.hist)
    && RequestsMatch(w.sys.commands, w.sys.requests)
    && |KnownCommands(w.sys)| <= MAX_COMMANDS
    && (!w.sys.up ==> KnownCommands(w.sys) == {} && w.sys.requests == map[] && w.sys.pending == map[])
    && (forall t | t in w.sys.pending :: w.sys.pending[t].requestId != "")
  }

  /** Nothing that was stored or shown is ever taken back. */
  predicate HistoryGrows(before: History, after: History) {
    && before.log <= after.log && before.evicted <= after.evicted
    && (before.failed ==> after.failed)
    && before.acked <= after.acked
    && (before.shown.Some? ==> after.shown.Some? && Progress(before.shown.value, after.shown.value))
  }

  predicate SameIdentity(before: CommandDir, after: CommandDir) {
    before.meta.Some? ==>
      && after.meta.Some?
      && after.meta.value.requestId == before.meta.value.requestId
      && after.meta.value.spec == before.meta.value.spec
  }

  predicate Evolves(w: World, w': World) {
    && w.sys.commands.Keys <= w'.sys.commands.Keys
    && w.hist.Keys <= w'.hist.Keys
    && (forall id | id in w.sys.commands :: SameIdentity(w.sys.commands[id].dir, w'.sys.commands[id].dir))
    && (forall id | id in w.hist :: HistoryGrows(w.hist[id], w'.hist[id]))
  }

  /** One command changes, or is added; all others stay as they are. */
  lemma ChangeOne(w: World, w': World, id: Id, c: Command, h: History)
    requires AllCommandsInv(w.sys.commands, w.hist) && CommandInv(id, c, h)
    requires w'.sys.commands == w.sys.commands[id := c] && w'.hist == w.hist[id := h]
    requires id in w.sys.commands ==> SameIdentity(w.sys.commands[id].dir, c.dir) && HistoryGrows(w.hist[id], h)
    ensures AllCommandsInv(w'.sys.commands, w'.hist) && Evolves(w, w')
  {
    hide CommandInv, SameIdentity, HistoryGrows;
    forall other | other in w.sys.commands
      ensures SameIdentity(w.sys.commands[other].dir, w'.sys.commands[other].dir)
      ensures HistoryGrows(w.hist[other], w'.hist[other])
    {
      if other != id {
        GrowsReflexive(w.sys.commands[other].dir, w.hist[other]);
      }
    }
  }

  lemma ChangeNone(w: World, w': World)
    requires w'.hist == w.hist && w'.sys.commands.Keys == w.sys.commands.Keys == w.hist.Keys
    requires forall id | id in w.sys.commands :: w'.sys.commands[id].dir == w.sys.commands[id].dir
    ensures Evolves(w, w')
  {
    hide SameIdentity, HistoryGrows;
    forall id | id in w.sys.commands
      ensures SameIdentity(w.sys.commands[id].dir, w'.sys.commands[id].dir)
      ensures HistoryGrows(w.hist[id], w'.hist[id])
    {
      GrowsReflexive(w.sys.commands[id].dir, w.hist[id]);
    }
  }

  lemma GrowsReflexive(dir: CommandDir, h: History)
    ensures SameIdentity(dir, dir) && HistoryGrows(h, h)
  {
  }

  lemma InitialWorld()
    ensures WorldInv(INITIAL)
  {
    assert KnownCommands(INITIAL.sys) == {};
  }

  lemma BeginKeeps(w: World, thread: nat, request: StartRequest)
    requires WorldInv(w) && Enabled(w, Begin(thread, request))
    ensures WorldInv(Apply(w, Begin(thread, request))) && Evolves(w, Apply(w, Begin(thread, request)))
  {
    hide CommandInv;
    var w' := Apply(w, Begin(thread, request));
    assert KnownCommands(w'.sys) == KnownCommands(w.sys);
  }

  lemma EmptySpool()
    ensures BoundedFrom([], [], 0, SPOOL_BUDGET) && Recoverable([], [], 0)
  {
    assert BoundedLog([], [], [], SPOOL_BUDGET);
    assert Retains([], [], Clean, []);
  }

  lemma NewCommandInv(id: Id, record: Record, p: Persist)
    requires IsCommandId(id) && record.id == id && record.requestId != "" && record.state == Starting && record.nextSeq == 1
    ensures var dir := PersistTo(CommandDir(None, []), record, p);
            && CommandInv(id, Command(dir, None), History([], 0, {}, None, false, false))
            && (p.PersistOk? ==> CommandInv(id, Command(dir, Some(Proc(record, Spawning, false))), History([], 0, {record}, Some(record), false, false)))
  {
    EmptySpool();
    hide BoundedFrom, Recoverable, IsCommandId;
  }

  lemma KnownAfterRegister(sys: System, id: Id, c: Command)
    requires id !in sys.commands && c.proc.Some?
    ensures var sys' := sys.(commands := sys.commands[id := c]);
            KnownCommands(sys') == KnownCommands(sys) + {id} && |KnownCommands(sys')| == |KnownCommands(sys)| + 1
  {
    var sys' := sys.(commands := sys.commands[id := c]);
    assert KnownCommands(sys') == KnownCommands(sys) + {id};
  }

  lemma RegisterKeeps(w: World, thread: nat, id: Id, p: Persist)
    requires WorldInv(w) && Enabled(w, Register(thread, id, p))
    ensures WorldInv(Apply(w, Register(thread, id, p))) && Evolves(w, Apply(w, Register(thread, id, p)))
  {
    hide CommandInv;
    var w' := Apply(w, Register(thread, id, p));
    var request := w.sys.pending[thread];
    if request.requestId in w.sys.requests || |KnownCommands(w.sys)| >= MAX_COMMANDS {
      ChangeNone(w, w');
      assert KnownCommands(w'.sys) == KnownCommands(w.sys);
    } else if p.PersistOk? {
      RegisterCreates(w, thread, id);
    } else {
      RegisterRefused(w, thread, id, p);
    }
  }

  lemma RegisterCreates(w: World, thread: nat, id: Id)
    requires WorldInv(w) && Enabled(w, Register(thread, id, PersistOk))
    requires w.sys.pending[thread].requestId !in w.sys.requests && |KnownCommands(w.sys)| < MAX_COMMANDS
    ensures WorldInv(Apply(w, Register(thread, id, PersistOk))) && Evolves(w, Apply(w, Register(thread, id, PersistOk)))
  {
    hide CommandInv, Evolves, RequestsMatch, AllCommandsInv, RequestsResolve, IsCommandId;
    var w' := Apply(w, Register(thread, id, PersistOk));
    var request := w.sys.pending[thread];
    var record := Record(id, request.requestId, request.spec, Starting, 1);
    var c := Command(CommandDir(Some(record), []), Some(Proc(record, Spawning, false)));
    NewCommandInv(id, record, PersistOk);
    ChangeOne(w, w', id, c, History([], 0, {record}, Some(record), false, false));
    KnownAfterRegister(w.sys, id, c);
    assert KnownCommands(w'.sys) == KnownCommands(w.sys) + {id};
    RequestsGrow(w.sys.commands, w.sys.requests, id, c);
  }

  lemma RegisterRefused(w: World, thread: nat, id: Id, p: Persist)
    requires WorldInv(w) && Enabled(w, Register(thread, id, p)) && !p.PersistOk?
    requires w.sys.pending[thread].requestId !in w.sys.requests && |KnownCommands(w.sys)| < MAX_COMMANDS
    ensures WorldInv(Apply(w, Register(thread, id, p))) && Evolves(w, Apply(w, Register(thread, id, p)))
  {
    hide CommandInv, Evolves, AllCommandsInv, RequestsResolve, IsCommandId;
    var w' := Apply(w, Register(thread, id, p));
    assert KnownCommands(w'.sys) == KnownCommands(w.sys);
    var request := w.sys.pending[thread];
    var record := Record(id, request.requestId, request.spec, Starting, 1);
    if p.FailNoDir? {
      assert w'.sys.commands == w.sys.commands && w'.hist == w.hist;
      UnchangedCommands(w, w');
    } else {
      NewCommandInv(id, record, p);
      ChangeOne(w, w', id, Command(PersistTo(CommandDir(None, []), record, p), None), History([], 0, {}, None, false, false));
    }
  }

  lemma UnchangedCommands(w: World, w': World)
    requires AllCommandsInv(w.sys.commands, w.hist)
    requires w'.sys.commands == w.sys.commands && w'.hist == w.hist
    ensures Evolves(w, w')
  {
    ChangeNone(w, w');
  }

  lemma StepIdentity(id: Id, c: Command, h: History, s: CommandStep)
    requires CommandInv(id, c, h) && StepEnabled(c, s) && SequenceRoom(h.log)
    ensures var c' := ApplyStep(c, s).command;
            && SameIdentity(c.dir, c'.dir) && c'.proc.Some?
            && c'.proc.value.record.requestId == c.proc.value.record.requestId
            && HistoryGrows(h, HistoryAfter(c, h, s))
  {
    StepKeeps(id, c, h, s);
  }

  lemma RequestsUnchanged(w: World, w': World, id: Id, c: Command)
    requires RequestsMatch(w.sys.commands, w.sys.requests) && id in w.sys.commands
    requires w'.sys.commands == w.sys.commands[id := c] && w'.sys.requests == w.sys.requests
    requires w.sys.commands[id].proc.Some? && c.proc.Some?
    requires c.proc.value.record.requestId == w.sys.commands[id].proc.value.record.requestId
    ensures RequestsMatch(w'.sys.commands, w'.sys.requests) && KnownCommands(w'.sys) == KnownCommands(w.sys)
  {
  }

  lemma OnKeeps(w: World, id: Id, s: CommandStep)
    requires WorldInv(w) && Enabled(w, On(id, s))
    ensures WorldInv(Apply(w, On(id, s))) && Evolves(w, Apply(w, On(id, s)))
  {
    hide CommandInv, ApplyStep, StepEnabled, Evolves, HistoryAfter, RequestsMatch, SequenceRoom, SameIdentity, HistoryGrows, KnownCommands;
    var w' := Apply(w, On(id, s));
    var c, h := w.sys.commands[id], w.hist[id];
    StepKeeps(id, c, h, s);
    StepIdentity(id, c, h, s);
    StepNeedsProc(c, s);
    ChangeOne(w, w', id, ApplyStep(c, s).command, HistoryAfter(c, h, s));
    RequestsUnchanged(w, w', id, ApplyStep(c, s).command);
  }

  lemma StepNeedsProc(c: Command, s: CommandStep)
    requires StepEnabled(c, s)
    ensures c.proc.Some?
  {
  }

  lemma ShelvedInv(id: Id, c: Command, h: History)
    requires CommandInv(id, c, h)
    ensures CommandInv(id, Shelved(c), h)
  {
  }

  lemma ForgetKeeps(commands: Commands, hist: Histories)
    requires AllCommandsInv(commands, hist)
    ensures var sys := Down(commands); KnownCommands(sys) == {} && WorldInv(World(sys, hist))
  {
    hide CommandInv;
    var sys := Down(commands);
    forall id | id in sys.commands ensures CommandInv(id, sys.commands[id], hist[id]) {
      ShelvedInv(id, commands[id], hist[id]);
    }
    assert KnownCommands(sys) == {};
  }

  lemma CrashKeeps(w: World)
    requires WorldInv(w)
    ensures WorldInv(Apply(w, Crash)) && Evolves(w, Apply(w, Crash))
  {
    hide CommandInv;
    ForgetKeeps(w.sys.commands, w.hist);
  }

  lemma ReloadedFromDown(w: World, p: Id -> Persist)
    requires WorldInv(w) && !w.sys.up
    ensures Forget(w.sys.commands) == w.sys.commands && Reloaded(w.sys.commands, w.sys.commands, w.hist, p)
    ensures forall id | id in w.sys.commands :: w.sys.commands[id].proc.None?
  {
    hide CommandInv;
    forall id | id in w.sys.commands ensures w.sys.commands[id].proc.None? {
      assert id !in KnownCommands(w.sys);
    }
    forall id | id in w.sys.commands ensures ReloadedOne(id, w.sys.commands[id], w.sys.commands[id], w.hist[id], p(id)) {
      assert Shelved(w.sys.commands[id]) == w.sys.commands[id];
    }
    assert Forget(w.sys.commands) == w.sys.commands;
  }

  lemma {:induction false} LoadKeepsIdentity(commands: Commands, requests: map<RequestId, Id>, order: seq<Id>, origin: Commands, hist: Histories, p: Id -> Persist)
    requires Reloaded(commands, origin, hist, p) && NoRepeats(order) && AllKnown(commands, order)
    requires forall id | id in order :: commands[id].proc.None? && commands[id].dir == origin[id].dir
    ensures var r := LoadEach(commands, requests, order, p);
            && r.commands.Keys == commands.Keys
            && forall id | id in commands :: SameIdentity(commands[id].dir, r.commands[id].dir)
    decreases |order|
  {
    hide LoadCommand, CommandInv;
    if order != [] {
      var id, rest := order[0], order[1..];
      assert order == [id] + rest && NoRepeats(rest) && id !in rest;
      assert ReloadedOne(id, commands[id], origin[id], hist[id], p(id)) && Shelved(commands[id]) == commands[id];
      LoadIdentity(id, commands[id], hist[id], p(id));
      match LoadCommand(id, commands[id].dir, p(id))
      case LoadFailed(_) =>
      case Loaded(record, dir) =>
        if record.requestId !in requests {
          LoadKeepsCommand(id, commands[id], hist[id], p(id));
          var commands' := commands[id := Command(dir, Some(Proc(record, Finished, false)))];
          assert Reloaded(commands', origin, hist, p);
          LoadKeepsIdentity(commands', requests[record.requestId := id], rest, origin, hist, p);
        }
    }
  }

  lemma LoadIdentity(id: Id, c: Command, h: History, p: Persist)
    requires CommandInv(id, c, h)
    ensures SameIdentity(c.dir, LoadCommand(id, c.dir, p).dir)
    ensures LoadCommand(id, c.dir, p).Loaded? ==> LoadCommand(id, c.dir, p).record.requestId != ""
  {
    hide LoadCommand, CommandInv, DirInv;
    ItsDirInv(id, c, h);
    LoadCommandKeeps(id, c.dir, h.log, h.evicted, p);
    LoadedRecordFacts(id, c, h, p);
  }

  lemma ReloadedGrows(h: History, before: CommandDir, after: CommandDir, p: Persist, r: Record)
    requires h.shown.Some? ==> Progress(h.shown.value, r)
    ensures HistoryGrows(h, LoadedHistory(h, before, after, p, r))
  {
    hide Progress, LoadAcknowledged;
  }

  /** A system in which every directory was loaded. */
  lemma BootedInv(before: System, sys: System, hist: Histories, p: Id -> Persist)
    requires sys.up && sys.pending == map[] && Reloaded(sys.commands, before.commands, hist, p) && RequestsMatch(sys.commands, sys.requests)
    requires |sys.commands| <= MAX_COMMANDS && forall id | id in sys.commands :: sys.commands[id].proc.Some?
    ensures WorldInv(World(sys, ReloadedHistories(before, sys, hist, p)))
    ensures forall id | id in hist :: HistoryGrows(hist[id], ReloadedHistories(before, sys, hist, p)[id])
  {
    hide CommandInv, Progress, HistoryGrows, RequestsMatch, LoadedHistory;
    var hist' := ReloadedHistories(before, sys, hist, p);
    assert KnownCommands(sys) == sys.commands.Keys;
    forall id | id in hist
      ensures HistoryGrows(hist[id], hist'[id]) && CommandInv(id, sys.commands[id], hist'[id])
    {
      assert ReloadedOne(id, sys.commands[id], before.commands[id], hist[id], p(id));
      ReloadedGrows(hist[id], before.commands[id].dir, sys.commands[id].dir, p(id), sys.commands[id].proc.value.record);
    }
  }

  /** Giving up on a restart forgets what was loaded and keeps what was repaired. */
  lemma DownKeeps(w: World, commands: Commands, p: Id -> Persist)
    requires Reloaded(commands, w.sys.commands, w.hist, p)
    requires forall id | id in commands :: SameIdentity(w.sys.commands[id].dir, commands[id].dir)
    ensures WorldInv(World(Down(commands), w.hist)) && Evolves(w, World(Down(commands), w.hist))
  {
    hide CommandInv, HistoryGrows, SameIdentity, Progress, LoadedHistory;
    var shelved := Forget(commands);
    forall id | id in shelved ensures shelved[id] == Shelved(commands[id]) && CommandInv(id, shelved[id], w.hist[id]) {
      assert ReloadedOne(id, commands[id], w.sys.commands[id], w.hist[id], p(id));
    }
    ForgetKeeps(shelved, w.hist);
    assert Forget(shelved) == shelved;
    forall id | id in w.hist ensures HistoryGrows(w.hist[id], w.hist[id]) {
      GrowsReflexive(commands[id].dir, w.hist[id]);
    }
  }

  lemma FailedRestartKeeps(w: World, order: seq<Id>, p: Id -> Persist)
    requires WorldInv(w) && Enabled(w, Restart(order, p)) && Reloaded(w.sys.commands, w.sys.commands, w.hist, p)
    requires Forget(w.sys.commands) == w.sys.commands && !Load(w.sys, order, p).up
    ensures WorldInv(Apply(w, Restart(order, p))) && Evolves(w, Apply(w, Restart(order, p)))
  {
    hide CommandInv, HistoryGrows, LoadEach, SameIdentity, Reloaded, RequestsMatch, WorldInv, Evolves;
    ListingFacts(w, order, p);
    DownWorld(w, order, p);
    if |order| > MAX_COMMANDS {
      AllSameIdentity(w.sys.commands);
      DownKeeps(w, w.sys.commands, p);
    } else {
      LoadEachKeeps(w.sys.commands, map[], order, w.sys.commands, w.hist, p);
      LoadKeepsIdentity(w.sys.commands, map[], order, w.sys.commands, w.hist, p);
      DownKeeps(w, LoadEach(w.sys.commands, map[], order, p).commands, p);
    }
  }

  lemma AllSameIdentity(commands: Commands)
    ensures forall id | id in commands :: SameIdentity(commands[id].dir, commands[id].dir)
  {
  }

  lemma ListingFacts(w: World, order: seq<Id>, p: Id -> Persist)
    requires WorldInv(w) && Enabled(w, Restart(order, p))
    ensures w.sys.commands.Keys == w.hist.Keys && NoRepeats(order) && AllKnown(w.sys.commands, order)
    ensures forall id | id in order :: w.sys.commands[id].proc.None?
  {
    hide CommandInv;
    ReloadedFromDown(w, p);
  }

  lemma NothingReloaded(before: System, sys: System, hist: Histories, p: Id -> Persist)
    requires forall id | id in sys.commands :: sys.commands[id].proc.None?
    ensures ReloadedHistories(before, sys, hist, p) == hist
  {
  }

  lemma DownWorld(w: World, order: seq<Id>, p: Id -> Persist)
    requires Enabled(w, Restart(order, p)) && !Load(w.sys, order, p).up
    requires Forget(w.sys.commands) == w.sys.commands
    ensures AllKnown(w.sys.commands, order)
    ensures Apply(w, Restart(order, p))
            == World(Down(if |order| > MAX_COMMANDS then w.sys.commands else LoadEach(w.sys.commands, map[], order, p).commands), w.hist)
  {
    hide LoadEach;
    NothingReloaded(w.sys, Load(w.sys, order, p), w.hist, p);
  }

  lemma SuccessfulRestartKeeps(w: World, order: seq<Id>, p: Id -> Persist)
    requires WorldInv(w) && Enabled(w, Restart(order, p)) && Load(w.sys, order, p).up
    ensures WorldInv(Apply(w, Restart(order, p))) && Evolves(w, Apply(w, Restart(order, p)))
  {
    hide CommandInv, LoadEach, RequestsMatch, HistoryGrows, Reloaded, SameIdentity;
    ReloadedFromDown(w, p);
    NothingMatched(w.sys.commands);
    LoadEachKeeps(w.sys.commands, map[], order, w.sys.commands, w.hist, p);
    LoadKeepsIdentity(w.sys.commands, map[], order, w.sys.commands, w.hist, p);
    ListingSize(order, w.sys.commands.Keys);
    BootedInv(w.sys, Load(w.sys, order, p), w.hist, p);
  }

  lemma RestartKeeps(w: World, order: seq<Id>, p: Id -> Persist)
    requires WorldInv(w) && Enabled(w, Restart(order, p))
    ensures WorldInv(Apply(w, Restart(order, p))) && Evolves(w, Apply(w, Restart(order, p)))
  {
    hide WorldInv, Evolves, Reloaded, LoadEach;
    ReloadedFromDown(w, p);
    if Load(w.sys, order, p).up {
      SuccessfulRestartKeeps(w, order, p);
    } else {
      FailedRestartKeeps(w, order, p);
    }
  }

  lemma NothingMatched(commands: Commands)
    requires forall id | id in commands :: commands[id].proc.None?
    ensures RequestsMatch(commands, map[])
  {
  }

  /** Every step keeps the invariant and only adds to the history. */
  lemma ApplyKeeps(w: World, s: Step)
    requires WorldInv(w) && Enabled(w, s)
    ensures WorldInv(Apply(w, s)) && Evolves(w, Apply(w, s))
  {
    match s
    case Begin(thread, request) => BeginKeeps(w, thread, request);
    case Register(thread, id, p) => RegisterKeeps(w, thread, id, p);
    case On(id, s') => OnKeeps(w, id, s');
    case Crash => CrashKeeps(w);
    case Restart(order, p) => RestartKeeps(w, order, p);
  }

  lemma HistoryGrowsTransitive(a: History, b: History, c: History)
    requires HistoryGrows(a, b) && HistoryGrows(b, c)
    ensures HistoryGrows(a, c)
  {
    assert c.log[..|a.log|] == b.log[..|a.log|];
  }

  lemma EvolvesTransitive(a: World, b: World, c: World)
    requires Evolves(a, b) && Evolves(b, c)
    ensures Evolves(a, c)
  {
    forall id | id in a.hist ensures HistoryGrows(a.hist[id], c.hist[id]) {
      HistoryGrowsTransitive(a.hist[id], b.hist[id], c.hist[id]);
    }
  }

  lemma {:induction false} RunKeeps(w: World, steps: seq<Step>)
    requires WorldInv(w) && AllEnabled(w, steps)
    ensures WorldInv(Run(w, steps)) && Evolves(w, Run(w, steps))
    decreases |steps|
  {
    hide Apply, Enabled;
    if steps == [] {
      ChangeNone(w, w);
    } else {
      ApplyKeeps(w, steps[0]);
      RunKeeps(Apply(w, steps[0]), steps[1..]);
      EvolvesTransitive(w, Apply(w, steps[0]), Run(w, steps));
    }
  }
}
