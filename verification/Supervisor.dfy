/**
 The command supervisor as a state machine.

 A command is its directory on disk (one metadata record and the output spool) together
 with the in-memory process state, when the supervisor is up and knows it.  Every region the
 supervisor runs under one mutex is one step.  Each write to disk is given a verdict by the
 environment: it succeeds, or it fails having left part of its effect behind.  Process death
 during a write is that failed write followed by `Crash`.
 */
module Supervisor {
  import opened Wrappers
  import opened Bytes
  import opened SpoolCodec
  import opened Spool

  const MAX_COMMANDS := 256
  const MAX_SPOOL_BYTES := 8 * 1024 * 1024
  const DISK_OVERHEAD_RESERVE := 64 * 1024
  const SPOOL_BUDGET: nat := MAX_SPOOL_BYTES - DISK_OVERHEAD_RESERVE
  const COMMAND_ID_LENGTH := 48

  type Id = string
  type RequestId = string

  /** What a start request asks for; the specification hash is taken to be injective on it. */
  datatype Spec = Spec(argv: seq<string>, cwd: string, env: seq<string>)

  datatype State = Starting | Running | Exited(code: int) | Signaled(signal: int) | Lost

  predicate Terminal(s: State) {
    s.Exited? || s.Signaled? || s.Lost?
  }

  /** The command record, as it is shown to clients and persisted as metadata. */
  datatype Record = Record(id: Id, requestId: RequestId, spec: Spec, state: State, nextSeq: uint64)

  datatype CommandDir = CommandDir(meta: Option<Record>, spool: seq<Segment>)

  /** `Spawning`: registered, child not started yet.  `Collecting`: output readers are running.  `Finished`: neither. */
  datatype Phase = Spawning | Collecting | Finished

  datatype Proc = Proc(record: Record, phase: Phase, spoolFailed: bool)

  datatype Command = Command(dir: CommandDir, proc: Option<Proc>)

  /**
   The verdict on one atomic replacement of the metadata file: it happened; it failed before
   the rename, with or without having made the directory; or the rename happened and the
   directory sync after it failed.
   */
  datatype Persist = PersistOk | FailNoDir | FailDirOnly | FailRenamed

  function PersistTo(dir: CommandDir, r: Record, p: Persist): CommandDir {
    if p.PersistOk? || p.FailRenamed? then dir.(meta := Some(r)) else dir
  }

  /** Sequence numbers are unsigned 64-bit and wrap around. */
  function NextSeq(n: uint64): uint64 {
    (n + 1) % TWO_TO_THE_64
  }

  function PreviousSeq(n: uint64): uint64 {
    (n - 1) % TWO_TO_THE_64
  }

  // ----- Steps of one running command --------------------------------------------------------

  datatype CommandStep =
    | Spawned(p: Persist)
    | SpawnFailed(p: Persist)
    | Chunk(stream: Stream, data: seq<byte>, fault: Fault, p: Persist)
    | Finish(exit: State, p: Persist)
    | ReadSpool

  predicate StepEnabled(c: Command, s: CommandStep) {
    && c.proc.Some?
    && match s
       case Spawned(_) => c.proc.value.phase.Spawning?
       case SpawnFailed(_) => c.proc.value.phase.Spawning?
       case Chunk(_, data, _, _) => c.proc.value.phase.Collecting? && 0 < |data| <= MAX_EVENT_BYTES
       case Finish(exit, _) => c.proc.value.phase.Collecting? && (exit.Exited? || exit.Signaled?)
       case ReadSpool => true
  }

  /** The outcome of a step: the command afterwards and whether the supervisor became unhealthy. */
  datatype StepResult = StepResult(command: Command, failed: bool)

  /** Persist a transition of the record and show it only when that succeeded. */
  function Transition(c: Command, r: Record, p: Persist, phase: Phase, spoolFailed: bool): StepResult
    requires c.proc.Some?
  {
    var shown := if p.PersistOk? then r else c.proc.value.record;
    StepResult(Command(PersistTo(c.dir, r, p), Some(Proc(shown, phase, spoolFailed))), !p.PersistOk?)
  }

  function ChunkEvent(record: Record, stream: Stream, data: seq<byte>): Event {
    Event(record.nextSeq, stream, data)
  }

  /** Append first, advance the metadata second; the first failure stops the collection of output. */
  function ChunkStep(c: Command, stream: Stream, data: seq<byte>, fault: Fault, p: Persist): StepResult
    requires c.proc.Some?
  {
    var proc := c.proc.value;
    if proc.spoolFailed then StepResult(c, false)
    else
      var appended := Append(c.dir.spool, ChunkEvent(proc.record, stream, data), SPOOL_BUDGET, fault);
      var written := c.(dir := c.dir.(spool := appended.parts));
      if !appended.ok then StepResult(written.(proc := Some(proc.(spoolFailed := true))), true)
      else Transition(written, proc.record.(nextSeq := NextSeq(proc.record.nextSeq)), p, proc.phase, !p.PersistOk?)
  }

  function ApplyStep(c: Command, s: CommandStep): StepResult
    requires StepEnabled(c, s)
  {
    var proc := c.proc.value;
    match s
    case Spawned(p) => Transition(c, proc.record.(state := Running), p, Collecting, false)
    case SpawnFailed(p) => Transition(c, proc.record.(state := Lost), p, Finished, false)
    case Chunk(stream, data, fault, p) => ChunkStep(c, stream, data, fault, p)
    case Finish(exit, p) =>
      var state := if proc.spoolFailed then Lost else exit;
      Transition(c, proc.record.(state := state), p, Finished, proc.spoolFailed)
    case ReadSpool => StepResult(c.(dir := c.dir.(spool := ReadAll(c.dir.spool).parts)), false)
  }

  // ----- Replay ------------------------------------------------------------------------------

  datatype Replay = Replayed(events: seq<Event>, nextCursor: uint64) | InvalidCursor | CursorExpired | ReplayFailed

  function After(events: seq<Event>, after: uint64): seq<Event> {
    if events == [] then []
    else (if events[0].seqNo > after then [events[0]] else []) + After(events[1..], after)
  }

  /** What a client connecting after a cursor is told. */
  function Connect(c: Command, after: uint64): Replay
    requires c.proc.Some?
  {
    var record := c.proc.value.record;
    var generated := PreviousSeq(record.nextSeq);
    if after > generated then InvalidCursor
    else
      match ReadAll(c.dir.spool).result
      case ReadFailed => ReplayFailed
      case Events(events) =>
        var retained := if events != [] then events[0].seqNo else record.nextSeq;
        if NextSeq(after) < retained then CursorExpired
        else Replayed(After(events, after), generated)
  }

  // ----- Loading -----------------------------------------------------------------------------

  predicate IsHexDigit(c: char) {
    '0' <= c <= '9' || 'a' <= c <= 'f' || 'A' <= c <= 'F'
  }

  predicate IsCommandId(id: Id) {
    |id| == COMMAND_ID_LENGTH && forall c | c in id :: IsHexDigit(c)
  }

  datatype LoadResult = Loaded(record: Record, dir: CommandDir) | LoadFailed(dir: CommandDir)

  /** The record recovery settles on, from the metadata and the retained events; None when they contradict each other. */
  function Recovered(r: Record, events: seq<Event>): Option<Record> {
    if events == [] && r.nextSeq != 1 then None
    else
      var lastNext := if events == [] then r.nextSeq else NextSeq(events[|events| - 1].seqNo);
      if r.nextSeq > lastNext then None
      else
        var state := if Terminal(r.state) then r.state else Lost;
        Some(r.(nextSeq := lastNext, state := state))
  }

  /** Write the settled record back only when it differs from what was read. */
  function SaveRecovered(r: Record, settled: Record, dir: CommandDir, p: Persist): LoadResult {
    if settled == r then Loaded(r, dir)
    else if p.PersistOk? then Loaded(settled, PersistTo(dir, settled, p))
    else LoadFailed(PersistTo(dir, settled, p))
  }

  predicate ValidMetadata(id: Id, meta: Option<Record>) {
    meta.Some? && meta.value.id == id && IsCommandId(id) && meta.value.nextSeq != 0
  }

  function LoadCommand(id: Id, dir: CommandDir, p: Persist): LoadResult {
    if !ValidMetadata(id, dir.meta) then LoadFailed(dir)
    else
      var read := ReadAll(dir.spool);
      var dir' := dir.(spool := read.parts);
      match read.result
      case ReadFailed => LoadFailed(dir')
      case Events(events) =>
        match Recovered(dir.meta.value, events)
        case None => LoadFailed(dir')
        case Some(settled) => SaveRecovered(dir.meta.value, settled, dir', p)
  }

  datatype LoadAllResult = LoadAllResult(ok: bool, commands: map<Id, Command>, requests: map<RequestId, Id>)

  /** Load the command directories in the given order; the first failure ends the attempt. */
  function LoadEach(commands: map<Id, Command>, requests: map<RequestId, Id>, order: seq<Id>, p: Id -> Persist): LoadAllResult
    requires forall id | id in order :: id in commands
    decreases |order|
  {
    if order == [] then LoadAllResult(true, commands, requests)
    else
      var id := order[0];
      match LoadCommand(id, commands[id].dir, p(id))
      case LoadFailed(dir) => LoadAllResult(false, commands[id := Command(dir, None)], requests)
      case Loaded(record, dir) =>
        if record.requestId != "" && record.requestId in requests then
          LoadAllResult(false, commands[id := Command(dir, None)], requests)
        else
          var requests' := if record.requestId == "" then requests else requests[record.requestId := id];
          LoadEach(commands[id := Command(dir, Some(Proc(record, Finished, false)))], requests', order[1..], p)
  }

  // ----- The whole supervisor ----------------------------------------------------------------

  datatype StartRequest = StartRequest(requestId: RequestId, spec: Spec)

  /** `pending` holds the start requests that passed the health check and wait for the manager's mutex. */
  datatype System = System(
    up: bool,
    commands: map<Id, Command>,
    requests: map<RequestId, Id>,
    unhealthy: bool,
    pending: map<nat, StartRequest>)

  function Forget(commands: map<Id, Command>): map<Id, Command> {
    map id | id in commands :: commands[id].(proc := None)
  }

  function Down(commands: map<Id, Command>): System {
    System(false, Forget(commands), map[], false, map[])
  }

  function KnownCommands(sys: System): set<Id> {
    set id | id in sys.commands && sys.commands[id].proc.Some?
  }

  predicate RequestsResolve(sys: System) {
    forall r | r in sys.requests :: sys.requests[r] in sys.commands && sys.commands[sys.requests[r]].proc.Some?
  }

  datatype StartResponse = Unhealthy | Admitted | Existing(record: Record) | Conflict | LimitReached | Created(id: Id)

  function BeginStart(sys: System, thread: nat, request: StartRequest): (System, StartResponse) {
    if sys.unhealthy then (sys, Unhealthy)
    else (sys.(pending := sys.pending[thread := request]), Admitted)
  }

  /** The part of a start that runs under the manager's mutex. */
  function RegisterStart(sys: System, thread: nat, id: Id, p: Persist): (System, StartResponse)
    requires thread in sys.pending
    requires RequestsResolve(sys)
  {
    var request := sys.pending[thread];
    var sys' := sys.(pending := sys.pending - {thread});
    if request.requestId in sys.requests then
      var existing := sys.commands[sys.requests[request.requestId]].proc.value.record;
      (sys', if existing.spec != request.spec then Conflict else Existing(existing))
    else if |KnownCommands(sys)| >= MAX_COMMANDS then (sys', LimitReached)
    else
      var record := Record(id, request.requestId, request.spec, Starting, 1);
      var dir := PersistTo(CommandDir(None, []), record, p);
      if p.PersistOk? then
        (sys'.(commands := sys.commands[id := Command(dir, Some(Proc(record, Spawning, false)))],
               requests := sys.requests[request.requestId := id]),
         Created(id))
      else
        (sys'.(commands := if p.FailNoDir? then sys.commands else sys.commands[id := Command(dir, None)],
               unhealthy := true),
         Unhealthy)
  }

  function StepOf(sys: System, id: Id, s: CommandStep): System
    requires id in sys.commands && StepEnabled(sys.commands[id], s)
  {
    var r := ApplyStep(sys.commands[id], s);
    sys.(commands := sys.commands[id := r.command], unhealthy := sys.unhealthy || r.failed)
  }

  /** A restart: `order` is the listing of the commands directory. */
  function Load(sys: System, order: seq<Id>, p: Id -> Persist): System
    requires forall id | id in order :: id in sys.commands
  {
    if |order| > MAX_COMMANDS then Down(sys.commands)
    else
      var r := LoadEach(Forget(sys.commands), map[], order, p);
      if r.ok then System(true, r.commands, r.requests, false, map[]) else Down(r.commands)
  }
}
