/**
 The supervisor's manager as the object it is: tables and a health flag changed in place, over
 a disk.  Each method is one region under the manager's or one command's mutex, and is proved
 to make exactly the step of the state machine in `Supervisor`.
 */
module CommandManager {
  import opened Wrappers
  import opened Bytes
  import opened SpoolCodec
  import opened Spool
  import opened Supervisor
  import opened SpoolDirectory

  datatype LoadError = NoError | LimitExceeded | BadCommand

  type Procs = map<Id, Proc>
  type Disk = map<Id, CommandDir>

  /** The directory and the in-memory state of every command, side by side. */
  function Join(commands: Procs, disk: Disk): map<Id, Command> {
    map id | id in disk :: Command(disk[id], if id in commands then Some(commands[id]) else None)
  }

  lemma JoinUpdate(commands: Procs, disk: Disk, id: Id, proc: Proc, dir: CommandDir)
    ensures Join(commands[id := proc], disk[id := dir]) == Join(commands, disk)[id := Command(dir, Some(proc))]
  {
  }

  lemma JoinDir(commands: Procs, disk: Disk, id: Id, dir: CommandDir)
    requires id !in commands
    ensures Join(commands, disk[id := dir]) == Join(commands, disk)[id := Command(dir, None)]
  {
  }

  lemma ForgetDir(commands: Procs, disk: Disk, id: Id, dir: CommandDir)
    ensures Forget(Join(commands, disk[id := dir])) == Forget(Join(commands, disk)[id := Command(dir, None)])
  {
  }

  lemma KnownAre(commands: Procs, disk: Disk, requests: map<RequestId, Id>, unhealthy: bool, pending: map<nat, StartRequest>)
    requires commands.Keys <= disk.Keys && forall r | r in requests :: requests[r] in commands
    ensures var sys := System(true, Join(commands, disk), requests, unhealthy, pending);
            KnownCommands(sys) == commands.Keys && |KnownCommands(sys)| == |commands| && RequestsResolve(sys)
  {
    var sys := System(true, Join(commands, disk), requests, unhealthy, pending);
    assert KnownCommands(sys) == commands.Keys;
  }

  lemma AddedThenRemoved<K, V>(m: map<K, V>, k: K, v: V)
    requires k !in m
    ensures m[k := v] - {k} == m
  {
  }

  /** What a chunk makes of a command whose spool works, part by part. */
  lemma ChunkMakes(c: Command, stream: Stream, data: seq<byte>, fault: Fault, p: Persist, dir: CommandDir, next: Proc)
    requires StepEnabled(c, Chunk(stream, data, fault, p)) && !c.proc.value.spoolFailed
    requires var proc, a := c.proc.value, Append(c.dir.spool, ChunkEvent(c.proc.value.record, stream, data), SPOOL_BUDGET, fault);
      var advanced, written := proc.record.(nextSeq := NextSeq(proc.record.nextSeq)), c.dir.(spool := a.parts);
      if !a.ok then dir == written && next == proc.(spoolFailed := true)
      else dir == PersistTo(written, advanced, p) && next == if p.PersistOk? then proc.(record := advanced) else proc.(spoolFailed := true)
    ensures var ok := Append(c.dir.spool, ChunkEvent(c.proc.value.record, stream, data), SPOOL_BUDGET, fault).ok;
      ApplyStep(c, Chunk(stream, data, fault, p)) == StepResult(Command(dir, Some(next)), !ok || !p.PersistOk?)
  {
    hide Append;
  }

  predicate Taken(requests: map<RequestId, Id>, requestId: RequestId) {
    requestId != "" && requestId in requests
  }

  function Bind(requests: map<RequestId, Id>, requestId: RequestId, id: Id): map<RequestId, Id> {
    if requestId == "" then requests else requests[requestId := id]
  }

  lemma LoadEachStep(commands: map<Id, Command>, requests: map<RequestId, Id>, order: seq<Id>, p: Id -> Persist)
    requires order != [] && forall id | id in order :: id in commands
    ensures var result := LoadCommand(order[0], commands[order[0]].dir, p(order[0]));
            LoadEach(commands, requests, order, p)
            == if result.LoadFailed? || Taken(requests, result.record.requestId) then
                 LoadAllResult(false, commands[order[0] := Command(result.dir, None)], requests)
               else
                 LoadEach(commands[order[0] := Command(result.dir, Some(Proc(result.record, Finished, false)))],
                          Bind(requests, result.record.requestId, order[0]), order[1..], p)
  {
    hide LoadCommand;
  }

  class Manager {
    var commands: Procs
    var requests: map<RequestId, Id>
    var unhealthy: bool
    var disk: Disk

    predicate Valid()
      reads this
    {
      && commands.Keys <= disk.Keys
      && forall r | r in requests :: requests[r] in commands
    }

    function Joined(): map<Id, Command>
      reads this
    {
      Join(commands, disk)
    }

    /** The state of the running supervisor with one start request waiting for the manager's mutex. */
    function Model(request: StartRequest): System
      reads this
    {
      System(true, Joined(), requests, unhealthy, map[0 := request])
    }

    /** A manager over a disk, before it has loaded anything. */
    constructor (disk: Disk)
      ensures Valid() && this.disk == disk && commands == map[] && requests == map[] && !unhealthy
    {
      this.commands, this.requests, this.unhealthy, this.disk := map[], map[], false, disk;
    }

    /** Load one directory after the other; after an error the manager is not used. */
    method LoadCommands(order: seq<Id>, verdicts: Id -> Persist) returns (error: LoadError)
      requires Valid() && commands == map[] && requests == map[] && !unhealthy
      requires forall id | id in order :: id in disk
      modifies this
      ensures Valid() && !unhealthy
      ensures var after := Load(System(true, old(Joined()), map[], false, map[]), order, verdicts);
              && (error.NoError? <==> after.up)
              && (error.NoError? ==> System(true, Joined(), requests, unhealthy, map[]) == after)
              && (!error.NoError? ==> Forget(Joined()) == after.commands)
    {
      ghost var start := Joined();
      assert Forget(start) == start;
      if |order| > MAX_COMMANDS {
        return LimitExceeded;
      }
      for i := 0 to |order|
        invariant Valid() && !unhealthy && disk.Keys == start.Keys
        invariant LoadEach(start, map[], order, verdicts) == LoadEach(Joined(), requests, order[i..], verdicts)
      {
        assert order[i..][1..] == order[i + 1..];
        LoadEachStep(Joined(), requests, order[i..], verdicts);
        var loaded := LoadOne(order[i], verdicts(order[i]));
        if !loaded {
          return BadCommand;
        }
      }
      return NoError;
    }

    /** Load one directory and bind its request id. */
    method LoadOne(id: Id, p: Persist) returns (loaded: bool)
      requires Valid() && id in disk
      modifies this
      ensures Valid() && unhealthy == old(unhealthy) && disk.Keys == old(disk.Keys)
      ensures var result := LoadCommand(id, old(disk)[id], p);
              && (loaded <==> result.Loaded? && !Taken(old(requests), result.record.requestId))
              && (!loaded ==> requests == old(requests) && Forget(Joined()) == Forget(old(Joined())[id := Command(result.dir, None)]))
              && (loaded ==>
                    && Joined() == old(Joined())[id := Command(result.dir, Some(Proc(result.record, Finished, false)))]
                    && requests == Bind(old(requests), result.record.requestId, id))
    {
      var result := LoadCommand(id, disk[id], p);
      ForgetDir(commands, disk, id, result.dir);
      ghost var before := disk;
      disk := disk[id := result.dir];
      if result.LoadFailed? || Taken(requests, result.record.requestId) {
        return false;
      }
      JoinUpdate(commands, before, id, Proc(result.record, Finished, false), result.dir);
      commands := commands[id := Proc(result.record, Finished, false)];
      requests := Bind(requests, result.record.requestId, id);
      return true;
    }

    /** The health check a start makes before anything else. */
    method CheckHealthy(request: StartRequest) returns (response: StartResponse)
      ensures response == BeginStart(Model(request), 0, request).1
    {
      return if unhealthy then Unhealthy else Admitted;
    }

    /** Replace the metadata file, and become unhealthy when that fails. */
    method PersistTransition(record: Record, p: Persist) returns (ok: bool)
      requires record.id in disk
      modifies this`disk, this`unhealthy
      ensures disk == old(disk)[record.id := PersistTo(old(disk)[record.id], record, p)]
      ensures ok == p.PersistOk? && unhealthy == (old(unhealthy) || !ok)
    {
      disk := disk[record.id := PersistTo(disk[record.id], record, p)];
      if !p.PersistOk? {
        unhealthy := true;
        return false;
      }
      return true;
    }

    /** The region of a start under the manager's mutex: the new command is withdrawn when it cannot be persisted. */
    method RegisterStart(request: StartRequest, id: Id, p: Persist) returns (response: StartResponse)
      requires Valid() && id !in disk
      modifies this
      ensures Valid() && RequestsResolve(old(Model(request)))
      ensures var (after, answer) := Supervisor.RegisterStart(old(Model(request)), 0, id, p);
              System(true, Joined(), requests, unhealthy, map[]) == after && response == answer
    {
      KnownAre(commands, disk, requests, unhealthy, map[0 := request]);
      assert map[0 := request] - {0} == map[];
      if request.requestId in requests {
        var existing := commands[requests[request.requestId]].record;
        return if existing.spec != request.spec then Conflict else Existing(existing);
      }
      if |commands| >= MAX_COMMANDS {
        return LimitReached;
      }
      var ok := Create(Record(id, request.requestId, request.spec, Starting, 1), p);
      return if ok then Created(id) else Unhealthy;
    }

    /** Enter a new command in the tables, persist it, and take it out again when that fails. */
    method Create(record: Record, p: Persist) returns (ok: bool)
      requires Valid() && record.id !in disk && record.requestId !in requests
      modifies this
      ensures Valid() && ok == p.PersistOk? && unhealthy == (old(unhealthy) || !ok)
      ensures requests == if ok then old(requests)[record.requestId := record.id] else old(requests)
      ensures var dir := PersistTo(CommandDir(None, []), record, p);
              Joined() == if ok then old(Joined())[record.id := Command(dir, Some(Proc(record, Spawning, false)))]
                          else if p.FailNoDir? then old(Joined())
                          else old(Joined())[record.id := Command(dir, None)]
    {
      var dir := PersistTo(CommandDir(None, []), record, p);
      JoinUpdate(commands, disk, record.id, Proc(record, Spawning, false), dir);
      JoinDir(commands, disk, record.id, dir);
      commands := commands[record.id := Proc(record, Spawning, false)];
      requests := requests[record.requestId := record.id];
      if !p.FailNoDir? {
        disk := disk[record.id := dir];
      }
      if !p.PersistOk? {
        unhealthy := true;
        commands := commands - {record.id};
        requests := requests - {record.requestId};
        AddedThenRemoved(old(commands), record.id, Proc(record, Spawning, false));
        AddedThenRemoved(old(requests), record.requestId, record.id);
        return false;
      }
      return true;
    }

    /** This is the spool directory of the command. */
    ghost predicate Stores(id: Id, spool: SpoolDir)
      reads this, spool
    {
      id in disk && Lists(disk[id].spool, spool.files)
    }

    /** One command made a step and everything else stayed. */
    twostate predicate Stepped(id: Id, s: CommandStep)
      requires id in old(Joined()) && StepEnabled(old(Joined())[id], s)
      reads this
    {
      var r := ApplyStep(old(Joined())[id], s);
      && Joined() == old(Joined())[id := r.command]
      && unhealthy == (old(unhealthy) || r.failed)
      && requests == old(requests)
    }

    /** The child runs: show `running` once that is durable, and collect output either way. */
    method MarkSpawned(id: Id, p: Persist) returns (ok: bool)
      requires Valid() && id in commands && commands[id].phase.Spawning? && commands[id].record.id == id
      modifies this
      ensures Valid() && Stepped(id, Spawned(p))
    {
      ghost var before := disk;
      var started := commands[id].record.(state := Running);
      ok := PersistTransition(started, p);
      var shown := if ok then started else commands[id].record;
      JoinUpdate(commands, before, id, Proc(shown, Collecting, false), disk[id]);
      commands := commands[id := Proc(shown, Collecting, false)];
    }

    /** The child could not be started. */
    method StartFailed(id: Id, p: Persist) returns (ok: bool)
      requires Valid() && id in commands && commands[id].phase.Spawning? && commands[id].record.id == id
      modifies this
      ensures Valid() && Stepped(id, SpawnFailed(p))
    {
      ghost var before := disk;
      var lost := commands[id].record.(state := Lost);
      ok := PersistTransition(lost, p);
      var shown := if ok then lost else commands[id].record;
      JoinUpdate(commands, before, id, Proc(shown, Finished, false), disk[id]);
      commands := commands[id := Proc(shown, Finished, false)];
    }

    /** One chunk of output: append it to the command's spool directory, then advance the metadata past it. */
    method CollectChunk(id: Id, spool: SpoolDir, stream: Stream, data: seq<byte>, fault: Fault, p: Persist)
      requires Valid() && id in commands && commands[id].phase.Collecting? && commands[id].record.id == id
      requires 0 < |data| <= MAX_EVENT_BYTES && Stores(id, spool)
      modifies this, spool
      ensures Valid() && Stepped(id, Chunk(stream, data, fault, p)) && Stores(id, spool)
    {
      var proc := commands[id];
      if !proc.spoolFailed {
        CollectOutput(id, spool, proc, stream, data, fault, p);
      }
    }

    /** Append to the files; `disk` follows them. */
    method AppendToSpool(id: Id, spool: SpoolDir, e: Event, fault: Fault) returns (ok: bool)
      requires Stores(id, spool)
      modifies this`disk, spool
      ensures var appended := Append(old(disk)[id].spool, e, SPOOL_BUDGET, fault);
        ok == appended.ok && disk == old(disk)[id := old(disk)[id].(spool := appended.parts)] && Stores(id, spool)
    {
      hide Append, Lists;
      ok := spool.AppendBoundedEvent(e, SPOOL_BUDGET, fault);
      var parts := spool.Segments();
      ListsUnique(parts, Append(disk[id].spool, e, SPOOL_BUDGET, fault).parts, spool.files);
      disk := disk[id := disk[id].(spool := parts)];
    }

    /** The chunk of a command whose spool still works. */
    method CollectOutput(id: Id, spool: SpoolDir, proc: Proc, stream: Stream, data: seq<byte>, fault: Fault, p: Persist)
      requires Valid() && id in commands && commands[id] == proc && proc.phase.Collecting? && !proc.spoolFailed && proc.record.id == id
      requires 0 < |data| <= MAX_EVENT_BYTES && Stores(id, spool)
      modifies this, spool
      ensures Valid() && Stepped(id, Chunk(stream, data, fault, p)) && Stores(id, spool)
    {
      hide Append, Lists, ApplyStep, NextSeq;
      ghost var before := disk;
      var appended := AppendToSpool(id, spool, ChunkEvent(proc.record, stream, data), fault);
      var next := proc.(spoolFailed := true);
      if !appended {
        unhealthy := true;
      } else {
        var advanced := proc.record.(nextSeq := NextSeq(proc.record.nextSeq));
        var ok := PersistTransition(advanced, p);
        if ok {
          next := proc.(record := advanced);
        }
      }
      JoinUpdate(commands, before, id, next, disk[id]);
      assert before[id := disk[id]] == disk;
      ChunkMakes(Command(before[id], Some(proc)), stream, data, fault, p, disk[id], next);
      commands := commands[id := next];
    }

    /** Both streams have ended and the child was waited for. */
    method CollectEnd(id: Id, exit: State, p: Persist)
      requires Valid() && id in commands && commands[id].phase.Collecting? && commands[id].record.id == id
      requires exit.Exited? || exit.Signaled?
      modifies this
      ensures Valid() && Stepped(id, Finish(exit, p))
    {
      ghost var before := disk;
      var proc := commands[id];
      var terminal := proc.record.(state := if proc.spoolFailed then Lost else exit);
      var ok := PersistTransition(terminal, p);
      var next := Proc(if ok then terminal else proc.record, Finished, proc.spoolFailed);
      JoinUpdate(commands, before, id, next, disk[id]);
      commands := commands[id := next];
    }

    /** Read the files, which may repair them; `disk` follows them. */
    method ReadSpoolFiles(id: Id, spool: SpoolDir) returns (result: ReadResult)
      requires Stores(id, spool)
      modifies this`disk, spool
      ensures var read := ReadAll(old(disk)[id].spool);
        result == read.result && disk == old(disk)[id := old(disk)[id].(spool := read.parts)] && Stores(id, spool)
    {
      hide ReadAll, Lists;
      result := spool.ReadEvents();
      var parts := spool.Segments();
      ListsUnique(parts, ReadAll(disk[id].spool).parts, spool.files);
      disk := disk[id := disk[id].(spool := parts)];
    }

    /** Replay the retained output after a cursor; reading may repair the spool. */
    method ConnectAfter(id: Id, spool: SpoolDir, after: uint64) returns (replay: Replay)
      requires Valid() && id in commands && Stores(id, spool)
      modifies this`disk, spool
      ensures Valid() && replay == Connect(old(Joined())[id], after) && Stores(id, spool)
      ensures if replay.InvalidCursor? then disk == old(disk) else Stepped(id, ReadSpool)
    {
      hide ReadAll, Lists;
      var record := commands[id].record;
      var generated := PreviousSeq(record.nextSeq);
      if after > generated {
        return InvalidCursor;
      }
      ghost var before := disk;
      var read := ReadSpoolFiles(id, spool);
      JoinUpdate(commands, before, id, commands[id], disk[id]);
      assert commands[id := commands[id]] == commands;
      if read.ReadFailed? {
        return ReplayFailed;
      }
      var retained := record.nextSeq;
      if |read.events| > 0 {
        retained := read.events[0].seqNo;
      }
      if NextSeq(after) < retained {
        return CursorExpired;
      }
      var events := EventsAfter(read.events, after);
      return Replayed(events, generated);
    }
  }

  method EventsAfter(retained: seq<Event>, after: uint64) returns (events: seq<Event>)
    ensures events == After(retained, after)
  {
    events := [];
    assert retained[0..] == retained && [] + After(retained, after) == After(retained, after);
    for i := 0 to |retained|
      invariant After(retained, after) == events + After(retained[i..], after)
    {
      assert retained[i..][1..] == retained[i + 1..];
      var rest := After(retained[i + 1..], after);
      if retained[i].seqNo > after {
        assert events + ([retained[i]] + rest) == (events + [retained[i]]) + rest;
        events := events + [retained[i]];
      } else {
        assert [] + rest == rest;
      }
    }
    assert events + After([], after) == events;
  }
}
