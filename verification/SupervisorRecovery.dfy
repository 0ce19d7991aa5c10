/**
 Restarting the supervisor over the command directories that a run, ended at any point, left
 behind.
 */
module SupervisorRecovery {
  import opened Wrappers
  import opened Bytes
  import opened SpoolCodec
  import opened Spool
  import opened SpoolRecovery
  import opened Supervisor
  import opened SupervisorInvariant

  // ----- One command -------------------------------------------------------------------------

  /** A directory can be loaded when its metadata exists and its newest segment has a version header. */
  predicate LoadReady(dir: CommandDir) {
    dir.meta.Some? && SpoolReadable(dir.spool)
  }

  /** What recovery makes of a command whose log is known. */
  function RecoveredRecord(meta: Record, log: seq<Event>): Record
    requires |log| + 1 < TWO_TO_THE_64
  {
    meta.(nextSeq := |log| + 1, state := if Terminal(meta.state) then meta.state else Lost)
  }

  lemma RecoveredExactly(meta: Record, log: seq<Event>, k: nat)
    requires Contiguous(log) && |log| + 1 < TWO_TO_THE_64 && 1 <= meta.nextSeq <= |log| + 1
    requires k <= |log| && (log != [] ==> k < |log|)
    ensures Recovered(meta, log[k..]) == Some(RecoveredRecord(meta, log))
    ensures Recovered(RecoveredRecord(meta, log), log[k..]) == Some(RecoveredRecord(meta, log))
  {
    if log != [] {
      assert log[k..][|log[k..]| - 1] == log[|log| - 1];
    }
  }

  /** Every outcome of loading one command. */
  lemma LoadCommandCases(id: Id, dir: CommandDir, log: seq<Event>, k: nat, p: Persist)
    requires DirInv(id, dir, log, k)
    ensures var read := dir.(spool := ReadAll(dir.spool).parts);
            LoadCommand(id, dir, p)
            == if LoadReady(dir) then SaveRecovered(dir.meta.value, RecoveredRecord(dir.meta.value, log), read, p)
               else LoadFailed(dir)
  {
    hide ReadAll, DirInv, Recovered, SaveRecovered, IsCommandId, SpoolReadable, RecoveredRecord, ReadsFrom, Recoverable, Contiguous;
    assert dir.(spool := dir.spool) == dir;
    DirFacts(id, dir, log, k);
    ReadRecoverable(dir.spool, log, k);
    if LoadReady(dir) {
      ReadsFromFacts(dir.spool, log, k);
      RecoveredExactly(dir.meta.value, log, k);
    }
  }

  lemma DirFacts(id: Id, dir: CommandDir, log: seq<Event>, k: nat)
    requires DirInv(id, dir, log, k)
    ensures Recoverable(dir.spool, log, k) && Contiguous(log) && |log| + 1 < TWO_TO_THE_64
    ensures dir.meta.Some? ==> ValidMetadata(id, dir.meta) && 1 <= dir.meta.value.nextSeq <= |log| + 1
  {
  }

  lemma ReadsFromFacts(parts: seq<Segment>, log: seq<Event>, k: nat)
    requires ReadsFrom(parts, log, k)
    ensures k <= |log| && (log != [] ==> k < |log|) && ReadAll(parts).result == Events(log[k..])
  {
  }

  lemma ReadDirKeeps(id: Id, dir: CommandDir, log: seq<Event>, k: nat, meta: Option<Record>)
    requires DirInv(id, dir, log, k)
    requires meta == dir.meta || (dir.meta.Some? && meta == Some(RecoveredRecord(dir.meta.value, log)))
    ensures var read := CommandDir(meta, ReadAll(dir.spool).parts);
            && DirInv(id, read, log, k)
            && (LoadReady(read) <==> LoadReady(dir))
            && ReadAll(read.spool) == ReadAll(dir.spool)
            && CommandDir(meta, dir.spool) == dir.(meta := meta)
  {
    ReadRecoverable(dir.spool, log, k);
  }

  /**
   Loading one command with working storage succeeds exactly when its directory is ready.
   It keeps the log, settles the record, and doing it again changes nothing, whatever the
   storage would answer.
   */
  lemma LoadCommandExactly(id: Id, dir: CommandDir, log: seq<Event>, k: nat)
    requires DirInv(id, dir, log, k)
    ensures var r := LoadCommand(id, dir, PersistOk);
            && (r.Loaded? <==> LoadReady(dir))
            && (r.Loaded? ==>
                  && r.record == RecoveredRecord(dir.meta.value, log)
                  && r.dir.meta == Some(r.record)
                  && ReadAll(r.dir.spool) == ReadAll(dir.spool)
                  && forall p :: LoadCommand(id, r.dir, p) == Loaded(r.record, r.dir))
  {
    hide ReadAll, LoadCommand, DirInv, Recoverable, SpoolReadable;
    LoadCommandCases(id, dir, log, k, PersistOk);
    if LoadReady(dir) {
      var r := RecoveredRecord(dir.meta.value, log);
      var dir' := CommandDir(Some(r), ReadAll(dir.spool).parts);
      ReadDirKeeps(id, dir, log, k, Some(r));
      assert LoadCommand(id, dir, PersistOk) == Loaded(r, dir');
      forall p ensures LoadCommand(id, dir', p) == Loaded(r, dir') {
        LoadCommandCases(id, dir', log, k, p);
      }
    }
  }

  /** A restart that fails, at whatever write, leaves every directory as loadable as it was. */
  lemma LoadCommandKeeps(id: Id, dir: CommandDir, log: seq<Event>, k: nat, p: Persist)
    requires DirInv(id, dir, log, k)
    ensures var r := LoadCommand(id, dir, p);
            && DirInv(id, r.dir, log, k)
            && (r.Loaded? ==> r == LoadCommand(id, dir, PersistOk))
            && (LoadReady(r.dir) <==> LoadReady(dir))
            && (r.dir.meta == dir.meta
                || (dir.meta.Some? && r.dir.meta == Some(RecoveredRecord(dir.meta.value, log))))
  {
    hide ReadAll, LoadCommand, Recoverable;
    LoadCommandCases(id, dir, log, k, p);
    LoadCommandCases(id, dir, log, k, PersistOk);
    if LoadReady(dir) {
      ReadDirKeeps(id, dir, log, k, dir.meta);
      ReadDirKeeps(id, dir, log, k, Some(RecoveredRecord(dir.meta.value, log)));
    }
  }

  /** What a load knows to be on disk: the record it read, and the one it wrote if that was reported successful. */
  function LoadAcknowledged(before: CommandDir, after: CommandDir, p: Persist): set<Record> {
    (if before.meta.Some? then {before.meta.value} else {})
    + (if p.PersistOk? && after.meta.Some? then {after.meta.value} else {})
  }

  function LoadedHistory(h: History, before: CommandDir, after: CommandDir, p: Persist, r: Record): History {
    h.(acked := h.acked + LoadAcknowledged(before, after, p), shown := Some(r), ahead := false)
  }

  function Shelved(c: Command): Command {
    c.(proc := None)
  }

  lemma LoadKeepsCommand(id: Id, c: Command, h: History, p: Persist)
    requires CommandInv(id, c, h) && c.proc.None?
    ensures var r := LoadCommand(id, c.dir, p);
            && CommandInv(id, Command(r.dir, None), h)
            && (r.Loaded? ==>
                  && CommandInv(id, Command(r.dir, Some(Proc(r.record, Finished, false))), LoadedHistory(h, c.dir, r.dir, p, r.record))
                  && (h.shown.Some? ==> Progress(h.shown.value, r.record)))
  {
    hide LoadCommand, CommandInv, DirInv, RecoveredRecord, LoadReady, Progress, LoadedHistory;
    var r := LoadCommand(id, c.dir, p);
    ItsDirInv(id, c, h);
    LoadCommandKeeps(id, c.dir, h.log, h.evicted, p);
    LoadCommandExactly(id, c.dir, h.log, h.evicted);
    LoadedIsAcknowledged(id, c.dir, h.log, h.evicted, p);
    DirReplaced(id, c, h, r.dir);
    if r.Loaded? {
      LoadedInv(id, c, h, r.dir, p);
    }
  }

  lemma ItsDirInv(id: Id, c: Command, h: History)
    requires CommandInv(id, c, h)
    ensures DirInv(id, c.dir, h.log, h.evicted) && |h.log| + 1 < TWO_TO_THE_64
  {
  }

  lemma DirReplaced(id: Id, c: Command, h: History, dir: CommandDir)
    requires CommandInv(id, c, h) && c.proc.None? && DirInv(id, dir, h.log, h.evicted)
    requires dir.meta == c.dir.meta || (c.dir.meta.Some? && dir.meta == Some(RecoveredRecord(c.dir.meta.value, h.log)))
    ensures CommandInv(id, Command(dir, None), h)
  {
    hide Recoverable, Contiguous, IsCommandId;
  }

  lemma LoadedInv(id: Id, c: Command, h: History, dir: CommandDir, p: Persist)
    requires CommandInv(id, c, h) && c.proc.None? && DirInv(id, dir, h.log, h.evicted) && c.dir.meta.Some?
    requires dir.meta == Some(RecoveredRecord(c.dir.meta.value, h.log)) && dir.meta.value in LoadAcknowledged(c.dir, dir, p)
    ensures CommandInv(id, Command(dir, Some(Proc(dir.meta.value, Finished, false))), LoadedHistory(h, c.dir, dir, p, dir.meta.value))
    ensures h.shown.Some? ==> Progress(h.shown.value, dir.meta.value)
  {
    hide Recoverable, Contiguous, IsCommandId, LoadAcknowledged;
  }

  /** A record that a load shows was read from the disk, or written to it with a success reported. */
  lemma LoadedIsAcknowledged(id: Id, dir: CommandDir, log: seq<Event>, k: nat, p: Persist)
    requires DirInv(id, dir, log, k)
    ensures var r := LoadCommand(id, dir, p); r.Loaded? ==> r.record in LoadAcknowledged(dir, r.dir, p)
  {
    LoadCommandCases(id, dir, log, k, p);
    hide ReadAll, LoadCommand, DirInv, SpoolReadable;
  }

  // ----- All commands ------------------------------------------------------------------------

  type Commands = map<Id, Command>
  type Histories = map<Id, History>

  predicate NoRepeats(order: seq<Id>) {
    forall i, j | 0 <= i < j < |order| :: order[i] != order[j]
  }

  /** `order` lists the command directories, each once. */
  predicate Listing(order: seq<Id>, commands: Commands) {
    && NoRepeats(order)
    && (forall id | id in order :: id in commands)
    && (forall id | id in commands :: id in order)
  }

  predicate AllKnown(commands: Commands, order: seq<Id>) {
    forall id | id in order :: id in commands
  }

  predicate SharesRequest(commands: Commands, a: Id, b: Id)
    requires a in commands && b in commands
  {
    && commands[a].dir.meta.Some? && commands[b].dir.meta.Some?
    && commands[a].dir.meta.value.requestId == commands[b].dir.meta.value.requestId
  }

  /**
   The exact condition for a restart with working storage: few enough directories, each with
   metadata and a readable spool, and no request id used twice.
   */
  predicate Bootable(commands: Commands) {
    && |commands| <= MAX_COMMANDS
    && (forall id | id in commands :: LoadReady(commands[id].dir))
    && (forall a, b | a in commands && b in commands && SharesRequest(commands, a, b) :: a == b)
  }

  /** The part of a restart that is about `order`, given the request ids bound so far. */
  predicate BootableFrom(commands: Commands, requests: map<RequestId, Id>, order: seq<Id>)
    requires AllKnown(commands, order)
    decreases |order|
  {
    order != [] ==>
      var id := order[0];
      && LoadReady(commands[id].dir)
      && commands[id].dir.meta.value.requestId !in requests
      && BootableFrom(commands, requests[commands[id].dir.meta.value.requestId := id], order[1..])
  }

  ghost predicate DirsInv(commands: Commands, hist: Histories) {
    && commands.Keys == hist.Keys
    && forall id | id in commands :: DirInv(id, commands[id].dir, hist[id].log, hist[id].evicted)
  }

  /** Changing one directory that is not listed does not matter. */
  lemma {:induction false} BootableFromFrame(commands: Commands, commands': Commands, requests: map<RequestId, Id>, order: seq<Id>)
    requires AllKnown(commands, order) && AllKnown(commands', order)
    requires forall id | id in order :: commands'[id].dir == commands[id].dir
    ensures BootableFrom(commands', requests, order) == BootableFrom(commands, requests, order)
    decreases |order|
  {
    if order != [] && commands[order[0]].dir.meta.Some? {
      BootableFromFrame(commands, commands', requests[commands[order[0]].dir.meta.value.requestId := order[0]], order[1..]);
    }
  }

  /** The command a successful load leaves for a directory. */
  function LoadedCommand(id: Id, dir: CommandDir): Command {
    match LoadCommand(id, dir, PersistOk)
    case Loaded(record, dir') => Command(dir', Some(Proc(record, Finished, false)))
    case LoadFailed(dir') => Command(dir', None)
  }

  lemma RecoveredRequest(id: Id, dir: CommandDir, log: seq<Event>, k: nat)
    requires DirInv(id, dir, log, k)
    ensures dir.meta.Some? ==> RecoveredRecord(dir.meta.value, log).requestId == dir.meta.value.requestId != ""
    ensures LoadReady(dir) ==> dir.meta.Some?
  {
  }

  /** Loading a listing succeeds exactly when every directory in it is ready and brings a new request id. */
  lemma {:induction false} LoadEachExactly(commands: Commands, requests: map<RequestId, Id>, order: seq<Id>, hist: Histories, p: Id -> Persist)
    requires DirsInv(commands, hist) && NoRepeats(order) && AllKnown(commands, order)
    requires forall id | id in order :: p(id).PersistOk?
    ensures var r := LoadEach(commands, requests, order, p);
            && (r.ok <==> BootableFrom(commands, requests, order))
            && r.commands.Keys == commands.Keys
            && (forall id | id in commands && id !in order :: r.commands[id] == commands[id])
            && (r.ok ==> forall id | id in order :: r.commands[id] == LoadedCommand(id, commands[id].dir))
    decreases |order|
  {
    hide LoadCommand, DirInv, LoadReady;
    if order != [] {
      var id, rest := order[0], order[1..];
      LoadCommandExactly(id, commands[id].dir, hist[id].log, hist[id].evicted);
      LoadCommandKeeps(id, commands[id].dir, hist[id].log, hist[id].evicted, PersistOk);
      RecoveredRequest(id, commands[id].dir, hist[id].log, hist[id].evicted);
      match LoadCommand(id, commands[id].dir, PersistOk)
      case LoadFailed(_) =>
      case Loaded(record, dir) =>
        if record.requestId !in requests {
          var commands' := commands[id := Command(dir, Some(Proc(record, Finished, false)))];
          assert NoRepeats(rest) && id !in rest;
          LoadEachExactly(commands', requests[record.requestId := id], rest, hist, p);
          BootableFromFrame(commands, commands', requests[record.requestId := id], rest);
          assert order == [id] + rest;
        }
    }
  }

  lemma {:induction false} BootableFromMeans(commands: Commands, requests: map<RequestId, Id>, order: seq<Id>)
    requires AllKnown(commands, order) && NoRepeats(order)
    ensures BootableFrom(commands, requests, order) <==>
              && (forall id | id in order :: LoadReady(commands[id].dir) && commands[id].dir.meta.value.requestId !in requests)
              && (forall a, b | a in order && b in order && SharesRequest(commands, a, b) :: a == b)
    decreases |order|
  {
    hide SpoolReadable;
    if order != [] {
      var id, rest := order[0], order[1..];
      assert order == [id] + rest && id !in rest && NoRepeats(rest);
      assert forall x :: x in order <==> x == id || x in rest;
      if LoadReady(commands[id].dir) {
        var r := commands[id].dir.meta.value.requestId;
        BootableFromMeans(commands, requests[r := id], rest);
        if BootableFrom(commands, requests[r := id], rest) {
          forall b | b in rest ensures !SharesRequest(commands, id, b) && !SharesRequest(commands, b, id) {
          }
        } else if forall a, b | a in order && b in order && SharesRequest(commands, a, b) :: a == b {
          forall x | x in rest && LoadReady(commands[x].dir) && commands[x].dir.meta.value.requestId !in requests
            ensures commands[x].dir.meta.value.requestId !in requests[r := id]
          {
            assert SharesRequest(commands, x, id) ==> x == id;
          }
        }
      }
    }
  }

  lemma {:induction false} ListingSize(order: seq<Id>, ids: set<Id>)
    requires NoRepeats(order) && (forall id :: id in order <==> id in ids)
    ensures |order| == |ids|
    decreases |order|
  {
    if order != [] {
      var id, rest := order[0], order[1..];
      assert order == [id] + rest && id !in rest && NoRepeats(rest);
      ListingSize(rest, ids - {id});
    } else {
      assert ids == {};
    }
  }

  /** Whatever the storage answers, every directory and every command loaded from `origin` keeps the invariant. */
  ghost predicate Reloaded(commands: Commands, origin: Commands, hist: Histories, p: Id -> Persist) {
    && commands.Keys == hist.Keys == origin.Keys
    && forall id | id in commands :: ReloadedOne(id, commands[id], origin[id], hist[id], p(id))
  }

  ghost predicate ReloadedOne(id: Id, c: Command, origin: Command, h: History, p: Persist) {
    && CommandInv(id, Shelved(c), h)
    && (c.proc.Some? ==>
          && CommandInv(id, c, LoadedHistory(h, origin.dir, c.dir, p, c.proc.value.record))
          && (h.shown.Some? ==> Progress(h.shown.value, c.proc.value.record)))
  }

  /** Request ids and known commands are in one-to-one correspondence. */
  predicate RequestsMatch(commands: Commands, requests: map<RequestId, Id>) {
    && (forall r | r in requests ::
          && requests[r] in commands && commands[requests[r]].proc.Some?
          && commands[requests[r]].proc.value.record.requestId == r)
    && (forall id | id in commands && commands[id].proc.Some? ::
          && commands[id].proc.value.record.requestId in requests
          && requests[commands[id].proc.value.record.requestId] == id)
  }

  lemma {:induction false} LoadEachKeeps(commands: Commands, requests: map<RequestId, Id>, order: seq<Id>, origin: Commands, hist: Histories, p: Id -> Persist)
    requires Reloaded(commands, origin, hist, p) && NoRepeats(order) && AllKnown(commands, order)
    requires forall id | id in order :: commands[id].proc.None? && commands[id].dir == origin[id].dir
    ensures var r := LoadEach(commands, requests, order, p);
            && Reloaded(r.commands, origin, hist, p)
            && (RequestsMatch(commands, requests) && r.ok ==>
                  && RequestsMatch(r.commands, r.requests)
                  && forall id | id in order :: r.commands[id].proc.Some?)
            && (forall id | id in commands && id !in order :: r.commands[id] == commands[id])
    decreases |order|
  {
    hide LoadCommand, CommandInv;
    if order != [] {
      var id, rest := order[0], order[1..];
      assert ReloadedOne(id, commands[id], origin[id], hist[id], p(id)) && Shelved(commands[id]) == commands[id];
      LoadKeepsCommand(id, commands[id], hist[id], p(id));
      LoadedRecordFacts(id, commands[id], hist[id], p(id));
      match LoadCommand(id, commands[id].dir, p(id))
      case LoadFailed(_) =>
      case Loaded(record, dir) =>
        assert Reloaded(commands[id := Command(dir, None)], origin, hist, p);
        if record.requestId !in requests {
          var commands' := commands[id := Command(dir, Some(Proc(record, Finished, false)))];
          var requests' := requests[record.requestId := id];
          assert order == [id] + rest && NoRepeats(rest) && id !in rest;
          assert Reloaded(commands', origin, hist, p);
          if RequestsMatch(commands, requests) {
            RequestsGrow(commands, requests, id, commands'[id]);
          }
          LoadEachKeeps(commands', requests', rest, origin, hist, p);
        }
    }
  }

  lemma LoadedRecordFacts(id: Id, c: Command, h: History, p: Persist)
    requires CommandInv(id, c, h)
    ensures LoadCommand(id, c.dir, p).Loaded? ==> LoadCommand(id, c.dir, p).record.requestId != ""
  {
    LoadCommandKeeps(id, c.dir, h.log, h.evicted, p);
    LoadCommandExactly(id, c.dir, h.log, h.evicted);
  }

  /** Adding a command under a new request id keeps the correspondence. */
  lemma RequestsGrow(commands: Commands, requests: map<RequestId, Id>, id: Id, c: Command)
    requires RequestsMatch(commands, requests) && c.proc.Some?
    requires c.proc.value.record.requestId !in requests
    requires id in commands ==> commands[id].proc.None?
    ensures RequestsMatch(commands[id := c], requests[c.proc.value.record.requestId := id])
  {
  }
}
