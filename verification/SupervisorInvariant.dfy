/**
 What every step of the supervisor keeps true of one command: its directory, its in-memory
 state and the history of what happened to it.
 */
module SupervisorInvariant {
  import opened Wrappers
  import opened Bytes
  import opened SpoolCodec
  import opened Spool
  import opened SpoolRecovery
  import opened Supervisor

  /**
   History variables.  `log` is every event whose record reached the disk, in order, and `evicted` how
   many of its oldest events have been evicted since; `acked` every record whose write was reported
   successful or which a restart read back; `shown` the record last visible to clients; `failed` whether
   the spool of the command ever failed; `ahead` whether, since the last restart, the chunk at which it
   failed had reached the disk.
   */
  datatype History = History(log: seq<Event>, evicted: nat, acked: set<Record>, shown: Option<Record>, failed: bool, ahead: bool)

  /** The records a step reports as persisted. */
  function Acknowledged(c: Command, s: CommandStep): set<Record>
    requires StepEnabled(c, s)
  {
    var proc := c.proc.value;
    match s
    case Spawned(p) => if p.PersistOk? then {proc.record.(state := Running)} else {}
    case SpawnFailed(p) => if p.PersistOk? then {proc.record.(state := Lost)} else {}
    case Chunk(stream, data, fault, p) =>
      if !proc.spoolFailed && Append(c.dir.spool, ChunkEvent(proc.record, stream, data), SPOOL_BUDGET, fault).ok && p.PersistOk?
      then {proc.record.(nextSeq := NextSeq(proc.record.nextSeq))} else {}
    case Finish(exit, p) => if p.PersistOk? then {proc.record.(state := if proc.spoolFailed then Lost else exit)} else {}
    case ReadSpool => {}
  }

  function LogAfter(c: Command, log: seq<Event>, s: CommandStep): seq<Event>
    requires StepEnabled(c, s)
  {
    match s
    case Chunk(stream, data, fault, _) =>
      var e := ChunkEvent(c.proc.value.record, stream, data);
      if !c.proc.value.spoolFailed && Landed(c.dir.spool, e, SPOOL_BUDGET, fault) then log + [e] else log
    case _ => log
  }

  /** A chunk evicts the events of the segments that its append removes. */
  function EvictedAfter(c: Command, evicted: nat, s: CommandStep): nat
    requires StepEnabled(c, s)
  {
    match s
    case Chunk(stream, data, fault, _) =>
      var parts, e := c.dir.spool, ChunkEvent(c.proc.value.record, stream, data);
      if c.proc.value.spoolFailed then evicted else evicted + StoredIn(parts[..Removed(parts, e, SPOOL_BUDGET, fault)])
    case _ => evicted
  }

  /** A chunk reached the disk although its append, or the metadata write after it, was reported as failed. */
  predicate LandsUnreported(c: Command, s: CommandStep)
    requires StepEnabled(c, s)
  {
    && s.Chunk? && !c.proc.value.spoolFailed
    && var e := ChunkEvent(c.proc.value.record, s.stream, s.data);
       && Landed(c.dir.spool, e, SPOOL_BUDGET, s.fault)
       && !(Append(c.dir.spool, e, SPOOL_BUDGET, s.fault).ok && s.p.PersistOk?)
  }

  function HistoryAfter(c: Command, h: History, s: CommandStep): History
    requires StepEnabled(c, s) && ApplyStep(c, s).command.proc.Some?
  {
    var after := ApplyStep(c, s).command.proc.value;
    History(LogAfter(c, h.log, s), EvictedAfter(c, h.evicted, s), h.acked + Acknowledged(c, s), Some(after.record),
            h.failed || after.spoolFailed, h.ahead || LandsUnreported(c, s))
  }

  /** Event i of the log carries sequence number i + 1. */
  predicate Contiguous(log: seq<Event>) {
    forall i | 0 <= i < |log| :: log[i].seqNo == i + 1
  }

  /** Room for one more event before the 64-bit sequence number wraps around. */
  predicate SequenceRoom(log: seq<Event>) {
    |log| + 2 < TWO_TO_THE_64
  }

  ghost predicate DirInv(id: Id, dir: CommandDir, log: seq<Event>, evicted: nat) {
    && IsCommandId(id)
    && Contiguous(log) && |log| + 1 < TWO_TO_THE_64
    && Recoverable(dir.spool, log, evicted)
    && (dir.meta.Some? ==>
          && dir.meta.value.id == id
          && dir.meta.value.requestId != ""
          && 1 <= dir.meta.value.nextSeq <= |log| + 1)
  }

  /** Until the spool fails the record is in step with it: the next number is the one after the last event stored. */
  ghost predicate ProcInv(id: Id, dir: CommandDir, proc: Proc, log: seq<Event>, evicted: nat) {
    var r := proc.record;
    && dir.meta.Some?
    && r.id == id && r.requestId == dir.meta.value.requestId && r.spec == dir.meta.value.spec
    && 1 <= r.nextSeq && r.nextSeq - 1 <= |log| <= r.nextSeq
    && (proc.phase.Spawning? ==> r.state.Starting? && !proc.spoolFailed)
    && (proc.phase.Collecting? ==> r.state.Starting? || r.state.Running?)
    && (!proc.spoolFailed ==> |log| == r.nextSeq - 1)
    && (!proc.phase.Finished? && !proc.spoolFailed ==> BoundedFrom(dir.spool, log, evicted, SPOOL_BUDGET))
    && (!proc.phase.Finished? ==> !Terminal(r.state) && !Terminal(dir.meta.value.state))
    && (Terminal(r.state) ==> dir.meta.value == r)
  }

  /** A command whose spool failed can only end as lost. */
  predicate FailedInv(c: Command, h: History) {
    && (c.proc.Some? && c.proc.value.spoolFailed ==> h.failed)
    && (h.failed && c.dir.meta.Some? && Terminal(c.dir.meta.value.state) ==> c.dir.meta.value.state.Lost?)
    && (h.failed && c.proc.Some? && Terminal(c.proc.value.record.state) ==> c.proc.value.record.state.Lost?)
    && (h.failed && c.proc.Some? && !c.proc.value.phase.Finished? ==> c.proc.value.spoolFailed)
  }

  /** The last visible record is durable: it was acknowledged, and the directory still accounts for it. */
  predicate ShownInv(dir: CommandDir, shown: Record, h: History) {
    && shown in h.acked
    && dir.meta.Some?
    && shown.id == dir.meta.value.id && shown.requestId == dir.meta.value.requestId && shown.spec == dir.meta.value.spec
    && shown.nextSeq - 1 <= |h.log| <= shown.nextSeq
    && (Terminal(shown.state) ==> dir.meta.value.state == shown.state)
  }

  /** The spool is one event ahead of the record exactly when the chunk at which it failed had reached the disk. */
  predicate AheadInv(c: Command, h: History) {
    c.proc.Some? ==> (h.ahead <==> |h.log| == c.proc.value.record.nextSeq) && (h.ahead ==> c.proc.value.spoolFailed)
  }

  ghost predicate CommandInv(id: Id, c: Command, h: History) {
    && DirInv(id, c.dir, h.log, h.evicted)
    && (c.dir.meta.None? ==> c.proc.None? && h.shown.None?)
    && (c.proc.Some? ==> ProcInv(id, c.dir, c.proc.value, h.log, h.evicted) && h.shown == Some(c.proc.value.record))
    && (h.shown.Some? ==> ShownInv(c.dir, h.shown.value, h))
    && FailedInv(c, h) && AheadInv(c, h)
  }

  /** A record may only move forward, and a terminal outcome is final. */
  predicate Progress(before: Record, after: Record) {
    && after.id == before.id && after.requestId == before.requestId && after.spec == before.spec
    && Rank(before.state) <= Rank(after.state)
    && before.nextSeq <= after.nextSeq
    && (Terminal(before.state) ==> after.state == before.state)
  }

  function Rank(s: State): nat {
    if s.Starting? then 0 else if s.Running? then 1 else 2
  }

  lemma {:induction false} AscendingSnoc(es: seq<Event>, e: Event, previous: int)
    requires Ascending(es, previous) && LastSeq(es, previous) < e.seqNo
    ensures Ascending(es + [e], previous)
  {
    if es == [] {
      assert es + [e] == [e];
    } else {
      AscendingSnoc(es[1..], e, es[0].seqNo);
      assert (es + [e])[1..] == es[1..] + [e];
    }
  }

  lemma NextIsAscending(log: seq<Event>, e: Event)
    requires Contiguous(log) && Ascending(log, 0) && e.seqNo == |log| + 1
    ensures Ascending(log + [e], 0) && Contiguous(log + [e])
  {
    AscendingSnoc(log, e, 0);
  }

  /** Appending one chunk to a healthy spool: it either lands and extends the log, or leaves the log where it was; only what it evicts is lost. */
  lemma ChunkLands(parts: seq<Segment>, log: seq<Event>, k: nat, e: Event, fault: Fault)
    requires BoundedFrom(parts, log, k, SPOOL_BUDGET) && Contiguous(log) && e.seqNo == |log| + 1 && WellSized(e)
    ensures var r := Append(parts, e, SPOOL_BUDGET, fault);
            var k' := k + StoredIn(parts[..Removed(parts, e, SPOOL_BUDGET, fault)]);
            && (r.ok ==> Landed(parts, e, SPOOL_BUDGET, fault))
            && (Landed(parts, e, SPOOL_BUDGET, fault) ==> BoundedFrom(r.parts, log + [e], k', SPOOL_BUDGET) && Contiguous(log + [e]))
            && (!Landed(parts, e, SPOOL_BUDGET, fault) ==> Recoverable(r.parts, log, k'))
  {
    hide BoundedFrom, Append, Removed, StoredIn, Landed, Recoverable;
    BoundedIsRecoverable(parts, log, k, SPOOL_BUDGET);
    NextIsAscending(log, e);
    AppendEvicts(parts, log, k, e, SPOOL_BUDGET, fault);
  }

  /** How far one step can move the eviction: no further than the append of a chunk plans to, and not at all unless it has to. */
  lemma EvictionIsBounded(id: Id, c: Command, h: History, s: CommandStep)
    requires CommandInv(id, c, h) && StepEnabled(c, s)
    ensures EvictedAfter(c, h.evicted, s) > h.evicted ==>
              && s.Chunk? && !c.proc.value.spoolFailed
              && var e := ChunkEvent(c.proc.value.record, s.stream, s.data);
                 var n, appendBytes := Removed(c.dir.spool, e, SPOOL_BUDGET, s.fault), |EncodeEvent(e)| + |VERSION_HEADER|;
              && 0 < n <= Evictions(c.dir.spool, appendBytes, SPOOL_BUDGET)
              && EvictedAfter(c, h.evicted, s) == h.evicted + StoredIn(c.dir.spool[..n])
              && TotalBytes(c.dir.spool[n - 1..]) + appendBytes > SPOOL_BUDGET
  {
    hide Recoverable, BoundedLog, EncodeEvent, TotalBytes, Evictions;
    if s.Chunk? && !c.proc.value.spoolFailed {
      var e := ChunkEvent(c.proc.value.record, s.stream, s.data);
      var groups :| BoundedLog(c.dir.spool, groups, h.log, SPOOL_BUDGET);
      SegmentsAreSmall(c.dir.spool, groups, h.log);
      RemovedForNeed(c.dir.spool, e, SPOOL_BUDGET, s.fault);
      assert StoredIn([]) == 0 && c.dir.spool[..0] == [];
    }
  }

  lemma SegmentsAreSmall(parts: seq<Segment>, groups: seq<seq<Event>>, log: seq<Event>)
    requires BoundedLog(parts, groups, log, SPOOL_BUDGET)
    ensures SmallSegments(parts)
  {
  }

  // ----- Reading a recoverable spool ---------------------------------------------------------

  /** Reading returns the log without the k events that were evicted. */
  predicate ReadsFrom(parts: seq<Segment>, log: seq<Event>, k: nat) {
    && k <= |log| && (log != [] ==> k < |log|)
    && ReadAll(parts).result == Events(log[k..])
  }

  lemma ReadRetainedFrom(parts: seq<Segment>, groups: seq<seq<Event>>, tail: Tail, log: seq<Event>, k: nat)
    requires Retains(parts, groups, tail, log) && k + |Flatten(groups)| == |log|
    ensures if SpoolReadable(parts) then ReadsFrom(parts, log, k) else ReadAll(parts) == ReadOutcome(ReadFailed, parts)
    ensures ReadAll(ReadAll(parts).parts) == ReadAll(parts)
  {
    SuffixFacts(Flatten(groups), log);
    ReadShaped(parts, groups, tail);
    ReadableTail(parts, groups, tail);
    ReadIsFixedPoint(parts, groups, tail);
    hide ReadAll, Ascending, AllWellSized, SpoolReadable;
    if log != [] {
      NonEmptyFlatten(parts, groups, tail);
    }
  }

  lemma RepairedRetains(parts: seq<Segment>, groups: seq<seq<Event>>, tail: Tail, log: seq<Event>)
    requires Retains(parts, groups, tail, log)
    ensures var parts' := ReadAll(parts).parts;
            (SpoolReadable(parts') <==> SpoolReadable(parts)) && exists tail' :: Retains(parts', groups, tail', log)
  {
    SuffixFacts(Flatten(groups), log);
    ReadShaped(parts, groups, tail);
    ReadableTail(parts, groups, tail);
    hide ReadAll, Ascending, AllWellSized, SpoolReadable, Flatten;
    if Readable(tail) {
      RepairedShape(parts, groups, tail);
      assert Retains(Repaired(parts, groups, tail), groups, RepairedTail(tail), log);
      ReadableTail(Repaired(parts, groups, tail), groups, RepairedTail(tail));
    }
  }

  /** Exactly the spools whose newest segment has its header can be read, and reading repairs them once and for all. */
  lemma ReadRecoverable(parts: seq<Segment>, log: seq<Event>, k: nat)
    requires Recoverable(parts, log, k)
    ensures !SpoolReadable(parts) ==> ReadAll(parts) == ReadOutcome(ReadFailed, parts)
    ensures SpoolReadable(parts) ==> ReadsFrom(parts, log, k)
    ensures SpoolReadable(ReadAll(parts).parts) <==> SpoolReadable(parts)
    ensures Recoverable(ReadAll(parts).parts, log, k)
    ensures ReadAll(ReadAll(parts).parts) == ReadAll(parts)
  {
    hide Retains, ReadAll, SpoolReadable, ReadsFrom, Flatten;
    var groups, tail :| Retains(parts, groups, tail, log) && k + |Flatten(groups)| == |log|;
    ReadRetainedFrom(parts, groups, tail, log, k);
    RepairedRetains(parts, groups, tail, log);
  }

  lemma NonEmptyFlatten(parts: seq<Segment>, groups: seq<seq<Event>>, tail: Tail)
    requires Shaped(parts, groups, tail) && groups != []
    ensures Flatten(groups) != []
  {
    match tail
    case Clean => assert groups[0] != [];
    case TornRecord(_) =>
      if |groups| > 1 {
        assert groups[..|groups| - 1][0] != [];
      }
    case NewSegment(_, _) => assert groups[0] != [];
  }

  // ----- One step ----------------------------------------------------------------------------

  /** A transition that moves the record forward keeps the invariant, whatever the verdict on the write. */
  lemma TransitionKeeps(id: Id, c: Command, h: History, r: Record, p: Persist, phase: Phase, spoolFailed: bool, acked: set<Record>)
    requires CommandInv(id, c, h) && c.proc.Some?
    requires !c.proc.value.phase.Finished?
    requires Progress(c.proc.value.record, r) && r.nextSeq <= |h.log| + 1
    requires var shown := if p.PersistOk? then r else c.proc.value.record;
             && shown.nextSeq - 1 <= |h.log| <= shown.nextSeq
             && (!spoolFailed ==> |h.log| == shown.nextSeq - 1)
             && (phase.Spawning? ==> shown.state.Starting? && !spoolFailed)
             && (phase.Collecting? ==> shown.state.Starting? || shown.state.Running?)
             && (!phase.Finished? && !spoolFailed ==> BoundedFrom(c.dir.spool, h.log, h.evicted, SPOOL_BUDGET))
             && (Terminal(r.state) ==> phase.Finished? && (h.failed || spoolFailed ==> r.state.Lost?))
    requires c.proc.value.spoolFailed ==> spoolFailed
    requires h.failed && !phase.Finished? ==> spoolFailed
    requires (h.ahead <==> |h.log| == (if p.PersistOk? then r else c.proc.value.record).nextSeq) && (h.ahead ==> spoolFailed)
    requires p.PersistOk? ==> r in acked
    ensures var result := Transition(c, r, p, phase, spoolFailed);
            CommandInv(id, result.command,
                       History(h.log, h.evicted, h.acked + acked, Some(result.command.proc.value.record), h.failed || spoolFailed, h.ahead))
  {
    hide Recoverable, BoundedFrom, Contiguous, IsCommandId;
  }

  /** The command after the append, before the metadata is advanced, as if collection stopped there. */
  lemma AppendKeeps(id: Id, c: Command, h: History, e: Event, fault: Fault)
    requires CommandInv(id, c, h) && SequenceRoom(h.log) && WellSized(e)
    requires c.proc.Some? && c.proc.value.phase.Collecting? && !c.proc.value.spoolFailed
    requires e.seqNo == c.proc.value.record.nextSeq
    ensures var appended := Append(c.dir.spool, e, SPOOL_BUDGET, fault);
            var landed := Landed(c.dir.spool, e, SPOOL_BUDGET, fault);
            var log := if landed then h.log + [e] else h.log;
            var evicted := h.evicted + StoredIn(c.dir.spool[..Removed(c.dir.spool, e, SPOOL_BUDGET, fault)]);
            var dir := c.dir.(spool := appended.parts);
            && (appended.ok ==> landed)
            && (landed ==> BoundedFrom(dir.spool, log, evicted, SPOOL_BUDGET))
            && CommandInv(id, Command(dir, Some(c.proc.value.(spoolFailed := true))), h.(log := log, evicted := evicted, failed := true, ahead := landed))
  {
    hide Append, Landed, Recoverable, BoundedFrom, StoredIn, Removed, IsCommandId;
    ChunkLands(c.dir.spool, h.log, h.evicted, e, fault);
    if Landed(c.dir.spool, e, SPOOL_BUDGET, fault) {
      BoundedIsRecoverable(Append(c.dir.spool, e, SPOOL_BUDGET, fault).parts, h.log + [e],
                           h.evicted + StoredIn(c.dir.spool[..Removed(c.dir.spool, e, SPOOL_BUDGET, fault)]), SPOOL_BUDGET);
    }
  }

  /** Advancing the metadata past an event that is already in the spool. */
  lemma AdvanceKeeps(id: Id, c: Command, h: History, p: Persist, acked: set<Record>)
    requires CommandInv(id, c, h)
    requires c.proc.Some? && c.proc.value.phase.Collecting? && c.proc.value.spoolFailed
    requires |h.log| == c.proc.value.record.nextSeq && BoundedFrom(c.dir.spool, h.log, h.evicted, SPOOL_BUDGET)
    requires p.PersistOk? ==> c.proc.value.record.(nextSeq := NextSeq(c.proc.value.record.nextSeq)) in acked
    ensures var r := c.proc.value.record;
            var result := Transition(c, r.(nextSeq := NextSeq(r.nextSeq)), p, Collecting, !p.PersistOk?);
            CommandInv(id, result.command,
                       History(h.log, h.evicted, h.acked + acked, Some(result.command.proc.value.record), !p.PersistOk?, !p.PersistOk?))
  {
    hide Recoverable, BoundedFrom, Contiguous, IsCommandId;
    assert NextSeq(c.proc.value.record.nextSeq) == |h.log| + 1;
  }

  lemma ChunkKeeps(id: Id, c: Command, h: History, stream: Stream, data: seq<byte>, fault: Fault, p: Persist)
    requires CommandInv(id, c, h) && StepEnabled(c, Chunk(stream, data, fault, p)) && SequenceRoom(h.log)
    ensures var s := Chunk(stream, data, fault, p);
            CommandInv(id, ApplyStep(c, s).command, HistoryAfter(c, h, s))
  {
    hide CommandInv, BoundedFrom, Append, Landed, StoredIn, Removed;
    var s := Chunk(stream, data, fault, p);
    var proc := c.proc.value;
    assert h.acked + {} == h.acked;
    CommandFacts(id, c, h);
    if !proc.spoolFailed {
      var e := ChunkEvent(proc.record, stream, data);
      var appended := Append(c.dir.spool, e, SPOOL_BUDGET, fault);
      AppendKeeps(id, c, h, e, fault);
      if appended.ok {
        var mid := Command(c.dir.(spool := appended.parts), Some(proc.(spoolFailed := true)));
        AdvanceKeeps(id, mid, h.(log := h.log + [e], evicted := EvictedAfter(c, h.evicted, s), failed := true, ahead := true), p, Acknowledged(c, s));
      }
    }
  }

  lemma CommandFacts(id: Id, c: Command, h: History)
    requires CommandInv(id, c, h) && c.proc.Some?
    ensures h.shown == Some(c.proc.value.record) && c.proc.value.record.nextSeq >= 1
    ensures c.proc.value.spoolFailed ==> h.failed
    ensures !c.proc.value.phase.Finished? && !c.proc.value.spoolFailed ==> !h.failed
    ensures !c.proc.value.spoolFailed ==> |h.log| + 1 == c.proc.value.record.nextSeq
    ensures h.ahead <==> |h.log| == c.proc.value.record.nextSeq
    ensures h.ahead ==> c.proc.value.spoolFailed
  {
  }

  lemma SpoolReplaced(id: Id, c: Command, h: History, parts: seq<Segment>)
    requires CommandInv(id, c, h) && Recoverable(parts, h.log, h.evicted)
    requires BoundedFrom(c.dir.spool, h.log, h.evicted, SPOOL_BUDGET) ==> parts == c.dir.spool
    ensures CommandInv(id, c.(dir := c.dir.(spool := parts)), h)
  {
    hide BoundedFrom, Recoverable, Contiguous, IsCommandId;
  }

  lemma ReadRepairs(id: Id, c: Command, h: History)
    requires CommandInv(id, c, h)
    ensures Recoverable(ReadAll(c.dir.spool).parts, h.log, h.evicted)
    ensures BoundedFrom(c.dir.spool, h.log, h.evicted, SPOOL_BUDGET) ==> ReadAll(c.dir.spool).parts == c.dir.spool
  {
    hide ReadAll, Recoverable, BoundedFrom;
    ReadRecoverable(c.dir.spool, h.log, h.evicted);
    if BoundedFrom(c.dir.spool, h.log, h.evicted, SPOOL_BUDGET) {
      BoundedIsRecoverable(c.dir.spool, h.log, h.evicted, SPOOL_BUDGET);
    }
  }

  lemma ReadKeeps(id: Id, c: Command, h: History)
    requires CommandInv(id, c, h) && c.proc.Some?
    ensures CommandInv(id, ApplyStep(c, ReadSpool).command, HistoryAfter(c, h, ReadSpool))
  {
    hide ReadAll, CommandInv, Recoverable, BoundedFrom;
    ReadRepairs(id, c, h);
    SpoolReplaced(id, c, h, ReadAll(c.dir.spool).parts);
    CommandFacts(id, c, h);
    assert HistoryAfter(c, h, ReadSpool) == h;
  }

  lemma SpawnedKeeps(id: Id, c: Command, h: History, p: Persist)
    requires CommandInv(id, c, h) && StepEnabled(c, Spawned(p))
    ensures CommandInv(id, ApplyStep(c, Spawned(p)).command, HistoryAfter(c, h, Spawned(p)))
  {
    hide Recoverable, BoundedFrom, Contiguous, IsCommandId;
    CommandFacts(id, c, h);
    TransitionKeeps(id, c, h, c.proc.value.record.(state := Running), p, Collecting, false, Acknowledged(c, Spawned(p)));
  }

  lemma SpawnFailedKeeps(id: Id, c: Command, h: History, p: Persist)
    requires CommandInv(id, c, h) && StepEnabled(c, SpawnFailed(p))
    ensures CommandInv(id, ApplyStep(c, SpawnFailed(p)).command, HistoryAfter(c, h, SpawnFailed(p)))
  {
    hide Recoverable, BoundedFrom, Contiguous, IsCommandId;
    CommandFacts(id, c, h);
    TransitionKeeps(id, c, h, c.proc.value.record.(state := Lost), p, Finished, false, Acknowledged(c, SpawnFailed(p)));
  }

  lemma FinishKeeps(id: Id, c: Command, h: History, exit: State, p: Persist)
    requires CommandInv(id, c, h) && StepEnabled(c, Finish(exit, p))
    ensures CommandInv(id, ApplyStep(c, Finish(exit, p)).command, HistoryAfter(c, h, Finish(exit, p)))
  {
    hide Recoverable, BoundedFrom, Contiguous, IsCommandId;
    CommandFacts(id, c, h);
    var failed := c.proc.value.spoolFailed;
    TransitionKeeps(id, c, h, c.proc.value.record.(state := if failed then Lost else exit), p, Finished, failed, Acknowledged(c, Finish(exit, p)));
  }

  lemma StepProgress(id: Id, c: Command, h: History, s: CommandStep)
    requires CommandInv(id, c, h) && StepEnabled(c, s) && SequenceRoom(h.log)
    ensures Progress(c.proc.value.record, ApplyStep(c, s).command.proc.value.record)
    ensures h.log <= LogAfter(c, h.log, s)
  {
    hide Append, ReadAll, Landed, Recoverable, BoundedFrom;
  }

  /** Durable visibility and lifecycle, one step: the invariant is kept and the visible record only moves forward. */
  lemma StepKeeps(id: Id, c: Command, h: History, s: CommandStep)
    requires CommandInv(id, c, h) && StepEnabled(c, s) && SequenceRoom(h.log)
    ensures CommandInv(id, ApplyStep(c, s).command, HistoryAfter(c, h, s))
    ensures Progress(c.proc.value.record, ApplyStep(c, s).command.proc.value.record)
    ensures h.log <= LogAfter(c, h.log, s)
  {
    StepProgress(id, c, h, s);
    hide CommandInv, ApplyStep, HistoryAfter, Progress, LogAfter;
    match s
    case Spawned(p) => SpawnedKeeps(id, c, h, p);
    case SpawnFailed(p) => SpawnFailedKeeps(id, c, h, p);
    case Chunk(stream, data, fault, p) => ChunkKeeps(id, c, h, stream, data, fault, p);
    case Finish(exit, p) => FinishKeeps(id, c, h, exit, p);
    case ReadSpool => ReadKeeps(id, c, h);
  }

  /** The visible cursor moves forward on a stored chunk exactly while the 64-bit sequence has not run out. */
  lemma SequenceAdvancesExactly(c: Command, stream: Stream, data: seq<byte>)
    requires StepEnabled(c, Chunk(stream, data, NoFault, PersistOk)) && !c.proc.value.spoolFailed
    requires Append(c.dir.spool, ChunkEvent(c.proc.value.record, stream, data), SPOOL_BUDGET, NoFault).ok
    ensures var after := ApplyStep(c, Chunk(stream, data, NoFault, PersistOk)).command.proc.value.record;
            after.nextSeq > c.proc.value.record.nextSeq <==> c.proc.value.record.nextSeq < TWO_TO_THE_64 - 1
  {
  }
}
