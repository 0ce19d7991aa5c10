/**
 The disk a command takes: over every run, whatever fails or dies, its spool stays within its budget and
 each of its files within the size of a segment.
 */
module SupervisorDisk {
  import opened Wrappers
  import opened Bytes
  import opened SpoolCodec
  import opened Spool
  import opened SpoolRecovery
  import opened Supervisor
  import opened SupervisorInvariant
  import opened SupervisorRecovery
  import opened SupervisorRuns
  import opened SupervisorTheorems
  import opened SupervisorStarts
  import opened SupervisorRestarts

  predicate Within(parts: seq<Segment>) {
    SmallSegments(parts) && TotalBytes(parts) <= SPOOL_BUDGET
  }

  lemma {:induction false} InsertTotal(parts: seq<Segment>, added: Segment)
    ensures TotalBytes(InsertSegment(parts, added)) == TotalBytes(parts) + |added.data|
    ensures SmallSegments(parts) && |added.data| <= SPOOL_SEGMENT_BYTES ==> SmallSegments(InsertSegment(parts, added))
    decreases |parts|
  {
    if parts == [] || added.first < parts[0].first {
      TotalBytesAppend([added], parts);
      TotalBytesSingle(added);
    } else {
      InsertTotal(parts[1..], added);
      TotalBytesAppend([parts[0]], InsertSegment(parts[1..], added));
      TotalBytesSingle(parts[0]);
    }
  }

  lemma {:induction false} SuffixWithin(parts: seq<Segment>, n: nat)
    requires n <= |parts|
    ensures TotalBytes(parts[n..]) <= TotalBytes(parts) && (SmallSegments(parts) ==> SmallSegments(parts[n..]))
    decreases n
  {
    if n == 0 {
      assert parts[0..] == parts;
    } else {
      SuffixWithin(parts[1..], n - 1);
      assert parts[1..][n - 1..] == parts[n..];
    }
  }

  lemma RotatingWithin(parts: seq<Segment>, e: Event, fault: Fault)
    requires Within(parts) && Fits(e, SPOOL_BUDGET)
    ensures Within(AppendRotating(parts, e, SPOOL_BUDGET, fault).parts)
  {
    hide EncodeEvent, TotalBytes, Evictions;
    var appendBytes := |EncodeEvent(e)| + |VERSION_HEADER|;
    var planned := Evictions(parts, appendBytes, SPOOL_BUDGET);
    EvictionsTight(parts, appendBytes, SPOOL_BUDGET);
    SuffixWithin(parts, planned);
    if fault.FailRemove? && fault.removed < planned {
      SuffixWithin(parts, fault.removed);
    }
    InsertTotal(parts[planned..], Segment(e.seqNo, Written(VERSION_HEADER + EncodeEvent(e), fault)));
  }

  lemma ExtendingWithin(parts: seq<Segment>, e: Event, fault: Fault)
    requires Within(parts) && !Rotates(parts, |EncodeEvent(e)|, SPOOL_BUDGET)
    ensures Within(AppendExtending(parts, e, fault).parts)
  {
    hide EncodeEvent, TotalBytes;
    var n := |parts| - 1;
    var grown := Segment(parts[n].first, parts[n].data + Written(EncodeEvent(e), fault));
    assert parts == parts[..n] + [parts[n]] && parts[n := grown] == parts[..n] + [grown];
    TotalBytesAppend(parts[..n], [parts[n]]);
    TotalBytesAppend(parts[..n], [grown]);
    TotalBytesSingle(parts[n]);
    TotalBytesSingle(grown);
  }

  /** An append that stops anywhere stays within the budget. */
  lemma AppendWithin(parts: seq<Segment>, e: Event, fault: Fault)
    requires Within(parts)
    ensures Within(Append(parts, e, SPOOL_BUDGET, fault).parts)
  {
    hide Within, AppendRotating, AppendExtending, EncodeEvent, Rotates, Fits;
    if Fits(e, SPOOL_BUDGET) && !fault.FailEarly? {
      if Rotates(parts, |EncodeEvent(e)|, SPOOL_BUDGET) {
        RotatingWithin(parts, e, fault);
      } else {
        ExtendingWithin(parts, e, fault);
      }
    }
  }

  /** Reading only cuts. */
  lemma {:induction false} ReadWithin(parts: seq<Segment>, previous: int)
    ensures TotalBytes(ReadFrom(parts, previous).parts) <= TotalBytes(parts)
    ensures SmallSegments(parts) ==> SmallSegments(ReadFrom(parts, previous).parts)
    decreases |parts|
  {
    if parts != [] {
      SegmentCut(parts[0], |parts| == 1, previous);
      assert parts == [parts[0]] + parts[1..];
      match ReadSegment(parts[0], |parts| == 1, previous)
      case Rejected(kept) =>
        TotalBytesAppend([kept], parts[1..]);
        TotalBytesSingle(kept);
      case Accepted(items, kept) =>
        var rest := ReadFrom(parts[1..], LastSeq(items, previous));
        ReadWithin(parts[1..], LastSeq(items, previous));
        TotalBytesAppend([kept], rest.parts);
        TotalBytesSingle(kept);
    }
  }

  lemma SegmentCut(part: Segment, last: bool, previous: int)
    ensures match ReadSegment(part, last, previous)
            case Rejected(kept) => |kept.data| <= |part.data|
            case Accepted(_, kept) => |kept.data| <= |part.data|
  {
  }

  lemma StepWithin(c: Command, s: CommandStep)
    requires StepEnabled(c, s) && Within(c.dir.spool)
    ensures Within(ApplyStep(c, s).command.dir.spool)
  {
    hide ApplyStep, Within, Append, ReadFrom;
    StepSpool(c, s);
    match s
    case Chunk(stream, data, fault, _) => AppendWithin(c.dir.spool, ChunkEvent(c.proc.value.record, stream, data), fault);
    case ReadSpool => ReadAllWithin(c.dir.spool);
    case _ =>
  }

  lemma ReadAllWithin(parts: seq<Segment>)
    requires Within(parts)
    ensures Within(ReadAll(parts).parts)
  {
    ReadWithin(parts, 0);
  }

  predicate AllWithin(commands: map<Id, Command>) {
    forall id | id in commands :: Within(commands[id].dir.spool)
  }

  lemma LoadWithin(id: Id, dir: CommandDir, p: Persist)
    requires Within(dir.spool)
    ensures Within(LoadCommand(id, dir, p).dir.spool)
  {
    hide Within, ReadAll, Recovered, IsCommandId;
    ReadAllWithin(dir.spool);
  }

  lemma {:induction false} LoadEachWithin(commands: map<Id, Command>, requests: map<RequestId, Id>, order: seq<Id>, p: Id -> Persist)
    requires (forall id | id in order :: id in commands) && AllWithin(commands)
    ensures AllWithin(LoadEach(commands, requests, order, p).commands)
    decreases |order|
  {
    hide LoadCommand, Within;
    if order != [] {
      var id := order[0];
      LoadWithin(id, commands[id].dir, p(id));
      match LoadCommand(id, commands[id].dir, p(id))
      case LoadFailed(_) =>
      case Loaded(record, dir) =>
        if record.requestId == "" || record.requestId !in requests {
          var requests' := if record.requestId == "" then requests else requests[record.requestId := id];
          LoadEachWithin(commands[id := Command(dir, Some(Proc(record, Finished, false)))], requests', order[1..], p);
        }
    }
  }

  lemma RestartWithin(w: World, order: seq<Id>, p: Id -> Persist)
    requires Enabled(w, Restart(order, p)) && AllWithin(w.sys.commands)
    ensures AllWithin(Apply(w, Restart(order, p)).sys.commands)
  {
    hide LoadEach, Within;
    LoadEachWithin(Forget(w.sys.commands), map[], order, p);
  }

  lemma RegisterWithin(w: World, thread: nat, id: Id, p: Persist)
    requires Enabled(w, Register(thread, id, p)) && AllWithin(w.sys.commands)
    ensures AllWithin(Apply(w, Register(thread, id, p)).sys.commands)
  {
    hide IsCommandId, RequestsResolve, KnownCommands;
  }

  lemma ApplyWithin(w: World, s: Step)
    requires Enabled(w, s) && AllWithin(w.sys.commands)
    ensures AllWithin(Apply(w, s).sys.commands)
  {
    match s
    case Begin(thread, request) => BeginChangesNothing(w, thread, request);
    case Register(thread, id, p) => RegisterWithin(w, thread, id, p);
    case On(id, s') => OnWithin(w, id, s');
    case Crash => CrashWithin(w);
    case Restart(order, p) => RestartWithin(w, order, p);
  }

  lemma OnWithin(w: World, id: Id, s: CommandStep)
    requires Enabled(w, On(id, s)) && AllWithin(w.sys.commands)
    ensures AllWithin(Apply(w, On(id, s)).sys.commands)
  {
    hide ApplyStep, Within, StepEnabled, HistoryAfter, SequenceRoom;
    StepWithin(w.sys.commands[id], s);
  }

  lemma CrashWithin(w: World)
    requires AllWithin(w.sys.commands)
    ensures AllWithin(Apply(w, Crash).sys.commands)
  {
    hide Within;
  }

  lemma {:induction false} RunWithin(w: World, steps: seq<Step>)
    requires AllEnabled(w, steps) && AllWithin(w.sys.commands)
    ensures AllWithin(Run(w, steps).sys.commands)
    decreases |steps|
  {
    hide Apply, Enabled, AllWithin;
    if steps != [] {
      ApplyWithin(w, steps[0]);
      RunWithin(Apply(w, steps[0]), steps[1..]);
    }
  }

  /** Over every run the files of a command's spool hold at most 8 MiB less 64 KiB together and 256 KiB each. */
  lemma SpoolStaysBounded(steps: seq<Step>, id: Id)
    requires AllEnabled(INITIAL, steps) && id in Run(INITIAL, steps).sys.commands
    ensures var parts := Run(INITIAL, steps).sys.commands[id].dir.spool;
            TotalBytes(parts) <= SPOOL_BUDGET == 8_323_072 && forall i | 0 <= i < |parts| :: |parts[i].data| <= 262_144
  {
    RunWithin(INITIAL, steps);
    assert Within(Run(INITIAL, steps).sys.commands[id].dir.spool);
  }
}
