/**
 What clients are shown was asked for and reported: every answer to a start by its exact condition, every
 visible record after a step field by field, and over every run each command goes back to a start
 request, and each end to the end of a child.
 */
module SupervisorReports {
  import opened Wrappers
  import opened Bytes
  import opened SpoolCodec
  import opened Spool
  import opened SpoolRecovery
  import opened Supervisor
  import opened SupervisorInvariant
  import opened SupervisorRecovery
  import opened SupervisorRuns
  import opened SupervisorTheorems

  // ----- Answers to a start ------------------------------------------------------------------

  /** The command that a request id is bound to shows this specification. */
  predicate BoundTo(sys: System, requestId: RequestId, spec: Spec)
    requires RequestsResolve(sys)
  {
    requestId in sys.requests && sys.commands[sys.requests[requestId]].proc.value.record.spec == spec
  }

  /** A new command is shown as it was asked for: starting, with no output yet. */
  predicate ShownAsAsked(c: Command, id: Id, request: StartRequest) {
    && c.proc.Some? && c.proc.value.phase.Spawning? && !c.proc.value.spoolFailed
    && c.proc.value.record.id == id && c.proc.value.record.requestId == request.requestId
    && c.proc.value.record.spec.argv == request.spec.argv && c.proc.value.record.spec.cwd == request.spec.cwd
    && c.proc.value.record.spec.env == request.spec.env
    && c.proc.value.record.state == Starting && c.proc.value.record.nextSeq == 1
    && c.dir.meta == Some(c.proc.value.record) && c.dir.spool == []
  }

  /** A start that passed the health check: each answer exactly when it is given, and what it leaves. */
  lemma StartAnsweredExactly(sys: System, thread: nat, id: Id, p: Persist)
    requires thread in sys.pending && RequestsResolve(sys) && id !in sys.commands
    ensures var request := sys.pending[thread];
            var (sys', response) := RegisterStart(sys, thread, id, p);
            && (response.Existing? <==> BoundTo(sys, request.requestId, request.spec))
            && (response.Conflict? <==> request.requestId in sys.requests && !BoundTo(sys, request.requestId, request.spec))
            && (response.LimitReached? <==> request.requestId !in sys.requests && |KnownCommands(sys)| >= 256)
            && (response.Created? <==> request.requestId !in sys.requests && |KnownCommands(sys)| < 256 && p.PersistOk?)
            && (response.Existing? ==> response.record == sys.commands[sys.requests[request.requestId]].proc.value.record)
            && (response.Created? ==>
                  && response.id == id && id in sys'.commands && ShownAsAsked(sys'.commands[id], id, request)
                  && sys'.requests == sys.requests[request.requestId := id] && sys'.commands - {id} == sys.commands)
            && (!response.Created? ==> sys'.requests == sys.requests && sys'.commands - {id} == sys.commands)
            && sys'.pending == sys.pending - {thread}
  {
    hide KnownCommands;
  }

  /** The health check admits exactly when no write has failed, and keeps the request. */
  lemma StartAdmittedExactly(sys: System, thread: nat, request: StartRequest)
    requires thread !in sys.pending
    ensures var (sys', response) := BeginStart(sys, thread, request);
            && (response.Admitted? <==> !sys.unhealthy)
            && (if sys.unhealthy then sys' == sys
                else sys' == sys.(pending := sys'.pending) && sys'.pending - {thread} == sys.pending
                     && thread in sys'.pending && sys'.pending[thread] == request)
  {
  }

  // ----- What a step shows -------------------------------------------------------------------

  predicate OnlyState(before: Record, after: Record, state: State) {
    && after.id == before.id && after.requestId == before.requestId && after.spec == before.spec
    && after.nextSeq == before.nextSeq && after.state == state
  }

  /** The visible record after a step: a new state or number exactly when its write succeeded. */
  lemma StepShowsExactly(c: Command, s: CommandStep)
    requires StepEnabled(c, s)
    ensures var c', before := ApplyStep(c, s).command, c.proc.value.record;
            && c'.proc.Some?
            && var after := c'.proc.value.record;
            match s
            case Spawned(p) => c'.proc.value.phase.Collecting? && if p.PersistOk? then OnlyState(before, after, Running) else after == before
            case SpawnFailed(p) => c'.proc.value.phase.Finished? && if p.PersistOk? then OnlyState(before, after, Lost) else after == before
            case Finish(exit, p) =>
              && c'.proc.value.phase.Finished?
              && (if p.PersistOk? then OnlyState(before, after, if c.proc.value.spoolFailed then Lost else exit) else after == before)
            case ReadSpool => c'.proc == c.proc
            case Chunk(_, _, _, _) => c'.proc.value.phase == c.proc.value.phase && (after == before || after == before.(nextSeq := after.nextSeq))
  {
    hide Append, ReadAll;
  }

  /**
   What a load settles on: refused exactly if nothing is retained of a command that had output, or the metadata
   is past the retained output; otherwise the record read, its number after the last retained event, and lost
   if it had not ended.
   */
  lemma SettlesExactly(r: Record, events: seq<Event>)
    requires r.nextSeq >= 1 && (events != [] ==> events[|events| - 1].seqNo + 1 < TWO_TO_THE_64)
    ensures var settled := Recovered(r, events);
            && (settled.None? <==> if events == [] then r.nextSeq > 1 else r.nextSeq > events[|events| - 1].seqNo + 1)
            && (settled.Some? ==>
                  OnlyState(r.(nextSeq := if events == [] then 1 else events[|events| - 1].seqNo + 1), settled.value,
                            if r.state.Starting? || r.state.Running? then Lost else r.state))
  {
  }

  // ----- Over every run ----------------------------------------------------------------------

  /** The start requests that were begun. */
  ghost function Asked(steps: seq<Step>): set<StartRequest> {
    set s | s in steps && s.Begin? :: s.request
  }

  /** What the steps report of a command's child: running once it was spawned, and its end once it was waited for. */
  ghost predicate Reported(steps: seq<Step>, id: Id, state: State) {
    match state
    case Starting => true
    case Lost => true
    case Running => exists p :: On(id, Spawned(p)) in steps
    case _ => exists p :: On(id, Finish(state, p)) in steps
  }

  ghost predicate RecordReported(steps: seq<Step>, id: Id, r: Record) {
    StartRequest(r.requestId, r.spec) in Asked(steps) && Reported(steps, id, r.state)
  }

  /** Everything on disk, in memory and under way goes back to the steps. */
  ghost predicate ReportInv(w: World, steps: seq<Step>) {
    && (forall t | t in w.sys.pending :: w.sys.pending[t] in Asked(steps))
    && (forall id | id in w.sys.commands :: CommandReported(steps, id, w.sys.commands[id]))
  }

  ghost predicate CommandReported(steps: seq<Step>, id: Id, c: Command) {
    && (c.dir.meta.Some? ==> RecordReported(steps, id, c.dir.meta.value))
    && (c.proc.Some? ==> RecordReported(steps, id, c.proc.value.record))
  }

  lemma ReportedLater(steps: seq<Step>, more: seq<Step>, id: Id, r: Record)
    requires RecordReported(steps, id, r)
    ensures RecordReported(steps + more, id, r)
  {
    assert Asked(steps) <= Asked(steps + more);
    assert forall s | s in steps :: s in steps + more;
  }

  lemma CommandReportedLater(steps: seq<Step>, more: seq<Step>, id: Id, c: Command)
    requires CommandReported(steps, id, c)
    ensures CommandReported(steps + more, id, c)
  {
    hide RecordReported;
    if c.dir.meta.Some? {
      ReportedLater(steps, more, id, c.dir.meta.value);
    }
    if c.proc.Some? {
      ReportedLater(steps, more, id, c.proc.value.record);
    }
  }

  lemma AskedLater(steps: seq<Step>, s: Step)
    ensures Asked(steps) <= Asked(steps + [s]) && (s.Begin? ==> s.request in Asked(steps + [s]))
  {
    assert s in steps + [s];
    assert forall s' | s' in steps :: s' in steps + [s];
  }

  /** The record a step writes, whether or not it is shown. */
  lemma StepReports(steps: seq<Step>, id: Id, c: Command, s: CommandStep)
    requires CommandReported(steps, id, c) && StepEnabled(c, s)
    ensures CommandReported(steps + [On(id, s)], id, ApplyStep(c, s).command)
  {
    hide Append, ReadAll, Asked;
    var more := steps + [On(id, s)];
    assert On(id, s) in more;
    CommandReportedLater(steps, [On(id, s)], id, c);
  }

  lemma OnReports(w: World, steps: seq<Step>, id: Id, s: CommandStep)
    requires ReportInv(w, steps) && Enabled(w, On(id, s))
    ensures ReportInv(Apply(w, On(id, s)), steps + [On(id, s)])
  {
    hide ApplyStep, CommandReported, StepEnabled, HistoryAfter, SequenceRoom, Asked;
    AskedLater(steps, On(id, s));
    StepReports(steps, id, w.sys.commands[id], s);
    forall other | other in w.sys.commands ensures CommandReported(steps + [On(id, s)], other, w.sys.commands[other]) {
      CommandReportedLater(steps, [On(id, s)], other, w.sys.commands[other]);
    }
  }

  lemma RegisterReports(w: World, steps: seq<Step>, thread: nat, id: Id, p: Persist)
    requires ReportInv(w, steps) && Enabled(w, Register(thread, id, p))
    ensures ReportInv(Apply(w, Register(thread, id, p)), steps + [Register(thread, id, p)])
  {
    hide IsCommandId, RequestsResolve, KnownCommands, Asked;
    AskedLater(steps, Register(thread, id, p));
    forall other | other in w.sys.commands ensures CommandReported(steps + [Register(thread, id, p)], other, w.sys.commands[other]) {
      CommandReportedLater(steps, [Register(thread, id, p)], other, w.sys.commands[other]);
    }
  }

  lemma BeginReports(w: World, steps: seq<Step>, thread: nat, request: StartRequest)
    requires ReportInv(w, steps) && Enabled(w, Begin(thread, request))
    ensures ReportInv(Apply(w, Begin(thread, request)), steps + [Begin(thread, request)])
  {
    hide CommandReported, Asked;
    AskedLater(steps, Begin(thread, request));
    forall id | id in w.sys.commands ensures CommandReported(steps + [Begin(thread, request)], id, w.sys.commands[id]) {
      CommandReportedLater(steps, [Begin(thread, request)], id, w.sys.commands[id]);
    }
  }

  lemma CrashReports(w: World, steps: seq<Step>)
    requires ReportInv(w, steps)
    ensures ReportInv(Apply(w, Crash), steps + [Crash])
  {
    hide RecordReported;
    forall id | id in w.sys.commands ensures CommandReported(steps + [Crash], id, w.sys.commands[id]) {
      CommandReportedLater(steps, [Crash], id, w.sys.commands[id]);
    }
  }

  /** A load settles on the record it read, or on its loss. */
  lemma LoadReports(steps: seq<Step>, id: Id, dir: CommandDir, p: Persist)
    requires dir.meta.Some? ==> RecordReported(steps, id, dir.meta.value)
    ensures match LoadCommand(id, dir, p)
            case Loaded(record, dir') => RecordReported(steps, id, record) && dir'.meta == Some(record)
            case LoadFailed(dir') => dir'.meta.Some? ==> RecordReported(steps, id, dir'.meta.value)
  {
    hide ReadAll, Asked, IsCommandId;
  }

  lemma {:induction false} LoadEachReports(steps: seq<Step>, commands: map<Id, Command>, requests: map<RequestId, Id>, order: seq<Id>, p: Id -> Persist)
    requires (forall id | id in order :: id in commands) && (forall id | id in commands :: CommandReported(steps, id, commands[id]))
    ensures forall id | id in LoadEach(commands, requests, order, p).commands ::
              CommandReported(steps, id, LoadEach(commands, requests, order, p).commands[id])
    decreases |order|
  {
    hide LoadCommand, RecordReported;
    if order != [] {
      var id := order[0];
      LoadReports(steps, id, commands[id].dir, p(id));
      match LoadCommand(id, commands[id].dir, p(id))
      case LoadFailed(_) =>
      case Loaded(record, dir) =>
        if record.requestId == "" || record.requestId !in requests {
          var requests' := if record.requestId == "" then requests else requests[record.requestId := id];
          LoadEachReports(steps, commands[id := Command(dir, Some(Proc(record, Finished, false)))], requests', order[1..], p);
        }
    }
  }

  lemma RestartReports(w: World, steps: seq<Step>, order: seq<Id>, p: Id -> Persist)
    requires ReportInv(w, steps) && Enabled(w, Restart(order, p))
    ensures ReportInv(Apply(w, Restart(order, p)), steps + [Restart(order, p)])
  {
    hide LoadEach, RecordReported, Listing;
    var more := steps + [Restart(order, p)];
    forall id | id in w.sys.commands ensures CommandReported(more, id, w.sys.commands[id]) {
      CommandReportedLater(steps, [Restart(order, p)], id, w.sys.commands[id]);
    }
    ListedAreCommands(w, order, p);
    LoadEachReports(more, Forget(w.sys.commands), map[], order, p);
  }

  lemma ListedAreCommands(w: World, order: seq<Id>, p: Id -> Persist)
    requires Enabled(w, Restart(order, p))
    ensures forall id | id in order :: id in w.sys.commands
  {
  }

  lemma StepKeepsReports(w: World, steps: seq<Step>, s: Step)
    requires ReportInv(w, steps) && Enabled(w, s)
    ensures ReportInv(Apply(w, s), steps + [s])
  {
    hide ReportInv, Apply, Enabled;
    match s
    case Begin(thread, request) => BeginReports(w, steps, thread, request);
    case Register(thread, id, p) => RegisterReports(w, steps, thread, id, p);
    case On(id, s') => OnReports(w, steps, id, s');
    case Crash => CrashReports(w, steps);
    case Restart(order, p) => RestartReports(w, steps, order, p);
  }

  lemma {:induction false} RunReports(w: World, past: seq<Step>, steps: seq<Step>)
    requires ReportInv(w, past) && AllEnabled(w, steps)
    ensures ReportInv(Run(w, steps), past + steps)
    decreases |steps|
  {
    hide ReportInv, Apply, Enabled;
    if steps == [] {
      assert past + [] == past;
    } else {
      StepKeepsReports(w, past, steps[0]);
      RunReports(Apply(w, steps[0]), past + [steps[0]], steps[1..]);
      assert past + [steps[0]] + steps[1..] == past + steps;
    }
  }

  /**
   Over every run, whatever fails or dies: a visible command was asked for, by a start with exactly its
   request id and specification; it runs only after it was spawned, and an exit code or signal it shows is
   the one its child ended with.
   */
  lemma ShownWasReported(steps: seq<Step>, id: Id)
    requires AllEnabled(INITIAL, steps) && Visible(Run(INITIAL, steps), id)
    ensures var r := VisibleRecord(Run(INITIAL, steps), id);
            && (exists s :: s in steps && s.Begin? && s.request.requestId == r.requestId && s.request.spec == r.spec)
            && (r.state.Running? ==> exists p :: On(id, Spawned(p)) in steps)
            && (r.state.Exited? || r.state.Signaled? ==> exists p :: On(id, Finish(r.state, p)) in steps)
  {
    RunReports(INITIAL, [], steps);
    assert [] + steps == steps;
    var r := VisibleRecord(Run(INITIAL, steps), id);
    assert CommandReported(steps, id, Run(INITIAL, steps).sys.commands[id]);
    assert StartRequest(r.requestId, r.spec) in Asked(steps);
  }
}
