/**
 Request ids given out twice: over every run, exactly when a start writes metadata for an id whose
 earlier write, in the same process life, was done although it was reported as failed.
 */
module SupervisorDuplicates {
  import opened Wrappers
  import opened Bytes
  import opened SpoolCodec
  import opened Spool
  import opened SpoolRecovery
  import opened Supervisor
  import opened SupervisorInvariant
  import opened SupervisorRecovery
  import opened SupervisorRuns
  import opened SupervisorTheorems
  import opened SupervisorStarts
  import opened SupervisorRestarts
  import opened SupervisorBlocked

  /** The request ids whose metadata write was done although it was reported as failed, in the present process life. */
  function RenamedAfter(w: World, renamed: set<RequestId>, s: Step): set<RequestId> {
    match s
    case Register(thread, _, p) =>
      if thread in w.sys.pending && Enters(w, thread) && p.FailRenamed? then renamed + {w.sys.pending[thread].requestId} else renamed
    case Crash => {}
    case Restart(_, _) => {}
    case _ => renamed
  }

  /** The start writes metadata for one of them again. */
  predicate WritesAgain(w: World, renamed: set<RequestId>, s: Step) {
    s.Register? && s.thread in w.sys.pending && WritesMetadata(w, s.thread, s.p) && w.sys.pending[s.thread].requestId in renamed
  }

  /** Somewhere in this run, metadata is written again within the process life that renamed it and reported a failure. */
  ghost predicate EverWritesAgain(w: World, renamed: set<RequestId>, steps: seq<Step>)
    requires AllEnabled(w, steps)
    decreases |steps|
  {
    steps != [] && (WritesAgain(w, renamed, steps[0]) || EverWritesAgain(Apply(w, steps[0]), RenamedAfter(w, renamed, steps[0]), steps[1..]))
  }

  predicate KnownOrRenamed(commands: Commands, renamed: set<RequestId>) {
    forall id | id in commands && commands[id].dir.meta.Some? && commands[id].proc.None? :: commands[id].dir.meta.value.requestId in renamed
  }

  ghost predicate RenamedInv(w: World, renamed: set<RequestId>) {
    && WorldInv(w) && UniqueRequests(w.sys.commands)
    && (if w.sys.up then KnownOrRenamed(w.sys.commands, renamed) else renamed == {})
    && (forall r | r in renamed :: exists id :: Carries(w, id, r))
  }

  lemma CarriesStays(w: World, w': World, id: Id, r: RequestId)
    requires Evolves(w, w') && Carries(w, id, r)
    ensures Carries(w', id, r)
  {
  }

  lemma AllCarriedStay(w: World, w': World, renamed: set<RequestId>)
    requires Evolves(w, w') && forall r | r in renamed :: exists id :: Carries(w, id, r)
    ensures forall r | r in renamed :: exists id :: Carries(w', id, r)
  {
    hide Evolves, Carries;
    forall r | r in renamed ensures exists id :: Carries(w', id, r) {
      var id :| Carries(w, id, r);
      CarriesStays(w, w', id, r);
    }
  }

  /** What an unbound request id is carried by was renamed behind a reported failure. */
  lemma UnboundIsRenamed(w: World, renamed: set<RequestId>, requestId: RequestId, id: Id)
    requires RenamedInv(w, renamed) && w.sys.up && requestId !in w.sys.requests && Carries(w, id, requestId)
    ensures requestId in renamed
  {
    assert CommandInv(id, w.sys.commands[id], w.hist[id]);
  }

  lemma RegisterRenames(w: World, renamed: set<RequestId>, thread: nat, id: Id, p: Persist)
    requires RenamedInv(w, renamed) && Enabled(w, Register(thread, id, p))
    ensures var s := Register(thread, id, p);
      if WritesAgain(w, renamed, s) then !UniqueRequests(Apply(w, s).sys.commands) else RenamedInv(Apply(w, s), RenamedAfter(w, renamed, s))
  {
    hide AllCommandsInv, RequestsMatch, KnownCommands, UniqueRequests, Evolves, IsCommandId, RequestsResolve;
    var s := Register(thread, id, p);
    ApplyKeeps(w, s);
    StartDuplicatesExactly(w, thread, id, p);
    AllCarriedStay(w, Apply(w, s), renamed);
    var requestId := w.sys.pending[thread].requestId;
    if WritesMetadata(w, thread, p) {
      if requestId !in renamed {
        if other :| Carries(w, other, requestId) {
          UnboundIsRenamed(w, renamed, requestId, other);
        }
      }
      assert Carries(Apply(w, s), id, requestId);
    }
  }

  lemma OnStaysKnown(w: World, renamed: set<RequestId>, id: Id, s: CommandStep)
    requires WorldInv(w) && Enabled(w, On(id, s)) && UniqueRequests(w.sys.commands) && KnownOrRenamed(w.sys.commands, renamed)
    ensures var w' := Apply(w, On(id, s)); w.sys.up && w'.sys.up && UniqueRequests(w'.sys.commands) && KnownOrRenamed(w'.sys.commands, renamed)
  {
    hide ApplyStep, CommandInv, StepEnabled, SharesRequest, SequenceRoom, RequestsMatch, HistoryAfter;
    OnCommands(w, id, s);
    UniqueFrame(w.sys.commands, Apply(w, On(id, s)).sys.commands);
  }

  lemma OnRenames(w: World, renamed: set<RequestId>, id: Id, s: CommandStep)
    requires RenamedInv(w, renamed) && Enabled(w, On(id, s))
    ensures RenamedInv(Apply(w, On(id, s)), renamed)
  {
    OnNeedsUp(w, id, s);
    hide Apply, Enabled, WorldInv, Evolves, UniqueRequests, KnownOrRenamed, Carries;
    ApplyKeeps(w, On(id, s));
    OnStaysKnown(w, renamed, id, s);
    AllCarriedStay(w, Apply(w, On(id, s)), renamed);
  }

  lemma OnNeedsUp(w: World, id: Id, s: CommandStep)
    requires Enabled(w, On(id, s))
    ensures w.sys.up
  {
  }

  lemma RestartRenames(w: World, order: seq<Id>, p: Id -> Persist)
    requires RenamedInv(w, {}) && Enabled(w, Restart(order, p))
    ensures RenamedInv(Apply(w, Restart(order, p)), {})
  {
    hide WorldInv, Apply, UniqueRequests, Listing;
    ApplyKeeps(w, Restart(order, p));
    RestartIdentity(w, order, p);
  }

  lemma CrashRenames(w: World, renamed: set<RequestId>)
    requires RenamedInv(w, renamed)
    ensures RenamedInv(Apply(w, Crash), {})
  {
    hide WorldInv, UniqueRequests;
    ApplyKeeps(w, Crash);
    CrashUnique(w);
  }

  lemma BeginRenames(w: World, renamed: set<RequestId>, thread: nat, request: StartRequest)
    requires RenamedInv(w, renamed) && Enabled(w, Begin(thread, request))
    ensures RenamedInv(Apply(w, Begin(thread, request)), renamed)
  {
    hide WorldInv, UniqueRequests, Apply, Evolves;
    ApplyKeeps(w, Begin(thread, request));
    AllCarriedStay(w, Apply(w, Begin(thread, request)), renamed);
    BeginChangesNothing(w, thread, request);
    BeginStaysUp(w, thread, request);
  }

  lemma BeginStaysUp(w: World, thread: nat, request: StartRequest)
    requires Enabled(w, Begin(thread, request))
    ensures Apply(w, Begin(thread, request)).sys.up
  {
  }

  lemma StepRenames(w: World, renamed: set<RequestId>, s: Step)
    requires RenamedInv(w, renamed) && Enabled(w, s)
    ensures if WritesAgain(w, renamed, s) then !UniqueRequests(Apply(w, s).sys.commands) else RenamedInv(Apply(w, s), RenamedAfter(w, renamed, s))
  {
    hide RenamedInv, Apply, UniqueRequests, WritesMetadata, Enters;
    match s
    case Begin(thread, request) => BeginRenames(w, renamed, thread, request);
    case Register(thread, id, p) => RegisterRenames(w, renamed, thread, id, p);
    case On(id, s') => OnRenames(w, renamed, id, s');
    case Crash => CrashRenames(w, renamed);
    case Restart(order, p) =>
      NothingRenamed(w, renamed);
      RestartRenames(w, order, p);
  }

  lemma NothingRenamed(w: World, renamed: set<RequestId>)
    requires RenamedInv(w, renamed) && !w.sys.up
    ensures renamed == {}
  {
  }

  lemma DuplicatedRun(w: World, steps: seq<Step>)
    requires WorldInv(w) && AllEnabled(w, steps) && !UniqueRequests(w.sys.commands)
    ensures !UniqueRequests(Run(w, steps).sys.commands)
  {
    RunKeeps(w, steps);
    DuplicatesStay(w, Run(w, steps));
  }

  lemma {:induction false} RenamedRun(w: World, renamed: set<RequestId>, steps: seq<Step>)
    requires RenamedInv(w, renamed) && AllEnabled(w, steps)
    ensures UniqueRequests(Run(w, steps).sys.commands) <==> !EverWritesAgain(w, renamed, steps)
    decreases |steps|
  {
    hide Apply, Enabled, WritesAgain, RenamedAfter, UniqueRequests, Evolves, WorldInv;
    if steps != [] {
      StepRenames(w, renamed, steps[0]);
      if WritesAgain(w, renamed, steps[0]) {
        ApplyKeeps(w, steps[0]);
        DuplicatedRun(Apply(w, steps[0]), steps[1..]);
      } else {
        RenamedRun(Apply(w, steps[0]), RenamedAfter(w, renamed, steps[0]), steps[1..]);
      }
    }
  }

  /**
   Over every run, a request id is on disk twice exactly when some start wrote metadata for an id whose
   earlier write, in the same process life, was done and reported as failed.
   */
  lemma DuplicatedExactly(steps: seq<Step>)
    requires AllEnabled(INITIAL, steps)
    ensures UniqueRequests(Run(INITIAL, steps).sys.commands) <==> !EverWritesAgain(INITIAL, {}, steps)
  {
    InitialWorld();
    assert RenamedInv(INITIAL, {});
    RenamedRun(INITIAL, {}, steps);
  }
}
