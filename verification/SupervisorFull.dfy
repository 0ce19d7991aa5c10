/**
 A run that ends with more directories than a restart accepts, though every start in it stayed within
 the limit on commands.
 */
module SupervisorFull {
  import opened Wrappers
  import opened Bytes
  import opened SpoolCodec
  import opened Spool
  import opened SpoolRecovery
  import opened Supervisor
  import opened SupervisorInvariant
  import opened SupervisorRecovery
  import opened SupervisorRuns
  import opened SupervisorTheorems
  import opened SupervisorStarts
  import opened SupervisorRestarts
  import opened SupervisorBlocked

  /** Running, healthy, no start under way, every directory known. */
  predicate Settled(w: World) {
    w.sys.up && !w.sys.unhealthy && w.sys.pending == map[] && KnownCommands(w.sys) == w.sys.commands.Keys
  }

  /** Each request is admitted and registered under its id, one after the other. */
  function FillSteps(ids: seq<Id>, requests: seq<StartRequest>): seq<Step>
    requires |ids| == |requests|
  {
    if ids == [] then [] else [Begin(0, requests[0])] + ([Register(0, ids[0], PersistOk)] + FillSteps(ids[1..], requests[1..]))
  }

  /** Ids and requests that are new to a world and to each other. */
  predicate Fresh(w: World, ids: seq<Id>, requests: seq<StartRequest>) {
    && |ids| == |requests|
    && (forall i, j | 0 <= i < j < |ids| :: ids[i] != ids[j])
    && (forall i, j | 0 <= i < j < |requests| :: requests[i].requestId != requests[j].requestId)
    && (forall i | 0 <= i < |ids| :: IsCommandId(ids[i]) && ids[i] !in w.sys.commands)
    && (forall i | 0 <= i < |requests| :: requests[i].requestId != "" && requests[i].requestId !in w.sys.requests)
  }

  lemma MatchedResolve(w: World)
    requires WorldInv(w)
    ensures RequestsResolve(w.sys)
    ensures forall id :: id in w.hist <==> id in w.sys.commands
  {
  }

  lemma Admit(w: World, request: StartRequest)
    requires Settled(w) && request.requestId != ""
    ensures Enabled(w, Begin(0, request)) && Apply(w, Begin(0, request)) == w.(sys := w.sys.(pending := map[0 := request]))
  {
    hide KnownCommands;
    assert w.sys.pending[0 := request] == map[0 := request];
  }

  lemma SameKnown(sys: System, sys': System)
    requires sys'.commands == sys.commands
    ensures KnownCommands(sys') == KnownCommands(sys)
  {
  }

  function Filled(sys: System, id: Id, request: StartRequest): System {
    var record := Record(id, request.requestId, request.spec, Starting, 1);
    System(true, sys.commands[id := Command(CommandDir(Some(record), []), Some(Proc(record, Spawning, false)))],
           sys.requests[request.requestId := id], false, map[])
  }

  lemma RegisterFills(w: World, id: Id, request: StartRequest)
    requires w.sys.pending == map[0 := request] && !w.sys.unhealthy
    requires Enabled(w, Register(0, id, PersistOk)) && Enters(w, 0)
    ensures Apply(w, Register(0, id, PersistOk)).sys == Filled(w.sys, id, request)
  {
    hide KnownCommands, IsCommandId, RequestsResolve;
    assert map[0 := request] - {0} == map[];
  }

  lemma FillOne(w: World, id: Id, request: StartRequest)
    requires WorldInv(w) && Settled(w) && |w.sys.commands| < MAX_COMMANDS
    requires IsCommandId(id) && id !in w.sys.commands && request.requestId != "" && request.requestId !in w.sys.requests
    ensures Enabled(w, Begin(0, request)) && Enabled(Apply(w, Begin(0, request)), Register(0, id, PersistOk))
    ensures Apply(Apply(w, Begin(0, request)), Register(0, id, PersistOk)).sys == Filled(w.sys, id, request)
  {
    hide WorldInv, IsCommandId, Apply, Enabled, KnownCommands, Evolves;
    Admit(w, request);
    var mid := Apply(w, Begin(0, request));
    ApplyKeeps(w, Begin(0, request));
    RegisterEnabled(mid, 0, id, PersistOk);
    SameKnown(w.sys, mid.sys);
    assert |w.sys.commands.Keys| == |w.sys.commands|;
    RegisterFills(mid, id, request);
  }

  lemma FilledIsSettled(w: World, w': World, id: Id, request: StartRequest)
    requires Settled(w) && id !in w.sys.commands && w'.sys == Filled(w.sys, id, request)
    ensures Settled(w') && w'.sys.commands.Keys == w.sys.commands.Keys + {id}
    ensures w'.sys.requests.Keys == w.sys.requests.Keys + {request.requestId} && |w'.sys.commands| == |w.sys.commands| + 1
  {
    hide KnownCommands;
    KnownAfterRegister(w.sys, id, w'.sys.commands[id]);
    SameKnown(w.sys.(commands := w'.sys.commands), w'.sys);
    OneMore(w.sys.commands, id, w'.sys.commands[id]);
  }

  lemma OneMore(commands: Commands, id: Id, c: Command)
    requires id !in commands
    ensures commands[id := c].Keys == commands.Keys + {id} && |commands[id := c]| == |commands| + 1
  {
    assert commands[id := c] - {id} == commands;
  }

  lemma RestIsFresh(w: World, w': World, ids: seq<Id>, requests: seq<StartRequest>)
    requires ids != [] && Fresh(w, ids, requests)
    requires w'.sys.commands.Keys == w.sys.commands.Keys + {ids[0]} && w'.sys.requests.Keys == w.sys.requests.Keys + {requests[0].requestId}
    ensures Fresh(w', ids[1..], requests[1..])
  {
    hide IsCommandId;
  }

  /** Registering the first n of them leaves a settled world to which the rest is new. */
  lemma {:induction false} Fill(w: World, ids: seq<Id>, requests: seq<StartRequest>, n: nat)
    requires WorldInv(w) && Settled(w) && Fresh(w, ids, requests) && n <= |ids| && |w.sys.commands| + n <= MAX_COMMANDS
    ensures AllEnabled(w, FillSteps(ids[..n], requests[..n]))
    ensures var w' := Run(w, FillSteps(ids[..n], requests[..n]));
      WorldInv(w') && Settled(w') && |w'.sys.commands| == |w.sys.commands| + n && Fresh(w', ids[n..], requests[n..])
    decreases n
  {
    hide WorldInv, Settled, Fresh, Apply, Enabled, IsCommandId, Evolves, Filled;
    if n == 0 {
      assert ids[0..] == ids && requests[0..] == requests;
    } else {
      FreshFirst(w, ids, requests);
      var id, request := ids[0], requests[0];
      FillOne(w, id, request);
      var mid := Apply(w, Begin(0, request));
      var next := Apply(mid, Register(0, id, PersistOk));
      ApplyKeeps(w, Begin(0, request));
      ApplyKeeps(mid, Register(0, id, PersistOk));
      FilledIsSettled(w, next, id, request);
      RestIsFresh(w, next, ids, requests);
      Fill(next, ids[1..], requests[1..], n - 1);
      FillStepsFirst(ids, requests, n);
      RunFrom(mid, Register(0, id, PersistOk), FillSteps(ids[1..][..n - 1], requests[1..][..n - 1]));
      RunFrom(w, Begin(0, request), [Register(0, id, PersistOk)] + FillSteps(ids[1..][..n - 1], requests[1..][..n - 1]));
      assert ids[1..][n - 1..] == ids[n..] && requests[1..][n - 1..] == requests[n..];
    }
  }

  lemma FreshFirst(w: World, ids: seq<Id>, requests: seq<StartRequest>)
    requires Fresh(w, ids, requests)
    ensures |ids| == |requests|
    ensures ids != [] ==> IsCommandId(ids[0]) && ids[0] !in w.sys.commands && requests[0].requestId != "" && requests[0].requestId !in w.sys.requests
  {
    hide IsCommandId;
  }

  lemma FillStepsFirst(ids: seq<Id>, requests: seq<StartRequest>, n: nat)
    requires 0 < n <= |ids| == |requests|
    ensures FillSteps(ids[..n], requests[..n])
            == [Begin(0, requests[0])] + ([Register(0, ids[0], PersistOk)] + FillSteps(ids[1..][..n - 1], requests[1..][..n - 1]))
  {
    assert ids[..n][1..] == ids[1..][..n - 1] && requests[..n][1..] == requests[1..][..n - 1];
  }

  /** Two starts under way at once; the first write is done and reported as failed. */
  function LastSteps(ids: seq<Id>, requests: seq<StartRequest>): seq<Step>
    requires |ids| == |requests| == 2
  {
    [Begin(0, requests[0])] + ([Begin(1, requests[1])] + ([Register(0, ids[0], FailRenamed)] + ([Register(1, ids[1], PersistOk)] + [])))
  }

  lemma AdmitBoth(w: World, first: StartRequest, second: StartRequest)
    requires Settled(w) && first.requestId != "" && second.requestId != ""
    ensures Enabled(w, Begin(0, first)) && Enabled(Apply(w, Begin(0, first)), Begin(1, second))
    ensures Apply(Apply(w, Begin(0, first)), Begin(1, second)) == w.(sys := w.sys.(pending := map[0 := first, 1 := second]))
  {
    assert map[0 := first][1 := second] == map[0 := first, 1 := second];
  }

  /** A start whose write is done and reported as failed adds a directory and no command. */
  lemma RegisterUnknown(w: World, thread: nat, id: Id)
    requires Enabled(w, Register(thread, id, FailRenamed)) && Enters(w, thread)
    ensures var w' := Apply(w, Register(thread, id, FailRenamed));
      && w'.sys.up && w'.sys.requests == w.sys.requests && w'.sys.pending == w.sys.pending - {thread}
      && w'.sys.commands.Keys == w.sys.commands.Keys + {id}
      && KnownCommands(w'.sys) == KnownCommands(w.sys)
  {
    hide IsCommandId, RequestsResolve;
  }

  lemma RegisterKnown(w: World, thread: nat, id: Id)
    requires Enabled(w, Register(thread, id, PersistOk)) && Enters(w, thread)
    ensures Apply(w, Register(thread, id, PersistOk)).sys.commands.Keys == w.sys.commands.Keys + {id}
  {
    hide IsCommandId, RequestsResolve, KnownCommands;
  }

  lemma RegisterEnabled(w: World, thread: nat, id: Id, p: Persist)
    requires WorldInv(w) && w.sys.up && thread in w.sys.pending && IsCommandId(id) && id !in w.sys.commands
    ensures Enabled(w, Register(thread, id, p))
  {
    MatchedResolve(w);
  }

  lemma LastStepsOverfill(w: World, ids: seq<Id>, requests: seq<StartRequest>)
    requires WorldInv(w) && Settled(w) && Fresh(w, ids, requests) && |ids| == 2 && |w.sys.commands| == MAX_COMMANDS - 1
    ensures AllEnabled(w, LastSteps(ids, requests)) && |Run(w, LastSteps(ids, requests)).sys.commands| == MAX_COMMANDS + 1
  {
    hide WorldInv, IsCommandId, Apply, Enabled, KnownCommands, Evolves, AllEnabled, Run;
    var r0, r1, r2, r3 := Begin(0, requests[0]), Begin(1, requests[1]), Register(0, ids[0], FailRenamed), Register(1, ids[1], PersistOk);
    AdmitBoth(w, requests[0], requests[1]);
    ApplyKeeps(w, r0);
    var w2 := Apply(Apply(w, r0), r1);
    ApplyKeeps(Apply(w, r0), r1);
    SameKnown(w.sys, w2.sys);
    assert |w.sys.commands.Keys| == |w.sys.commands|;
    RegisterEnabled(w2, 0, ids[0], FailRenamed);
    RegisterUnknown(w2, 0, ids[0]);
    ApplyKeeps(w2, r2);
    var w3 := Apply(w2, r2);
    RegisterEnabled(w3, 1, ids[1], PersistOk);
    RegisterKnown(w3, 1, ids[1]);
    TwoMore(w.sys.commands, Apply(w3, r3).sys.commands, ids[0], ids[1]);
    RunFour(w, r0, r1, r2, r3);
  }

  lemma TwoMore(before: Commands, after: Commands, a: Id, b: Id)
    requires after.Keys == before.Keys + {a} + {b} && a != b && a !in before && b !in before
    ensures |after| == |before| + 2
  {
    assert |after| == |after.Keys| && |before| == |before.Keys|;
  }

  lemma RunFour(w: World, a: Step, b: Step, c: Step, d: Step)
    requires Enabled(w, a) && Enabled(Apply(w, a), b) && Enabled(Apply(Apply(w, a), b), c) && Enabled(Apply(Apply(Apply(w, a), b), c), d)
    ensures AllEnabled(w, [a] + ([b] + ([c] + ([d] + []))))
    ensures Run(w, [a] + ([b] + ([c] + ([d] + [])))) == Apply(Apply(Apply(Apply(w, a), b), c), d)
  {
    hide Apply, Enabled;
    var w1 := Apply(w, a);
    var w2 := Apply(w1, b);
    var w3 := Apply(w2, c);
    RunFrom(w3, d, []);
    RunFrom(w2, c, [d] + []);
    RunFrom(w1, b, [c] + ([d] + []));
    RunFrom(w, a, [b] + ([c] + ([d] + [])));
  }

  /** With 255 commands, these starts leave 257 directories, all with metadata and all of different requests, that no restart accepts. */
  lemma FullDiskBlocksRestart(ids: seq<Id>, requests: seq<StartRequest>)
    requires |ids| == |requests| == MAX_COMMANDS + 1 && Fresh(INITIAL, ids, requests)
    ensures var n := MAX_COMMANDS - 1;
            var filling, last := FillSteps(ids[..n], requests[..n]), LastSteps(ids[n..], requests[n..]);
            && AllEnabled(INITIAL, filling) && AllEnabled(Run(INITIAL, filling), last)
            && !Bootable(Run(Run(INITIAL, filling), last).sys.commands)
  {
    hide Fresh, FillSteps, LastSteps, Apply;
    var n := MAX_COMMANDS - 1;
    InitialWorld();
    Fill(INITIAL, ids, requests, n);
    LastStepsOverfill(Run(INITIAL, FillSteps(ids[..n], requests[..n])), ids[n..], requests[n..]);
  }
}
