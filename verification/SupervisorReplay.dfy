/** Output replay: one connection, and a client that follows a command across a whole run. */
module SupervisorReplay {
  import opened Wrappers
  import opened Bytes
  import opened SpoolCodec
  import opened Spool
  import opened SpoolRecovery
  import opened Supervisor
  import opened SupervisorInvariant
  import opened SupervisorRecovery
  import opened SupervisorRuns
  import opened SupervisorTheorems

  /** `After` over a contiguous log, from the k-th event on. */
  lemma {:induction false} AfterSuffix(log: seq<Event>, k: nat, after: uint64)
    requires Contiguous(log) && k <= |log|
    ensures After(log[k..], after) == log[if after <= k then k else if after <= |log| then after else |log|..]
    decreases |log| - k
  {
    if k < |log| {
      AfterSuffix(log, k + 1, after);
      assert log[k..][1..] == log[k + 1..];
      if after <= k {
        assert [log[k]] + log[k + 1..] == log[k..];
      }
    }
  }

  /**
   One connection, exactly.  The cursor is invalid iff it is at or past the next number; the read fails
   iff the newest segment has lost its header; the cursor has expired iff the event after it was
   evicted; otherwise the answer is the generated output after the cursor, and one event more iff the
   spool has failed at a chunk that had reached the disk.
   */
  lemma ConnectExactly(id: Id, c: Command, h: History, after: uint64)
    requires CommandInv(id, c, h) && c.proc.Some?
    ensures var n := c.proc.value.record.nextSeq;
            && 0 <= n - 1 <= |h.log|
            && Connect(c, after) == (
                 if after >= n then InvalidCursor
                 else if !SpoolReadable(c.dir.spool) then ReplayFailed
                 else if after < h.evicted then CursorExpired
                 else Replayed(h.log[after..], n - 1))
            && (after < n ==> h.log[after..] == h.log[after..n - 1] + if h.ahead then [h.log[n - 1]] else [])
            && (h.ahead ==> c.proc.value.spoolFailed && |h.log| == n)
  {
    hide CommandInv, ReadAll, Recoverable, SpoolReadable, ReadsFrom, Connect, Contiguous;
    ConnectFacts(id, c, h);
    ReadRecoverable(c.dir.spool, h.log, h.evicted);
    ConnectInvalid(c, after);
    if after < c.proc.value.record.nextSeq {
      SliceToEnd(h.log, after, c.proc.value.record.nextSeq);
      if SpoolReadable(c.dir.spool) {
        ConnectReadable(c, h.log, h.evicted, after);
      }
    }
  }

  /** A log of n - 1 events, or of one more. */
  lemma SliceToEnd(log: seq<Event>, after: nat, n: nat)
    requires after < n && n - 1 <= |log| <= n
    ensures log[after..] == log[after..n - 1] + if |log| == n then [log[n - 1]] else []
  {
  }

  lemma ConnectInvalid(c: Command, after: uint64)
    requires c.proc.Some? && 1 <= c.proc.value.record.nextSeq
    ensures after >= c.proc.value.record.nextSeq ==> Connect(c, after) == InvalidCursor
    ensures after < c.proc.value.record.nextSeq && ReadAll(c.dir.spool).result.ReadFailed? ==> Connect(c, after) == ReplayFailed
  {
    hide ReadAll;
  }

  /** While the spool has not failed, the answer is exactly the generated output after the cursor. */
  lemma ReplayIsExact(id: Id, c: Command, h: History, after: uint64)
    requires CommandInv(id, c, h) && c.proc.Some? && !c.proc.value.spoolFailed && Connect(c, after).Replayed?
    ensures var r := Connect(c, after);
            after <= r.nextCursor == c.proc.value.record.nextSeq - 1 == |h.log| && r.events == h.log[after..r.nextCursor]
  {
    hide CommandInv, Connect;
    ConnectExactly(id, c, h, after);
    assert h.log[after..] == h.log[after..|h.log|];
  }

  lemma ConnectFacts(id: Id, c: Command, h: History)
    requires CommandInv(id, c, h) && c.proc.Some?
    ensures 1 <= c.proc.value.record.nextSeq <= |h.log| + 1 < TWO_TO_THE_64
    ensures Recoverable(c.dir.spool, h.log, h.evicted) && Contiguous(h.log)
    ensures |h.log| <= c.proc.value.record.nextSeq && (h.ahead <==> |h.log| == c.proc.value.record.nextSeq)
    ensures h.ahead ==> c.proc.value.spoolFailed
  {
  }

  lemma SequenceArithmetic(n: uint64, after: uint64)
    requires 1 <= n
    ensures PreviousSeq(n) == n - 1
    ensures after < n ==> NextSeq(after) == after + 1
  {
  }

  lemma ConnectReadable(c: Command, log: seq<Event>, k: nat, after: uint64)
    requires c.proc.Some? && Contiguous(log) && |log| + 1 < TWO_TO_THE_64 && ReadsFrom(c.dir.spool, log, k)
    requires 1 <= c.proc.value.record.nextSeq && after < c.proc.value.record.nextSeq <= |log| + 1
    ensures Connect(c, after) == if after < k then CursorExpired else Replayed(log[after..], c.proc.value.record.nextSeq - 1)
  {
    hide ReadAll, After, Contiguous;
    var n := c.proc.value.record.nextSeq;
    SequenceArithmetic(n, after);
    AfterSuffix(log, k, after);
    FirstOfSuffix(log, k);
  }

  lemma FirstOfSuffix(log: seq<Event>, k: nat)
    requires Contiguous(log) && k <= |log|
    ensures k < |log| ==> log[k..] != [] && log[k..][0].seqNo == k + 1
    ensures k == |log| ==> log[k..] == []
  {
  }

  // ----- Following a command -----------------------------------------------------------------

  datatype Followed = Followed(events: seq<Event>, cursor: uint64, world: World) | LostTrack

  /** What a client takes from an answer: all of it, or only the events up to the cursor it was given. */
  function Taken(r: Replay, upToCursor: bool): seq<Event>
    requires r.Replayed?
  {
    var n := |r.events|;
    if upToCursor && n > 0 && r.events[n - 1].seqNo > r.nextCursor then r.events[..n - 1] else r.events
  }

  /**
   A client that alternates with the supervisor: any steps happen, then it connects at its
   cursor and moves the cursor to the one it was given.
   */
  ghost function Follow(w: World, id: Id, cursor: uint64, rounds: seq<seq<Step>>, upToCursor: bool): Followed
    requires Scheduled(w, id, rounds)
    decreases |rounds|
  {
    if rounds == [] then Followed([], cursor, w)
    else
      var now := Run(w, rounds[0]);
      var r := Connect(now.sys.commands[id], cursor);
      if !r.Replayed? then LostTrack
      else
        match Follow(Apply(now, On(id, ReadSpool)), id, r.nextCursor, rounds[1..], upToCursor)
        case LostTrack => LostTrack
        case Followed(more, last, final) => Followed(Taken(r, upToCursor) + more, last, final)
  }

  /** Every round can run, and ends with the command visible. */
  ghost predicate Scheduled(w: World, id: Id, rounds: seq<seq<Step>>)
    decreases |rounds|
  {
    rounds != [] ==>
      && AllEnabled(w, rounds[0])
      && var now := Run(w, rounds[0]);
      && Visible(now, id) && Enabled(now, On(id, ReadSpool))
      && Scheduled(Apply(now, On(id, ReadSpool)), id, rounds[1..])
  }

  /** At no connection has the spool failed since the last restart. */
  ghost predicate Unfailed(w: World, id: Id, rounds: seq<seq<Step>>)
    requires Scheduled(w, id, rounds)
    decreases |rounds|
  {
    rounds != [] ==>
      && var now := Run(w, rounds[0]);
      && !now.sys.commands[id].proc.value.spoolFailed
      && Unfailed(Apply(now, On(id, ReadSpool)), id, rounds[1..])
  }

  /**
   Chained cursors, across any appends, evictions, failures, deaths and restarts: the concatenation of
   what the client took is the command's output from the first cursor to the last, without gap or
   repeat.  The client may take whole answers while the spool has not failed, and in any case when it
   takes events up to the cursor it is given only.
   */
  lemma {:induction false} FollowIsGapless(w: World, id: Id, cursor: uint64, rounds: seq<seq<Step>>, upToCursor: bool)
    requires WorldInv(w) && Scheduled(w, id, rounds) && (upToCursor || Unfailed(w, id, rounds))
    ensures var r := Follow(w, id, cursor, rounds, upToCursor);
            && (r.Followed? && rounds != [] ==>
                  && id in r.world.hist && cursor <= r.cursor <= |r.world.hist[id].log|
                  && r.events == r.world.hist[id].log[cursor..r.cursor])
            && (r.Followed? && id in w.hist ==> id in r.world.hist && w.hist[id].log <= r.world.hist[id].log)
    decreases |rounds|
  {
    hide AllCommandsInv, Evolves, Enabled, Apply, Run, AllEnabled, Connect, Taken;
    if rounds != [] {
      var now := Run(w, rounds[0]);
      var next := Apply(now, On(id, ReadSpool));
      RoundKeeps(w, id, rounds[0]);
      var r := Connect(now.sys.commands[id], cursor);
      if r.Replayed? {
        TakenExactly(now, id, cursor, upToCursor);
        FollowIsGapless(next, id, r.nextCursor, rounds[1..], upToCursor);
        var rest := Follow(next, id, r.nextCursor, rounds[1..], upToCursor);
        if rest.Followed? {
          if rounds[1..] == [] {
            assert Taken(r, upToCursor) + [] == Taken(r, upToCursor);
          } else {
            JoinSlices(now.hist[id].log, rest.world.hist[id].log, cursor, r.nextCursor, rest.cursor);
          }
        }
      }
    }
  }

  lemma RoundKeeps(w: World, id: Id, steps: seq<Step>)
    requires WorldInv(w) && AllEnabled(w, steps) && Enabled(Run(w, steps), On(id, ReadSpool))
    ensures var now := Run(w, steps);
            var next := Apply(now, On(id, ReadSpool));
            && WorldInv(now) && WorldInv(next)
            && id in now.hist && id in next.hist && next.hist[id].log == now.hist[id].log
            && (id in w.hist ==> w.hist[id].log <= now.hist[id].log)
  {
    var now := Run(w, steps);
    RunKeeps(w, steps);
    ApplyKeeps(now, On(id, ReadSpool));
    ReadingKeepsLog(now, id);
    if id in w.hist {
      assert HistoryGrows(w.hist[id], now.hist[id]);
    }
  }

  lemma ReadingKeepsLog(w: World, id: Id)
    requires Enabled(w, On(id, ReadSpool))
    ensures id in w.hist && id in Apply(w, On(id, ReadSpool)).hist
    ensures Apply(w, On(id, ReadSpool)).hist[id].log == w.hist[id].log
  {
    hide ReadAll;
  }

  lemma TakenExactly(w: World, id: Id, cursor: uint64, upToCursor: bool)
    requires WorldInv(w) && Visible(w, id)
    requires Connect(w.sys.commands[id], cursor).Replayed?
    requires upToCursor || !w.sys.commands[id].proc.value.spoolFailed
    ensures var r := Connect(w.sys.commands[id], cursor);
            && id in w.hist && cursor <= r.nextCursor <= |w.hist[id].log|
            && Taken(r, upToCursor) == w.hist[id].log[cursor..r.nextCursor]
  {
    ItsCommandInv(w, id);
    hide WorldInv, Connect;
    TakenFromCommand(id, w.sys.commands[id], w.hist[id], cursor, upToCursor);
  }

  lemma ItsCommandInv(w: World, id: Id)
    requires WorldInv(w) && id in w.sys.commands
    ensures id in w.hist && CommandInv(id, w.sys.commands[id], w.hist[id])
  {
  }

  lemma TakenFromCommand(id: Id, c: Command, h: History, cursor: uint64, upToCursor: bool)
    requires CommandInv(id, c, h) && c.proc.Some? && Connect(c, cursor).Replayed?
    requires upToCursor || !c.proc.value.spoolFailed
    ensures var r := Connect(c, cursor);
            cursor <= r.nextCursor <= |h.log| && Taken(r, upToCursor) == h.log[cursor..r.nextCursor]
  {
    hide CommandInv, Connect, Recoverable, Contiguous, Taken, SpoolReadable;
    ConnectFacts(id, c, h);
    ConnectExactly(id, c, h, cursor);
    TakenSlice(h.log, cursor, c.proc.value.record.nextSeq, upToCursor);
  }

  lemma TakenSlice(log: seq<Event>, cursor: uint64, n: uint64, upToCursor: bool)
    requires Contiguous(log) && cursor < n && n - 1 <= |log| <= n && (upToCursor || |log| == n - 1)
    ensures Taken(Replayed(log[cursor..], n - 1), upToCursor) == log[cursor..n - 1]
  {
    var answer := log[cursor..];
    if answer != [] {
      assert answer[|answer| - 1] == log[|log| - 1];
    }
    assert |log| == n ==> answer[..|answer| - 1] == log[cursor..n - 1];
  }

  lemma JoinSlices(log: seq<Event>, longer: seq<Event>, from: nat, mid: nat, to: nat)
    requires from <= mid <= |log| && log <= longer && mid <= to <= |longer|
    ensures log[from..mid] + longer[mid..to] == longer[from..to]
  {
  }

  // ----- Beyond the cursor -------------------------------------------------------------------

  predicate AnswersBeyond(w: World, id: Id, cursor: uint64) {
    && Visible(w, id)
    && var r := Connect(w.sys.commands[id], cursor);
       r.Replayed? && r.events != [] && r.events[|r.events| - 1].seqNo > r.nextCursor
  }

  /** When an answer goes past the cursor it reports: exactly when the spool failed at a chunk that had reached the disk. */
  lemma AnswersBeyondExactly(w: World, id: Id, cursor: uint64)
    requires WorldInv(w) && Visible(w, id) && Connect(w.sys.commands[id], cursor).Replayed?
    ensures AnswersBeyond(w, id, cursor) <==> id in w.hist && w.hist[id].ahead
  {
    ItsCommandInv(w, id);
    hide WorldInv, Connect;
    var c, h := w.sys.commands[id], w.hist[id];
    ConnectExactly(id, c, h, cursor);
    if cursor < |h.log| {
      LastOfAnswer(id, c, h, cursor);
    }
  }

  lemma LastOfAnswer(id: Id, c: Command, h: History, cursor: uint64)
    requires CommandInv(id, c, h) && c.proc.Some? && cursor < |h.log|
    ensures h.log[cursor..] != [] && h.log[cursor..][|h.log[cursor..]| - 1].seqNo == |h.log|
  {
  }

  lemma FirstAppend(e: Event)
    requires |e.data| == 1
    ensures Append([], e, SPOOL_BUDGET, NoFault) == AppendOutcome(true, [Segment(e.seqNo, VERSION_HEADER + EncodeEvent(e))])
    ensures Landed([], e, SPOOL_BUDGET, NoFault) && Removed([], e, SPOOL_BUDGET, NoFault) == 0
  {
    assert Evictions([], |EncodeEvent(e)| + |VERSION_HEADER|, SPOOL_BUDGET) == 0;
  }

  /** A command whose child runs and has written nothing. */
  function Collecting(a: Id, request: StartRequest): World {
    var entered := Record(a, request.requestId, request.spec, Starting, 1);
    var running := entered.(state := Running);
    var c := Command(CommandDir(Some(running), []), Some(Proc(running, Phase.Collecting, false)));
    World(System(true, map[a := c], map[request.requestId := a], false, map[]),
          map[a := History([], 0, {entered, running}, Some(running), false, false)])
  }

  function StartSteps(a: Id, request: StartRequest): seq<Step> {
    [Begin(0, request)] + ([Register(0, a, PersistOk)] + ([On(a, Spawned(PersistOk))] + []))
  }

  lemma CollectingReached(a: Id, request: StartRequest)
    requires IsCommandId(a) && request.requestId != ""
    ensures AllEnabled(INITIAL, StartSteps(a, request)) && Run(INITIAL, StartSteps(a, request)) == Collecting(a, request)
  {
    hide Append, ReadAll, Landed, Removed, IsCommandId;
    var w1 := Apply(INITIAL, Begin(0, request));
    assert KnownCommands(w1.sys) == {};
    var w2 := Apply(w1, Register(0, a, PersistOk));
    var w3 := Apply(w2, On(a, Spawned(PersistOk)));
    RunFrom(w2, On(a, Spawned(PersistOk)), []);
    RunFrom(w1, Register(0, a, PersistOk), [On(a, Spawned(PersistOk))] + []);
    RunFrom(INITIAL, Begin(0, request), [Register(0, a, PersistOk)] + ([On(a, Spawned(PersistOk))] + []));
    assert w3.sys.commands == Collecting(a, request).sys.commands;
    assert w3.hist[a].acked == Collecting(a, request).hist[a].acked;
    assert w3.hist == Collecting(a, request).hist;
  }

  const UNREPORTED := Chunk(Stdout, [0], NoFault, FailDirOnly)

  lemma UnreportedChunk(a: Id, request: StartRequest)
    requires IsCommandId(a) && request.requestId != ""
    ensures var w := Collecting(a, request);
            && Enabled(w, On(a, UNREPORTED))
            && var w' := Apply(w, On(a, UNREPORTED));
            && Visible(w', a) && a in w'.hist && w'.hist[a].ahead && w'.hist[a].evicted == 0
            && w'.sys.commands[a].proc.value.record.nextSeq == 1 && SpoolReadable(w'.sys.commands[a].dir.spool)
  {
    hide Append, ReadAll, Landed, Removed, IsCommandId, EncodeEvent;
    FirstAppend(ChunkEvent(Collecting(a, request).sys.commands[a].proc.value.record, Stdout, [0]));
  }

  /** A chunk that is stored although the metadata write after it fails is answered beyond the reported cursor. */
  lemma UnreportedChunkIsAnswered(a: Id, request: StartRequest)
    requires IsCommandId(a) && request.requestId != ""
    ensures AllEnabled(INITIAL, StartSteps(a, request))
    ensures var w := Run(INITIAL, StartSteps(a, request));
            && Enabled(w, On(a, UNREPORTED))
            && AnswersBeyond(Apply(w, On(a, UNREPORTED)), a, 0)
  {
    hide Apply, Enabled, AllEnabled, Run, IsCommandId, Connect, SpoolReadable, CommandInv, AnswersBeyond;
    CollectingReached(a, request);
    UnreportedChunk(a, request);
    var w := Apply(Collecting(a, request), On(a, UNREPORTED));
    InitialWorld();
    RunKeeps(INITIAL, StartSteps(a, request));
    ApplyKeeps(Collecting(a, request), On(a, UNREPORTED));
    ItsCommandInv(w, a);
    ConnectExactly(a, w.sys.commands[a], w.hist[a], 0);
    AnswersBeyondExactly(w, a, 0);
  }
}
