/**
 What clients read is what the child wrote: over every run, the log of a command is the streams and
 bytes of its chunks whose records got through to the disk, in order, numbered from one.
 */
module SupervisorOutput {
  import opened Wrappers
  import opened Bytes
  import opened SpoolCodec
  import opened Spool
  import opened SpoolRecovery
  import opened Supervisor
  import opened SupervisorInvariant
  import opened SupervisorRecovery
  import opened SupervisorRuns
  import opened SupervisorTheorems
  import opened SupervisorReplay

  /** A chunk as the child wrote it. */
  datatype Output = Output(stream: Stream, data: seq<byte>)

  /** What a step adds to the stored output of a command: the chunk, if its spool works and the storage lets all of its record through. */
  function Printed(w: World, s: Step, id: Id): seq<Output> {
    if !(s.On? && s.id == id && s.s.Chunk? && id in w.sys.commands && w.sys.commands[id].proc.Some?) then []
    else
      var c := w.sys.commands[id];
      if !c.proc.value.spoolFailed && WholeRecord(c.dir.spool, |s.s.data|, SPOOL_BUDGET, s.s.fault) then [Output(s.s.stream, s.s.data)] else []
  }

  function AllPrinted(w: World, steps: seq<Step>, id: Id): seq<Output>
    requires AllEnabled(w, steps)
    decreases |steps|
  {
    if steps == [] then [] else Printed(w, steps[0], id) + AllPrinted(Apply(w, steps[0]), steps[1..], id)
  }

  /** These events are this output, numbered from `first`. */
  predicate Numbered(events: seq<Event>, out: seq<Output>, first: nat) {
    && |events| == |out|
    && forall i | 0 <= i < |out| :: events[i].seqNo == first + i && events[i].stream == out[i].stream && events[i].data == out[i].data
  }

  function LogOf(w: World, id: Id): seq<Event> {
    if id in w.hist then w.hist[id].log else []
  }

  /** The event of a chunk, field by field. */
  lemma LogGrows(id: Id, c: Command, h: History, s: CommandStep, out: seq<Output>)
    requires CommandInv(id, c, h) && StepEnabled(c, s) && Numbered(h.log, out, 1)
    ensures Numbered(LogAfter(c, h.log, s),
                     out + if s.Chunk? && !c.proc.value.spoolFailed && WholeRecord(c.dir.spool, |s.data|, SPOOL_BUDGET, s.fault)
                           then [Output(s.stream, s.data)] else [], 1)
  {
    hide Recoverable, Landed, WholeRecord, BoundedFrom, EncodeEvent;
    if s.Chunk? && !c.proc.value.spoolFailed {
      var e := ChunkEvent(c.proc.value.record, s.stream, s.data);
      BoundedIsRecoverable(c.dir.spool, h.log, h.evicted, SPOOL_BUDGET);
      NextIsAscending(h.log, e);
      LandsExactly(c.dir.spool, h.log, h.evicted, e, SPOOL_BUDGET, s.fault);
    } else {
      assert out + [] == out;
    }
  }

  lemma OnPrints(w: World, id: Id, s: CommandStep, out: seq<Output>)
    requires WorldInv(w) && Enabled(w, On(id, s)) && Numbered(LogOf(w, id), out, 1)
    ensures Numbered(LogOf(Apply(w, On(id, s)), id), out + Printed(w, On(id, s), id), 1)
  {
    hide LogAfter, CommandInv, Numbered, WholeRecord, EvictedAfter, LandsUnreported, Acknowledged;
    LogGrows(id, w.sys.commands[id], w.hist[id], s, out);
  }

  lemma OthersKeepLog(w: World, s: Step, id: Id)
    requires Enabled(w, s) && !(s.On? && s.id == id)
    ensures LogOf(Apply(w, s), id) == LogOf(w, id)
  {
    hide ApplyStep, LoadEach, HistoryAfter, Load, IsCommandId, RequestsResolve, Listing;
  }

  lemma {:induction false} RunPrints(w: World, steps: seq<Step>, id: Id, out: seq<Output>)
    requires WorldInv(w) && AllEnabled(w, steps) && Numbered(LogOf(w, id), out, 1)
    ensures Numbered(LogOf(Run(w, steps), id), out + AllPrinted(w, steps, id), 1)
    decreases |steps|
  {
    hide WorldInv, Enabled, Apply, LogOf, Numbered, Printed, Evolves;
    if steps == [] {
      assert out + [] == out;
    } else {
      var s := steps[0];
      ApplyKeeps(w, s);
      StepPrints(w, s, id, out);
      RunPrints(Apply(w, s), steps[1..], id, out + Printed(w, s, id));
      assert out + AllPrinted(w, steps, id) == (out + Printed(w, s, id)) + AllPrinted(Apply(w, s), steps[1..], id);
    }
  }

  lemma StepPrints(w: World, s: Step, id: Id, out: seq<Output>)
    requires WorldInv(w) && Enabled(w, s) && Numbered(LogOf(w, id), out, 1)
    ensures Numbered(LogOf(Apply(w, s), id), out + Printed(w, s, id), 1)
  {
    hide WorldInv, Enabled, Apply, LogOf, Numbered;
    if s.On? && s.id == id {
      OnPrints(w, id, s.s, out);
    } else {
      OthersKeepLog(w, s, id);
      assert out + [] == out;
    }
  }

  /** Over every run the log of a command is exactly the chunks it got to the disk, in order, numbered from one. */
  lemma LogIsOutput(steps: seq<Step>, id: Id)
    requires AllEnabled(INITIAL, steps)
    ensures Numbered(LogOf(Run(INITIAL, steps), id), AllPrinted(INITIAL, steps, id), 1)
  {
    InitialWorld();
    RunPrints(INITIAL, steps, id, []);
    assert [] + AllPrinted(INITIAL, steps, id) == AllPrinted(INITIAL, steps, id);
  }

  lemma Fields(number: seq<byte>, stream: byte, length: seq<byte>, data: seq<byte>)
    requires |number| == 8 && |length| == 4
    ensures var record := number + [stream] + length + data;
      record[..8] == number && record[8] == stream && record[9..13] == length && record[13..] == data
  {
  }

  /** A record on disk: the number in eight bytes, one for standard output or two for standard error, the length in four, the data. */
  lemma RecordLayout(e: Event)
    requires WellSized(e)
    ensures var record := EncodeEvent(e);
      && FromBigEndian(record[..8]) == e.seqNo && record[8] == (if e.stream.Stdout? then 1 else 2)
      && FromBigEndian(record[9..13]) == |e.data| && record[13..] == e.data
  {
    assert Pow256(8) == TWO_TO_THE_64 && Pow256(4) == TWO_TO_THE_32;
    hide BigEndian, FromBigEndian;
    BigEndianRoundTrip(e.seqNo, 8);
    BigEndianRoundTrip(|e.data|, 4);
    Fields(BigEndian(e.seqNo, 8), if e.stream.Stderr? then 2 else 1, BigEndian(|e.data|, 4), e.data);
  }

  lemma NumberedSlice(events: seq<Event>, out: seq<Output>, from: nat, to: nat)
    requires Numbered(events, out, 1) && from <= to <= |out|
    ensures Numbered(events[from..to], out[from..to], from + 1)
  {
  }

  lemma CommandReadsOutput(id: Id, c: Command, h: History, after: uint64, out: seq<Output>)
    requires CommandInv(id, c, h) && c.proc.Some? && Numbered(h.log, out, 1)
    requires !c.proc.value.spoolFailed && Connect(c, after).Replayed?
    ensures var r := Connect(c, after); after <= r.nextCursor == |out| && Numbered(r.events, out[after..], after + 1)
  {
    hide Connect, CommandInv;
    ReplayIsExact(id, c, h, after);
    NumberedSlice(h.log, out, after, |out|);
    assert out[after..|out|] == out[after..];
  }

  lemma ReadsOutput(w: World, id: Id, after: uint64, out: seq<Output>)
    requires WorldInv(w) && Visible(w, id) && Numbered(LogOf(w, id), out, 1)
    requires !w.sys.commands[id].proc.value.spoolFailed && Connect(w.sys.commands[id], after).Replayed?
    ensures var r := Connect(w.sys.commands[id], after);
            after <= r.nextCursor == |out| && Numbered(r.events, out[after..], after + 1)
  {
    hide Connect, CommandInv, WorldInv, Numbered;
    ItsCommandInv(w, id);
    CommandReadsOutput(id, w.sys.commands[id], w.hist[id], after, out);
  }

  lemma ReachedWorld(steps: seq<Step>)
    requires AllEnabled(INITIAL, steps)
    ensures WorldInv(Run(INITIAL, steps))
  {
    InitialWorld();
    RunKeeps(INITIAL, steps);
  }

  /** After any run, as long as the spool has not failed, a client is answered exactly what the child wrote after its cursor, stream and bytes. */
  lemma ClientsReadOutput(steps: seq<Step>, id: Id, after: uint64)
    requires AllEnabled(INITIAL, steps)
    requires var w := Run(INITIAL, steps);
             Visible(w, id) && !w.sys.commands[id].proc.value.spoolFailed && Connect(w.sys.commands[id], after).Replayed?
    ensures var r, out := Connect(Run(INITIAL, steps).sys.commands[id], after), AllPrinted(INITIAL, steps, id);
            after <= r.nextCursor == |out| && Numbered(r.events, out[after..], after + 1)
  {
    hide Connect, WorldInv, AllPrinted, Run, AllEnabled, LogOf, Numbered;
    ReachedWorld(steps);
    LogIsOutput(steps, id);
    ReadsOutput(Run(INITIAL, steps), id, after, AllPrinted(INITIAL, steps, id));
  }

  /** What a command's child gets to the disk while a client follows it. */
  ghost function RoundsPrinted(w: World, id: Id, rounds: seq<seq<Step>>): seq<Output>
    requires Scheduled(w, id, rounds)
    decreases |rounds|
  {
    if rounds == [] then []
    else AllPrinted(w, rounds[0], id) + RoundsPrinted(Apply(Run(w, rounds[0]), On(id, ReadSpool)), id, rounds[1..])
  }

  lemma {:induction false} FollowPrints(w: World, id: Id, cursor: uint64, rounds: seq<seq<Step>>, upToCursor: bool, out: seq<Output>)
    requires WorldInv(w) && Scheduled(w, id, rounds) && Numbered(LogOf(w, id), out, 1)
    ensures var r := Follow(w, id, cursor, rounds, upToCursor);
            r.Followed? ==> Numbered(LogOf(r.world, id), out + RoundsPrinted(w, id, rounds), 1)
    decreases |rounds|
  {
    hide WorldInv, Enabled, Apply, LogOf, Numbered, Evolves, Connect, Taken, AllEnabled, Run, AllPrinted;
    if rounds == [] {
      assert out + [] == out;
    } else {
      var now := Run(w, rounds[0]);
      var next := Apply(now, On(id, ReadSpool));
      RoundKeeps(w, id, rounds[0]);
      RunPrints(w, rounds[0], id, out);
      ReadingPrintsNothing(now, id);
      StepPrints(now, On(id, ReadSpool), id, out + AllPrinted(w, rounds[0], id));
      var r := Connect(now.sys.commands[id], cursor);
      var soFar := out + AllPrinted(w, rounds[0], id);
      assert soFar + [] == soFar;
      if r.Replayed? {
        FollowPrints(next, id, r.nextCursor, rounds[1..], upToCursor, soFar);
        assert out + RoundsPrinted(w, id, rounds) == soFar + RoundsPrinted(next, id, rounds[1..]);
      }
    }
  }

  lemma ReadingPrintsNothing(w: World, id: Id)
    ensures Printed(w, On(id, ReadSpool), id) == []
  {
  }

  /**
   A client that follows a command from some cursor on, across appends, evictions, failures, deaths and
   restarts, takes exactly what the child got to the disk between its first and its last cursor.
   */
  lemma FollowersReadOutput(steps: seq<Step>, id: Id, cursor: uint64, rounds: seq<seq<Step>>, upToCursor: bool)
    requires AllEnabled(INITIAL, steps) && rounds != []
    requires var w := Run(INITIAL, steps); Scheduled(w, id, rounds) && (upToCursor || Unfailed(w, id, rounds))
    ensures var w := Run(INITIAL, steps);
            var r, out := Follow(w, id, cursor, rounds, upToCursor), AllPrinted(INITIAL, steps, id) + RoundsPrinted(w, id, rounds);
            r.Followed? ==> cursor <= r.cursor <= |out| && Numbered(r.events, out[cursor..r.cursor], cursor + 1)
  {
    var w, before := Run(INITIAL, steps), AllPrinted(INITIAL, steps, id);
    ReachedWorld(steps);
    LogIsOutput(steps, id);
    hide Connect, WorldInv, AllPrinted, Run, AllEnabled, Follow, RoundsPrinted, Scheduled, Unfailed;
    FollowPrints(w, id, cursor, rounds, upToCursor, before);
    FollowIsGapless(w, id, cursor, rounds, upToCursor);
    var r := Follow(w, id, cursor, rounds, upToCursor);
    if r.Followed? {
      NumberedSlice(r.world.hist[id].log, before + RoundsPrinted(w, id, rounds), cursor, r.cursor);
    }
  }
}
