/**
 The bounded, segmented spool of one command, as the list of its segments in file-name
 order.  A segment is named by the sequence number of the first event written to it.

 `Append` and `ReadAll` say what one call does to that list, including what is left
 behind when the call stops part of the way through.
 */
module Spool {
  import opened Bytes
  import opened SpoolCodec

  const SPOOL_SEGMENT_BYTES := 256 * 1024

  /** The bytes of "ASPEVT01". */
  const VERSION_HEADER: seq<byte> := [65, 83, 80, 69, 86, 84, 48, 49]

  datatype Segment = Segment(first: uint64, data: seq<byte>)

  function TotalBytes(parts: seq<Segment>): nat {
    if parts == [] then 0 else |parts[0].data| + TotalBytes(parts[1..])
  }

  /** Strictly increasing sequence numbers, the first above `previous`. */
  predicate Ascending(es: seq<Event>, previous: int) {
    es != [] ==> previous < es[0].seqNo && Ascending(es[1..], es[0].seqNo)
  }

  lemma {:induction false} AscendingAbove(es: seq<Event>, previous: int, i: nat)
    requires Ascending(es, previous) && i < |es|
    ensures previous < es[i].seqNo
  {
    if i > 0 {
      AscendingAbove(es[1..], es[0].seqNo, i - 1);
    }
  }

  /** Every earlier event has a smaller sequence number than a later one. */
  lemma {:induction false} AscendingPair(es: seq<Event>, previous: int, i: nat, j: nat)
    requires Ascending(es, previous) && i < j < |es|
    ensures es[i].seqNo < es[j].seqNo
  {
    if i == 0 {
      AscendingAbove(es[1..], es[0].seqNo, j - 1);
    } else {
      AscendingPair(es[1..], es[0].seqNo, i - 1, j - 1);
    }
  }

  // ----- Reading -----------------------------------------------------------------------------

  datatype ReadResult = Events(events: seq<Event>) | ReadFailed

  /** The result of a read and the segments it leaves on disk: a torn last segment is truncated. */
  datatype ReadOutcome = ReadOutcome(result: ReadResult, parts: seq<Segment>)

  predicate HasVersionHeader(data: seq<byte>) {
    VERSION_HEADER <= data
  }

  function LastSeq(es: seq<Event>, previous: int): int {
    if es == [] then previous else es[|es| - 1].seqNo
  }

  lemma {:induction false} AscendingSplit(a: seq<Event>, b: seq<Event>, previous: int)
    requires Ascending(a + b, previous)
    ensures Ascending(a, previous) && Ascending(b, LastSeq(a, previous))
  {
    if a == [] {
      assert a + b == b;
    } else {
      assert (a + b)[1..] == a[1..] + b;
      AscendingSplit(a[1..], b, a[0].seqNo);
    }
  }

  datatype SegmentRead = Accepted(items: seq<Event>, kept: Segment) | Rejected(kept: Segment)

  /** One segment: only the last one may end in bytes that are not a whole record, and those are cut off. */
  function ReadSegment(part: Segment, isLast: bool, previous: int): SegmentRead {
    if !HasVersionHeader(part.data) then Rejected(part)
    else
      match Decode(part.data[|VERSION_HEADER|..])
      case Corrupt => Rejected(part)
      case Decoded(items, consumed) =>
        var valid := |VERSION_HEADER| + consumed;
        if valid != |part.data| && !isLast then Rejected(part)
        else
          var kept := if valid < |part.data| then part.(data := part.data[..valid]) else part;
          if Ascending(items, previous) then Accepted(items, kept) else Rejected(kept)
  }

  function Prepend(kept: seq<Segment>, items: seq<Event>, rest: ReadOutcome): ReadOutcome {
    match rest.result
    case ReadFailed => ReadOutcome(ReadFailed, kept + rest.parts)
    case Events(events) => ReadOutcome(Events(items + events), kept + rest.parts)
  }

  function ReadFrom(parts: seq<Segment>, previous: int): ReadOutcome {
    if parts == [] then ReadOutcome(Events([]), [])
    else
      match ReadSegment(parts[0], |parts| == 1, previous)
      case Rejected(kept) => ReadOutcome(ReadFailed, [kept] + parts[1..])
      case Accepted(items, kept) => Prepend([kept], items, ReadFrom(parts[1..], LastSeq(items, previous)))
  }

  function ReadAll(parts: seq<Segment>): ReadOutcome {
    ReadFrom(parts, 0)
  }

  // ----- Appending ---------------------------------------------------------------------------

  /**
   Where an append stops.  Each case is both an error returned by the file system and the
   point at which the process may die; `FailWrite(n)` lets n bytes of the payload reach
   the file before that (all of them when only the sync or the close fails).
   */
  datatype Fault = NoFault | FailEarly | FailRemove(removed: nat) | FailCreate | FailWrite(written: nat)

  datatype AppendOutcome = AppendOutcome(ok: bool, parts: seq<Segment>)

  predicate Rotates(parts: seq<Segment>, recordBytes: nat, budget: nat) {
    || parts == []
    || |parts[|parts| - 1].data| + recordBytes > SPOOL_SEGMENT_BYTES
    || TotalBytes(parts) + recordBytes > budget
  }

  /** How many of the oldest segments the eviction loop plans to remove. */
  function Evictions(parts: seq<Segment>, appendBytes: nat, budget: nat): (n: nat)
    ensures n <= |parts|
  {
    if parts != [] && TotalBytes(parts) + appendBytes > budget
    then 1 + Evictions(parts[1..], appendBytes, budget)
    else 0
  }

  function Written(payload: seq<byte>, fault: Fault): seq<byte> {
    if fault.FailWrite? && fault.written < |payload| then payload[..fault.written] else payload
  }

  predicate Fits(e: Event, budget: nat) {
    WellSized(e) && |EncodeEvent(e)| + |VERSION_HEADER| <= budget
  }

  predicate Named(parts: seq<Segment>, first: uint64) {
    exists i | 0 <= i < |parts| :: parts[i].first == first
  }

  /** The directory in file-name order after a new file is created in it. */
  function InsertSegment(parts: seq<Segment>, added: Segment): seq<Segment> {
    if parts == [] || added.first < parts[0].first then [added] + parts
    else [parts[0]] + InsertSegment(parts[1..], added)
  }

  lemma {:induction false} InsertLast(parts: seq<Segment>, added: Segment)
    requires forall i | 0 <= i < |parts| :: parts[i].first < added.first
    ensures InsertSegment(parts, added) == parts + [added]
  {
    if parts != [] {
      InsertLast(parts[1..], added);
      assert parts + [added] == [parts[0]] + (parts[1..] + [added]);
    } else {
      assert parts + [added] == [added] + parts;
    }
  }

  /** Evict, then start a new segment; creation is exclusive. */
  function AppendRotating(parts: seq<Segment>, e: Event, budget: nat, fault: Fault): AppendOutcome {
    var planned := Evictions(parts, |EncodeEvent(e)| + |VERSION_HEADER|, budget);
    if fault.FailRemove? && fault.removed < planned then AppendOutcome(false, parts[fault.removed..])
    else if fault.FailCreate? || Named(parts[planned..], e.seqNo) then AppendOutcome(false, parts[planned..])
    else
      var payload := VERSION_HEADER + EncodeEvent(e);
      AppendOutcome(!fault.FailWrite?, InsertSegment(parts[planned..], Segment(e.seqNo, Written(payload, fault))))
  }

  function AppendExtending(parts: seq<Segment>, e: Event, fault: Fault): AppendOutcome
    requires parts != []
  {
    var n := |parts| - 1;
    if fault.FailCreate? then AppendOutcome(false, parts)
    else
      var grown := Segment(parts[n].first, parts[n].data + Written(EncodeEvent(e), fault));
      AppendOutcome(!fault.FailWrite?, parts[n := grown])
  }

  function Append(parts: seq<Segment>, e: Event, budget: nat, fault: Fault): AppendOutcome {
    if !Fits(e, budget) || fault.FailEarly? then AppendOutcome(false, parts)
    else if Rotates(parts, |EncodeEvent(e)|, budget) then AppendRotating(parts, e, budget, fault)
    else AppendExtending(parts, e, fault)
  }

  // ----- What the segments hold --------------------------------------------------------------

  function SegmentOf(es: seq<Event>): Segment
    requires es != []
  {
    Segment(es[0].seqNo, VERSION_HEADER + EncodeAll(es))
  }

  /** Segment i holds exactly the events of groups[i] and is named after the first of them. */
  predicate Rendered(parts: seq<Segment>, groups: seq<seq<Event>>) {
    && |parts| == |groups|
    && forall i | 0 <= i < |groups| :: groups[i] != [] && parts[i] == SegmentOf(groups[i])
  }

  function Flatten(groups: seq<seq<Event>>): seq<Event> {
    if groups == [] then [] else groups[0] + Flatten(groups[1..])
  }

  predicate IsSuffix(es: seq<Event>, all: seq<Event>) {
    |es| <= |all| && es == all[|all| - |es|..]
  }

  predicate SmallSegments(parts: seq<Segment>) {
    forall i | 0 <= i < |parts| :: |parts[i].data| <= SPOOL_SEGMENT_BYTES
  }

  /**
   The invariant of the bounded log, after the events `all` were appended: the segments are
   whole, hold a suffix of `all`, stay within the budget, and after an eviction never fall a
   whole segment below it.
   */
  ghost predicate BoundedLog(parts: seq<Segment>, groups: seq<seq<Event>>, all: seq<Event>, budget: nat) {
    && Rendered(parts, groups)
    && SmallSegments(parts)
    && AllWellSized(all) && Ascending(all, 0)
    && IsSuffix(Flatten(groups), all)
    && TotalBytes(parts) <= budget
    && (Flatten(groups) != all ==> TotalBytes(parts) > budget - SPOOL_SEGMENT_BYTES)
  }

  ghost predicate Bounded(parts: seq<Segment>, all: seq<Event>, budget: nat) {
    exists groups :: BoundedLog(parts, groups, all, budget)
  }

  lemma {:induction false} FlattenAppend(a: seq<seq<Event>>, b: seq<seq<Event>>)
    ensures Flatten(a + b) == Flatten(a) + Flatten(b)
  {
    if a == [] {
      assert a + b == b;
    } else {
      FlattenAppend(a[1..], b);
      assert (a + b)[1..] == a[1..] + b;
    }
  }

  lemma {:induction false} TotalBytesAppend(a: seq<Segment>, b: seq<Segment>)
    ensures TotalBytes(a + b) == TotalBytes(a) + TotalBytes(b)
  {
    if a == [] {
      assert a + b == b;
    } else {
      TotalBytesAppend(a[1..], b);
      assert (a + b)[1..] == a[1..] + b;
    }
  }

  lemma TotalBytesSingle(part: Segment)
    ensures TotalBytes([part]) == |part.data|
  {
    assert TotalBytes([part]) == |part.data| + TotalBytes([]);
  }

  lemma FlattenDrop(groups: seq<seq<Event>>, n: nat)
    requires n <= |groups|
    ensures Flatten(groups) == Flatten(groups[..n]) + Flatten(groups[n..])
  {
    hide Flatten;
    assert groups[..n] + groups[n..] == groups;
    FlattenAppend(groups[..n], groups[n..]);
  }

  lemma FlattenSingle(es: seq<Event>)
    ensures Flatten([es]) == es
  {
    assert Flatten([es]) == es + Flatten([]);
  }

  /** Eviction stops inside the budget, and not earlier than needed. */
  lemma {:induction false} EvictionsTight(parts: seq<Segment>, appendBytes: nat, budget: nat)
    requires SmallSegments(parts)
    requires appendBytes <= budget
    ensures var n := Evictions(parts, appendBytes, budget);
            && TotalBytes(parts[n..]) + appendBytes <= budget
            && (n > 0 ==> TotalBytes(parts[n..]) + appendBytes > budget - SPOOL_SEGMENT_BYTES)
  {
    if parts != [] && TotalBytes(parts) + appendBytes > budget {
      EvictionsTight(parts[1..], appendBytes, budget);
      var n := Evictions(parts[1..], appendBytes, budget);
      assert parts[1..][n..] == parts[n + 1..];
      if n == 0 {
        assert parts[1..][0..] == parts[1..];
      }
    } else {
      assert parts[0..] == parts;
    }
  }

  /** The eviction loop empties the spool exactly when even its newest segment leaves no room for the append. */
  lemma {:induction false} EvictionsEmptyExactly(parts: seq<Segment>, appendBytes: nat, budget: nat)
    requires parts != []
    ensures Evictions(parts, appendBytes, budget) == |parts| <==> |parts[|parts| - 1].data| + appendBytes > budget
  {
    if |parts| == 1 {
      TotalBytesSingle(parts[0]);
      assert parts == [parts[0]];
      assert Evictions(parts[1..], appendBytes, budget) == 0;
    } else {
      EvictionsEmptyExactly(parts[1..], appendBytes, budget);
      var n := |parts| - 1;
      assert parts == parts[..n] + [parts[n]];
      TotalBytesAppend(parts[..n], [parts[n]]);
      TotalBytesSingle(parts[n]);
    }
  }

  /** The groups after a successful append. */
  function AppendGroups(parts: seq<Segment>, groups: seq<seq<Event>>, e: Event, budget: nat): seq<seq<Event>>
    requires |parts| == |groups|
  {
    var record := EncodeEvent(e);
    if Rotates(parts, |record|, budget) then
      groups[Evictions(parts, |record| + |VERSION_HEADER|, budget)..] + [[e]]
    else
      groups[|groups| - 1 := groups[|groups| - 1] + [e]]
  }

  lemma SuffixDrop(groups: seq<seq<Event>>, n: nat, all: seq<Event>)
    requires n <= |groups| && IsSuffix(Flatten(groups), all)
    ensures IsSuffix(Flatten(groups[n..]), all)
  {
    FlattenDrop(groups, n);
  }

  /** In an ascending log every surviving segment is named below a later event, so exclusive creation cannot collide. */
  lemma NoCollision(parts: seq<Segment>, groups: seq<seq<Event>>, all: seq<Event>, n: nat, e: Event)
    requires Rendered(parts, groups) && IsSuffix(Flatten(groups), all)
    requires Ascending(all + [e], 0) && n <= |parts|
    ensures !Named(parts[n..], e.seqNo)
    ensures forall data :: InsertSegment(parts[n..], Segment(e.seqNo, data)) == parts[n..] + [Segment(e.seqNo, data)]
  {
    forall i | 0 <= i < |parts[n..]|
      ensures parts[n..][i].first < e.seqNo
    {
      var g := groups[n + i];
      FlattenDrop(groups, n + i);
      assert Flatten(groups[n + i..]) == g + Flatten(groups[n + i..][1..]);
      assert g[0] in Flatten(groups);
      assert g[0] in all;
      var k :| 0 <= k < |all| && all[k] == g[0];
      AscendingPair(all + [e], 0, k, |all|);
    }
    forall data
      ensures InsertSegment(parts[n..], Segment(e.seqNo, data)) == parts[n..] + [Segment(e.seqNo, data)]
    {
      InsertLast(parts[n..], Segment(e.seqNo, data));
    }
  }

  lemma SuffixSnoc(es: seq<Event>, all: seq<Event>, e: Event)
    requires IsSuffix(es, all)
    ensures IsSuffix(es + [e], all + [e])
    ensures es + [e] == all + [e] ==> es == all
  {
    assert (all + [e])[|all| - |es|..] == all[|all| - |es|..] + [e];
    if es + [e] == all + [e] {
      assert (es + [e])[..|es|] == es && (all + [e])[..|all|] == all;
    }
  }

  lemma EncodedSingle(e: Event)
    ensures SegmentOf([e]) == Segment(e.seqNo, VERSION_HEADER + EncodeEvent(e))
  {
    assert EncodeAll([e]) == EncodeEvent(e) + EncodeAll([]);
  }

  lemma AddSmallSegment(parts: seq<Segment>, n: nat, added: Segment)
    requires SmallSegments(parts) && n <= |parts| && |added.data| <= SPOOL_SEGMENT_BYTES
    ensures SmallSegments(parts[n..] + [added])
  {
  }

  lemma AddWellSized(all: seq<Event>, e: Event)
    requires AllWellSized(all) && WellSized(e)
    ensures AllWellSized(all + [e])
  {
  }

  /** A rotating append in terms of groups. */
  lemma NewSegmentShape(parts: seq<Segment>, groups: seq<seq<Event>>, n: nat, e: Event)
    requires Rendered(parts, groups) && n <= |parts|
    ensures Rendered(parts[n..] + [SegmentOf([e])], groups[n..] + [[e]])
    ensures Flatten(groups[n..] + [[e]]) == Flatten(groups[n..]) + [e]
    ensures TotalBytes(parts[n..] + [SegmentOf([e])]) == TotalBytes(parts[n..]) + |EncodeEvent(e)| + |VERSION_HEADER|
  {
    EncodedSingle(e);
    FlattenAppend(groups[n..], [[e]]);
    FlattenSingle([e]);
    TotalBytesAppend(parts[n..], [SegmentOf([e])]);
    TotalBytesSingle(SegmentOf([e]));
  }

  lemma RotatingAppend(parts: seq<Segment>, e: Event, budget: nat)
    requires Fits(e, budget) && Rotates(parts, |EncodeEvent(e)|, budget)
    requires var n := Evictions(parts, |EncodeEvent(e)| + |VERSION_HEADER|, budget);
             && !Named(parts[n..], e.seqNo)
             && InsertSegment(parts[n..], SegmentOf([e])) == parts[n..] + [SegmentOf([e])]
    ensures var n := Evictions(parts, |EncodeEvent(e)| + |VERSION_HEADER|, budget);
            Append(parts, e, budget, NoFault) == AppendOutcome(true, parts[n..] + [SegmentOf([e])])
  {
    EncodedSingle(e);
  }

  lemma BoundedAfterRotation(parts: seq<Segment>, groups: seq<seq<Event>>, all: seq<Event>, e: Event, budget: nat, n: nat)
    requires BoundedLog(parts, groups, all, budget)
    requires Ascending(all + [e], 0) && Fits(e, budget)
    requires n == Evictions(parts, |EncodeEvent(e)| + |VERSION_HEADER|, budget)
    ensures BoundedLog(parts[n..] + [SegmentOf([e])], groups[n..] + [[e]], all + [e], budget)
  {
    var appendBytes := |EncodeEvent(e)| + |VERSION_HEADER|;
    EvictionsTight(parts, appendBytes, budget);
    NewSegmentShape(parts, groups, n, e);
    EncodedSingle(e);
    SuffixDrop(groups, n, all);
    SuffixSnoc(Flatten(groups[n..]), all, e);
    AddSmallSegment(parts, n, SegmentOf([e]));
    AddWellSized(all, e);
    if n == 0 {
      assert groups[n..] == groups && parts[n..] == parts;
    }
  }

  lemma AppendToNewSegment(parts: seq<Segment>, groups: seq<seq<Event>>, all: seq<Event>, e: Event, budget: nat)
    requires BoundedLog(parts, groups, all, budget)
    requires Ascending(all + [e], 0) && Fits(e, budget)
    requires Rotates(parts, |EncodeEvent(e)|, budget)
    ensures var r := Append(parts, e, budget, NoFault);
            r.ok && BoundedLog(r.parts, AppendGroups(parts, groups, e, budget), all + [e], budget)
  {
    var n := Evictions(parts, |EncodeEvent(e)| + |VERSION_HEADER|, budget);
    NoCollision(parts, groups, all, n, e);
    EncodedSingle(e);
    RotatingAppend(parts, e, budget);
    BoundedAfterRotation(parts, groups, all, e, budget, n);
  }

  lemma ReplaceLast<T>(s: seq<T>, x: T)
    requires s != []
    ensures s[|s| - 1 := x] == s[..|s| - 1] + [x]
    ensures s == s[..|s| - 1] + [s[|s| - 1]]
  {
  }

  /** A non-rotating append in terms of groups. */
  lemma LastSegmentShape(parts: seq<Segment>, groups: seq<seq<Event>>, e: Event)
    requires Rendered(parts, groups) && parts != []
    ensures var n := |parts| - 1;
            var parts' := parts[n := Segment(parts[n].first, parts[n].data + EncodeEvent(e))];
            var groups' := groups[n := groups[n] + [e]];
            && Rendered(parts', groups')
            && Flatten(groups') == Flatten(groups) + [e]
            && TotalBytes(parts') == TotalBytes(parts) + |EncodeEvent(e)|
  {
    var n := |parts| - 1;
    var grown := Segment(parts[n].first, parts[n].data + EncodeEvent(e));
    EncodeAllSnoc(groups[n], e);
    assert grown.data == VERSION_HEADER + EncodeAll(groups[n] + [e]);
    assert grown == SegmentOf(groups[n] + [e]);
    ReplaceLast(parts, grown);
    ReplaceLast(groups, groups[n] + [e]);
    TotalBytesAppend(parts[..n], [parts[n]]);
    TotalBytesAppend(parts[..n], [grown]);
    TotalBytesSingle(parts[n]);
    TotalBytesSingle(grown);
    FlattenAppend(groups[..n], [groups[n]]);
    FlattenAppend(groups[..n], [groups[n] + [e]]);
    FlattenSingle(groups[n]);
    FlattenSingle(groups[n] + [e]);
    assert Flatten(groups[..n]) + (groups[n] + [e]) == Flatten(groups[..n]) + groups[n] + [e];
  }

  lemma GrowSmallSegment(parts: seq<Segment>, grown: Segment)
    requires SmallSegments(parts) && parts != [] && |grown.data| <= SPOOL_SEGMENT_BYTES
    ensures SmallSegments(parts[|parts| - 1 := grown])
  {
  }

  lemma AppendToLastSegment(parts: seq<Segment>, groups: seq<seq<Event>>, all: seq<Event>, e: Event, budget: nat)
    requires BoundedLog(parts, groups, all, budget)
    requires Ascending(all + [e], 0) && Fits(e, budget)
    requires !Rotates(parts, |EncodeEvent(e)|, budget)
    ensures var r := Append(parts, e, budget, NoFault);
            r.ok && BoundedLog(r.parts, AppendGroups(parts, groups, e, budget), all + [e], budget)
  {
    LastSegmentShape(parts, groups, e);
    SuffixSnoc(Flatten(groups), all, e);
    AddWellSized(all, e);
    GrowSmallSegment(parts, Segment(parts[|parts| - 1].first, parts[|parts| - 1].data + EncodeEvent(e)));
  }

  /** One append keeps the bounded log, and succeeds exactly when the event fits. */
  lemma AppendKeepsBoundedLog(parts: seq<Segment>, groups: seq<seq<Event>>, all: seq<Event>, e: Event, budget: nat)
    requires BoundedLog(parts, groups, all, budget) && Ascending(all + [e], 0)
    ensures var r := Append(parts, e, budget, NoFault);
            && (r.ok <==> Fits(e, budget))
            && (r.ok ==> BoundedLog(r.parts, AppendGroups(parts, groups, e, budget), all + [e], budget))
            && (!r.ok ==> r.parts == parts)
  {
    if Fits(e, budget) {
      if Rotates(parts, |EncodeEvent(e)|, budget) {
        AppendToNewSegment(parts, groups, all, e, budget);
      } else {
        AppendToLastSegment(parts, groups, all, e, budget);
      }
    }
  }

  /** Appending a list of events one by one to an empty spool. */
  function AppendEach(events: seq<Event>, budget: nat): AppendOutcome
    decreases |events|
  {
    if events == [] then AppendOutcome(true, [])
    else
      var n := |events| - 1;
      var before := AppendEach(events[..n], budget);
      if !before.ok then before else Append(before.parts, events[n], budget, NoFault)
  }

  lemma BoundedLogExtends(parts: seq<Segment>, all: seq<Event>, e: Event, budget: nat)
    requires Bounded(parts, all, budget) && Ascending(all + [e], 0) && Fits(e, budget)
    ensures var r := Append(parts, e, budget, NoFault);
            r.ok && Bounded(r.parts, all + [e], budget)
  {
    var groups :| BoundedLog(parts, groups, all, budget);
    AppendKeepsBoundedLog(parts, groups, all, e, budget);
  }

  /** Bounded log with tight retention, over every sequence of appends. */
  lemma {:induction false} BoundedLogOverRuns(events: seq<Event>, budget: nat)
    requires Ascending(events, 0) && forall e | e in events :: Fits(e, budget)
    ensures AppendEach(events, budget).ok
    ensures Bounded(AppendEach(events, budget).parts, events, budget)
    decreases |events|
  {
    if events == [] {
      assert BoundedLog([], [], [], budget);
    } else {
      var n := |events| - 1;
      assert events == events[..n] + [events[n]];
      AscendingSplit(events[..n], [events[n]], 0);
      BoundedLogOverRuns(events[..n], budget);
      BoundedLogExtends(AppendEach(events[..n], budget).parts, events[..n], events[n], budget);
    }
  }
}
