/**
 What an append that stops part of the way through leaves on disk, and what the next read
 makes of it.
 */
module SpoolRecovery {
  import opened Bytes
  import opened SpoolCodec
  import opened Spool

  /** How the last segment ends. */
  datatype Tail = Clean | TornRecord(torn: seq<byte>) | NewSegment(first: uint64, torn: seq<byte>)

  predicate TornNewSegment(torn: seq<byte>) {
    || torn < VERSION_HEADER
    || (VERSION_HEADER <= torn && NextFrame(torn[|VERSION_HEADER|..]).Torn?)
  }

  /** The segments hold the events of `groups`, except that the last one may end in an unfinished append. */
  predicate Shaped(parts: seq<Segment>, groups: seq<seq<Event>>, tail: Tail) {
    match tail
    case Clean => Rendered(parts, groups)
    case TornRecord(torn) =>
      var n := |groups| - 1;
      && torn != [] && NextFrame(torn).Torn?
      && 0 <= n && |parts| == n + 1
      && Rendered(parts[..n], groups[..n])
      && groups[n] != []
      && parts[n] == Segment(groups[n][0].seqNo, SegmentOf(groups[n]).data + torn)
    case NewSegment(first, torn) =>
      var n := |groups|;
      && |parts| == n + 1
      && Rendered(parts[..n], groups)
      && parts[n] == Segment(first, torn)
      && TornNewSegment(torn)
  }

  /** A new segment that does not even hold its version header cannot be read. */
  predicate Readable(tail: Tail) {
    tail.NewSegment? ==> |VERSION_HEADER| <= |tail.torn|
  }

  /** The segments after the read has truncated the torn tail. */
  function Repaired(parts: seq<Segment>, groups: seq<seq<Event>>, tail: Tail): seq<Segment>
    requires Shaped(parts, groups, tail)
  {
    match tail
    case Clean => parts
    case TornRecord(_) => parts[..|parts| - 1] + [SegmentOf(groups[|groups| - 1])]
    case NewSegment(first, _) => parts[..|parts| - 1] + [Segment(first, VERSION_HEADER)]
  }

  lemma PrependTwice(kept: seq<Segment>, items: seq<Event>, kept': seq<Segment>, items': seq<Event>, rest: ReadOutcome)
    ensures Prepend(kept, items, Prepend(kept', items', rest)) == Prepend(kept + kept', items + items', rest)
  {
    assert kept + (kept' + rest.parts) == kept + kept' + rest.parts;
    if rest.result.Events? {
      assert items + (items' + rest.result.events) == items + items' + rest.result.events;
    }
  }

  lemma PrependNothing(rest: ReadOutcome)
    ensures Prepend([], [], rest) == rest
  {
    assert [] + rest.parts == rest.parts;
    if rest.result.Events? {
      assert [] + rest.result.events == rest.result.events;
    }
  }

  /** The last segment is the only one that may be longer than what decodes. */
  lemma ReadLast(part: Segment, items: seq<Event>, consumed: nat, previous: int)
    requires HasVersionHeader(part.data)
    requires Decode(part.data[|VERSION_HEADER|..]) == Decoded(items, consumed)
    requires |VERSION_HEADER| + consumed <= |part.data| && Ascending(items, previous)
    ensures ReadFrom([part], previous)
            == ReadOutcome(Events(items), [part.(data := part.data[..|VERSION_HEADER| + consumed])])
  {
    hide Decode, Ascending;
    var valid := |VERSION_HEADER| + consumed;
    if valid == |part.data| {
      assert part.data[..valid] == part.data;
    }
    assert [part][1..] == [];
    assert ReadFrom([], LastSeq(items, previous)) == ReadOutcome(Events([]), []);
    assert items + [] == items;
  }

  lemma ReadOneSegment(es: seq<Event>, rest: seq<Segment>, previous: int)
    requires es != [] && AllWellSized(es) && Ascending(es, previous)
    ensures ReadFrom([SegmentOf(es)] + rest, previous)
            == Prepend([SegmentOf(es)], es, ReadFrom(rest, LastSeq(es, previous)))
  {
    var part := SegmentOf(es);
    var parts := [part] + rest;
    assert parts[1..] == rest;
    assert part.data[|VERSION_HEADER|..] == EncodeAll(es) + [];
    assert NextFrame([]).Torn?;
    DecodeOfEncoding(es, []);
  }

  lemma WellSizedSplit(a: seq<Event>, b: seq<Event>)
    requires AllWellSized(a + b)
    ensures AllWellSized(a) && AllWellSized(b)
  {
    forall e | e in a ensures WellSized(e) { assert e in a + b; }
    forall e | e in b ensures WellSized(e) { assert e in a + b; }
  }

  /** The first group of a log is well formed, and so is the rest of it after the first. */
  lemma HeadGroup(groups: seq<seq<Event>>, previous: int)
    requires groups != [] && groups[0] != []
    requires AllWellSized(Flatten(groups)) && Ascending(Flatten(groups), previous)
    ensures AllWellSized(groups[0]) && Ascending(groups[0], previous)
    ensures AllWellSized(Flatten(groups[1..])) && Ascending(Flatten(groups[1..]), LastSeq(groups[0], previous))
    ensures LastSeq(Flatten(groups[1..]), LastSeq(groups[0], previous)) == LastSeq(Flatten(groups), previous)
  {
    AscendingSplit(groups[0], Flatten(groups[1..]), previous);
    WellSizedSplit(groups[0], Flatten(groups[1..]));
  }

  lemma RenderedTail(parts: seq<Segment>, groups: seq<seq<Event>>)
    requires Rendered(parts, groups) && parts != []
    ensures Rendered(parts[1..], groups[1..]) && parts == [SegmentOf(groups[0])] + parts[1..]
  {
  }

  /** Whole segments are read through, whatever follows them. */
  lemma {:induction false} ReadThrough(parts: seq<Segment>, groups: seq<seq<Event>>, rest: seq<Segment>, previous: int)
    requires Rendered(parts, groups)
    requires AllWellSized(Flatten(groups)) && Ascending(Flatten(groups), previous)
    ensures ReadFrom(parts + rest, previous)
            == Prepend(parts, Flatten(groups), ReadFrom(rest, LastSeq(Flatten(groups), previous)))
    decreases |parts|
  {
    hide ReadFrom, ReadSegment, Decode, EncodeAll, NextFrame, Ascending;
    if parts == [] {
      assert parts + rest == rest;
      PrependNothing(ReadFrom(rest, previous));
    } else {
      HeadGroup(groups, previous);
      RenderedTail(parts, groups);
      var g, mid := groups[0], LastSeq(groups[0], previous);
      var r := ReadFrom(rest, LastSeq(Flatten(groups), previous));
      calc {
        ReadFrom(parts + rest, previous);
        { assert parts + rest == [SegmentOf(g)] + (parts[1..] + rest); }
        ReadFrom([SegmentOf(g)] + (parts[1..] + rest), previous);
        { ReadOneSegment(g, parts[1..] + rest, previous); }
        Prepend([SegmentOf(g)], g, ReadFrom(parts[1..] + rest, mid));
        { ReadThrough(parts[1..], groups[1..], rest, mid); }
        Prepend([SegmentOf(g)], g, Prepend(parts[1..], Flatten(groups[1..]), r));
        { PrependTwice([SegmentOf(g)], g, parts[1..], Flatten(groups[1..]), r); }
        Prepend(parts, Flatten(groups), r);
      }
    }
  }

  lemma ReadTornRecord(es: seq<Event>, torn: seq<byte>, previous: int)
    requires es != [] && AllWellSized(es) && Ascending(es, previous)
    requires NextFrame(torn).Torn?
    ensures ReadFrom([Segment(es[0].seqNo, SegmentOf(es).data + torn)], previous)
            == ReadOutcome(Events(es), [SegmentOf(es)])
  {
    var part := Segment(es[0].seqNo, SegmentOf(es).data + torn);
    assert part.data[|VERSION_HEADER|..] == EncodeAll(es) + torn;
    DecodeOfEncoding(es, torn);
    assert part.data[..|VERSION_HEADER| + |EncodeAll(es)|] == SegmentOf(es).data;
    ReadLast(part, es, |EncodeAll(es)|, previous);
  }

  lemma ReadNewSegment(first: uint64, torn: seq<byte>, previous: int)
    requires TornNewSegment(torn)
    ensures ReadFrom([Segment(first, torn)], previous)
            == if |torn| < |VERSION_HEADER| then ReadOutcome(ReadFailed, [Segment(first, torn)])
               else ReadOutcome(Events([]), [Segment(first, VERSION_HEADER)])
  {
    if VERSION_HEADER <= torn {
      assert Decode(torn[|VERSION_HEADER|..]) == Decoded([], 0);
      assert torn[..|VERSION_HEADER|] == VERSION_HEADER;
      ReadLast(Segment(first, torn), [], 0, previous);
    } else {
      assert !HasVersionHeader(torn);
    }
  }

  lemma ReadWhole(parts: seq<Segment>, groups: seq<seq<Event>>)
    requires Rendered(parts, groups)
    requires AllWellSized(Flatten(groups)) && Ascending(Flatten(groups), 0)
    ensures ReadAll(parts) == ReadOutcome(Events(Flatten(groups)), parts)
  {
    ReadThrough(parts, groups, [], 0);
    assert parts + [] == parts && Flatten(groups) + [] == Flatten(groups);
  }

  lemma TornLastGroup(groups: seq<seq<Event>>)
    requires groups != [] && AllWellSized(Flatten(groups)) && Ascending(Flatten(groups), 0)
    ensures var whole, es := groups[..|groups| - 1], groups[|groups| - 1];
            && Flatten(groups) == Flatten(whole) + es
            && AllWellSized(Flatten(whole)) && Ascending(Flatten(whole), 0)
            && AllWellSized(es) && Ascending(es, LastSeq(Flatten(whole), 0))
  {
    var n := |groups| - 1;
    FlattenDrop(groups, n);
    assert groups[n..] == [groups[n]];
    FlattenSingle(groups[n]);
    AscendingSplit(Flatten(groups[..n]), groups[n], 0);
    WellSizedSplit(Flatten(groups[..n]), groups[n]);
  }

  lemma ReadTornLast(parts: seq<Segment>, groups: seq<seq<Event>>, torn: seq<byte>)
    requires Shaped(parts, groups, TornRecord(torn))
    requires AllWellSized(Flatten(groups)) && Ascending(Flatten(groups), 0)
    ensures ReadAll(parts) == ReadOutcome(Events(Flatten(groups)), Repaired(parts, groups, TornRecord(torn)))
  {
    var n := |groups| - 1;
    var whole, es := groups[..n], groups[n];
    TornLastGroup(groups);
    hide ReadFrom, EncodeAll, NextFrame, Ascending, Flatten, AllWellSized, SegmentOf, Rendered;
    SplitLast(parts);
    ReadThrough(parts[..n], whole, [parts[n]], 0);
    ReadTornRecord(es, torn, LastSeq(Flatten(whole), 0));
    assert Prepend(parts[..n], Flatten(whole), ReadOutcome(Events(es), [SegmentOf(es)]))
        == ReadOutcome(Events(Flatten(groups)), parts[..n] + [SegmentOf(es)]);
  }

  lemma SplitLast<T>(s: seq<T>)
    requires s != []
    ensures s == s[..|s| - 1] + [s[|s| - 1]]
  {
  }

  lemma ReadNewLast(parts: seq<Segment>, groups: seq<seq<Event>>, first: uint64, torn: seq<byte>)
    requires Shaped(parts, groups, NewSegment(first, torn))
    requires AllWellSized(Flatten(groups)) && Ascending(Flatten(groups), 0)
    ensures ReadAll(parts)
            == if Readable(NewSegment(first, torn))
               then ReadOutcome(Events(Flatten(groups)), Repaired(parts, groups, NewSegment(first, torn)))
               else ReadOutcome(ReadFailed, parts)
  {
    hide ReadFrom, EncodeAll, NextFrame, Ascending, Flatten, AllWellSized, SegmentOf;
    var n := |groups|;
    SplitLast(parts);
    ReadThrough(parts[..n], groups, [parts[n]], 0);
    ReadNewSegment(first, torn, LastSeq(Flatten(groups), 0));
    assert Flatten(groups) + [] == Flatten(groups);
  }

  /** A read returns exactly the whole events, or fails exactly on a torn version header. */
  lemma ReadShaped(parts: seq<Segment>, groups: seq<seq<Event>>, tail: Tail)
    requires Shaped(parts, groups, tail)
    requires AllWellSized(Flatten(groups)) && Ascending(Flatten(groups), 0)
    ensures ReadAll(parts)
            == if Readable(tail) then ReadOutcome(Events(Flatten(groups)), Repaired(parts, groups, tail))
               else ReadOutcome(ReadFailed, parts)
  {
    match tail
    case Clean => ReadWhole(parts, groups);
    case TornRecord(torn) => ReadTornLast(parts, groups, torn);
    case NewSegment(first, torn) => ReadNewLast(parts, groups, first, torn);
  }

  function RepairedTail(tail: Tail): Tail {
    match tail
    case NewSegment(first, torn) => if Readable(tail) then NewSegment(first, VERSION_HEADER) else tail
    case _ => Clean
  }

  lemma RepairedShape(parts: seq<Segment>, groups: seq<seq<Event>>, tail: Tail)
    requires Shaped(parts, groups, tail) && Readable(tail)
    ensures Shaped(Repaired(parts, groups, tail), groups, RepairedTail(tail))
  {
    if tail.TornRecord? {
      var n := |groups| - 1;
      var repaired := Repaired(parts, groups, tail);
      assert repaired[..n] == parts[..n];
      forall i | 0 <= i < |groups|
        ensures groups[i] != [] && repaired[i] == SegmentOf(groups[i])
      {
        if i < n {
          assert parts[..n][i] == SegmentOf(groups[..n][i]);
        }
      }
    } else if tail.NewSegment? {
      var n := |groups|;
      assert Repaired(parts, groups, tail)[..n] == parts[..n];
      assert VERSION_HEADER[|VERSION_HEADER|..] == [];
    }
  }

  /** Truncating a torn tail is done once: reading again returns the same events and changes nothing. */
  lemma ReadIsFixedPoint(parts: seq<Segment>, groups: seq<seq<Event>>, tail: Tail)
    requires Shaped(parts, groups, tail)
    requires AllWellSized(Flatten(groups)) && Ascending(Flatten(groups), 0)
    ensures ReadAll(ReadAll(parts).parts) == ReadAll(parts)
  {
    ReadShaped(parts, groups, tail);
    if Readable(tail) {
      RepairedShape(parts, groups, tail);
      ReadShaped(Repaired(parts, groups, tail), groups, RepairedTail(tail));
    }
  }

  // ----- Interrupted appends -----------------------------------------------------------------

  /** The spool holds a suffix of the log, and some of every log that is not empty; then at most a torn tail. */
  predicate Retains(parts: seq<Segment>, groups: seq<seq<Event>>, tail: Tail, all: seq<Event>) {
    && Shaped(parts, groups, tail)
    && AllWellSized(all) && Ascending(all, 0)
    && IsSuffix(Flatten(groups), all)
    && (all != [] ==> groups != [])
  }

  /** Everything of the log but its first k events can be read. */
  ghost predicate Recoverable(parts: seq<Segment>, all: seq<Event>, k: nat) {
    exists groups, tail :: Retains(parts, groups, tail, all) && k + |Flatten(groups)| == |all|
  }

  /** A bounded log from which the first k events were evicted. */
  ghost predicate BoundedFrom(parts: seq<Segment>, all: seq<Event>, k: nat, budget: nat) {
    exists groups :: BoundedLog(parts, groups, all, budget) && k + |Flatten(groups)| == |all|
  }

  /** The whole record reached the disk, whatever the call reported. */
  predicate Landed(parts: seq<Segment>, e: Event, budget: nat, fault: Fault) {
    Fits(e, budget) && Append(parts, e, budget, fault).parts == Append(parts, e, budget, NoFault).parts
  }

  /** How many of the oldest segments an append removes: those it plans to, unless a removal fails before. */
  function Removed(parts: seq<Segment>, e: Event, budget: nat, fault: Fault): (n: nat)
    ensures n <= |parts| && n <= Evictions(parts, |EncodeEvent(e)| + |VERSION_HEADER|, budget)
  {
    if !Fits(e, budget) || fault.FailEarly? || !Rotates(parts, |EncodeEvent(e)|, budget) then 0
    else
      var planned := Evictions(parts, |EncodeEvent(e)| + |VERSION_HEADER|, budget);
      if fault.FailRemove? && fault.removed < planned then fault.removed else planned
  }

  /** How many events the segments hold. */
  function StoredIn(parts: seq<Segment>): nat {
    if parts == [] then 0 else Stored(parts[0]) + StoredIn(parts[1..])
  }

  function Stored(part: Segment): nat {
    if !HasVersionHeader(part.data) then 0
    else
      match Decode(part.data[|VERSION_HEADER|..])
      case Decoded(events, _) => |events|
      case Corrupt => 0
  }

  lemma StoredWhole(es: seq<Event>)
    requires es != [] && AllWellSized(es)
    ensures Stored(SegmentOf(es)) == |es|
  {
    assert SegmentOf(es).data[|VERSION_HEADER|..] == EncodeAll(es) + [];
    DecodeOfEncoding(es, []);
  }

  lemma {:induction false} StoredRendered(parts: seq<Segment>, groups: seq<seq<Event>>)
    requires Rendered(parts, groups) && AllWellSized(Flatten(groups))
    ensures StoredIn(parts) == |Flatten(groups)|
    decreases |parts|
  {
    if parts != [] {
      hide Stored, SegmentOf;
      WellSizedSplit(groups[0], Flatten(groups[1..]));
      RenderedTail(parts, groups);
      StoredWhole(groups[0]);
      StoredRendered(parts[1..], groups[1..]);
    }
  }

  lemma SuffixFacts(es: seq<Event>, all: seq<Event>)
    requires IsSuffix(es, all) && AllWellSized(all) && Ascending(all, 0)
    ensures AllWellSized(es) && Ascending(es, 0)
  {
    var before := all[..|all| - |es|];
    assert all == before + es;
    AscendingSplit(before, es, 0);
    WellSizedSplit(before, es);
    if es != [] && before != [] {
      AscendingAbove(all, 0, |before|);
    }
  }

  /** The events of the first n segments, counted. */
  lemma StoredInFirst(parts: seq<Segment>, groups: seq<seq<Event>>, all: seq<Event>, n: nat)
    requires Rendered(parts, groups) && IsSuffix(Flatten(groups), all) && AllWellSized(all) && Ascending(all, 0) && n <= |parts|
    ensures StoredIn(parts[..n]) == |Flatten(groups)| - |Flatten(groups[n..])|
  {
    SuffixFacts(Flatten(groups), all);
    FlattenDrop(groups, n);
    WellSizedSplit(Flatten(groups[..n]), Flatten(groups[n..]));
    StoredRendered(parts[..n], groups[..n]);
  }

  /** With room for a whole segment and one more record, eviction always leaves a segment. */
  lemma EvictionLeavesOne(parts: seq<Segment>, groups: seq<seq<Event>>, all: seq<Event>, appendBytes: nat, budget: nat)
    requires BoundedLog(parts, groups, all, budget) && all != []
    requires SPOOL_SEGMENT_BYTES + appendBytes <= budget
    ensures Evictions(parts, appendBytes, budget) < |parts|
  {
    if parts != [] {
      EvictionsEmptyExactly(parts, appendBytes, budget);
    }
  }

  lemma DropRetains(parts: seq<Segment>, groups: seq<seq<Event>>, all: seq<Event>, budget: nat, n: nat)
    requires BoundedLog(parts, groups, all, budget)
    requires n <= |parts| && (all != [] ==> n < |parts|)
    ensures Retains(parts[n..], groups[n..], Clean, all)
  {
    SuffixDrop(groups, n, all);
  }

  lemma TornRotation(parts: seq<Segment>, groups: seq<seq<Event>>, all: seq<Event>, e: Event, budget: nat, n: nat, written: nat)
    requires BoundedLog(parts, groups, all, budget) && WellSized(e)
    requires n <= |parts| && (all != [] ==> n < |parts|)
    requires written < |VERSION_HEADER + EncodeEvent(e)|
    ensures var torn := (VERSION_HEADER + EncodeEvent(e))[..written];
            Retains(parts[n..] + [Segment(e.seqNo, torn)], groups[n..], NewSegment(e.seqNo, torn), all)
  {
    var torn := (VERSION_HEADER + EncodeEvent(e))[..written];
    TornHeaderOrRecord(e, written);
    SuffixDrop(groups, n, all);
    var parts' := parts[n..] + [Segment(e.seqNo, torn)];
    assert parts'[..|groups[n..]|] == parts[n..];
    hide TornNewSegment, EncodeEvent, Ascending, AllWellSized;
  }

  lemma TornHeaderOrRecord(e: Event, written: nat)
    requires WellSized(e) && written < |VERSION_HEADER + EncodeEvent(e)|
    ensures TornNewSegment((VERSION_HEADER + EncodeEvent(e))[..written])
  {
    var torn := (VERSION_HEADER + EncodeEvent(e))[..written];
    if |VERSION_HEADER| <= written {
      var k := written - |VERSION_HEADER|;
      assert torn[|VERSION_HEADER|..] == EncodeEvent(e)[..k];
      FrameOfTornEncoding(e, k);
    }
  }

  lemma TornExtension(parts: seq<Segment>, groups: seq<seq<Event>>, all: seq<Event>, e: Event, budget: nat, written: nat)
    requires BoundedLog(parts, groups, all, budget) && WellSized(e) && parts != []
    requires 0 < written < |EncodeEvent(e)|
    ensures var n := |parts| - 1;
            var torn := EncodeEvent(e)[..written];
            Retains(parts[n := Segment(parts[n].first, parts[n].data + torn)], groups, TornRecord(torn), all)
  {
    var n := |parts| - 1;
    var torn := EncodeEvent(e)[..written];
    FrameOfTornEncoding(e, written);
    var parts' := parts[n := Segment(parts[n].first, parts[n].data + torn)];
    assert parts'[..n] == parts[..n];
  }

  /** Of the log, exactly the events of `kept` are left, and only a torn tail follows. */
  ghost predicate Leaves(parts: seq<Segment>, kept: seq<seq<Event>>, all: seq<Event>) {
    exists tail :: Retains(parts, kept, tail, all)
  }

  lemma RotationLeavesOne(parts: seq<Segment>, groups: seq<seq<Event>>, all: seq<Event>, e: Event, budget: nat, fault: Fault)
    requires BoundedLog(parts, groups, all, budget)
    requires SPOOL_SEGMENT_BYTES + |EncodeEvent(e)| + |VERSION_HEADER| <= budget
    ensures all != [] ==> Removed(parts, e, budget, fault) < |parts|
  {
    hide Evictions, BoundedLog, EncodeEvent;
    if all != [] {
      EvictionLeavesOne(parts, groups, all, |EncodeEvent(e)| + |VERSION_HEADER|, budget);
    }
  }

  /** What a rotating append does to the list, with the name of the new segment out of the way. */
  lemma RotationOutcome(parts: seq<Segment>, groups: seq<seq<Event>>, all: seq<Event>, e: Event, budget: nat, fault: Fault)
    requires BoundedLog(parts, groups, all, budget) && Ascending(all + [e], 0)
    requires Fits(e, budget) && !fault.FailEarly? && Rotates(parts, |EncodeEvent(e)|, budget)
    ensures var n := Removed(parts, e, budget, fault);
            var payload := VERSION_HEADER + EncodeEvent(e);
            var planned := Evictions(parts, |EncodeEvent(e)| + |VERSION_HEADER|, budget);
            Append(parts, e, budget, fault)
            == if n < planned || fault.FailCreate? then AppendOutcome(false, parts[n..])
               else AppendOutcome(!fault.FailWrite?, parts[n..] + [Segment(e.seqNo, Written(payload, fault))])
  {
    hide Rendered, Flatten, EncodeEvent, Ascending, TotalBytes, Evictions, BoundedLog, Append, AppendRotating, Rotates, Fits, Named, Removed, Written;
    BoundedParts(parts, groups, all, budget);
    NoCollision(parts, groups, all, Evictions(parts, |EncodeEvent(e)| + |VERSION_HEADER|, budget), e);
    RotatingIsAppend(parts, e, budget, fault);
    RotatingCases(parts, e, budget, fault);
  }

  lemma RotatingCases(parts: seq<Segment>, e: Event, budget: nat, fault: Fault)
    requires Fits(e, budget) && !fault.FailEarly? && Rotates(parts, |EncodeEvent(e)|, budget)
    requires var left := parts[Evictions(parts, |EncodeEvent(e)| + |VERSION_HEADER|, budget)..];
             !Named(left, e.seqNo) && forall data :: InsertSegment(left, Segment(e.seqNo, data)) == left + [Segment(e.seqNo, data)]
    ensures var n := Removed(parts, e, budget, fault);
            var payload := VERSION_HEADER + EncodeEvent(e);
            var planned := Evictions(parts, |EncodeEvent(e)| + |VERSION_HEADER|, budget);
            AppendRotating(parts, e, budget, fault)
            == if n < planned || fault.FailCreate? then AppendOutcome(false, parts[n..])
               else AppendOutcome(!fault.FailWrite?, parts[n..] + [Segment(e.seqNo, Written(payload, fault))])
  {
    hide EncodeEvent, TotalBytes, Evictions, Rotates, Fits, Named, Written, InsertSegment;
  }

  lemma RotatingIsAppend(parts: seq<Segment>, e: Event, budget: nat, fault: Fault)
    requires Fits(e, budget) && !fault.FailEarly? && Rotates(parts, |EncodeEvent(e)|, budget)
    ensures Append(parts, e, budget, fault) == AppendRotating(parts, e, budget, fault)
  {
    hide AppendRotating, Fits, Rotates;
  }

  /** A rotating append landed exactly when all of its new segment was written. */
  lemma RotationLandsExactly(parts: seq<Segment>, groups: seq<seq<Event>>, all: seq<Event>, e: Event, budget: nat, fault: Fault)
    requires BoundedLog(parts, groups, all, budget) && Ascending(all + [e], 0)
    requires Fits(e, budget) && !fault.FailEarly? && Rotates(parts, |EncodeEvent(e)|, budget)
    ensures var n := Removed(parts, e, budget, fault);
            var payload := VERSION_HEADER + EncodeEvent(e);
            Landed(parts, e, budget, fault) <==>
              n == Evictions(parts, |EncodeEvent(e)| + |VERSION_HEADER|, budget) && !fault.FailCreate? && Written(payload, fault) == payload
  {
    var n := Removed(parts, e, budget, fault);
    RotationOutcome(parts, groups, all, e, budget, fault);
    RotationOutcome(parts, groups, all, e, budget, NoFault);
    NoCollision(parts, groups, all, n, e);
    hide Rendered, Flatten, EncodeEvent, Ascending, TotalBytes, Evictions, BoundedLog, Append, Rotates, Fits;
    var all' := Append(parts, e, budget, NoFault).parts;
    assert all'[|all'| - 1].first == e.seqNo;
    if Append(parts, e, budget, fault).parts == parts[n..] && |parts[n..]| > 0 {
      assert parts[n..][|parts[n..]| - 1].first != e.seqNo;
    }
  }

  lemma InterruptedRotation(parts: seq<Segment>, groups: seq<seq<Event>>, all: seq<Event>, e: Event, budget: nat, fault: Fault)
    requires BoundedLog(parts, groups, all, budget) && Ascending(all + [e], 0)
    requires SPOOL_SEGMENT_BYTES + |EncodeEvent(e)| + |VERSION_HEADER| <= budget
    requires Fits(e, budget) && !fault.FailEarly? && Rotates(parts, |EncodeEvent(e)|, budget)
    requires !Landed(parts, e, budget, fault)
    ensures !Append(parts, e, budget, fault).ok
    ensures Leaves(Append(parts, e, budget, fault).parts, groups[Removed(parts, e, budget, fault)..], all)
  {
    assert |parts| == |groups| && WellSized(e);
    hide Rendered, Flatten, EncodeEvent, Ascending, TotalBytes, Evictions, BoundedLog, Append, Removed, Landed, Rotates, Fits, Retains;
    var n := Removed(parts, e, budget, fault);
    RotationOutcome(parts, groups, all, e, budget, fault);
    RotationLandsExactly(parts, groups, all, e, budget, fault);
    RotationLeavesOne(parts, groups, all, e, budget, fault);
    var payload := VERSION_HEADER + EncodeEvent(e);
    if n < Evictions(parts, |EncodeEvent(e)| + |VERSION_HEADER|, budget) || fault.FailCreate? {
      DropRetains(parts, groups, all, budget, n);
    } else {
      TornRotation(parts, groups, all, e, budget, n, fault.written);
    }
  }

  lemma InterruptedExtension(parts: seq<Segment>, groups: seq<seq<Event>>, all: seq<Event>, e: Event, budget: nat, fault: Fault)
    requires BoundedLog(parts, groups, all, budget)
    requires Fits(e, budget) && !fault.FailEarly? && !Rotates(parts, |EncodeEvent(e)|, budget)
    requires !Landed(parts, e, budget, fault)
    ensures !Append(parts, e, budget, fault).ok
    ensures Leaves(Append(parts, e, budget, fault).parts, groups, all)
  {
    hide Flatten, EncodeEvent, Ascending, TotalBytes;
    var n := |parts| - 1;
    assert groups[0..] == groups;
    if fault.FailWrite? && 0 < fault.written {
      TornExtension(parts, groups, all, e, budget, fault.written);
    } else {
      assert parts[n].data + [] == parts[n].data;
      assert parts[n := Segment(parts[n].first, parts[n].data + [])] == parts;
      assert parts[0..] == parts;
      DropRetains(parts, groups, all, budget, 0);
    }
  }

  lemma UntouchedLeaves(parts: seq<Segment>, groups: seq<seq<Event>>, all: seq<Event>, budget: nat)
    requires BoundedLog(parts, groups, all, budget) && SPOOL_SEGMENT_BYTES <= budget
    ensures Leaves(parts, groups, all)
  {
    assert groups[0..] == groups && parts[0..] == parts;
    assert Retains(parts, groups, Clean, all);
  }

  /** The events of the log an append makes. */
  lemma AppendedGroups(parts: seq<Segment>, groups: seq<seq<Event>>, all: seq<Event>, e: Event, budget: nat, fault: Fault)
    requires BoundedLog(parts, groups, all, budget) && Ascending(all + [e], 0) && Landed(parts, e, budget, fault)
    ensures Flatten(AppendGroups(parts, groups, e, budget)) == Flatten(groups[Removed(parts, e, budget, fault)..]) + [e]
  {
    var n := Removed(parts, e, budget, fault);
    if Rotates(parts, |EncodeEvent(e)|, budget) {
      LandedNotEarly(parts, groups, all, e, budget, fault);
      RotationLandsExactly(parts, groups, all, e, budget, fault);
      FlattenAppend(groups[n..], [[e]]);
      FlattenSingle([e]);
    } else {
      LastSegmentShape(parts, groups, e);
      assert groups[0..] == groups;
    }
  }

  /** An append that stops before it touches the spool has not landed. */
  lemma LandedNotEarly(parts: seq<Segment>, groups: seq<seq<Event>>, all: seq<Event>, e: Event, budget: nat, fault: Fault)
    requires BoundedLog(parts, groups, all, budget) && Ascending(all + [e], 0)
    ensures Landed(parts, e, budget, fault) ==> !fault.FailEarly?
  {
    if Fits(e, budget) {
      if Rotates(parts, |EncodeEvent(e)|, budget) {
        RotationOutcome(parts, groups, all, e, budget, NoFault);
        NoCollision(parts, groups, all, 0, e);
        hide Rendered, Flatten, EncodeEvent, Ascending, TotalBytes, Evictions, BoundedLog, Rotates, Fits;
        var parts' := Append(parts, e, budget, NoFault).parts;
        assert parts'[|parts'| - 1].first == e.seqNo;
        assert parts[0..] == parts;
      } else {
        assert Append(parts, e, budget, NoFault).parts[|parts| - 1].data == parts[|parts| - 1].data + EncodeEvent(e);
      }
    }
  }

  /** The fault lets a whole record of so many bytes of data through, and all that comes before it. */
  predicate WholeRecord(parts: seq<Segment>, dataBytes: nat, budget: nat, fault: Fault) {
    var size := RECORD_HEADER + dataBytes;
    match fault
    case NoFault => true
    case FailEarly => false
    case FailRemove(n) => !Rotates(parts, size, budget) || n >= Evictions(parts, size + |VERSION_HEADER|, budget)
    case FailCreate => false
    case FailWrite(n) => n >= size + if Rotates(parts, size, budget) then |VERSION_HEADER| else 0
  }

  lemma ExtensionLandsExactly(parts: seq<Segment>, e: Event, budget: nat, fault: Fault)
    requires Fits(e, budget) && !fault.FailEarly? && !Rotates(parts, |EncodeEvent(e)|, budget)
    ensures Landed(parts, e, budget, fault) <==> !fault.FailCreate? && (fault.FailWrite? ==> fault.written >= |EncodeEvent(e)|)
  {
    hide EncodeEvent, TotalBytes;
    var n := |parts| - 1;
    var whole := AppendExtending(parts, e, NoFault).parts;
    assert whole[n].data == parts[n].data + EncodeEvent(e);
    if Landed(parts, e, budget, fault) {
      assert AppendExtending(parts, e, fault).parts[n] == whole[n];
      if fault.FailWrite? {
        assert |AppendExtending(parts, e, fault).parts[n].data| == |parts[n].data| + |Written(EncodeEvent(e), fault)|;
      }
    }
  }

  /** A record lands exactly when the fault lets all of it through. */
  lemma LandsExactly(parts: seq<Segment>, all: seq<Event>, k: nat, e: Event, budget: nat, fault: Fault)
    requires BoundedFrom(parts, all, k, budget) && Ascending(all + [e], 0) && Fits(e, budget)
    ensures Landed(parts, e, budget, fault) <==> WholeRecord(parts, |e.data|, budget, fault)
  {
    hide EncodeEvent, Ascending, TotalBytes, BoundedLog, Append, Evictions, Rotates, Fits, Landed, Flatten, WholeRecord;
    var groups :| BoundedLog(parts, groups, all, budget) && k + |Flatten(groups)| == |all|;
    LandedNotEarly(parts, groups, all, e, budget, fault);
    EarlyIsNotWhole(parts, |e.data|, budget, fault);
    if !fault.FailEarly? {
      if Rotates(parts, |EncodeEvent(e)|, budget) {
        RotationLandsWhole(parts, groups, all, e, budget, fault);
      } else {
        ExtensionLandsWhole(parts, e, budget, fault);
      }
    }
  }

  lemma EarlyIsNotWhole(parts: seq<Segment>, dataBytes: nat, budget: nat, fault: Fault)
    ensures fault.FailEarly? ==> !WholeRecord(parts, dataBytes, budget, fault)
  {
  }

  lemma RotationLandsWhole(parts: seq<Segment>, groups: seq<seq<Event>>, all: seq<Event>, e: Event, budget: nat, fault: Fault)
    requires BoundedLog(parts, groups, all, budget) && Ascending(all + [e], 0)
    requires Fits(e, budget) && !fault.FailEarly? && Rotates(parts, |EncodeEvent(e)|, budget)
    ensures Landed(parts, e, budget, fault) <==> WholeRecord(parts, |e.data|, budget, fault)
  {
    hide EncodeEvent, Ascending, TotalBytes, BoundedLog, Append, Evictions, Rotates, Fits, Landed;
    RotationLandsExactly(parts, groups, all, e, budget, fault);
    assert |VERSION_HEADER + EncodeEvent(e)| == RECORD_HEADER + |e.data| + |VERSION_HEADER|;
  }

  lemma ExtensionLandsWhole(parts: seq<Segment>, e: Event, budget: nat, fault: Fault)
    requires Fits(e, budget) && !fault.FailEarly? && !Rotates(parts, |EncodeEvent(e)|, budget)
    ensures Landed(parts, e, budget, fault) <==> WholeRecord(parts, |e.data|, budget, fault)
  {
    hide EncodeEvent, TotalBytes, Append, Evictions, Rotates, Fits, Landed;
    ExtensionLandsExactly(parts, e, budget, fault);
  }

  /**
   An append that stops anywhere.  It removes the n oldest segments, at most those it planned to, and
   no event but theirs is lost.  Either the whole record landed and the log is the one a successful
   append makes, or the log still ends where it did.
   */
  lemma InterruptedAppend(parts: seq<Segment>, groups: seq<seq<Event>>, all: seq<Event>, e: Event, budget: nat, fault: Fault)
    requires BoundedLog(parts, groups, all, budget) && Ascending(all + [e], 0)
    requires SPOOL_SEGMENT_BYTES + |EncodeEvent(e)| + |VERSION_HEADER| <= budget
    ensures var r, n := Append(parts, e, budget, fault), Removed(parts, e, budget, fault);
            var landed, groups' := Landed(parts, e, budget, fault), AppendGroups(parts, groups, e, budget);
            && (r.ok ==> landed)
            && (landed ==> BoundedLog(r.parts, groups', all + [e], budget) && Flatten(groups') == Flatten(groups[n..]) + [e])
            && (!landed ==> Leaves(r.parts, groups[n..], all))
  {
    AppendKeepsBoundedLog(parts, groups, all, e, budget);
    if Landed(parts, e, budget, fault) {
      AppendedGroups(parts, groups, all, e, budget, fault);
    } else {
      hide BoundedLog, AppendGroups, Leaves, EncodeEvent, Ascending;
      if !Fits(e, budget) || fault.FailEarly? {
        UntouchedLeaves(parts, groups, all, budget);
      } else if Rotates(parts, |EncodeEvent(e)|, budget) {
        InterruptedRotation(parts, groups, all, e, budget, fault);
      } else {
        InterruptedExtension(parts, groups, all, e, budget, fault);
      }
    }
  }

  /** The newest segment holds at least its version header. */
  predicate SpoolReadable(parts: seq<Segment>) {
    parts != [] ==> |VERSION_HEADER| <= |parts[|parts| - 1].data|
  }

  /**
   What survives an append that stops anywhere: a read returns exactly the events of the segments that
   were not removed, and the new event exactly when its record landed; it fails exactly when the newest
   segment lacks its version header.
   */
  lemma SurvivingEvents(parts: seq<Segment>, groups: seq<seq<Event>>, all: seq<Event>, e: Event, budget: nat, fault: Fault)
    requires BoundedLog(parts, groups, all, budget) && Ascending(all + [e], 0)
    requires SPOOL_SEGMENT_BYTES + |EncodeEvent(e)| + |VERSION_HEADER| <= budget
    ensures var after := Append(parts, e, budget, fault).parts;
            ReadAll(after).result ==
              if SpoolReadable(after)
              then Events(Flatten(groups[Removed(parts, e, budget, fault)..]) + if Landed(parts, e, budget, fault) then [e] else [])
              else ReadFailed
  {
    var after, n := Append(parts, e, budget, fault).parts, Removed(parts, e, budget, fault);
    InterruptedAppend(parts, groups, all, e, budget, fault);
    hide ReadAll, Append, Removed, BoundedLog, AppendGroups, EncodeEvent, Ascending, Landed, Flatten;
    if Landed(parts, e, budget, fault) {
      ReadBounded(after, AppendGroups(parts, groups, e, budget), all + [e], budget);
    } else {
      var tail :| Retains(after, groups[n..], tail, all);
      ReadRetained(after, groups[n..], tail, all);
      assert Flatten(groups[n..]) + [] == Flatten(groups[n..]);
    }
  }

  lemma ReadBounded(parts: seq<Segment>, groups: seq<seq<Event>>, all: seq<Event>, budget: nat)
    requires BoundedLog(parts, groups, all, budget)
    ensures ReadAll(parts) == ReadOutcome(Events(Flatten(groups)), parts) && SpoolReadable(parts)
  {
    SuffixFacts(Flatten(groups), all);
    ReadWhole(parts, groups);
  }

  lemma ReadableTail(parts: seq<Segment>, groups: seq<seq<Event>>, tail: Tail)
    requires Shaped(parts, groups, tail)
    ensures Readable(tail) <==> SpoolReadable(parts)
  {
  }

  lemma ReadRetained(parts: seq<Segment>, groups: seq<seq<Event>>, tail: Tail, all: seq<Event>)
    requires Retains(parts, groups, tail, all)
    ensures ReadAll(parts).result == if SpoolReadable(parts) then Events(Flatten(groups)) else ReadFailed
  {
    SuffixFacts(Flatten(groups), all);
    ReadShaped(parts, groups, tail);
    ReadableTail(parts, groups, tail);
  }

  /** Nothing is removed without need: with the last removed segment the budget would be exceeded, so less than a segment more could have stayed. */
  lemma RemovedForNeed(parts: seq<Segment>, e: Event, budget: nat, fault: Fault)
    requires SmallSegments(parts)
    ensures var n, appendBytes := Removed(parts, e, budget, fault), |EncodeEvent(e)| + |VERSION_HEADER|;
            n > 0 ==> TotalBytes(parts[n - 1..]) + appendBytes > budget && TotalBytes(parts[n..]) + appendBytes > budget - SPOOL_SEGMENT_BYTES
  {
    hide EncodeEvent;
    var n := Removed(parts, e, budget, fault);
    if n > 0 {
      EvictionNeeded(parts, |EncodeEvent(e)| + |VERSION_HEADER|, budget, n - 1);
      assert parts[n - 1..][1..] == parts[n..];
    }
  }

  lemma {:induction false} EvictionNeeded(parts: seq<Segment>, appendBytes: nat, budget: nat, i: nat)
    requires i < Evictions(parts, appendBytes, budget)
    ensures TotalBytes(parts[i..]) + appendBytes > budget
    decreases i
  {
    if i == 0 {
      assert parts[0..] == parts;
    } else {
      EvictionNeeded(parts[1..], appendBytes, budget, i - 1);
      assert parts[1..][i - 1..] == parts[i..];
    }
  }

  /** The same, in terms of the number of evicted events. */
  lemma AppendEvicts(parts: seq<Segment>, all: seq<Event>, k: nat, e: Event, budget: nat, fault: Fault)
    requires BoundedFrom(parts, all, k, budget) && Ascending(all + [e], 0)
    requires SPOOL_SEGMENT_BYTES + |EncodeEvent(e)| + |VERSION_HEADER| <= budget
    ensures var r := Append(parts, e, budget, fault);
            var k' := k + StoredIn(parts[..Removed(parts, e, budget, fault)]);
            && (r.ok ==> Landed(parts, e, budget, fault))
            && (Landed(parts, e, budget, fault) ==> BoundedFrom(r.parts, all + [e], k', budget))
            && (!Landed(parts, e, budget, fault) ==> Recoverable(r.parts, all, k'))
  {
    hide BoundedLog, Append, Removed, Landed, StoredIn, EncodeEvent, Ascending, Flatten, Recoverable, AppendGroups;
    var groups :| BoundedLog(parts, groups, all, budget) && k + |Flatten(groups)| == |all|;
    var n := Removed(parts, e, budget, fault);
    BoundedParts(parts, groups, all, budget);
    InterruptedAppend(parts, groups, all, e, budget, fault);
    StoredInFirst(parts, groups, all, n);
    hide BoundedFrom;
    if Landed(parts, e, budget, fault) {
      BoundedFromGroups(Append(parts, e, budget, fault).parts, AppendGroups(parts, groups, e, budget), all + [e], k + StoredIn(parts[..n]), budget);
    } else {
      LeavesRecoverable(Append(parts, e, budget, fault).parts, groups[n..], all, k + StoredIn(parts[..n]));
    }
  }

  lemma BoundedFromGroups(parts: seq<Segment>, groups: seq<seq<Event>>, all: seq<Event>, k: nat, budget: nat)
    requires BoundedLog(parts, groups, all, budget) && k + |Flatten(groups)| == |all|
    ensures BoundedFrom(parts, all, k, budget)
  {
    hide BoundedLog, Flatten;
  }

  lemma LeavesRecoverable(parts: seq<Segment>, kept: seq<seq<Event>>, all: seq<Event>, k: nat)
    requires Leaves(parts, kept, all) && k + |Flatten(kept)| == |all|
    ensures Recoverable(parts, all, k)
  {
    hide Retains, Flatten;
  }

  lemma BoundedParts(parts: seq<Segment>, groups: seq<seq<Event>>, all: seq<Event>, budget: nat)
    requires BoundedLog(parts, groups, all, budget)
    ensures Rendered(parts, groups) && |parts| == |groups| && IsSuffix(Flatten(groups), all) && AllWellSized(all) && Ascending(all, 0)
  {
  }

  lemma BoundedIsRecoverable(parts: seq<Segment>, all: seq<Event>, k: nat, budget: nat)
    requires BoundedFrom(parts, all, k, budget) && SPOOL_SEGMENT_BYTES <= budget
    ensures Recoverable(parts, all, k) && Ascending(all, 0)
    ensures ReadAll(parts).parts == parts && ReadAll(parts).result.Events?
  {
    var groups :| BoundedLog(parts, groups, all, budget) && k + |Flatten(groups)| == |all|;
    ReadBounded(parts, groups, all, budget);
    assert Retains(parts, groups, Clean, all);
  }
}
