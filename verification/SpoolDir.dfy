/**
 The spool directory on disk: files named by sequence number.  The methods walk and change
 the directory the way the supervisor does, and are proved against `Spool.ReadAll` and
 `Spool.Append` on the sorted list of its segments.
 */
module SpoolDirectory {
  import opened Bytes
  import opened SpoolCodec
  import opened Spool

  type Files = map<uint64, seq<byte>>

  /** `parts` is the directory `files`, in file-name order. */
  ghost predicate Lists(parts: seq<Segment>, files: Files) {
    if parts == [] then files == map[]
    else
      var first := parts[0].first;
      && first in files && files[first] == parts[0].data
      && (forall name | name in files :: first <= name)
      && Lists(parts[1..], files - {first})
  }

  /** The sorted list of a directory is determined by the directory. */
  lemma {:induction false} ListsUnique(a: seq<Segment>, b: seq<Segment>, files: Files)
    requires Lists(a, files) && Lists(b, files)
    ensures a == b
    decreases |a|
  {
    if a != [] && b != [] {
      ListsUnique(a[1..], b[1..], files - {a[0].first});
      assert a == [a[0]] + a[1..] && b == [b[0]] + b[1..];
    }
  }

  /** Writing to an existing file changes that segment only. */
  lemma {:induction false} ListsUpdate(parts: seq<Segment>, files: Files, i: nat, data: seq<byte>)
    requires Lists(parts, files) && i < |parts|
    ensures parts[i].first in files && files[parts[i].first] == parts[i].data
    ensures Lists(parts[i := Segment(parts[i].first, data)], files[parts[i].first := data])
    decreases |parts|
  {
    var first := parts[0].first;
    var parts', files' := parts[i := Segment(parts[i].first, data)], files[parts[i].first := data];
    if i == 0 {
      assert files' - {first} == files - {first};
      assert parts'[1..] == parts[1..];
    } else {
      ListsUpdate(parts[1..], files - {first}, i - 1, data);
      assert files' - {first} == (files - {first})[parts[i].first := data];
      assert parts'[1..] == parts[1..][i - 1 := Segment(parts[i].first, data)];
    }
  }

  /** Creating a file inserts its segment. */
  lemma {:induction false} ListsInsert(parts: seq<Segment>, files: Files, added: Segment)
    requires Lists(parts, files) && added.first !in files
    ensures Lists(InsertSegment(parts, added), files[added.first := added.data])
    decreases |parts|
  {
    var files' := files[added.first := added.data];
    if parts == [] || added.first < parts[0].first {
      assert files' - {added.first} == files;
      assert ([added] + parts)[1..] == parts;
    } else {
      var first := parts[0].first;
      ListsInsert(parts[1..], files - {first}, added);
      assert files' - {first} == (files - {first})[added.first := added.data];
      assert ([parts[0]] + InsertSegment(parts[1..], added))[1..] == InsertSegment(parts[1..], added);
    }
  }

  lemma {:induction false} NamedMeansPresent(parts: seq<Segment>, files: Files, name: uint64)
    requires Lists(parts, files)
    ensures Named(parts, name) <==> name in files
    decreases |parts|
  {
    if parts != [] {
      NamedMeansPresent(parts[1..], files - {parts[0].first}, name);
      if name in files && name != parts[0].first {
        var i :| 0 <= i < |parts[1..]| && parts[1..][i].first == name;
        assert parts[i + 1].first == name;
      }
      if Named(parts, name) && name != parts[0].first {
        var i :| 0 <= i < |parts| && parts[i].first == name;
        assert parts[1..][i - 1].first == name;
      }
    }
  }

  class SpoolDir {
    var files: Files

    constructor ()
      ensures files == map[]
    {
      files := map[];
    }

    /** Read the directory and sort it by sequence number. */
    method Segments() returns (parts: seq<Segment>)
      ensures Lists(parts, files)
    {
      parts := [];
      ghost var done: Files := map[];
      var rest := files;
      while rest != map[]
        invariant Lists(parts, done)
        invariant done.Keys !! rest.Keys && done + rest == files
        decreases rest.Keys
      {
        var name :| name in rest;
        ListsInsert(parts, done, Segment(name, rest[name]));
        parts := InsertSegment(parts, Segment(name, rest[name]));
        done, rest := done[name := rest[name]], rest - {name};
      }
      assert done == files;
    }

    /** Read every retained event; a torn last segment is truncated on disk. */
    method ReadEvents() returns (result: ReadResult)
      modifies this
      ensures forall parts | Lists(parts, old(files)) ::
                && result == ReadAll(parts).result
                && Lists(ReadAll(parts).parts, files)
    {
      var parts := Segments();
      forall other | Lists(other, old(files)) ensures other == parts {
        ListsUnique(other, parts, old(files));
      }
      var events: seq<Event> := [];
      var previous: int := 0;
      ghost var kept: seq<Segment> := [];
      var i := 0;
      assert kept + parts[0..] == parts;
      while i < |parts|
        invariant 0 <= i <= |parts| && |kept| == i
        invariant Lists(kept + parts[i..], files)
        invariant ReadAll(parts) == Prepend(kept, events, ReadFrom(parts[i..], previous))
      {
        var part := parts[i];
        var read := ReadPart(part, i == |parts| - 1, previous);
        ListsTruncate(kept, parts[i..], read.kept, files);
        if read.kept != part {
          files := files[part.first := read.kept.data];
        }
        FailStep(kept, events, parts[i..], previous);
        if read.Rejected? {
          return ReadFailed;
        }
        PrependStep(kept, events, read.kept, read.items, ReadFrom(parts[i + 1..], LastSeq(read.items, previous)));
        assert parts[i..][1..] == parts[i + 1..];
        assert kept + ([read.kept] + parts[i + 1..]) == kept + [read.kept] + parts[i + 1..];
        kept := kept + [read.kept];
        events := events + read.items;
        previous := LastSeq(read.items, previous);
        i := i + 1;
      }
      assert parts[i..] == [];
      assert kept + [] == kept && events + [] == events;
      return Events(events);
    }

    static lemma ListsTruncate(kept: seq<Segment>, ahead: seq<Segment>, next: Segment, files: Files)
      requires ahead != [] && Lists(kept + ahead, files) && next.first == ahead[0].first
      ensures ahead[0].first in files && files[ahead[0].first] == ahead[0].data
      ensures Lists(kept + ([next] + ahead[1..]), files[ahead[0].first := next.data])
      ensures next == ahead[0] ==> Lists(kept + ([next] + ahead[1..]), files)
    {
      ListsUpdate(kept + ahead, files, |kept|, next.data);
      assert (kept + ahead)[|kept| := next] == kept + ([next] + ahead[1..]);
      if next == ahead[0] {
        assert files[ahead[0].first := next.data] == files;
      }
    }

    static lemma FailStep(kept: seq<Segment>, events: seq<Event>, ahead: seq<Segment>, previous: int)
      requires ahead != []
      ensures var read := ReadSegment(ahead[0], |ahead| == 1, previous);
              read.Rejected? ==>
                Prepend(kept, events, ReadFrom(ahead, previous)) == ReadOutcome(ReadFailed, kept + ([read.kept] + ahead[1..]))
    {
    }

    /** One segment file: version, whole records, monotonic sequence. */
    static method ReadPart(part: Segment, isLast: bool, previous: int) returns (read: SegmentRead)
      ensures read == ReadSegment(part, isLast, previous)
      ensures read.kept.first == part.first
    {
      if !HasVersionHeader(part.data) {
        return Rejected(part);
      }
      var decoded := DecodeEvents(part.data[|VERSION_HEADER|..]);
      if decoded.Corrupt? {
        return Rejected(part);
      }
      DecodeCanonical(part.data[|VERSION_HEADER|..]);
      var valid := |VERSION_HEADER| + decoded.consumed;
      var kept := part;
      if valid != |part.data| {
        if !isLast {
          return Rejected(part);
        }
        kept := part.(data := part.data[..valid]);
      }
      for i := 0 to |decoded.events|
        invariant Ascending(decoded.events, previous) <==>
                  Ascending(decoded.events[i..], if i == 0 then previous else decoded.events[i - 1].seqNo)
      {
        var floor := if i == 0 then previous else decoded.events[i - 1].seqNo;
        if decoded.events[i].seqNo <= floor {
          return Rejected(kept);
        }
        assert decoded.events[i..][1..] == decoded.events[i + 1..];
      }
      return Accepted(decoded.events, kept);
    }

    static lemma PrependStep(kept: seq<Segment>, events: seq<Event>, next: Segment, items: seq<Event>, rest: ReadOutcome)
      ensures Prepend(kept, events, Prepend([next], items, rest)) == Prepend(kept + [next], events + items, rest)
    {
      assert kept + ([next] + rest.parts) == kept + [next] + rest.parts;
      if rest.result.Events? {
        assert events + (items + rest.result.events) == events + items + rest.result.events;
      }
    }

    /** Remove the oldest files while the record to come does not fit; a removal may fail. */
    method Evict(listing: seq<Segment>, appendBytes: nat, budget: nat, fault: Fault) returns (ok: bool, parts: seq<Segment>)
      requires Lists(listing, files)
      modifies this
      ensures Lists(parts, files)
      ensures var planned := Evictions(listing, appendBytes, budget);
              if fault.FailRemove? && fault.removed < planned then !ok && parts == listing[fault.removed..]
              else ok && parts == listing[planned..]
    {
      parts := listing;
      var total := SumBytes(parts);
      var removed := 0;
      while total + appendBytes > budget && |parts| > 0
        invariant 0 <= removed <= |listing| && parts == listing[removed..]
        invariant Lists(parts, files)
        invariant total == TotalBytes(parts)
        invariant Evictions(listing, appendBytes, budget) == removed + Evictions(parts, appendBytes, budget)
        invariant fault.FailRemove? ==> removed <= fault.removed
        decreases |parts|
      {
        if fault.FailRemove? && removed == fault.removed {
          return false, parts;
        }
        files := files - {parts[0].first};
        total := total - |parts[0].data|;
        parts := parts[1..];
        removed := removed + 1;
      }
      return true, parts;
    }

    /** Evict, and create the file of a new segment. */
    method StartSegment(listing: seq<Segment>, e: Event, budget: nat, fault: Fault) returns (ok: bool)
      requires Lists(listing, files)
      modifies this
      ensures ok == AppendRotating(listing, e, budget, fault).ok
      ensures Lists(AppendRotating(listing, e, budget, fault).parts, files)
    {
      var record := EncodeEvent(e);
      var parts;
      ok, parts := Evict(listing, |record| + |VERSION_HEADER|, budget, fault);
      if !ok {
        return false;
      }
      NamedMeansPresent(parts, files, e.seqNo);
      if fault.FailCreate? || e.seqNo in files {
        return false;
      }
      var payload := Written(VERSION_HEADER + record, fault);
      ListsInsert(parts, files, Segment(e.seqNo, payload));
      files := files[e.seqNo := payload];
      return !fault.FailWrite?;
    }

    /** Append to the newest file. */
    method ExtendSegment(parts: seq<Segment>, e: Event, fault: Fault) returns (ok: bool)
      requires Lists(parts, files) && parts != []
      modifies this
      ensures ok == AppendExtending(parts, e, fault).ok
      ensures Lists(AppendExtending(parts, e, fault).parts, files)
    {
      if fault.FailCreate? {
        return false;
      }
      var n := |parts| - 1;
      var payload := parts[n].data + Written(EncodeEvent(e), fault);
      ListsUpdate(parts, files, n, payload);
      files := files[parts[n].first := payload];
      return !fault.FailWrite?;
    }

    /** Append one event within the budget, evicting whole segments from the front when needed. */
    method AppendBoundedEvent(e: Event, budget: nat, fault: Fault) returns (ok: bool)
      modifies this
      ensures forall parts | Lists(parts, old(files)) ::
                && ok == Append(parts, e, budget, fault).ok
                && Lists(Append(parts, e, budget, fault).parts, files)
    {
      hide Lists, EncodeEvent, AppendRotating, AppendExtending;
      var size := |EncodeEvent(e)|;
      var parts := Segments();
      forall other | Lists(other, files) ensures other == parts {
        ListsUnique(other, parts, files);
      }
      if |e.data| > MAX_EVENT_BYTES || size + |VERSION_HEADER| > budget || fault.FailEarly? {
        return false;
      }
      var total := SumBytes(parts);
      var rotate := |parts| == 0 || |parts[|parts| - 1].data| + size > SPOOL_SEGMENT_BYTES || total + size > budget;
      if rotate {
        ok := StartSegment(parts, e, budget, fault);
      } else {
        ok := ExtendSegment(parts, e, fault);
      }
    }
  }

  method SumBytes(parts: seq<Segment>) returns (total: nat)
    ensures total == TotalBytes(parts)
  {
    total := 0;
    for i := 0 to |parts|
      invariant total + TotalBytes(parts[i..]) == TotalBytes(parts)
    {
      assert parts[i..][1..] == parts[i + 1..];
      total := total + |parts[i].data|;
    }
  }
}
