/**
 The binary record codec of the durable output spool.

 A record is a 13-byte header (sequence number, stream, payload length) followed by
 the payload.  The decoder stops quietly at a record that is cut short, because that is
 what a crash in the middle of an append leaves behind, and fails on anything else that
 is not a record.
 */
module SpoolCodec {
  import opened Bytes

  const RECORD_HEADER := 13
  const MAX_EVENT_BYTES := 16 * 1024

  datatype Stream = Stdout | Stderr

  datatype Event = Event(seqNo: uint64, stream: Stream, data: seq<byte>)

  predicate WellSized(e: Event) {
    |e.data| <= MAX_EVENT_BYTES
  }

  predicate AllWellSized(es: seq<Event>) {
    forall e | e in es :: WellSized(e)
  }

  function EncodeEvent(e: Event): (out: seq<byte>)
    ensures |out| == RECORD_HEADER + |e.data|
  {
    BigEndian(e.seqNo, 8) + [if e.stream.Stderr? then 2 else 1] + BigEndian(|e.data| % TWO_TO_THE_32, 4) + e.data
  }

  function EncodeAll(es: seq<Event>): seq<byte> {
    if es == [] then [] else EncodeEvent(es[0]) + EncodeAll(es[1..])
  }

  lemma {:induction false} EncodeAllAppend(es: seq<Event>, fs: seq<Event>)
    ensures EncodeAll(es + fs) == EncodeAll(es) + EncodeAll(fs)
  {
    hide EncodeEvent;
    if es == [] {
      assert es + fs == fs;
    } else {
      EncodeAllAppend(es[1..], fs);
      assert (es + fs)[1..] == es[1..] + fs;
    }
  }

  lemma EncodeAllSnoc(es: seq<Event>, e: Event)
    ensures EncodeAll(es + [e]) == EncodeAll(es) + EncodeEvent(e)
  {
    EncodeAllAppend(es, [e]);
    assert EncodeAll([e]) == EncodeEvent(e) + EncodeAll([]);
  }

  /** What the decoder sees at the front of its input. */
  datatype Frame = Torn | Bad | Whole(event: Event, size: nat)

  function NextFrame(input: seq<byte>): (f: Frame)
    ensures f.Whole? ==> RECORD_HEADER <= f.size <= |input|
  {
    if |input| < RECORD_HEADER then Torn
    else
      assert Pow256(8) == TWO_TO_THE_64;
      var size := FromBigEndian(input[9..13]);
      if size > MAX_EVENT_BYTES then Bad
      else if |input| < RECORD_HEADER + size then Torn
      else if input[8] != 1 && input[8] != 2 then Bad
      else
        var stream := if input[8] == 2 then Stderr else Stdout;
        Whole(Event(FromBigEndian(input[..8]), stream, input[13..13 + size]), RECORD_HEADER + size)
  }

  datatype DecodeResult = Decoded(events: seq<Event>, consumed: nat) | Corrupt

  function Decode(input: seq<byte>): DecodeResult
    decreases |input|
  {
    match NextFrame(input)
    case Torn => Decoded([], 0)
    case Bad => Corrupt
    case Whole(event, size) =>
      match Decode(input[size..])
      case Corrupt => Corrupt
      case Decoded(events, consumed) => Decoded([event] + events, size + consumed)
  }

  /** The result of a scan that has already accepted `done` from the first `offset` bytes. */
  function Resume(done: seq<Event>, offset: nat, rest: DecodeResult): DecodeResult {
    match rest
    case Corrupt => Corrupt
    case Decoded(events, consumed) => Decoded(done + events, offset + consumed)
  }

  lemma ResumeStep(input: seq<byte>, done: seq<Event>, offset: nat)
    requires offset <= |input| && NextFrame(input[offset..]).Whole?
    ensures var f := NextFrame(input[offset..]);
            && offset + f.size <= |input|
            && Resume(done, offset, Decode(input[offset..]))
               == Resume(done + [f.event], offset + f.size, Decode(input[offset + f.size..]))
  {
    var f := NextFrame(input[offset..]);
    assert input[offset..][f.size..] == input[offset + f.size..];
    var rest := Decode(input[offset + f.size..]);
    if rest.Decoded? {
      assert done + ([f.event] + rest.events) == done + [f.event] + rest.events;
    }
  }

  /** The fields of the record header, read in place. */
  lemma FrameAt(input: seq<byte>, offset: nat)
    requires offset + RECORD_HEADER <= |input|
    ensures var header := input[offset..offset + RECORD_HEADER];
            && input[offset..][9..13] == header[9..13]
            && input[offset..][..8] == header[..8]
            && input[offset..][8] == header[8]
  {
    var header := input[offset..offset + RECORD_HEADER];
    assert input[offset..][..RECORD_HEADER] == header;
    assert input[offset..][9..13] == input[offset..][..RECORD_HEADER][9..13];
    assert input[offset..][..8] == input[offset..][..RECORD_HEADER][..8];
  }

  method DecodeEvents(input: seq<byte>) returns (result: DecodeResult)
    ensures result == Decode(input)
  {
    var events: seq<Event> := [];
    var offset: nat := 0;
    assert input[0..] == input;
    while true
      invariant offset <= |input|
      invariant Decode(input) == Resume(events, offset, Decode(input[offset..]))
      decreases |input| - offset
    {
      if |input| - offset < RECORD_HEADER {
        return Decoded(events, offset);
      }
      var header := input[offset..offset + RECORD_HEADER];
      FrameAt(input, offset);
      var size := FromBigEndian(header[9..13]);
      if size > MAX_EVENT_BYTES {
        return Corrupt;
      }
      if |input| - offset - RECORD_HEADER < size {
        return Decoded(events, offset);
      }
      var data := input[offset + RECORD_HEADER..offset + RECORD_HEADER + size];
      var stream := Stdout;
      if header[8] == 2 {
        stream := Stderr;
      } else if header[8] != 1 {
        return Corrupt;
      }
      assert Pow256(8) == TWO_TO_THE_64;
      assert input[offset..][13..13 + size] == data;
      ResumeStep(input, events, offset);
      events := events + [Event(FromBigEndian(header[..8]), stream, data)];
      offset := offset + RECORD_HEADER + size;
    }
  }

  lemma FrameOfEncoding(e: Event, rest: seq<byte>)
    requires WellSized(e)
    ensures NextFrame(EncodeEvent(e) + rest) == Whole(e, |EncodeEvent(e)|)
  {
    var input := EncodeEvent(e) + rest;
    assert Pow256(8) == TWO_TO_THE_64 && Pow256(4) == TWO_TO_THE_32;
    assert input[..8] == BigEndian(e.seqNo, 8);
    assert input[9..13] == BigEndian(|e.data|, 4);
    BigEndianRoundTrip(e.seqNo, 8);
    BigEndianRoundTrip(|e.data|, 4);
    assert input[13..13 + |e.data|] == e.data;
  }

  /** Cutting an encoded record anywhere before its end leaves a torn frame, never a bad or shorter one. */
  lemma FrameOfTornEncoding(e: Event, k: nat)
    requires WellSized(e) && k < |EncodeEvent(e)|
    ensures NextFrame(EncodeEvent(e)[..k]) == Torn
  {
    var input := EncodeEvent(e)[..k];
    if k >= RECORD_HEADER {
      assert Pow256(4) == TWO_TO_THE_32;
      assert input[9..13] == BigEndian(|e.data|, 4);
      BigEndianRoundTrip(|e.data|, 4);
    }
  }

  lemma {:induction false} DecodeOfEncoding(es: seq<Event>, tail: seq<byte>)
    requires AllWellSized(es) && NextFrame(tail).Torn?
    ensures Decode(EncodeAll(es) + tail) == Decoded(es, |EncodeAll(es)|)
  {
    if es == [] {
      assert EncodeAll(es) + tail == tail;
    } else {
      var rest := EncodeAll(es[1..]) + tail;
      DecodeOfEncoding(es[1..], tail);
      FrameOfEncoding(es[0], rest);
      assert EncodeAll(es) + tail == EncodeEvent(es[0]) + rest;
      assert (EncodeEvent(es[0]) + rest)[|EncodeEvent(es[0])|..] == rest;
    }
  }

  /** Round trip with a torn tail: a crash inside the next append loses that append and nothing else. */
  lemma TornTailRoundTrip(es: seq<Event>, e: Event, k: nat)
    requires AllWellSized(es) && WellSized(e) && k < |EncodeEvent(e)|
    ensures Decode(EncodeAll(es) + EncodeEvent(e)[..k]) == Decoded(es, |EncodeAll(es)|)
    ensures Decode(EncodeAll(es)) == Decoded(es, |EncodeAll(es)|)
  {
    FrameOfTornEncoding(e, k);
    DecodeOfEncoding(es, EncodeEvent(e)[..k]);
    DecodeOfEncoding(es, []);
    assert EncodeAll(es) + [] == EncodeAll(es);
  }

  lemma FrameCanonical(input: seq<byte>)
    requires NextFrame(input).Whole?
    ensures WellSized(NextFrame(input).event)
    ensures EncodeEvent(NextFrame(input).event) == input[..NextFrame(input).size]
  {
    BigEndianCanonical(input[..8]);
    BigEndianCanonical(input[9..13]);
    var f := NextFrame(input);
    var out := EncodeEvent(f.event);
    assert Pow256(4) == TWO_TO_THE_32;
    assert input[..f.size] == input[..8] + [input[8]] + input[9..13] + input[13..f.size];
  }

  /** Whatever the decoder accepts is the encoding of what it returns, and it stops only at a torn frame. */
  lemma {:induction false} DecodeCanonical(input: seq<byte>)
    requires Decode(input).Decoded?
    ensures var r := Decode(input);
            && r.consumed <= |input|
            && AllWellSized(r.events)
            && EncodeAll(r.events) == input[..r.consumed]
            && NextFrame(input[r.consumed..]).Torn?
    decreases |input|
  {
    var f := NextFrame(input);
    if f.Torn? {
      assert input[0..] == input;
    } else {
      DecodeCanonical(input[f.size..]);
      FrameCanonical(input);
      var rest := Decode(input[f.size..]);
      var r := Decode(input);
      assert r.events[1..] == rest.events;
      assert input[..r.consumed] == input[..f.size] + input[f.size..][..rest.consumed];
      assert input[f.size..][rest.consumed..] == input[r.consumed..];
    }
  }
}
