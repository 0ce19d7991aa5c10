/**
 The client's pager over the listing service.  Page by page it yields exactly one filter over the
 snapshot, in order, each claim once, across any number of empty pages, and it ends.
 */
module Paging {
  import opened Wrappers
  import opened Listing

  function AsOf(sv: Service): Time {
    sv.now(0)
  }

  function VisibleIn(sv: Service, options: ListOptions, claims: seq<Claim>): seq<Record> {
    Visible(claims, sv.scope, options.pool, AsOf(sv))
  }

  predicate ReadableIn(sv: Service, options: ListOptions, claims: seq<Claim>) {
    Readable(claims, sv.scope, options.pool, AsOf(sv))
  }

  /** What both ends check of the options. */
  predicate GoodOptions(sv: Service, options: ListOptions) {
    && (options.limit == 0 || 1 <= options.limit <= MAX_LIST_LIMIT)
    && (options.pool == "" || options.pool in sv.pools)
  }

  function PayloadAt(sv: Service, options: ListOptions, offset: nat): Payload {
    Payload(CURSOR_VERSION, sv.scope, PoolDigest(options.pool), EffectiveLimit(options.limit), AsOf(sv), From(offset))
  }

  /** The cursor of this offset opens when it is sent back. */
  predicate CursorOpens(sv: Service, options: ListOptions, offset: nat) {
    AsOf(sv) > 0 && sv.cursorBytes(PayloadAt(sv, options, offset)) <= MAX_CURSOR_BYTES
  }

  /** All cursors a traversal needs from this page boundary on open. */
  predicate CursorsOpen(sv: Service, options: ListOptions, offset: nat)
    requires Progresses(sv)
    decreases |sv.snapshot| - offset
  {
    offset < |sv.snapshot| ==> CursorOpens(sv, options, offset) && CursorsOpen(sv, options, After(sv, offset))
  }

  /** What a traversal without API failures needs to succeed; nothing here depends on its course. */
  predicate Traversable(sv: Service, options: ListOptions)
    requires Progresses(sv)
  {
    GoodOptions(sv, options) && ReadableIn(sv, options, sv.snapshot) && CursorsOpen(sv, options, After(sv, 0))
  }

  predicate NoFailures(sv: Service, calls: nat) {
    forall i: nat | i < calls :: sv.verdict(i).None?
  }

  lemma VisibleSlices(sv: Service, options: ListOptions, offset: nat, next: nat)
    requires offset <= next <= |sv.snapshot|
    ensures VisibleIn(sv, options, sv.snapshot[..next])
         == VisibleIn(sv, options, sv.snapshot[..offset]) + VisibleIn(sv, options, sv.snapshot[offset..next])
    ensures ReadableIn(sv, options, sv.snapshot[..next])
       <==> ReadableIn(sv, options, sv.snapshot[..offset]) && ReadableIn(sv, options, sv.snapshot[offset..next])
  {
    var s := sv.snapshot;
    assert s[..next] == s[..offset] + s[offset..next];
    VisibleConcat(s[..offset], s[offset..next], sv.scope, options.pool, AsOf(sv));
    ReadableConcat(s[..offset], s[offset..next], sv.scope, options.pool, AsOf(sv));
  }

  lemma ReadableConcat(a: seq<Claim>, b: seq<Claim>, scope: Scope, pool: string, asOf: Time)
    ensures Readable(a + b, scope, pool, asOf) <==> Readable(a, scope, pool, asOf) && Readable(b, scope, pool, asOf)
  {
    var all := a + b;
    if Readable(all, scope, pool, asOf) {
      forall i | 0 <= i < |a| ensures WellFormed(a[i], scope, pool, asOf) {
        assert all[i] == a[i];
      }
      forall i | 0 <= i < |b| ensures WellFormed(b[i], scope, pool, asOf) {
        assert all[|a| + i] == b[i];
      }
    }
  }

  // ----- One request -------------------------------------------------------------------------

  /** The cursor with which a page that ends at `offset` refers to the rest. */
  function NextCursor(sv: Service, options: ListOptions, offset: nat, call: nat): Cursor {
    if offset < |sv.snapshot| then Encode(sv.scope, options.pool, EffectiveLimit(options.limit), AsOf(sv), From(offset), sv.nonce(call))
    else NoCursor
  }

  function OptionsWith(options: ListOptions, cursor: Cursor): ListOptions {
    options.(cursor := cursor)
  }

  /** A request as the pager makes it: the first without a cursor, the others with the cursor of where they resume. */
  predicate Asks(sv: Service, options: ListOptions, cursor: Cursor, offset: nat, call: nat) {
    if cursor.NoCursor? then offset == 0 && call == 0
    else call > 0 && offset < |sv.snapshot| && cursor == NextCursor(sv, options, offset, call - 1)
  }

  predicate Opens(sv: Service, options: ListOptions, cursor: Cursor, offset: nat) {
    cursor.NoCursor? || CursorOpens(sv, options, offset)
  }

  function Part(sv: Service, offset: nat): seq<Claim>
    requires Progresses(sv) && offset <= |sv.snapshot|
  {
    sv.snapshot[offset..After(sv, offset)]
  }

  /** A request succeeds exactly when it may, and brings the filter of its part of the snapshot. */
  lemma RequestExactly(sv: Service, options: ListOptions, cursor: Cursor, offset: nat, call: nat)
    requires Progresses(sv) && offset <= |sv.snapshot| && Asks(sv, options, cursor, offset, call)
    ensures var r := ListPage(sv, OptionsWith(options, cursor), call);
      && (r.Listed? <==> GoodOptions(sv, options) && Opens(sv, options, cursor, offset) && sv.verdict(call).None?
                         && ReadableIn(sv, options, Part(sv, offset)))
      && (r.Listed? ==> r.page == Page(VisibleIn(sv, options, Part(sv, offset)), NextCursor(sv, options, After(sv, offset), call)))
      && (r.ListError? ==> !r.error.RepeatedCursor?)
  {
    PageRefinesFilter(Part(sv, offset), sv.scope, options.pool, AsOf(sv));
  }

  /** What is known before a request: everything up to `offset` was fetched without an error. */
  ghost predicate Covered(sv: Service, options: ListOptions, offset: nat, calls: nat, records: seq<Record>)
    requires Progresses(sv) && offset <= |sv.snapshot|
  {
    && NoFailures(sv, calls)
    && VisibleIn(sv, options, sv.snapshot[..offset]) == records && ReadableIn(sv, options, sv.snapshot[..offset])
    && (calls > 0 ==> GoodOptions(sv, options) && (CursorsOpen(sv, options, offset) <==> CursorsOpen(sv, options, After(sv, 0))))
  }

  lemma RequestContinues(sv: Service, options: ListOptions, cursor: Cursor, offset: nat, call: nat, records: seq<Record>)
    requires Progresses(sv) && offset <= |sv.snapshot| && Asks(sv, options, cursor, offset, call) && Covered(sv, options, offset, call, records)
    requires ListPage(sv, OptionsWith(options, cursor), call).Listed?
    ensures var page := ListPage(sv, OptionsWith(options, cursor), call).page;
      Covered(sv, options, After(sv, offset), call + 1, records + page.leases) && page.next == NextCursor(sv, options, After(sv, offset), call)
  {
    hide ListPage, VisibleIn, ReadableIn, GoodOptions, CursorOpens;
    RequestExactly(sv, options, cursor, offset, call);
    VisibleSlices(sv, options, offset, After(sv, offset));
  }

  lemma ReadablePart(sv: Service, options: ListOptions, offset: nat)
    requires Progresses(sv) && offset <= |sv.snapshot| && ReadableIn(sv, options, sv.snapshot)
    ensures ReadableIn(sv, options, Part(sv, offset))
  {
    forall i | 0 <= i < |Part(sv, offset)| ensures WellFormed(Part(sv, offset)[i], sv.scope, options.pool, AsOf(sv)) {
      assert WellFormed(sv.snapshot[offset + i], sv.scope, options.pool, AsOf(sv));
    }
  }

  lemma RequestFails(sv: Service, options: ListOptions, cursor: Cursor, offset: nat, call: nat, records: seq<Record>)
    requires Progresses(sv) && offset <= |sv.snapshot| && Asks(sv, options, cursor, offset, call) && Covered(sv, options, offset, call, records)
    requires ListPage(sv, OptionsWith(options, cursor), call).ListError?
    ensures !ListPage(sv, OptionsWith(options, cursor), call).error.RepeatedCursor?
    ensures NoFailures(sv, call + 1) ==> !Traversable(sv, options)
  {
    hide ListPage, VisibleIn, ReadableIn, GoodOptions, CursorOpens;
    RequestExactly(sv, options, cursor, offset, call);
    if ReadableIn(sv, options, sv.snapshot) {
      ReadablePart(sv, options, offset);
    }
  }

  lemma NothingCovered(sv: Service, options: ListOptions)
    requires Progresses(sv)
    ensures Covered(sv, options, 0, 0, [])
  {
    assert sv.snapshot[..0] == [];
  }

  lemma NextCursorResumes(sv: Service, options: ListOptions, offset: nat, call: nat)
    requires offset <= |sv.snapshot|
    ensures var c := NextCursor(sv, options, offset, call);
      if offset < |sv.snapshot| then c.Sealed? && c.payload.resume == From(offset) else c == NoCursor
  {
  }

  lemma CoveredIsPrefix(sv: Service, options: ListOptions, offset: nat, calls: nat, records: seq<Record>)
    requires Progresses(sv) && offset <= |sv.snapshot| && Covered(sv, options, offset, calls, records)
    ensures records <= VisibleIn(sv, options, sv.snapshot)
    ensures offset == |sv.snapshot| ==> records == VisibleIn(sv, options, sv.snapshot) && ReadableIn(sv, options, sv.snapshot)
  {
    VisibleSlices(sv, options, offset, |sv.snapshot|);
    assert sv.snapshot[..|sv.snapshot|] == sv.snapshot;
  }

  // ----- The pager ---------------------------------------------------------------------------

  class Pager {
    const sv: Service
    const pool: string
    const limit: int
    var cursor: Cursor
    var seen: set<Cursor>
    var page: Page
    var index: nat
    var started: bool
    var done: bool
    var current: Option<Record>
    var err: Option<ListError>
    /** Requests made so far. */
    var calls: nat
    /** What Next has handed out, and how much of the snapshot the pages so far covered. */
    ghost var yielded: seq<Record>
    ghost var offset: nat

    /** The options the pager was made with. */
    function Asked(): ListOptions {
      ListOptions(pool, limit, NoCursor)
    }

    ghost function All(): seq<Record> {
      VisibleIn(sv, Asked(), sv.snapshot)
    }

    /** Every cursor sent so far resumed before `end`. */
    ghost predicate SeenBefore(end: nat)
      reads this
    {
      forall c | c in seen :: c.Sealed? && c.payload.resume.From? && c.payload.resume.offset < end
    }

    /** The pages up to `offset` came without an error, and all but what is left of the last one was handed out. */
    ghost predicate Fetched()
      reads this
      requires Progresses(sv) && offset <= |sv.snapshot| && index <= |page.leases|
    {
      && calls > 0 && page.next == NextCursor(sv, Asked(), offset, calls - 1)
      && Covered(sv, Asked(), offset, calls, yielded + page.leases[index..])
    }

    ghost predicate Failed()
      reads this
      requires Progresses(sv) && err.Some?
    {
      started && page == Page([], NoCursor) && index == 0 && !err.value.RepeatedCursor? && yielded <= All()
      && (NoFailures(sv, calls) ==> !Traversable(sv, Asked()))
    }

    ghost predicate Valid()
      reads this
    {
      && Progresses(sv) && offset <= |sv.snapshot| && index <= |page.leases|
      && (if err.Some? then Failed()
          else if started then Fetched() && SeenBefore(offset) && (done ==> offset == |sv.snapshot| && index == |page.leases|)
          else page == Page([], NoCursor) && index == 0 && yielded == [] && seen == {} && cursor == NoCursor
               && offset == 0 && calls == 0 && !done)
    }

    constructor (sv: Service, pool: string, limit: int)
      requires Progresses(sv)
      ensures Valid() && yielded == [] && !done && err.None?
      ensures this.sv == sv && this.pool == pool && this.limit == limit
    {
      this.sv, this.pool, this.limit := sv, pool, limit;
      cursor, seen, page, index := NoCursor, {}, Page([], NoCursor), 0;
      started, done, current, err, calls := false, false, None, None, 0;
      yielded, offset := [], 0;
    }

    lemma YieldsPrefix()
      requires Valid()
      ensures yielded <= All()
      ensures done && err.None? ==> yielded == All() && Traversable(sv, Asked())
    {
      if err.None? && started {
        CoveredIsPrefix(sv, Asked(), offset, calls, yielded + page.leases[index..]);
      }
    }

    method Next() returns (more: bool)
      requires Valid()
      modifies this
      ensures Valid()
      ensures more ==> !old(done) && old(err.None?) && err.None? && current.Some? && yielded == old(yielded) + [current.value]
      ensures !more ==> yielded == old(yielded) && (done || err.Some?)
    {
      hide Covered, Traversable, VisibleIn, NextCursor;
      more := false;
      if !done && err.None? {
        while true
          invariant Valid() && !done && yielded == old(yielded) && !more
          decreases if err.Some? then 0 else if started then 1 + |sv.snapshot| - offset else 2 + |sv.snapshot|
        {
          NextCursorResumes(sv, Asked(), offset, if calls > 0 then calls - 1 else 0);
          if index < |page.leases| {
            current := Some(page.leases[index]);
            HandedOut();
            yielded := yielded + [page.leases[index]];
            index := index + 1;
            more := true;
            break;
          }
          if started && page.next == NoCursor {
            done := true;
            break;
          }
          var repeated := started && page.next in seen;
          assert !repeated;
          err := if repeated then Some(RepeatedCursor) else err;
          if repeated {
            break;
          }
          Request();
        }
      }
    }

    /** Moving one lease from the page to the caller keeps what was fetched. */
    lemma HandedOut()
      requires index < |page.leases|
      ensures yielded + page.leases[index..] == (yielded + [page.leases[index]]) + page.leases[index + 1..]
    {
    }

    /** Take the cursor of the last page and remember that it was sent. */
    method Resume()
      requires Valid() && !done && err.None? && (started ==> page.next != NoCursor)
      modifies this`cursor, this`seen
      ensures Asks(sv, Asked(), cursor, offset, calls) && SeenBefore(After(sv, offset))
    {
      hide Covered, Readable, Visible;
      NextCursorResumes(sv, Asked(), offset, if calls > 0 then calls - 1 else 0);
      if started {
        seen := seen + {page.next};
        cursor := page.next;
      }
    }

    /** Before a request all leases of the pages so far were handed out. */
    lemma HandedOutAll()
      requires Valid() && !done && err.None? && index == |page.leases|
      ensures Covered(sv, Asked(), offset, calls, yielded) && yielded <= All()
    {
      hide Covered, VisibleIn, NextCursor;
      assert page.leases[index..] == [] && yielded + [] == yielded;
      NothingCovered(sv, Asked());
      CoveredIsPrefix(sv, Asked(), offset, calls, yielded);
    }

    /** Ask for the next page. */
    method Fetch() returns (result: ListResult)
      requires Valid() && !done && err.None? && index == |page.leases| && (started ==> page.next != NoCursor)
      modifies this`cursor, this`seen
      ensures SeenBefore(After(sv, offset)) && (offset < |sv.snapshot| || !started) && yielded <= All()
      ensures result.Listed? ==> result.page.next == NextCursor(sv, Asked(), After(sv, offset), calls)
                                 && Covered(sv, Asked(), After(sv, offset), calls + 1, yielded + result.page.leases)
      ensures result.ListError? ==> !result.error.RepeatedCursor? && (NoFailures(sv, calls + 1) ==> !Traversable(sv, Asked()))
    {
      hide ListPage, Covered, Traversable, VisibleIn, NoFailures, NextCursor, Asks;
      HandedOutAll();
      NextCursorResumes(sv, Asked(), offset, if calls > 0 then calls - 1 else 0);
      Resume();
      result := ListPage(sv, OptionsWith(Asked(), cursor), calls);
      match result {
        case Listed(_) => RequestContinues(sv, Asked(), cursor, offset, calls, yielded);
        case ListError(_) => RequestFails(sv, Asked(), cursor, offset, calls, yielded);
      }
    }

    /** Fetch the next page, or give up with an error. */
    method Request()
      requires Valid() && !done && err.None? && index == |page.leases| && (started ==> page.next != NoCursor)
      modifies this
      ensures Valid() && !done && yielded == old(yielded) && started
      ensures err.None? ==> old(!started) || offset > old(offset)
    {
      hide Covered, Traversable, VisibleIn, NoFailures, NextCursor;
      var result := Fetch();
      match result {
        case Listed(p) => page, offset := p, After(sv, offset);
        case ListError(e) => page, err := Page([], NoCursor), Some(e);
      }
      calls := calls + 1;
      started, index := true, 0;
      assert page.leases[index..] == page.leases;
    }
  }

  /**
   The whole traversal, as a caller drives it.  It always ends, never fails for a repeated cursor, and
   hands out a prefix of the filter; if the API never fails it hands out all of it, exactly when the
   options, the claims and the cursors allow.
   */
  method Traverse(sv: Service, pool: string, limit: int) returns (leases: seq<Record>, err: Option<ListError>)
    requires Progresses(sv)
    ensures var options := ListOptions(pool, limit, NoCursor);
      && leases <= VisibleIn(sv, options, sv.snapshot)
      && (err.None? ==> leases == VisibleIn(sv, options, sv.snapshot) && Traversable(sv, options))
      && err != Some(RepeatedCursor)
      && ((forall i :: sv.verdict(i).None?) ==> (err.None? <==> Traversable(sv, options)))
  {
    var pager := new Pager(sv, pool, limit);
    leases := [];
    var more := true;
    while more
      invariant pager.Valid() && pager.yielded == leases && pager.sv == sv && pager.pool == pool && pager.limit == limit
      invariant !more ==> pager.done || pager.err.Some?
      invariant fresh(pager)
      decreases more, |VisibleIn(sv, ListOptions(pool, limit, NoCursor), sv.snapshot)| - |leases|
    {
      more := pager.Next();
      if more {
        leases := leases + [pager.current.value];
        pager.YieldsPrefix();
      }
    }
    pager.YieldsPrefix();
    assert pager.Asked() == ListOptions(pool, limit, NoCursor);
    err := pager.err;
  }
}
