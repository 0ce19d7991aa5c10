/**
 Listing leases page by page: the backend's filter over the claims of the API server, the cursor
 that carries a page's continuation to the next request, and the client's page request.

 The API server serves one snapshot and its own page boundaries; a continuation stands for the
 offset it resumes at.  Sealing is ideal: a cursor that opens is one this service sealed.
 */
module Listing {
  import opened Wrappers

  type Time = int

  const MAX_LIST_LIMIT := 100
  const DEFAULT_LIST_LIMIT := 50
  const MAX_CURSOR_BYTES := 8 * 1024
  const CURSOR_VERSION := 1

  /** The instant a Go time value has before it is set, in nanoseconds from the Unix epoch. */
  const ZERO_TIME: Time := -62135596800 * 1_000_000_000

  datatype Scope = Scope(consumer: string, subject: string)

  /** A claim with its labels, its deletion mark and its annotations; an unreadable time is absent. */
  datatype Claim = Claim(
    name: string,
    managed: bool, scope: Scope, key: string, poolLabel: string,
    deleting: bool,
    pool: string, createdAt: Option<Time>, expiresAt: Option<Time>)

  datatype Record = Record(id: string, pool: string, createdAt: Time, expiresAt: Time)

  function RecordFromClaim(c: Claim): Option<Record> {
    if c.createdAt.None? || c.expiresAt.None? then None
    else Some(Record(c.name, c.pool, c.createdAt.value, c.expiresAt.value))
  }

  // ----- Cursors -----------------------------------------------------------------------------

  datatype Continuation = Start | From(offset: nat)

  datatype Payload = Payload(version: int, scope: Scope, pool: Option<string>, limit: int, asOf: Time, resume: Continuation)

  /** Text that was not sealed here does not open. */
  datatype Cursor = NoCursor | Sealed(payload: Payload, nonce: nat) | Foreign(text: string)

  function PoolDigest(pool: string): Option<string> {
    if pool == "" then None else Some(pool)
  }

  function Encode(scope: Scope, pool: string, limit: int, asOf: Time, resume: Continuation, nonce: nat): Cursor {
    Sealed(Payload(CURSOR_VERSION, scope, PoolDigest(pool), limit, asOf, resume), nonce)
  }

  /** `bytes` is the length of the cursor's text. */
  function Decode(cursor: Cursor, bytes: nat, scope: Scope, pool: string, limit: int): Option<Payload> {
    if cursor.NoCursor? || bytes > MAX_CURSOR_BYTES then None
    else if !cursor.Sealed? then None
    else
      var p := cursor.payload;
      if p.version != CURSOR_VERSION || p.scope != scope || p.pool != PoolDigest(pool) || p.limit != limit || p.asOf <= 0 || p.resume.Start? then None
      else Some(p)
  }

  /** A cursor opens for exactly the request it was made for, if its time is positive and its text short enough. */
  lemma CursorRoundTrip(scope: Scope, pool: string, limit: int, asOf: Time, resume: Continuation, nonce: nat, bytes: nat,
                        scope': Scope, pool': string, limit': int)
    ensures var r := Decode(Encode(scope, pool, limit, asOf, resume, nonce), bytes, scope', pool', limit');
      && (r.Some? <==> scope == scope' && pool == pool' && limit == limit' && asOf > 0 && resume.From? && bytes <= MAX_CURSOR_BYTES)
      && (r.Some? ==> r.value.asOf == asOf && r.value.resume == resume)
  {
  }

  // ----- The service -------------------------------------------------------------------------

  datatype ApiError = Gone | Unavailable

  /**
   What a traversal meets: the claims in API order, the page boundary after each offset, and for
   every request its time, its nonce, the length of a cursor text and whether the API fails.
   */
  datatype Service = Service(
    snapshot: seq<Claim>,
    cut: nat -> nat,
    pools: set<string>,
    scope: Scope,
    now: nat -> Time,
    nonce: nat -> nat,
    cursorBytes: Payload -> nat,
    verdict: nat -> Option<ApiError>)

  /** Every page of the API server gets on. */
  ghost predicate Progresses(sv: Service) {
    forall o: nat | o < |sv.snapshot| :: o < sv.cut(o) <= |sv.snapshot|
  }

  function After(sv: Service, o: nat): (next: nat)
    requires Progresses(sv)
    ensures o <= |sv.snapshot| ==> o <= next <= |sv.snapshot| && (o < |sv.snapshot| ==> o < next == sv.cut(o))
  {
    if o < |sv.snapshot| then sv.cut(o) else |sv.snapshot|
  }

  predicate Matches(c: Claim, scope: Scope, pool: string) {
    c.managed && c.scope == scope && (pool == "" || c.poolLabel == pool)
  }

  /** The label selector. */
  function Selected(claims: seq<Claim>, scope: Scope, pool: string): seq<Claim> {
    if claims == [] then []
    else (if Matches(claims[0], scope, pool) then [claims[0]] else []) + Selected(claims[1..], scope, pool)
  }

  datatype ListError =
    | InvalidLimit | UnknownPool | InvalidCursor | CursorExpired | ListFailed | MalformedClaim
    | InvalidRecord | RepeatedCursor

  datatype ListRequest = ListRequest(pool: string, limit: int, cursor: Cursor)
  datatype Page = Page(leases: seq<Record>, next: Cursor)
  datatype ListResult = Listed(page: Page) | ListError(error: ListError)

  /** What one page of claims comes to: deleted claims are passed over before they are read. */
  function PageLeases(claims: seq<Claim>, asOf: Time): Option<seq<Record>> {
    if claims == [] then Some([])
    else if claims[0].deleting then PageLeases(claims[1..], asOf)
    else
      var record := RecordFromClaim(claims[0]);
      var rest := PageLeases(claims[1..], asOf);
      if record.None? || rest.None? then None
      else Some(if record.value.expiresAt > asOf then [record.value] + rest.value else rest.value)
  }

  function Before(found: seq<Record>, rest: Option<seq<Record>>): Option<seq<Record>> {
    if rest.None? then None else Some(found + rest.value)
  }

  /** The loop of the backend over the claims of a page. */
  method CollectLeases(claims: seq<Claim>, asOf: Time) returns (leases: Option<seq<Record>>)
    ensures leases == PageLeases(claims, asOf)
  {
    var found: seq<Record> := [];
    var i := 0;
    var whole := PageLeases(claims, asOf);
    assert claims[0..] == claims && (whole.Some? ==> [] + whole.value == whole.value);
    while i < |claims|
      invariant 0 <= i <= |claims|
      invariant PageLeases(claims, asOf) == Before(found, PageLeases(claims[i..], asOf))
    {
      assert claims[i..][1..] == claims[i + 1..];
      var rest := PageLeases(claims[i + 1..], asOf);
      if !claims[i].deleting {
        var record := RecordFromClaim(claims[i]);
        if record.None? {
          return None;
        }
        if record.value.expiresAt > asOf {
          assert rest.Some? ==> found + ([record.value] + rest.value) == (found + [record.value]) + rest.value;
          found := found + [record.value];
        }
      }
      i := i + 1;
    }
    assert found + [] == found;
    return Some(found);
  }

  function Resume(request: ListRequest, sv: Service, call: nat): Option<(Time, nat)> {
    match request.cursor
    case NoCursor => Some((sv.now(call), 0))
    case Foreign(_) => None
    case Sealed(payload, _) =>
      var p := Decode(request.cursor, sv.cursorBytes(payload), sv.scope, request.pool, request.limit);
      if p.None? then None else Some((p.value.asOf, p.value.resume.offset))
  }

  /** The backend's List, as the `call`-th request. */
  function List(sv: Service, request: ListRequest, call: nat): ListResult
    requires Progresses(sv)
  {
    if request.limit < 1 || request.limit > MAX_LIST_LIMIT then ListError(InvalidLimit)
    else if request.pool != "" && request.pool !in sv.pools then ListError(UnknownPool)
    else
      var from := Resume(request, sv, call);
      if from.None? then ListError(InvalidCursor)
      else if sv.verdict(call).Some? then
        ListError(if sv.verdict(call).value.Gone? && !request.cursor.NoCursor? then CursorExpired else ListFailed)
      else
        var (asOf, offset) := from.value;
        if offset > |sv.snapshot| then ListError(ListFailed)
        else
          var next := After(sv, offset);
          var leases := PageLeases(Selected(sv.snapshot[offset..next], sv.scope, request.pool), asOf);
          if leases.None? then ListError(MalformedClaim)
          else
            Listed(Page(leases.value,
              if next < |sv.snapshot| then Encode(sv.scope, request.pool, request.limit, asOf, From(next), sv.nonce(call)) else NoCursor))
  }

  // ----- The client's request ----------------------------------------------------------------

  datatype ListOptions = ListOptions(pool: string, limit: int, cursor: Cursor)

  predicate ValidRecord(r: Record) {
    r.id != "" && r.pool != "" && r.createdAt != ZERO_TIME && r.expiresAt != ZERO_TIME
  }

  function EffectiveLimit(limit: int): int {
    if limit == 0 then DEFAULT_LIST_LIMIT else limit
  }

  function ListPage(sv: Service, options: ListOptions, call: nat): ListResult
    requires Progresses(sv)
  {
    if options.limit != 0 && (options.limit < 1 || options.limit > 100) then ListError(InvalidLimit)
    else
      var result := List(sv, ListRequest(options.pool, EffectiveLimit(options.limit), options.cursor), call);
      if result.Listed? && exists r | r in result.page.leases :: !ValidRecord(r) then ListError(InvalidRecord)
      else result
  }

  // ----- The reference: one filter over the snapshot -----------------------------------------

  predicate Shown(c: Claim, scope: Scope, pool: string, asOf: Time) {
    Matches(c, scope, pool) && !c.deleting && RecordFromClaim(c).Some? && RecordFromClaim(c).value.expiresAt > asOf
  }

  /** The tenant's and pool's claims that are not being deleted and end after `asOf`, in API order. */
  function Visible(claims: seq<Claim>, scope: Scope, pool: string, asOf: Time): seq<Record> {
    if claims == [] then []
    else
      (if Shown(claims[0], scope, pool, asOf) then [RecordFromClaim(claims[0]).value] else [])
      + Visible(claims[1..], scope, pool, asOf)
  }

  /** Each claim that has to be read can be, and each lease that is shown is a proper record. */
  predicate WellFormed(c: Claim, scope: Scope, pool: string, asOf: Time) {
    Matches(c, scope, pool) && !c.deleting ==>
      var r := RecordFromClaim(c);
      r.Some? && (r.value.expiresAt > asOf ==> ValidRecord(r.value))
  }

  predicate Readable(claims: seq<Claim>, scope: Scope, pool: string, asOf: Time) {
    forall i | 0 <= i < |claims| :: WellFormed(claims[i], scope, pool, asOf)
  }

  lemma {:induction false} VisibleConcat(a: seq<Claim>, b: seq<Claim>, scope: Scope, pool: string, asOf: Time)
    ensures Visible(a + b, scope, pool, asOf) == Visible(a, scope, pool, asOf) + Visible(b, scope, pool, asOf)
  {
    if a == [] {
      assert a + b == b;
    } else {
      assert (a + b)[1..] == a[1..] + b;
      VisibleConcat(a[1..], b, scope, pool, asOf);
    }
  }

  predicate AllValid(records: seq<Record>) {
    forall r | r in records :: ValidRecord(r)
  }

  /** A page of the service is the reference's part of the snapshot, and fails exactly when it is not readable. */
  lemma {:induction false} PageRefinesFilter(claims: seq<Claim>, scope: Scope, pool: string, asOf: Time)
    ensures var page := PageLeases(Selected(claims, scope, pool), asOf);
      && (Readable(claims, scope, pool, asOf) <==> page.Some? && AllValid(page.value))
      && (page.Some? ==> page.value == Visible(claims, scope, pool, asOf))
  {
    if claims != [] {
      var c, rest := claims[0], claims[1..];
      PageRefinesFilter(rest, scope, pool, asOf);
      assert claims == [c] + rest;
      ReadableCons(c, rest, scope, pool, asOf);
      if Matches(c, scope, pool) {
        assert Selected(claims, scope, pool)[1..] == Selected(rest, scope, pool);
      } else {
        assert Selected(claims, scope, pool) == Selected(rest, scope, pool);
      }
    }
  }

  lemma ReadableCons(c: Claim, rest: seq<Claim>, scope: Scope, pool: string, asOf: Time)
    ensures Readable([c] + rest, scope, pool, asOf) <==> WellFormed(c, scope, pool, asOf) && Readable(rest, scope, pool, asOf)
  {
    var all := [c] + rest;
    if Readable(all, scope, pool, asOf) {
      forall i | 0 <= i < |rest| ensures WellFormed(rest[i], scope, pool, asOf) {
        assert all[i + 1] == rest[i];
      }
      assert all[0] == c;
    }
  }

  // ----- What the reference means ------------------------------------------------------------

  /** The claim is this tenant's, of this pool if one is asked for, not being deleted, readable and good after `asOf`. */
  predicate Belongs(c: Claim, scope: Scope, pool: string, asOf: Time) {
    && c.managed && c.scope.consumer == scope.consumer && c.scope.subject == scope.subject && (pool == "" || c.poolLabel == pool)
    && !c.deleting && c.createdAt.Some? && c.expiresAt.Some? && asOf < c.expiresAt.value
  }

  /** One claim is shown exactly if it belongs, with its own name, pool and times. */
  lemma VisibleOne(c: Claim, scope: Scope, pool: string, asOf: Time)
    ensures Visible([c], scope, pool, asOf) == if Belongs(c, scope, pool, asOf) then [Record(c.name, c.pool, c.createdAt.value, c.expiresAt.value)] else []
  {
    assert Visible([c][1..], scope, pool, asOf) == [];
  }

  /** One claim spoils a page exactly if it is this tenant's and pool's, stands, and cannot be read or would be shown without a name, a pool or a time. */
  lemma ReadableOne(c: Claim, scope: Scope, pool: string, asOf: Time)
    ensures Readable([c], scope, pool, asOf)
       <==> (c.managed && c.scope == scope && (pool == "" || c.poolLabel == pool) && !c.deleting ==>
               && c.createdAt.Some? && c.expiresAt.Some?
               && (asOf < c.expiresAt.value ==> c.name != "" && c.pool != "" && c.createdAt.value != ZERO_TIME && c.expiresAt.value != ZERO_TIME))
  {
    assert [c][0] == c;
  }

  /** So a tenant is listed exactly the records of its own claims. */
  lemma {:induction false} ListedExactly(claims: seq<Claim>, scope: Scope, pool: string, asOf: Time, r: Record)
    ensures r in Visible(claims, scope, pool, asOf)
       <==> exists c | c in claims :: Belongs(c, scope, pool, asOf) && r == Record(c.name, c.pool, c.createdAt.value, c.expiresAt.value)
  {
    if claims != [] {
      var c, rest := claims[0], claims[1..];
      assert claims == [c] + rest;
      ListedExactly(rest, scope, pool, asOf, r);
      VisibleConcat([c], rest, scope, pool, asOf);
      VisibleOne(c, scope, pool, asOf);
    }
  }

  /** A request with a good limit fails for the pool, the cursor or the API, in this order, each with its own error. */
  lemma ListErrorsExactly(sv: Service, request: ListRequest, call: nat)
    requires Progresses(sv)
    ensures var r := List(sv, request, call);
      && (r == ListError(InvalidLimit) <==> !(1 <= request.limit <= 100))
      && (r == ListError(UnknownPool) <==> 1 <= request.limit <= 100 && request.pool != "" && request.pool !in sv.pools)
      && (r == ListError(CursorExpired) ==> sv.verdict(call) == Some(Gone) && request.cursor != NoCursor)
      && (r == ListError(InvalidCursor) ==> request.cursor != NoCursor)
      && (r.Listed? ==> sv.verdict(call) == None)
      && (1 <= request.limit <= 100 && (request.pool == "" || request.pool in sv.pools) && sv.verdict(call).Some? && r != ListError(InvalidCursor) ==>
            r == ListError(if sv.verdict(call).value.Gone? && request.cursor != NoCursor then CursorExpired else ListFailed))
  {
  }

  /** A page holds the tenant's records of its part of the snapshot, at the time and from the place its cursor carries, or from the start as of now. */
  lemma PageExactly(sv: Service, request: ListRequest, call: nat)
    requires Progresses(sv) && List(sv, request, call).Listed?
    ensures var page := List(sv, request, call).page;
      && (request.cursor.NoCursor? ==> page.leases == Visible(sv.snapshot[..After(sv, 0)], sv.scope, request.pool, sv.now(call)))
      && !request.cursor.Foreign?
      && (request.cursor.Sealed? ==>
            && request.cursor.payload.resume.From? && request.cursor.payload.resume.offset <= |sv.snapshot|
            && var offset := request.cursor.payload.resume.offset;
               page.leases == Visible(sv.snapshot[offset..After(sv, offset)], sv.scope, request.pool, request.cursor.payload.asOf))
  {
    var from := Resume(request, sv, call).value;
    PageRefinesFilter(sv.snapshot[from.1..After(sv, from.1)], sv.scope, request.pool, from.0);
    assert sv.snapshot[0..After(sv, 0)] == sv.snapshot[..After(sv, 0)];
  }

  /** The backend is asked for the client's limit, and for fifty if it has none. */
  lemma LimitAsked(sv: Service, options: ListOptions, call: nat)
    requires Progresses(sv) && ListPage(sv, options, call).Listed?
    ensures List(sv, ListRequest(options.pool, if options.limit == 0 then 50 else options.limit, options.cursor), call) == ListPage(sv, options, call)
  {
  }
}
