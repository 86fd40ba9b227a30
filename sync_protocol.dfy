/** The entitlement sync protocol of `get_library`: request bodies built by
    `get_sync_request_data`, the cursor-threading loop over the server's pages, and the
    outcome it reaches. The responses are given as a sequence: `pages[i]` answers the
    i-th request, `None` standing for a transport failure or an empty (falsy) body. */
module SyncProtocol {
  import opened Wrappers

  /** An entitlement id as it appears in the JSON: a string, or a number. */
  datatype IdValue = IdText(text: string) | IdNumber(number: int)

  /** A raw entitlement record; `title` is `product.title`, `None` when the product or its
      title is missing. */
  datatype Entitlement = Entitlement(id: Option<IdValue>, title: Option<string>)

  /** A `nextToken` value: JSON null or an opaque server-issued cursor. */
  datatype Cursor = Null | Token(text: string)

  /** One page as the server answers it. `nextToken == None` means the key is absent;
      `entitlements == None` means the `entitlements` key is absent. */
  datatype SdsResponse = SdsResponse(entitlements: Option<seq<Entitlement>>, nextToken: Option<Cursor>)

  /** The body of a GetEntitlementsV2 request. `syncPoint` and `productIdFilter` are always
      null and are not represented; the body's `hardwareHash` is the upper-case hex SHA-256
      digest of `hardwareSerial` (the digest itself is not modelled). */
  datatype SyncRequest = SyncRequest(
    operation: string,
    clientId: string,
    nextToken: Cursor,
    maxResults: int,
    keyId: string,
    hardwareSerial: string)

  /** What `get_library` ends with. `Raised` is the exception of a page that lacks its
      `entitlements` key, or of a missing credential file. */
  datatype LibraryOutcome = Library(entitlements: seq<Entitlement>) | NoLibrary | Raised

  /** `get_sync_request_data` */
  function SyncRequestData(serial: string, cursor: Cursor): (r: SyncRequest)
    ensures r.operation == "GetEntitlementsV2" && r.clientId == "Sonic" && r.maxResults == 50
    ensures r.keyId == "d5dc8b8b-86c8-4fc4-ae93-18c0def5314d"
    ensures r.nextToken == cursor && r.hardwareSerial == serial
  {
    SyncRequest("GetEntitlementsV2", "Sonic", cursor, 50, "d5dc8b8b-86c8-4fc4-ae93-18c0def5314d", serial)
  }

  /** The loop goes on after this page: it is truthy, has entitlements and has a `nextToken` key. */
  predicate Continues(page: Option<SdsResponse>)
  {
    page.Some? && page.value.entitlements.Some? && page.value.nextToken.Some?
  }

  /** Some page ends the loop: the server does not paginate forever. */
  predicate EndsListing(pages: seq<Option<SdsResponse>>)
  {
    |pages| > 0 && (!Continues(pages[0]) || EndsListing(pages[1..]))
  }

  /** Index of the page at which the loop leaves: the first one that does not continue. */
  function StopIndex(pages: seq<Option<SdsResponse>>): (n: nat)
    requires EndsListing(pages)
    ensures n < |pages| && !Continues(pages[n])
    ensures forall j :: 0 <= j < n ==> Continues(pages[j])
  {
    if !Continues(pages[0]) then 0 else 1 + StopIndex(pages[1..])
  }

  /** The first page that does not continue is where the loop stops. */
  lemma {:induction false} StopIndexAt(pages: seq<Option<SdsResponse>>, n: nat)
    requires n < |pages| && !Continues(pages[n])
    requires forall j :: 0 <= j < n ==> Continues(pages[j])
    ensures EndsListing(pages) && StopIndex(pages) == n
  {
    if n > 0 {
      StopIndexAt(pages[1..], n - 1);
    }
  }

  /** The cursor sent with the j-th request: null first, then the previous page's `nextToken`. */
  function RequestCursor(pages: seq<Option<SdsResponse>>, j: nat): Cursor
    requires j == 0 || (j <= |pages| && Continues(pages[j - 1]))
  {
    if j == 0 then Null else pages[j - 1].value.nextToken.value
  }

  /** Every request body the loop sends, in order. */
  function RequestBodies(serial: string, pages: seq<Option<SdsResponse>>): (bodies: seq<SyncRequest>)
    requires EndsListing(pages)
    ensures |bodies| == StopIndex(pages) + 1
    ensures bodies[0].nextToken == Null
    ensures forall j :: 0 < j < |bodies| ==> bodies[j].nextToken == pages[j - 1].value.nextToken.value
  {
    var n := StopIndex(pages);
    seq(n + 1, j requires 0 <= j <= n => SyncRequestData(serial, RequestCursor(pages, j)))
  }

  /** Pagination sends one request per page up to the stopping one; the first carries a null
      cursor, each later one the cursor the previous page returned, all with 50 results
      per page and client id "Sonic". */
  lemma CursorThreading(serial: string, pages: seq<Option<SdsResponse>>)
    requires EndsListing(pages)
    ensures |RequestBodies(serial, pages)| == StopIndex(pages) + 1
    ensures RequestBodies(serial, pages)[0].nextToken == Null
    ensures forall j :: 0 < j < |RequestBodies(serial, pages)| ==>
              Continues(pages[j - 1]) &&
              RequestBodies(serial, pages)[j].nextToken == pages[j - 1].value.nextToken.value
    ensures forall b :: b in RequestBodies(serial, pages) ==>
              b.maxResults == 50 && b.clientId == "Sonic" && b.hardwareSerial == serial
  {
  }

  /** The entitlements one page contributes. */
  function PageEntitlements(page: Option<SdsResponse>): seq<Entitlement>
  {
    if page.Some? && page.value.entitlements.Some? then page.value.entitlements.value else []
  }

  /** The in-order concatenation of the pages' entitlements (`games.extend` per page). */
  function Gathered(pages: seq<Option<SdsResponse>>): (es: seq<Entitlement>)
    // nothing is invented and nothing is dropped
    ensures forall e :: e in es ==> exists j :: 0 <= j < |pages| && e in PageEntitlements(pages[j])
    ensures forall j, e :: 0 <= j < |pages| && e in PageEntitlements(pages[j]) ==> e in es
  {
    if pages == [] then []
    else Gathered(pages[..|pages| - 1]) + PageEntitlements(pages[|pages| - 1])
  }

  lemma {:induction false} GatheredAppend(a: seq<Option<SdsResponse>>, b: seq<Option<SdsResponse>>)
    ensures Gathered(a + b) == Gathered(a) + Gathered(b)
    decreases |b|
  {
    if b != [] {
      var last := |b| - 1;
      assert (a + b)[..|a + b| - 1] == a + b[..last];
      GatheredAppend(a, b[..last]);
    } else {
      assert a + b == a;
    }
  }

  /** Order is kept: page j's entitlements sit in the result right after those of the pages
      before it. */
  lemma {:induction false} GatheredKeepsOrder(pages: seq<Option<SdsResponse>>, j: nat)
    requires j < |pages|
    ensures Gathered(pages[..j]) + PageEntitlements(pages[j]) <= Gathered(pages)
  {
    var front, back := pages[..j + 1], pages[j + 1..];
    assert pages == front + back;
    GatheredAppend(front, back);
    assert front[..j] == pages[..j] && front[j] == pages[j];
    assert Gathered(front) == Gathered(pages[..j]) + PageEntitlements(pages[j]);
  }

  /** Where the loop ends up: the stopping page decides. A failed page discards what the
      earlier pages gave; a page without `entitlements` raises; a last page without
      `nextToken` completes the listing. */
  function PageOutcome(pages: seq<Option<SdsResponse>>): (o: LibraryOutcome)
    requires EndsListing(pages)
    ensures o == NoLibrary <==> pages[StopIndex(pages)].None?
    ensures o == Raised <==> pages[StopIndex(pages)].Some? && pages[StopIndex(pages)].value.entitlements.None?
    ensures o.Library? ==> pages[StopIndex(pages)].value.nextToken.None? &&
                           o.entitlements == Gathered(pages[..StopIndex(pages) + 1])
  {
    var n := StopIndex(pages);
    var page := pages[n];
    if page.None? then NoLibrary
    else if page.value.entitlements.None? then Raised
    else Library(Gathered(pages[..n + 1]))
  }

  /** A transport failure on any page, after pages that continued, gives no library at all. */
  lemma FailedPageDiscards(pages: seq<Option<SdsResponse>>, j: nat)
    requires j < |pages| && pages[j].None?
    requires forall i :: 0 <= i < j ==> Continues(pages[i])
    ensures EndsListing(pages) && PageOutcome(pages) == NoLibrary
  {
    StopIndexAt(pages, j);
  }

  /** A page with entitlements and no `nextToken`, after pages that continued, completes the
      listing with every page's entitlements in order. */
  lemma CompleteListing(pages: seq<Option<SdsResponse>>, n: nat)
    requires n < |pages| && pages[n].Some?
    requires pages[n].value.entitlements.Some? && pages[n].value.nextToken.None?
    requires forall i :: 0 <= i < n ==> Continues(pages[i])
    ensures EndsListing(pages) && PageOutcome(pages) == Library(Gathered(pages[..n + 1]))
  {
    StopIndexAt(pages, n);
  }

  /** Three pages, the first two with a cursor: one combined list, in order, and the
      cursors are threaded. */
  lemma ThreePageListing(e1: seq<Entitlement>, e2: seq<Entitlement>, e3: seq<Entitlement>,
                         t1: Cursor, t2: Cursor, serial: string)
    ensures var pages := [Some(SdsResponse(Some(e1), Some(t1))),
                          Some(SdsResponse(Some(e2), Some(t2))),
                          Some(SdsResponse(Some(e3), None))];
            EndsListing(pages) &&
            PageOutcome(pages) == Library(e1 + e2 + e3) &&
            |RequestBodies(serial, pages)| == 3 &&
            RequestBodies(serial, pages)[0].nextToken == Null &&
            RequestBodies(serial, pages)[1].nextToken == t1 &&
            RequestBodies(serial, pages)[2].nextToken == t2
  {
    var pages := [Some(SdsResponse(Some(e1), Some(t1))),
                  Some(SdsResponse(Some(e2), Some(t2))),
                  Some(SdsResponse(Some(e3), None))];
    CompleteListing(pages, 2);
    assert pages[..3] == pages;
    assert pages[..3][..2] == pages[..2];
    assert pages[..2][..1] == pages[..1];
    assert pages[..1][..0] == [];
    assert Gathered(pages[..1]) == e1;
    assert Gathered(pages[..2]) == e1 + e2;
  }

  /** The `while True` loop of `get_library`: sends one request per page, threading the
      cursor, accumulates the entitlements, and stops at the first page that fails, lacks
      its entitlements, or lacks a `nextToken`. Returns the outcome and the bodies sent. */
  method FetchPages(serial: string, pages: seq<Option<SdsResponse>>)
    returns (outcome: LibraryOutcome, bodies: seq<SyncRequest>)
    requires EndsListing(pages)
    ensures outcome == PageOutcome(pages)
    ensures bodies == RequestBodies(serial, pages)
  {
    ghost var n := StopIndex(pages);
    var games: seq<Entitlement> := [];
    var nextToken := Null;
    var i := 0;
    bodies := [];
    while true
      invariant 0 <= i <= n
      invariant games == Gathered(pages[..i])
      invariant nextToken == RequestCursor(pages, i)
      invariant bodies == RequestBodies(serial, pages)[..i]
      decreases n - i
    {
      var requestData := SyncRequestData(serial, nextToken);
      bodies := bodies + [requestData];
      var jsonData := pages[i];
      if jsonData.None? {
        outcome := NoLibrary;
        return;
      }
      if jsonData.value.entitlements.None? {
        outcome := Raised;
        return;
      }
      games := games + jsonData.value.entitlements.value;
      assert pages[..i + 1][..i] == pages[..i];
      if jsonData.value.nextToken.None? {
        break;
      }
      nextToken := jsonData.value.nextToken.value;
      i := i + 1;
    }
    outcome := Library(games);
  }
}
