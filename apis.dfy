/** The control flow of the HTTP clients (apis.js): the Airtable client's
    bounded retry on HTTP 429, its offset pagination and its batches of
    ten, the Google Calendar client's status check and page-token
    pagination, and the Twitter client's reply chaining.

    The network is an oracle `server: nat -> Response`: the k-th fetch of
    a run receives `server(k)`. Every client call takes the number of
    fetches already made and reports how many it made, so successive calls
    read successive responses. A response body is represented by what
    `JSON.parse` makes of it. */
module Apis {
  import opened Wrappers
  import opened Text
  import opened Batching
  import opened Lists

  /** A parsed body: a page listing items (Airtable's `records`, Google
      Calendar's `items`) and the token of the next page ("" when absent),
      or `Garbage` for a body that does not parse or, for Airtable, has no
      `records` list. */
  datatype Payload = Page(items: seq<string>, next: string) | Garbage

  datatype Response = Response(status: int, text: string, payload: Payload)

  type Server = nat -> Response

  datatype HttpMethod = Get | Post | Put | Patch | Delete

  /** A request as the client builds it: method, URL, the items carried in
      the body, and the upsert merge fields ([] when the body has none). */
  datatype Request = Request(verb: HttpMethod, url: string, body: seq<string>, mergeOn: seq<string>)

  // ---------------------------------------------------------------------
  // fetchWithRateLimit

  const MaxRetries: nat := 5
  const RateLimitStatus: int := 429
  const RateLimitError := "Failed to fetch data due to rate limits."

  /** Fetches made by `fetchWithRateLimit`, whose first fetch is the k-th,
      counting from the m-th fetch on. */
  function AttemptsFrom(server: Server, k: nat, m: nat): nat
    requires k <= m < k + MaxRetries
    decreases k + MaxRetries - m
  {
    if server(m).status != RateLimitStatus || m == k + MaxRetries - 1 then m - k + 1
    else AttemptsFrom(server, k, m + 1)
  }

  function Attempts(server: Server, k: nat): nat
  {
    AttemptsFrom(server, k, k)
  }

  /** What `fetchWithRateLimit` yields when its first fetch is the k-th. */
  function RateLimited(server: Server, k: nat): Result<Payload>
  {
    var n := Attempts(server, k);
    if n >= 1 && server(k + n - 1).status != RateLimitStatus then Success(server(k + n - 1).payload)
    else Failure(RateLimitError)
  }

  lemma {:induction false} AttemptsFromFacts(server: Server, k: nat, m: nat)
    requires k <= m < k + MaxRetries
    requires forall j :: k <= j < m ==> server(j).status == RateLimitStatus
    ensures m - k < AttemptsFrom(server, k, m) <= MaxRetries
    ensures forall j :: k <= j < k + AttemptsFrom(server, k, m) - 1 ==> server(j).status == RateLimitStatus
    ensures AttemptsFrom(server, k, m) < MaxRetries ==>
      server(k + AttemptsFrom(server, k, m) - 1).status != RateLimitStatus
    decreases k + MaxRetries - m
  {
    if server(m).status == RateLimitStatus && m < k + MaxRetries - 1 {
      AttemptsFromFacts(server, k, m + 1);
    }
  }

  /** At most five fetches; every fetch but the last was rate limited; the
      result is the first response that was not, or the rate-limit error
      after five rate-limited responses. */
  lemma RateLimitedFacts(server: Server, k: nat)
    ensures 1 <= Attempts(server, k) <= MaxRetries
    ensures forall m :: k <= m < k + Attempts(server, k) - 1 ==> server(m).status == RateLimitStatus
    ensures RateLimited(server, k).Success? <==> server(k + Attempts(server, k) - 1).status != RateLimitStatus
    ensures RateLimited(server, k).Success? ==>
      RateLimited(server, k).value == server(k + Attempts(server, k) - 1).payload
    ensures RateLimited(server, k).Failure? ==>
      Attempts(server, k) == MaxRetries && RateLimited(server, k).error == RateLimitError
  {
    AttemptsFromFacts(server, k, k);
  }

  // ---------------------------------------------------------------------
  // getAllRecords

  /** The URL of a later page: always built from the base URL, joined with
      "&" when the base already has a query and with "?" otherwise. */
  function OffsetUrl(base: string, offset: string): string
  {
    base + (if '?' in base then "&" else "?") + "offset=" + offset
  }

  /** A fetch that produced a parsed page. */
  predicate Fetched(r: Result<Payload>)
  {
    r.Success? && r.value.Page?
  }

  /** The variables of the `getAllRecords` loop: records gathered, page
      URLs requested, fetches made, the next URL, and `hasMorePages`. */
  datatype CrawlState = CrawlState(records: seq<string>, pageUrls: seq<string>, used: nat, current: string, more: bool)

  function CrawlStart(base: string): CrawlState
  {
    CrawlState([], [], 0, base, true)
  }

  /** One pass of the loop: fetch the current URL; a failure stops the
      loop, a page adds its records, and an offset leads to the next URL,
      built from the base URL. */
  function CrawlNext(base: string, server: Server, k: nat, s: CrawlState): CrawlState
  {
    if !s.more then s
    else
      var n := Attempts(server, k + s.used);
      var r := RateLimited(server, k + s.used);
      var fetched := s.(pageUrls := s.pageUrls + [s.current], used := s.used + n);
      if !Fetched(r) then fetched.(more := false)
      else if r.value.next == "" then fetched.(records := s.records + r.value.items, more := false)
      else fetched.(records := s.records + r.value.items, current := OffsetUrl(base, r.value.next))
  }

  /** The loop state after `pages` passes. */
  function CrawlAfter(base: string, server: Server, k: nat, pages: nat): CrawlState
  {
    if pages == 0 then CrawlStart(base) else CrawlNext(base, server, k, CrawlAfter(base, server, k, pages - 1))
  }

  /** Once the loop has stopped, further passes change nothing. */
  lemma {:induction false} CrawlStopped(base: string, server: Server, k: nat, pages: nat, later: nat)
    requires pages <= later && !CrawlAfter(base, server, k, pages).more
    ensures CrawlAfter(base, server, k, later) == CrawlAfter(base, server, k, pages)
    decreases later
  {
    if later > pages {
      CrawlStopped(base, server, k, pages, later - 1);
    }
  }

  ghost predicate IsOffsetUrl(base: string, u: string)
  {
    exists off :: off != "" && u == OffsetUrl(base, off)
  }

  /** A pass of a running loop requests one page at a cost of one to five
      fetches. */
  lemma CrawlStep(base: string, server: Server, k: nat, s: CrawlState)
    ensures var t := CrawlNext(base, server, k, s);
      && |t.pageUrls| == |s.pageUrls| + (if s.more then 1 else 0)
      && s.used + (if s.more then 1 else 0) <= t.used <= s.used + (if s.more then MaxRetries else 0)
  {
    RateLimitedFacts(server, k + s.used);
  }

  /** At most one page per pass, each costing one to five fetches. */
  lemma {:induction false} CrawlFetches(base: string, server: Server, k: nat, pages: nat)
    ensures var s := CrawlAfter(base, server, k, pages);
      |s.pageUrls| <= pages && |s.pageUrls| <= s.used <= MaxRetries * |s.pageUrls|
    decreases pages
  {
    if pages > 0 {
      CrawlFetches(base, server, k, pages - 1);
      CrawlStep(base, server, k, CrawlAfter(base, server, k, pages - 1));
    }
  }

  /** The first page requested is the base URL and every later one is an
      offset URL built from the base, never from the previous page's URL. */
  lemma {:induction false} CrawlPageUrls(base: string, server: Server, k: nat, pages: nat)
    ensures var s := CrawlAfter(base, server, k, pages);
      && (pages > 0 ==> |s.pageUrls| >= 1 && s.pageUrls[0] == base)
      && (forall i :: 1 <= i < |s.pageUrls| ==> IsOffsetUrl(base, s.pageUrls[i]))
      && (s.pageUrls == [] ==> s.current == base)
      && (s.pageUrls != [] && s.more ==> IsOffsetUrl(base, s.current))
    decreases pages
  {
    if pages > 0 {
      var prev := CrawlAfter(base, server, k, pages - 1);
      CrawlPageUrls(base, server, k, pages - 1);
      var r := RateLimited(server, k + prev.used);
      if prev.more {
        var s := CrawlAfter(base, server, k, pages);
        assert s.pageUrls == prev.pageUrls + [prev.current];
        if Fetched(r) && r.value.next != "" {
          assert IsOffsetUrl(base, OffsetUrl(base, r.value.next));
        }
      }
    }
  }

  lemma {:induction false} CountPositive(s: string, c: char)
    ensures c in s <==> Count(s, c) > 0
  {
    if s != [] {
      CountPositive(s[1..], c);
      assert s == [s[0]] + s[1..];
    }
  }

  /** An offset URL carries exactly one '?' when the base had none, and no
      more than the base had otherwise: offsets never pile up. */
  lemma OffsetUrlQueryMarks(base: string, offset: string)
    requires '?' !in offset
    ensures Count(OffsetUrl(base, offset), '?') == if '?' in base then Count(base, '?') else 1
  {
    var sep := if '?' in base then "&" else "?";
    CountAppend(base + sep + "offset=", offset, '?');
    CountAppend(base + sep, "offset=", '?');
    CountAppend(base, sep, '?');
    CountAbsent(offset, '?');
    CountPositive(base, '?');
    assert '?' !in "offset=";
    CountAbsent("offset=", '?');
  }

  // ---------------------------------------------------------------------
  // Batched writes

  const BatchSize: nat := 10

  /** The b-th batch: `items.slice(10 * b, 10 * b + 10)`. */
  function BatchAt(items: seq<string>, b: nat): (batch: seq<string>)
    requires BatchSize * b < |items|
    ensures 1 <= |batch| <= BatchSize
  {
    items[BatchSize * b..if BatchSize * b + BatchSize < |items| then BatchSize * b + BatchSize else |items|]
  }

  /** The number of batches: one per started group of ten. */
  function BatchCount(n: nat): (c: nat)
    ensures n <= BatchSize * c < n + BatchSize
  {
    (n + BatchSize - 1) / BatchSize
  }

  /** The variables of a batch loop: results gathered, requests sent,
      fetches made, and whether a batch failed (the `break`). */
  datatype BatchState = BatchState(results: seq<string>, sent: seq<Request>, used: nat, failed: bool)

  /** One pass of a batch loop: send the request for the next batch; a
      page adds its records, a failure stops the loop. */
  function BatchNext(items: seq<string>, makeRequest: seq<string> -> Request, server: Server, k: nat, s: BatchState): BatchState
  {
    if s.failed || BatchSize * |s.sent| >= |items| then s
    else
      var n := Attempts(server, k + s.used);
      var r := RateLimited(server, k + s.used);
      var tried := s.(sent := s.sent + [makeRequest(BatchAt(items, |s.sent|))], used := s.used + n);
      if Fetched(r) then tried.(results := s.results + r.value.items) else tried.(failed := true)
  }

  function BatchesAfter(items: seq<string>, makeRequest: seq<string> -> Request, server: Server, k: nat, passes: nat): BatchState
  {
    if passes == 0 then BatchState([], [], 0, false)
    else BatchNext(items, makeRequest, server, k, BatchesAfter(items, makeRequest, server, k, passes - 1))
  }

  /** The outcome of a whole batch loop. */
  function Batches(items: seq<string>, makeRequest: seq<string> -> Request, server: Server, k: nat): BatchState
  {
    BatchesAfter(items, makeRequest, server, k, BatchCount(|items|))
  }

  /** A pass of a running loop sends the request for the next batch, at a
      cost of one to five fetches; a page adds its records and anything
      else stops the loop with the results unchanged. */
  lemma BatchStep(items: seq<string>, makeRequest: seq<string> -> Request, server: Server, k: nat, s: BatchState)
    requires !s.failed && BatchSize * |s.sent| < |items|
    ensures var r := RateLimited(server, k + s.used);
      var t := BatchNext(items, makeRequest, server, k, s);
      && t.sent == s.sent + [makeRequest(BatchAt(items, |s.sent|))]
      && t.used == s.used + Attempts(server, k + s.used)
      && s.used + 1 <= t.used <= s.used + MaxRetries
      && t.failed == !Fetched(r)
      && t.results == if Fetched(r) then s.results + r.value.items else s.results
  {
    RateLimitedFacts(server, k + s.used);
  }

  /** One request per pass until a batch fails; a run without failure
      sends a request for every batch, and each request costs one to five
      fetches. */
  lemma {:induction false} BatchesStopAtFirstFailure(items: seq<string>, makeRequest: seq<string> -> Request, server: Server, k: nat, passes: nat)
    ensures var s := BatchesAfter(items, makeRequest, server, k, passes);
      && (!s.failed ==> |s.sent| == if passes < BatchCount(|items|) then passes else BatchCount(|items|))
      && (s.failed ==> 1 <= |s.sent| <= passes && |s.sent| <= BatchCount(|items|))
      && |s.sent| <= s.used <= MaxRetries * |s.sent|
    decreases passes
  {
    if passes > 0 {
      BatchesStopAtFirstFailure(items, makeRequest, server, k, passes - 1);
      var prev := BatchesAfter(items, makeRequest, server, k, passes - 1);
      if !prev.failed && BatchSize * |prev.sent| < |items| {
        BatchStep(items, makeRequest, server, k, prev);
      }
    }
  }

  /** The i-th request sent is the one for the i-th batch. */
  lemma {:induction false} BatchesSendBatches(items: seq<string>, makeRequest: seq<string> -> Request, server: Server, k: nat, passes: nat)
    ensures var s := BatchesAfter(items, makeRequest, server, k, passes);
      forall i :: 0 <= i < |s.sent| ==> BatchSize * i < |items| && s.sent[i] == makeRequest(BatchAt(items, i))
    decreases passes
  {
    if passes > 0 {
      BatchesSendBatches(items, makeRequest, server, k, passes - 1);
      var prev := BatchesAfter(items, makeRequest, server, k, passes - 1);
      var s := BatchesAfter(items, makeRequest, server, k, passes);
      if !prev.failed && BatchSize * |prev.sent| < |items| {
        BatchStep(items, makeRequest, server, k, prev);
        forall i | 0 <= i < |s.sent|
          ensures BatchSize * i < |items| && s.sent[i] == makeRequest(BatchAt(items, i))
        {
          if i < |prev.sent| {
            assert s.sent[i] == prev.sent[i];
          }
        }
      } else {
        assert s == prev;
      }
    }
  }

  lemma {:induction false} BatchesStopped(items: seq<string>, makeRequest: seq<string> -> Request, server: Server, k: nat, passes: nat, later: nat)
    requires passes <= later
    requires var s := BatchesAfter(items, makeRequest, server, k, passes);
      s.failed || BatchSize * |s.sent| >= |items|
    ensures BatchesAfter(items, makeRequest, server, k, later) == BatchesAfter(items, makeRequest, server, k, passes)
    decreases later
  {
    if later > passes {
      BatchesStopped(items, makeRequest, server, k, passes, later - 1);
    }
  }

  lemma SliceOfSuffix<T>(s: seq<T>, a: nat, i: nat, j: nat)
    requires a <= |s| && i <= j <= |s| - a
    ensures s[a..][i..j] == s[a + i..a + j]
  {
    assert forall m :: 0 <= m < j - i ==> s[a..][i..j][m] == s[a + i + m];
  }

  /** The b-th batch is `items.slice(10 * b, 10 * b + 10)`. */
  lemma {:induction false} ChunksAt<T>(s: seq<T>, b: nat)
    requires 10 * b < |s|
    ensures b < |Chunks(s, BatchSize)|
    ensures Chunks(s, BatchSize)[b] == s[10 * b..if 10 * b + 10 < |s| then 10 * b + 10 else |s|]
    decreases b
  {
    if b > 0 {
      assert |s| > BatchSize;
      ChunksAt(s[BatchSize..], b - 1);
      assert Chunks(s, BatchSize)[1..] == Chunks(s[BatchSize..], BatchSize);
      var j := if 10 * b + 10 < |s| then 10 * b + 10 else |s|;
      SliceOfSuffix(s, BatchSize, 10 * (b - 1), j - BatchSize);
    }
  }

  /** There is one batch per started group of ten. */
  lemma {:induction false} ChunksCountTen<T>(s: seq<T>)
    ensures |s| <= BatchSize * |Chunks(s, BatchSize)| < |s| + BatchSize
    decreases |s|
  {
    if |s| > BatchSize {
      ChunksCountTen(s[BatchSize..]);
    }
  }

  /** The requests of the batches of ten, in order. */
  function Plan(items: seq<string>, makeRequest: seq<string> -> Request): seq<Request>
  {
    MapSeq(Chunks(items, BatchSize), makeRequest)
  }

  /** A batch loop sends a prefix of the planned requests, and all of them
      unless a batch fails: every item goes out in exactly one batch. */
  lemma BatchesFollowPlan(items: seq<string>, makeRequest: seq<string> -> Request, server: Server, k: nat)
    ensures var s := Batches(items, makeRequest, server, k);
      && s.sent <= Plan(items, makeRequest)
      && (!s.failed ==> s.sent == Plan(items, makeRequest))
  {
    var s := Batches(items, makeRequest, server, k);
    var plan := Plan(items, makeRequest);
    BatchesStopAtFirstFailure(items, makeRequest, server, k, BatchCount(|items|));
    BatchesSendBatches(items, makeRequest, server, k, BatchCount(|items|));
    ChunksCountTen(items);
    assert |plan| == BatchCount(|items|);
    forall i | 0 <= i < |s.sent|
      ensures s.sent[i] == plan[i]
    {
      ChunksAt(items, i);
    }
  }

  const RecordsKey := "records[]="

  /** The delete URL's query parameter for one id. */
  function RecordsParam(id: string): string
  {
    RecordsKey + id
  }

  /** Prefixing every part is the same as prefixing the whole and the
      separator. */
  lemma {:induction false} JoinWithPrefix(parts: seq<string>, prefix: string, sep: string, f: string -> string)
    requires |parts| >= 1
    requires forall p :: f(p) == prefix + p
    ensures prefix + Join(parts, sep + prefix) == Join(MapSeq(parts, f), sep)
  {
    if |parts| > 1 {
      JoinWithPrefix(parts[1..], prefix, sep, f);
      assert MapSeq(parts, f)[1..] == MapSeq(parts[1..], f);
      assert prefix + (parts[0] + (sep + prefix) + Join(parts[1..], sep + prefix))
        == (prefix + parts[0]) + sep + (prefix + Join(parts[1..], sep + prefix));
    }
  }

  /** The Airtable client: a table URL and the fields an upsert merges on. */
  class AirtableAPI {
    const url: string
    const upsertFieldsToMergeOn: seq<string>

    constructor(url: string, upsertFieldsToMatchOn: seq<string>)
      ensures this.url == url && upsertFieldsToMergeOn == upsertFieldsToMatchOn
    {
      this.url := url;
      upsertFieldsToMergeOn := upsertFieldsToMatchOn;
    }

    /** `fetchWithRateLimit`: retries while the response is 429, at most
        five fetches in all. */
    method FetchWithRateLimit(server: Server, k: nat) returns (result: Result<Payload>, used: nat)
      ensures 1 <= used <= MaxRetries
      ensures forall m :: k <= m < k + used - 1 ==> server(m).status == RateLimitStatus
      ensures result.Success? <==> server(k + used - 1).status != RateLimitStatus
      ensures result.Success? ==> result.value == server(k + used - 1).payload
      ensures result.Failure? ==> used == MaxRetries && result.error == RateLimitError
      ensures result == RateLimited(server, k) && used == Attempts(server, k)
    {
      RateLimitedFacts(server, k);
      var attempt := 0;
      while attempt < MaxRetries
        invariant 0 <= attempt <= MaxRetries
        invariant forall m :: k <= m < k + attempt ==> server(m).status == RateLimitStatus
        invariant attempt < MaxRetries ==> AttemptsFrom(server, k, k + attempt) == Attempts(server, k)
        invariant attempt == MaxRetries ==> Attempts(server, k) == MaxRetries
      {
        var response := server(k + attempt);
        if response.status != RateLimitStatus {
          return Success(response.payload), attempt + 1;
        }
        attempt := attempt + 1;
      }
      return Failure(RateLimitError), MaxRetries;
    }

    /** One pass of the `getAllRecords` loop: fetch `urlWithOffset`; a
        failure ends the loop (the `catch` clause's `break`), a page adds
        its records, and an offset leads to the next URL, built from the
        table URL. */
    method FetchPage(server: Server, k: nat, allRecords: seq<string>, pageUrls: seq<string>, used: nat, urlWithOffset: string)
      returns (allRecords': seq<string>, pageUrls': seq<string>, used': nat, urlWithOffset': string, hasMorePages: bool)
      ensures CrawlState(allRecords', pageUrls', used', urlWithOffset', hasMorePages)
        == CrawlNext(url, server, k, CrawlState(allRecords, pageUrls, used, urlWithOffset, true))
    {
      var result, n := FetchWithRateLimit(server, k + used);
      pageUrls', used' := pageUrls + [urlWithOffset], used + n;
      allRecords', urlWithOffset', hasMorePages := allRecords, urlWithOffset, false;
      if result.Success? && result.value.Page? {
        allRecords' := allRecords + result.value.items;
        if result.value.next != "" {
          var separator := if '?' in url then "&" else "?";
          urlWithOffset' := url + separator + "offset=" + result.value.next;
          hasMorePages := true;
        }
      }
    }

    /** `getAllRecords`, allowed at most `fuel` pages: the records of each
        page in order; an offset leads to the next page, and a failed
        fetch or unparsable body ends the run with the records so far. */
    method GetAllRecords(server: Server, k: nat, fuel: nat) returns (allRecords: seq<string>, pageUrls: seq<string>, used: nat)
      ensures var s := CrawlAfter(url, server, k, fuel);
        allRecords == s.records && pageUrls == s.pageUrls && used == s.used
    {
      allRecords, pageUrls, used := [], [], 0;
      var urlWithOffset := url;
      var hasMorePages := true;
      var remaining: nat := fuel;
      while hasMorePages && remaining > 0
        invariant remaining <= fuel
        invariant CrawlState(allRecords, pageUrls, used, urlWithOffset, hasMorePages) == CrawlAfter(url, server, k, fuel - remaining)
        decreases remaining
      {
        allRecords, pageUrls, used, urlWithOffset, hasMorePages := FetchPage(server, k, allRecords, pageUrls, used, urlWithOffset);
        remaining := remaining - 1;
      }
      if !hasMorePages {
        CrawlStopped(url, server, k, fuel - remaining, fuel);
      }
    }

    /** One pass of the batch loop: sends the slice of ten starting at
        index `i` and, when a page comes back, adds its records. */
    method SendBatch(items: seq<string>, makeRequest: seq<string> -> Request, server: Server, k: nat,
                     i: nat, results: seq<string>, sent: seq<Request>, used: nat)
      returns (results': seq<string>, sent': seq<Request>, used': nat, ok: bool)
      requires i == BatchSize * |sent| && i < |items|
      ensures BatchState(results', sent', used', !ok) == BatchNext(items, makeRequest, server, k, BatchState(results, sent, used, false))
    {
      var j := if i + BatchSize < |items| then i + BatchSize else |items|;
      var batch := items[i..j];
      var request := makeRequest(batch);
      var result, n := FetchWithRateLimit(server, k + used);
      sent', used' := sent + [request], used + n;
      ok := result.Success? && result.value.Page?;
      results' := if ok then results + result.value.items else results;
    }

    /** The batch loop shared by the three writers: slices of ten taken at
        indexes 0, 10, 20, ..., each sent as `makeRequest(batch)`, until
        one fails. */
    method SendInBatches(items: seq<string>, makeRequest: seq<string> -> Request, server: Server, k: nat)
      returns (results: seq<string>, sent: seq<Request>, used: nat)
      ensures var s := Batches(items, makeRequest, server, k);
        results == s.results && sent == s.sent && used == s.used
    {
      results, sent, used := [], [], 0;
      var i := 0;
      ghost var b: nat := 0;
      while i < |items|
        invariant i == BatchSize * b && |sent| == b && b <= BatchCount(|items|)
        invariant BatchState(results, sent, used, false) == BatchesAfter(items, makeRequest, server, k, b)
        decreases |items| - i
      {
        var ok;
        results, sent, used, ok := SendBatch(items, makeRequest, server, k, i, results, sent, used);
        b := b + 1;
        if !ok {
          BatchesStopped(items, makeRequest, server, k, b, BatchCount(|items|));
          return;
        }
        i := i + BatchSize;
      }
      BatchesStopped(items, makeRequest, server, k, b, BatchCount(|items|));
    }

    function CreateRequest(batch: seq<string>): Request
    {
      Request(Post, url, batch, [])
    }

    function UpsertRequest(batch: seq<string>): Request
    {
      Request(Patch, url, batch, upsertFieldsToMergeOn)
    }

    /** The URL that deletes a batch of ids: `url?records[]=a&records[]=b...`. */
    function DeleteUrl(batch: seq<string>): string
    {
      url + "?" + RecordsKey + Join(batch, "&" + RecordsKey)
    }

    function DeleteRequest(batch: seq<string>): Request
    {
      Request(Delete, DeleteUrl(batch), [], [])
    }

    /** `createRecords`: POSTs the records in batches of ten, in order. */
    method CreateRecords(records: seq<string>, server: Server, k: nat) returns (created: seq<string>, sent: seq<Request>, used: nat)
      ensures var s := Batches(records, CreateRequest, server, k);
        created == s.results && sent == s.sent && used == s.used
      ensures sent <= Plan(records, CreateRequest)
    {
      created, sent, used := SendInBatches(records, CreateRequest, server, k);
      BatchesFollowPlan(records, CreateRequest, server, k);
    }

    /** `upsertRecords`: PATCHes the records in batches of ten, each body
        naming the merge fields. */
    method UpsertRecords(records: seq<string>, server: Server, k: nat) returns (upserted: seq<string>, sent: seq<Request>, used: nat)
      ensures var s := Batches(records, UpsertRequest, server, k);
        upserted == s.results && sent == s.sent && used == s.used
      ensures sent <= Plan(records, UpsertRequest)
    {
      upserted, sent, used := SendInBatches(records, UpsertRequest, server, k);
      BatchesFollowPlan(records, UpsertRequest, server, k);
    }

    /** `deleteRecords`: one DELETE per batch of ten ids, the ids in the
        query string. */
    method DeleteRecords(recordIds: seq<string>, server: Server, k: nat) returns (deleted: seq<string>, sent: seq<Request>, used: nat)
      ensures var s := Batches(recordIds, DeleteRequest, server, k);
        deleted == s.results && sent == s.sent && used == s.used
      ensures sent <= Plan(recordIds, DeleteRequest)
    {
      deleted, sent, used := SendInBatches(recordIds, DeleteRequest, server, k);
      BatchesFollowPlan(recordIds, DeleteRequest, server, k);
    }

    /** The delete URL carries one `records[]=` parameter per id, in order:
        a `?` before the first and `&` before each later one. */
    lemma DeleteUrlParameters(batch: seq<string>)
      requires |batch| >= 1
      ensures DeleteUrl(batch) == url + "?" + Join(MapSeq(batch, RecordsParam), "&")
    {
      JoinWithPrefix(batch, RecordsKey, "&", RecordsParam);
    }
  }

  // ---------------------------------------------------------------------
  // Google Calendar

  const ParseError := "Unparsable response body"

  /** `fetchApi`: the parsed body exactly when the status is 2xx. */
  function FetchApi(response: Response): (r: Result<Payload>)
    ensures r.Success? <==> 200 <= response.status < 300 && response.payload.Page?
    ensures r.Success? ==> r.value == response.payload
    ensures !(200 <= response.status < 300) ==> r == Failure("API request failed: " + response.text)
  {
    if 200 <= response.status < 300 then
      if response.payload.Page? then Success(response.payload) else Failure(ParseError)
    else Failure("API request failed: " + response.text)
  }

  /** The query parameters of a listing request, in insertion order; the
      page token only when there is one. */
  function Params(range: Option<(string, string)>, pageToken: string): seq<(string, string)>
  {
    [("maxResults", "2500"), ("showDeleted", "false"), ("singleEvents", "true")]
    + (if range.Some? then [("timeMin", range.value.0), ("timeMax", range.value.1)] else [])
    + (if pageToken != "" then [("pageToken", pageToken)] else [])
  }

  function QueryParam(p: (string, string)): string
  {
    p.0 + "=" + p.1
  }

  function Query(params: seq<(string, string)>): string
  {
    Join(MapSeq(params, QueryParam), "&")
  }

  /** The page token is sent exactly when one is set, as the last
      parameter; the fixed parameters come first. */
  lemma ParamsPageToken(range: Option<(string, string)>, pageToken: string)
    ensures (exists i :: 0 <= i < |Params(range, pageToken)| && Params(range, pageToken)[i].0 == "pageToken")
      <==> pageToken != ""
    ensures pageToken != "" ==> Params(range, pageToken)[|Params(range, pageToken)| - 1] == ("pageToken", pageToken)
    ensures Params(range, pageToken)[..3] == [("maxResults", "2500"), ("showDeleted", "false"), ("singleEvents", "true")]
  {
    var ps := Params(range, pageToken);
    if pageToken == "" {
      forall i | 0 <= i < |ps| ensures |ps[i].0| != 9 {
        assert |ps[i].0| in {10, 11, 12, 7};
      }
      assert |"pageToken"| == 9;
    } else {
      assert ps[|ps| - 1].0 == "pageToken";
    }
  }

  /** Items gathered (or the error thrown) and the URLs requested. */
  datatype Listing = Listing(result: Result<seq<string>>, urls: seq<string>)

  /** A listing so far, followed by the rest of the listing. */
  function Prepend(collected: seq<string>, urls: seq<string>, rest: Listing): Listing
  {
    Listing(if rest.result.Success? then Success(collected + rest.result.value) else rest.result, urls + rest.urls)
  }

  /** The rest of a listing run that next asks for `pageToken`: items are
      concatenated across pages until a page has no next token; a failed
      request makes the whole call fail. */
  function ListFrom(base: string, range: Option<(string, string)>, pageToken: string, server: Server, k: nat, fuel: nat): Listing
    decreases fuel
  {
    if fuel == 0 then Listing(Success([]), [])
    else
      var url := base + "?" + Query(Params(range, pageToken));
      var r := FetchApi(server(k));
      if r.Failure? then Listing(Failure(r.error), [url])
      else if r.value.next == "" then Listing(Success(r.value.items), [url])
      else Prepend(r.value.items, [url], ListFrom(base, range, r.value.next, server, k + 1, fuel - 1))
  }

  lemma PrependTwice(a: seq<string>, u: seq<string>, b: seq<string>, v: seq<string>, rest: Listing)
    ensures Prepend(a, u, Prepend(b, v, rest)) == Prepend(a + b, u + v, rest)
  {
    assert u + (v + rest.urls) == (u + v) + rest.urls;
    if rest.result.Success? {
      assert a + (b + rest.result.value) == (a + b) + rest.result.value;
    }
  }

  /** A listing succeeds only if every page it fetched had a 2xx status;
      it fetches at most `fuel` pages, the first with the given token. */
  lemma {:induction false} ListFromFailsOnAnyError(base: string, range: Option<(string, string)>, pageToken: string, server: Server, k: nat, fuel: nat)
    ensures var l := ListFrom(base, range, pageToken, server, k, fuel);
      && |l.urls| <= fuel
      && (fuel > 0 ==> |l.urls| >= 1 && l.urls[0] == base + "?" + Query(Params(range, pageToken)))
      && (l.result.Success? ==> forall m :: k <= m < k + |l.urls| ==> 200 <= server(m).status < 300)
    decreases fuel
  {
    if fuel > 0 {
      var r := FetchApi(server(k));
      if r.Success? && r.value.next != "" {
        ListFromFailsOnAnyError(base, range, r.value.next, server, k + 1, fuel - 1);
      }
    }
  }

  /** A request of the calendar client with the fetch it received: create,
      update and delete log a failure and carry on. */
  datatype Call = Call(request: Request, result: Option<Payload>)

  /** Errors are swallowed: the parsed body when `fetchApi` succeeds,
      nothing otherwise. */
  function Swallow(r: Result<Payload>): (o: Option<Payload>)
    ensures o.Some? <==> r.Success?
    ensures r.Success? ==> o.value == r.value
  {
    if r.Success? then Some(r.value) else None
  }

  class GCalAPI {
    const calendarId: string
    const accessToken: string
    const baseUrl: string

    constructor(calendarId: string, accessToken: string)
      ensures this.calendarId == calendarId && this.accessToken == accessToken
      ensures baseUrl == "https://www.googleapis.com/calendar/v3/calendars/" + calendarId + "/events"
    {
      this.calendarId := calendarId;
      this.accessToken := accessToken;
      baseUrl := "https://www.googleapis.com/calendar/v3/calendars/" + calendarId + "/events";
    }

    /** The do-while page loop of `getAllEvents` and `getEventsInRange`. */
    method ListEvents(range: Option<(string, string)>, server: Server, k: nat, fuel: nat) returns (events: Result<seq<string>>, urls: seq<string>)
      ensures Listing(events, urls) == ListFrom(baseUrl, range, "", server, k, fuel)
    {
      var collected: seq<string> := [];
      var pageToken := "";
      var remaining: nat := fuel;
      urls := [];
      assert Prepend([], [], ListFrom(baseUrl, range, "", server, k, fuel)) == ListFrom(baseUrl, range, "", server, k, fuel) by {
        var l := ListFrom(baseUrl, range, "", server, k, fuel);
        assert [] + l.urls == l.urls;
        if l.result.Success? {
          assert [] + l.result.value == l.result.value;
        }
      }
      while remaining > 0
        invariant |urls| + remaining == fuel
        invariant Prepend(collected, urls, ListFrom(baseUrl, range, pageToken, server, k + |urls|, remaining))
          == ListFrom(baseUrl, range, "", server, k, fuel)
        decreases remaining
      {
        var url := baseUrl + "?" + Query(Params(range, pageToken));
        var response := FetchApi(server(k + |urls|));
        if response.Failure? {
          return Failure(response.error), urls + [url];
        }
        var page := response.value;
        if page.next == "" {
          return Success(collected + page.items), urls + [url];
        }
        PrependTwice(collected, urls, page.items, [url],
                     ListFrom(baseUrl, range, page.next, server, k + |urls| + 1, remaining - 1));
        collected := collected + page.items;
        urls := urls + [url];
        remaining := remaining - 1;
        pageToken := page.next;
      }
      assert collected + [] == collected && urls + [] == urls;
      events := Success(collected);
    }

    method GetAllEvents(server: Server, k: nat, fuel: nat) returns (events: Result<seq<string>>, urls: seq<string>)
      ensures Listing(events, urls) == ListFrom(baseUrl, None, "", server, k, fuel)
    {
      events, urls := ListEvents(None, server, k, fuel);
    }

    method GetEventsInRange(fromDate: string, toDate: string, server: Server, k: nat, fuel: nat) returns (events: Result<seq<string>>, urls: seq<string>)
      ensures Listing(events, urls) == ListFrom(baseUrl, Some((fromDate, toDate)), "", server, k, fuel)
    {
      events, urls := ListEvents(Some((fromDate, toDate)), server, k, fuel);
    }

    function EventUrl(eventId: string): string
    {
      baseUrl + "/" + eventId
    }

    /** `createEvent`: POST to the collection; never throws. */
    function CreateEvent(eventData: string, response: Response): (c: Call)
      ensures c.request == Request(Post, baseUrl, [eventData], [])
      ensures c.result.Some? <==> 200 <= response.status < 300 && response.payload.Page?
    {
      Call(Request(Post, baseUrl, [eventData], []), Swallow(FetchApi(response)))
    }

    /** `updateEvent`: PUT to the event's URL; never throws. */
    function UpdateEvent(eventId: string, eventOptions: string, response: Response): (c: Call)
      ensures c.request == Request(Put, baseUrl + "/" + eventId, [eventOptions], [])
      ensures c.result.Some? <==> 200 <= response.status < 300 && response.payload.Page?
    {
      Call(Request(Put, EventUrl(eventId), [eventOptions], []), Swallow(FetchApi(response)))
    }

    /** `deleteEvent`: DELETE to the event's URL; the outcome is only
        logged, so callers see nothing either way. */
    function DeleteEvent(eventId: string, response: Response): (c: Call)
      ensures c.request == Request(Delete, baseUrl + "/" + eventId, [], [])
      ensures c.result == None
    {
      Call(Request(Delete, EventUrl(eventId), [], []), None)
    }
  }

  // ---------------------------------------------------------------------
  // Twitter

  const DefaultTweet := "Testing Something..."

  /** The body of one tweet request: the text, and the id replied to. */
  datatype TweetPayload = TweetPayload(text: string, replyTo: Option<string>)

  /** `sendSingleTweet`'s payload: an empty text becomes the default, and a
      reply is added only for a truthy (present, non-empty) id. */
  function SingleTweetPayload(tweet: string, replyTo: Option<string>): (p: TweetPayload)
    ensures p.text != ""
    ensures tweet != "" ==> p.text == tweet
    ensures p.replyTo.Some? <==> replyTo.Some? && replyTo.value != ""
    ensures p.replyTo.Some? ==> p.replyTo == replyTo
  {
    TweetPayload(if tweet == "" then DefaultTweet else tweet,
                 if replyTo.Some? && replyTo.value != "" then replyTo else None)
  }

  /** The payloads of a thread whose i-th request yielded `tweetIds[i]`:
      the first one replies to nothing, each later one to the id the
      previous request yielded. */
  function ThreadPayloads(messages: seq<string>, tweetIds: seq<Option<string>>): (p: seq<TweetPayload>)
    requires |tweetIds| == |messages|
    ensures |p| == |messages|
  {
    seq(|messages|, j requires 0 <= j < |messages| =>
      SingleTweetPayload(messages[j], if j == 0 then None else tweetIds[j - 1]))
  }

  /** Each message goes out as its own text (the default for an empty one)
      and every tweet after the first replies to the previous tweet's id
      when there is one. */
  lemma ThreadPayloadsReplyChain(messages: seq<string>, tweetIds: seq<Option<string>>)
    requires |tweetIds| == |messages|
    ensures var p := ThreadPayloads(messages, tweetIds);
      && (forall i :: 0 <= i < |messages| ==> p[i].text == (if messages[i] == "" then DefaultTweet else messages[i]))
      && (|messages| > 0 ==> p[0].replyTo == None)
      && (forall i :: 1 <= i < |messages| ==>
            p[i].replyTo == (if tweetIds[i - 1].Some? && tweetIds[i - 1].value != "" then tweetIds[i - 1] else None))
  {
  }

  class TwitterAPI {
    constructor()
    {
    }

    /** `sendTweetThread`: one request per message, each replying to the
        id returned for the previous one. `service(k + i)` is the id the
        i-th request yields (None without authorization). */
    method SendTweetThread(messages: seq<string>, service: nat -> Option<string>, k: nat)
      returns (tweetIds: seq<Option<string>>, payloads: seq<TweetPayload>)
      ensures |tweetIds| == |messages|
      ensures forall i :: 0 <= i < |messages| ==> tweetIds[i] == service(k + i)
      ensures payloads == ThreadPayloads(messages, tweetIds)
    {
      tweetIds, payloads := [], [];
      for i := 0 to |messages|
        invariant |tweetIds| == i && |payloads| == i
        invariant forall j :: 0 <= j < i ==> tweetIds[j] == service(k + j)
        invariant forall j :: 0 <= j < i ==> payloads[j] == SingleTweetPayload(messages[j], if j == 0 then None else tweetIds[j - 1])
      {
        var lastTweetId := if tweetIds == [] then None else tweetIds[|tweetIds| - 1];
        payloads := payloads + [SingleTweetPayload(messages[i], lastTweetId)];
        tweetIds := tweetIds + [service(k + i)];
      }
    }
  }
}
