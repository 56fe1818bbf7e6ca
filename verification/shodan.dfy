/** The Shodan search client: the response and match records and the paging
    loop of `SearchShodan`. The HTTP exchange for one page is abstracted as a
    page oracle, a function from page number to the decoded page or to the
    reason the page could not be obtained. */
module Shodan {
  import opened Results

  /** Shodan returns at most this many matches per page. */
  const PageSize: nat := 100

  datatype Ssh = Ssh(kind: string, fingerprint: string, cipher: string, mac: string, key: string)

  datatype Location = Location(
    country: string,
    countryCode: string,
    city: string,
    latitude: real,
    longitude: real)

  /** One host record. `ssh` is absent when the JSON has no `ssh` object. */
  datatype Match = Match(
    ip: string,
    port: int,
    location: Location,
    banner: string,
    product: string,
    version: string,
    timestamp: string,
    ssh: Option<Ssh>)

  /** The decoded body of one search page, and also the aggregate the search
      returns. */
  datatype Response = Response(matches: seq<Match>, total: int)

  /** Why one page could not be obtained: the request failed, the status was
      not 200 (the body travels with the error), the body could not be read,
      or it was not valid JSON. */
  datatype FetchError =
    | Transport
    | Status(code: int, body: string)
    | ReadBody
    | Parse

  /** The outcome of requesting one page. */
  datatype Page = Failed(cause: FetchError) | Fetched(response: Response)

  /** A failed search names the page whose request failed and why. */
  datatype SearchError = SearchError(page: nat, cause: FetchError)

  /** The server's answer to a request for each page number, for one query. */
  type PageOracle = nat -> Page

  /** The matches a page contributes; a failed page contributes none. */
  function PageMatches(p: Page): seq<Match> {
    if p.Fetched? then p.response.matches else []
  }

  /** The total reported on page 1, which the search keeps for its whole run. */
  function ReportedTotal(fetch: PageOracle): int {
    if fetch(1).Fetched? then fetch(1).response.total else 0
  }

  /** The matches of pages 1 to k, concatenated in page order. */
  function Collected(fetch: PageOracle, k: nat): seq<Match>
    decreases k
  {
    if k == 0 then [] else Collected(fetch, k - 1) + PageMatches(fetch(k))
  }

  /** The loop's exit test: the last page was short, or the matches gathered
      so far reach the reported total. */
  predicate Stops(pageLength: int, gathered: int, total: int) {
    pageLength < PageSize || gathered >= total
  }

  /** Page k was fetched and the search goes on to request page k + 1. */
  predicate Continues(fetch: PageOracle, k: nat)
    requires k >= 1
  {
    fetch(k).Fetched?
    && !Stops(|fetch(k).response.matches|, |Collected(fetch, k)|, ReportedTotal(fetch))
  }

  /** Page k is the last page requested: every earlier page let the search go
      on, and page k did not. */
  predicate LastRequested(fetch: PageOracle, k: nat) {
    k >= 1
    && (forall j :: 1 <= j < k ==> Continues(fetch, j))
    && !Continues(fetch, k)
  }

  /** max(1, ceil(total / PageSize)). */
  function MaxPages(total: int): nat {
    if total <= PageSize then 1 else (total + PageSize - 1) / PageSize
  }

  /** `SearchShodan` with its HTTP exchanges replaced by `fetch`. The pages
      requested are logged in `requested`. */
  method SearchShodan(fetch: PageOracle) returns (r: Result<Response, SearchError>, requested: seq<nat>)
    ensures |requested| >= 1
    ensures forall i :: 0 <= i < |requested| ==> requested[i] == i + 1
    ensures LastRequested(fetch, |requested|)
    ensures |requested| <= MaxPages(ReportedTotal(fetch))
    ensures fetch(|requested|).Failed? ==> r == Err(SearchError(|requested|, fetch(|requested|).cause))
    ensures fetch(|requested|).Fetched? ==> r == Ok(Response(Collected(fetch, |requested|), ReportedTotal(fetch)))
  {
    var page: nat := 1;
    var gathered: seq<Match> := [];
    var total := 0;
    requested := [];
    while true
      invariant page >= 1 && |requested| == page - 1
      invariant forall i :: 0 <= i < |requested| ==> requested[i] == i + 1
      invariant forall j :: 1 <= j < page ==> Continues(fetch, j)
      invariant gathered == Collected(fetch, page - 1)
      invariant page > 1 ==> total == ReportedTotal(fetch)
      decreases if page == 1 then 1 else 0, total - |gathered|
    {
      requested := requested + [page];
      var reply := fetch(page);
      if reply.Failed? {
        PagesBound(fetch, page);
        return Err(SearchError(page, reply.cause)), requested;
      }
      if page == 1 {
        total := reply.response.total;
      }
      gathered := gathered + reply.response.matches;
      if |reply.response.matches| < PageSize || |gathered| >= total {
        PagesBound(fetch, page);
        return Ok(Response(gathered, total)), requested;
      }
      page := page + 1;
    }
  }

  /** Each page that lets the search go on holds at least PageSize matches. */
  lemma {:induction false} ContinuingPagesFill(fetch: PageOracle, k: nat)
    requires forall j :: 1 <= j <= k ==> Continues(fetch, j)
    ensures |Collected(fetch, k)| >= PageSize * k
    decreases k
  {
    if k > 0 {
      ContinuingPagesFill(fetch, k - 1);
      assert Continues(fetch, k);
      assert Collected(fetch, k) == Collected(fetch, k - 1) + fetch(k).response.matches;
    }
  }

  /** The search requests at most max(1, ceil(total / PageSize)) pages, where
      total is the figure reported on page 1. */
  lemma PagesBound(fetch: PageOracle, k: nat)
    requires k >= 1
    requires forall j :: 1 <= j < k ==> Continues(fetch, j)
    ensures k <= MaxPages(ReportedTotal(fetch))
  {
    if k >= 2 {
      ContinuingPagesFill(fetch, k - 1);
      assert Continues(fetch, k - 1);
    }
  }

  /** A full page that brings the gathered matches up to the reported total
      ends the search: no further page is requested. */
  lemma FullPageReachingTotalIsLast(fetch: PageOracle, k: nat)
    requires k >= 1
    requires forall j :: 1 <= j < k ==> Continues(fetch, j)
    requires fetch(k).Fetched? && |fetch(k).response.matches| == PageSize
    requires |Collected(fetch, k)| == ReportedTotal(fetch)
    ensures LastRequested(fetch, k)
    ensures forall k' :: LastRequested(fetch, k') ==> k' == k
  {
  }

  /** Two servers that agree on page 1 and on the outcome and matches of every
      page, but not on the totals of later pages, lead to the same search:
      only page 1's total is used. */
  lemma {:induction false} OnlyFirstTotalCounts(f: PageOracle, g: PageOracle, k: nat)
    requires f(1) == g(1)
    requires forall p :: f(p).Fetched? == g(p).Fetched?
    requires forall p :: PageMatches(f(p)) == PageMatches(g(p))
    ensures Collected(f, k) == Collected(g, k)
    ensures LastRequested(f, k) <==> LastRequested(g, k)
    decreases k
  {
    if k > 0 {
      OnlyFirstTotalCounts(f, g, k - 1);
    }
    forall j | 1 <= j <= k
      ensures Continues(f, j) <==> Continues(g, j)
    {
      OnlyFirstTotalCounts(f, g, j - 1);
      assert Collected(f, j) == Collected(g, j);
    }
  }
}
