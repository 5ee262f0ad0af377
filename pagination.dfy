/**
 * `paginate_api` of fetch_all_models.py: starting from the listing URL
 * for one account, fetch a page, hand it on, and follow the page's
 * validated `nextPage` link, until the link runs out, a page
 * repeats, a fetch fails, a page is empty or has no metadata, or 1000
 * pages have been fetched.  The network is an oracle from URL to
 * response; the user-facing text `fetch_page` returns for a failure is
 * `FailureMessage`.
 */
module Pagination {
  import opened Wrappers
  import opened PyStr
  import opened Listing
  import Urls

  /** `MAX_PAGES`. */
  const MaxPages := 1000

  /** The listing endpoint `fetch_all_models` passes as `base_url`. */
  const BaseUrl := "https://civitai.com/api/v1/models"

  /** The first page's URL; the account name goes in as given, unsanitized. */
  function StartUrl(username: string): (r: string)
    ensures StartsWith(r, BaseUrl + "?username=") && EndsWith(r, "&nsfw=true") && r != []
  {
    var r := BaseUrl + "?username=" + username + "&nsfw=true";
    assert r[..|BaseUrl + "?username="|] == BaseUrl + "?username=";
    assert r[|r| - 10..] == "&nsfw=true";
    r
  }

  // ---------------------------------------------------------------------------
  // fetch_page
  // ---------------------------------------------------------------------------

  /** The HTTP response attached to an `HTTPError`: its status and `Retry-After` header. */
  datatype HttpResponse = HttpResponse(status: int, retryAfter: string)

  /** Why a fetch failed. */
  datatype Failure =
    | HttpError(response: Option<HttpResponse>)  // `raise_for_status` raised
    | NetworkError                               // any other `RequestException`
    | InvalidJson                                // `response.json()` raised

  /** What one fetch of a page URL yields. */
  datatype Response =
    | Failed(failure: Failure)
    | Data(page: Option<Page>)   // `None`: the decoded body is empty (falsy)

  /**
   * The message `fetch_page` returns beside `None` for a failure.  An
   * error response is falsy in `requests`, so the generic branch always
   * reports the status as `unknown`.
   */
  function FailureMessage(f: Failure): (m: string)
    ensures m != []
  {
    match f
    case NetworkError => "Network error occurred. Check your connection."
    case InvalidJson => "Received invalid data from API."
    case HttpError(None) => "HTTP error unknown occurred."
    case HttpError(Some(r)) =>
      if r.status == 401 then "Authentication failed. Please check your API token."
      else if r.status == 403 then "Access forbidden. Verify account permissions."
      else if r.status == 429 then
        if IsAllDigits(r.retryAfter) then
          "Rate limit exceeded. Wait " + NatToString(LiteralValue(r.retryAfter)) + " seconds before retrying."
        else "Rate limit exceeded. Try again later."
      else if r.status >= 500 then "CivitAI service error. Try again later."
      else "HTTP error unknown occurred."
  }

  /** A `Retry-After` of `str(n)` seconds is reported as `n` seconds. */
  lemma RateLimitReportsWait(n: nat)
    ensures FailureMessage(HttpError(Some(HttpResponse(429, NatToString(n)))))
              == "Rate limit exceeded. Wait " + NatToString(n) + " seconds before retrying."
  {
    NatToStringValue(n);
  }

  /** Leading zeros of `Retry-After` are dropped by `int()`. */
  lemma RateLimitDropsLeadingZeros()
    ensures FailureMessage(HttpError(Some(HttpResponse(429, "07"))))
              == FailureMessage(HttpError(Some(HttpResponse(429, "7"))))
  {
    assert IsAllDigits("07") && IsAllDigits("7");
    assert "07"[..1] == "0";
    assert LiteralValue("07") == LiteralValue("7");
  }

  /** The status codes without a message of their own share the generic one. */
  lemma UnlistedStatusIsUnknown(r: HttpResponse)
    requires r.status != 401 && r.status != 403 && r.status != 429 && r.status < 500
    ensures FailureMessage(HttpError(Some(r))) == FailureMessage(HttpError(None))
  {
  }

  // ---------------------------------------------------------------------------
  // paginate_api
  // ---------------------------------------------------------------------------

  /** Why the loop ended. */
  datatype Stop =
    | Exhausted    // `next_page` is falsy: missing, empty or refused link
    | PageLimit    // `page_count` reached `MAX_PAGES`
    | Cycle        // `next_page in seen_pages`
    | FetchFailed  // `fetch_page` returned an error
    | EmptyData    // `not data`
    | NoMetadata   // `not metadata`

  /** The URLs fetched, in order, the pages yielded, in order, and why it stopped. */
  datatype Outcome = Outcome(fetched: seq<string>, pages: seq<Page>, stop: Stop)

  /** `validate_next_page_url(raw_next_page)` as the next value of `next_page`. */
  function NextLink(p: Option<PageUrl>): (r: Option<string>)
    ensures r.Some? <==> Urls.ValidateNextPageUrl(p).Some?
    ensures r.Some? ==> p.Some? && r.value == p.value.raw && r.value != []
                        && p.value.parsed.Some? && Urls.IsAllowedPageUrl(p.value.parsed.value)
  {
    match Urls.ValidateNextPageUrl(p)
    case None => None
    case Some(u) => Some(u.raw)
  }

  /** The truth value of `next_page`. */
  predicate HasNext(next: Option<string>) {
    next.Some? && next.value != []
  }

  /**
   * The loop from state (`next_page`, `seen_pages`, `page_count`) on, one
   * round per call: the loop test, the cycle test, the fetch and the two
   * emptiness tests, in the source's order.
   */
  function Paginate(fetch: string -> Response, next: Option<string>, seen: set<string>, count: nat): (o: Outcome)
    requires count <= MaxPages
    ensures |o.pages| <= |o.fetched|
    ensures o.fetched == [] <==> !HasNext(next) || count >= MaxPages || next.value in seen
    decreases MaxPages - count
  {
    if !HasNext(next) then Outcome([], [], Exhausted)
    else if count >= MaxPages then Outcome([], [], PageLimit)
    else if next.value in seen then Outcome([], [], Cycle)
    else
      var url := next.value;
      match fetch(url)
      case Failed(_) => Outcome([url], [], FetchFailed)
      case Data(None) => Outcome([url], [], EmptyData)
      case Data(Some(page)) =>
        if page.metadata.None? then Outcome([url], [page], NoMetadata)
        else
          var rest := Paginate(fetch, NextLink(page.metadata.value.nextPage), seen + {url}, count + 1);
          Outcome([url] + rest.fetched, [page] + rest.pages, rest.stop)
  }

  /** `paginate_api(base_url, username, ...)` run to the end. */
  function PaginateAll(fetch: string -> Response, username: string): (o: Outcome)
    ensures o.fetched != [] && o.fetched[0] == StartUrl(username)
  {
    Paginate(fetch, Some(StartUrl(username)), {}, 0)
  }

  /** The loop's round from a state that fetches a page with metadata: that URL, that page, then the rest. */
  lemma PaginateStep(fetch: string -> Response, next: Option<string>, seen: set<string>, count: nat)
    requires count < MaxPages && HasNext(next) && next.value !in seen
    requires fetch(next.value).Data? && fetch(next.value).page.Some? && fetch(next.value).page.value.metadata.Some?
    ensures Paginate(fetch, next, seen, count)
              == var page := fetch(next.value).page.value;
                 var rest := Paginate(fetch, NextLink(page.metadata.value.nextPage), seen + {next.value}, count + 1);
                 Outcome([next.value] + rest.fetched, [page] + rest.pages, rest.stop)
  {
  }

  /** No more fetches than the pages left under the ceiling: at most 1000 from the start. */
  lemma {:induction false} FetchBound(fetch: string -> Response, next: Option<string>, seen: set<string>, count: nat)
    requires count <= MaxPages
    ensures |Paginate(fetch, next, seen, count).fetched| <= MaxPages - count
    ensures Paginate(fetch, next, seen, count).stop == PageLimit ==>
              |Paginate(fetch, next, seen, count).fetched| == MaxPages - count
    decreases MaxPages - count
  {
    if HasNext(next) && count < MaxPages && next.value !in seen {
      var url := next.value;
      if fetch(url).Data? && fetch(url).page.Some? && fetch(url).page.value.metadata.Some? {
        var page := fetch(url).page.value;
        FetchBound(fetch, NextLink(page.metadata.value.nextPage), seen + {url}, count + 1);
      }
    }
  }

  predicate Distinct(s: seq<string>) {
    forall i, j :: 0 <= i < j < |s| ==> s[i] != s[j]
  }

  predicate NoneIn(s: seq<string>, seen: set<string>) {
    forall i :: 0 <= i < |s| ==> s[i] !in seen
  }

  /** No URL is fetched twice, and none already in `seen_pages` is fetched at all. */
  lemma {:induction false} NoRefetch(fetch: string -> Response, next: Option<string>, seen: set<string>, count: nat)
    requires count <= MaxPages
    ensures NoneIn(Paginate(fetch, next, seen, count).fetched, seen)
    ensures Distinct(Paginate(fetch, next, seen, count).fetched)
    decreases MaxPages - count
  {
    if HasNext(next) && count < MaxPages && next.value !in seen {
      var url := next.value;
      if fetch(url).Data? && fetch(url).page.Some? && fetch(url).page.value.metadata.Some? {
        var page := fetch(url).page.value;
        var seen' := seen + {url};
        var rest := Paginate(fetch, NextLink(page.metadata.value.nextPage), seen', count + 1);
        NoRefetch(fetch, NextLink(page.metadata.value.nextPage), seen', count + 1);
        var o := Paginate(fetch, next, seen, count);
        assert o.fetched == [url] + rest.fetched;
        forall i | 0 <= i < |o.fetched|
          ensures o.fetched[i] !in seen
        {
          if i > 0 {
            assert o.fetched[i] == rest.fetched[i - 1];
          }
        }
        forall i, j | 0 <= i < j < |o.fetched|
          ensures o.fetched[i] != o.fetched[j]
        {
          assert o.fetched[j] == rest.fetched[j - 1];
          if i > 0 {
            assert o.fetched[i] == rest.fetched[i - 1];
          }
        }
      }
    }
  }

  /**
   * The fetched URLs are the successive values of `next_page` and the
   * pages are what they returned: the first URL is where the loop
   * started, each yielded page is the data of the URL at its position,
   * each later URL is the validated link of the page before it, and
   * only the last fetch can yield no page.
   */
  predicate FollowsLinks(fetch: string -> Response, next: Option<string>, o: Outcome) {
    && |o.pages| <= |o.fetched| <= |o.pages| + 1
    && (o.fetched != [] ==> next.Some? && o.fetched[0] == next.value)
    && (forall i :: 0 <= i < |o.pages| ==> fetch(o.fetched[i]) == Data(Some(o.pages[i])))
    && (forall i :: 0 <= i < |o.fetched| - 1 ==>
          o.pages[i].metadata.Some? && NextLink(o.pages[i].metadata.value.nextPage) == Some(o.fetched[i + 1]))
  }

  lemma {:induction false} FetchesFollowLinks(fetch: string -> Response, next: Option<string>, seen: set<string>, count: nat)
    requires count <= MaxPages
    ensures FollowsLinks(fetch, next, Paginate(fetch, next, seen, count))
    decreases MaxPages - count
  {
    if HasNext(next) && count < MaxPages && next.value !in seen {
      var url := next.value;
      if fetch(url).Data? && fetch(url).page.Some? && fetch(url).page.value.metadata.Some? {
        var page := fetch(url).page.value;
        var np := NextLink(page.metadata.value.nextPage);
        FetchesFollowLinks(fetch, np, seen + {url}, count + 1);
        PaginateStep(fetch, next, seen, count);
        FollowsLinksExtends(fetch, url, page, Paginate(fetch, np, seen + {url}, count + 1));
      }
    }
  }

  /** One more round in front of link-following rounds keeps them link-following. */
  lemma FollowsLinksExtends(fetch: string -> Response, url: string, page: Page, rest: Outcome)
    requires fetch(url) == Data(Some(page)) && page.metadata.Some?
    requires FollowsLinks(fetch, NextLink(page.metadata.value.nextPage), rest)
    ensures FollowsLinks(fetch, Some(url), Outcome([url] + rest.fetched, [page] + rest.pages, rest.stop))
  {
    var o := Outcome([url] + rest.fetched, [page] + rest.pages, rest.stop);
    forall i | 0 <= i < |o.pages|
      ensures fetch(o.fetched[i]) == Data(Some(o.pages[i]))
    {
      if i > 0 {
        assert o.fetched[i] == rest.fetched[i - 1] && o.pages[i] == rest.pages[i - 1];
      }
    }
    forall i | 0 <= i < |o.fetched| - 1
      ensures o.pages[i].metadata.Some? && NextLink(o.pages[i].metadata.value.nextPage) == Some(o.fetched[i + 1])
    {
      assert o.fetched[i + 1] == rest.fetched[i];
      if i > 0 {
        assert o.pages[i] == rest.pages[i - 1] && o.fetched[i] == rest.fetched[i - 1];
      }
    }
  }

  /**
   * Every URL after the first was a page's `nextPage` and passed the
   * check: HTTPS, an allowed host and a path under `/api/`.
   */
  lemma LaterFetchesAreValidated(fetch: string -> Response, username: string, i: int)
    requires 1 <= i < |PaginateAll(fetch, username).fetched|
    ensures i - 1 < |PaginateAll(fetch, username).pages|
    ensures PaginateAll(fetch, username).pages[i - 1].metadata.Some?
    ensures var p := PaginateAll(fetch, username).pages[i - 1].metadata.value.nextPage;
            && p.Some? && p.value.raw == PaginateAll(fetch, username).fetched[i]
            && p.value.parsed.Some? && Urls.IsAllowedPageUrl(p.value.parsed.value)
  {
    FetchesFollowLinks(fetch, Some(StartUrl(username)), {}, 0);
    var o := PaginateAll(fetch, username);
    assert NextLink(o.pages[i - 1].metadata.value.nextPage) == Some(o.fetched[i]);
  }

  /**
   * Each way of stopping has its cause: a failed or empty fetch is the
   * last URL's response and yields no page; a missing metadata object
   * belongs to the last page; a cycle means `next_page` named a URL
   * already in `seen_pages` or already fetched.
   */
  predicate StopExplained(fetch: string -> Response, next: Option<string>, seen: set<string>, o: Outcome) {
    && (o.stop == FetchFailed ==> o.fetched != [] && |o.pages| == |o.fetched| - 1
                                  && fetch(o.fetched[|o.fetched| - 1]).Failed?)
    && (o.stop == EmptyData ==> o.fetched != [] && |o.pages| == |o.fetched| - 1
                                && fetch(o.fetched[|o.fetched| - 1]) == Data(None))
    && (o.stop == NoMetadata ==> o.pages != [] && |o.pages| == |o.fetched|
                                 && o.pages[|o.pages| - 1].metadata.None?)
    && (o.stop == Cycle ==> CycleCause(next, seen, o))
  }

  predicate CycleCause(next: Option<string>, seen: set<string>, o: Outcome) {
    if o.pages == [] then o.fetched == [] && next.Some? && next.value in seen
    else
      && |o.pages| == |o.fetched|
      && o.pages[|o.pages| - 1].metadata.Some?
      && var np := NextLink(o.pages[|o.pages| - 1].metadata.value.nextPage);
         np.Some? && (np.value in seen || np.value in o.fetched)
  }

  lemma {:induction false} StopHasCause(fetch: string -> Response, next: Option<string>, seen: set<string>, count: nat)
    requires count <= MaxPages
    ensures StopExplained(fetch, next, seen, Paginate(fetch, next, seen, count))
    decreases MaxPages - count
  {
    if HasNext(next) && count < MaxPages && next.value !in seen {
      var url := next.value;
      if fetch(url).Data? && fetch(url).page.Some? && fetch(url).page.value.metadata.Some? {
        var page := fetch(url).page.value;
        var np := NextLink(page.metadata.value.nextPage);
        var seen' := seen + {url};
        var rest := Paginate(fetch, np, seen', count + 1);
        StopHasCause(fetch, np, seen', count + 1);
        PaginateStep(fetch, next, seen, count);
        var o := Paginate(fetch, next, seen, count);
        assert o.fetched == [url] + rest.fetched && o.pages == [page] + rest.pages;
        if rest.fetched != [] {
          assert o.fetched[|o.fetched| - 1] == rest.fetched[|rest.fetched| - 1];
        }
        if rest.pages != [] {
          assert o.pages[|o.pages| - 1] == rest.pages[|rest.pages| - 1];
        }
        if o.stop == Cycle {
          CycleCauseExtends(np, seen, url, page, rest);
        }
      }
    }
  }

  /** A cycle found further on is, seen from one round earlier, still a cycle on a URL seen or fetched. */
  lemma CycleCauseExtends(np: Option<string>, seen: set<string>, url: string, page: Page, rest: Outcome)
    requires page.metadata.Some? && np == NextLink(page.metadata.value.nextPage)
    requires CycleCause(np, seen + {url}, rest)
    ensures CycleCause(Some(url), seen, Outcome([url] + rest.fetched, [page] + rest.pages, rest.stop))
  {
    var o := Outcome([url] + rest.fetched, [page] + rest.pages, rest.stop);
    assert o.fetched[0] == url;
    if rest.pages == [] {
      assert o.pages[|o.pages| - 1] == page;
    } else {
      assert o.pages[|o.pages| - 1] == rest.pages[|rest.pages| - 1];
      var v := NextLink(rest.pages[|rest.pages| - 1].metadata.value.nextPage).value;
      if v in rest.fetched {
        var k :| 0 <= k < |rest.fetched| && rest.fetched[k] == v;
        assert o.fetched[k + 1] == v;
      }
    }
  }

  /** A link that leads back to the first page ends the loop after two fetches. */
  lemma CycleOfTwo(fetch: string -> Response, a: string, b: string, pa: Page, pb: Page)
    requires a != [] && a != b
    requires fetch(a) == Data(Some(pa)) && pa.metadata.Some? && NextLink(pa.metadata.value.nextPage) == Some(b)
    requires fetch(b) == Data(Some(pb)) && pb.metadata.Some? && NextLink(pb.metadata.value.nextPage) == Some(a)
    ensures Paginate(fetch, Some(a), {}, 0) == Outcome([a, b], [pa, pb], Cycle)
  {
    assert Paginate(fetch, Some(a), {a, b}, 2) == Outcome([], [], Cycle);
    assert Paginate(fetch, Some(b), {a}, 1) == Outcome([b], [pb], Cycle);
  }

  /**
   * The loop itself: `next_page`, `seen_pages` and `page_count` updated
   * round by round, with the source's `break`s.  Its result is the
   * specification's.
   */
  method PaginateApi(fetch: string -> Response, username: string) returns (o: Outcome)
    ensures o == PaginateAll(fetch, username)
  {
    var next: Option<string> := Some(StartUrl(username));
    var seen: set<string> := {};
    var count: nat := 0;
    var fetched: seq<string> := [];
    var pages: seq<Page> := [];
    while HasNext(next) && count < MaxPages
      invariant count <= MaxPages
      invariant var r := Paginate(fetch, next, seen, count);
                PaginateAll(fetch, username) == Outcome(fetched + r.fetched, pages + r.pages, r.stop)
      decreases MaxPages - count
    {
      var url := next.value;
      if url in seen {
        return Outcome(fetched, pages, Cycle);
      }
      ghost var next0, seen0, count0, fetched0, pages0 := next, seen, count, fetched, pages;
      seen := seen + {url};
      count := count + 1;
      fetched := fetched + [url];
      var response := fetch(url);
      if response.Failed? {
        return Outcome(fetched, pages, FetchFailed);
      }
      if response.page.None? {
        return Outcome(fetched, pages, EmptyData);
      }
      var page := response.page.value;
      pages := pages + [page];
      if page.metadata.None? {
        return Outcome(fetched, pages, NoMetadata);
      }
      next := NextLink(page.metadata.value.nextPage);
      PaginateStep(fetch, next0, seen0, count0);
      var r := Paginate(fetch, next, seen, count);
      assert fetched0 + ([url] + r.fetched) == fetched + r.fetched;
      assert pages0 + ([page] + r.pages) == pages + r.pages;
    }
    if !HasNext(next) {
      o := Outcome(fetched, pages, Exhausted);
    } else {
      o := Outcome(fetched, pages, PageLimit);
    }
  }
}
