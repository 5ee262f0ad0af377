/**
 * The URL helpers of the two scripts: the log-safe form of a URL and the
 * check on the listing's `nextPage` link (fetch_all_models.py), and
 * the download-URL token suffix (civitAI_Model_downloader.py).  URLs
 * arrive pre-parsed (`Listing.PageUrl`); `urlparse` itself is not
 * modelled.
 */
module Urls {
  import opened Wrappers
  import opened PyStr
  import opened Listing

  /** `ALLOWED_API_HOSTS`. */
  const AllowedApiHosts: set<string> := {"civitai.com", "www.civitai.com"}

  // ---------------------------------------------------------------------------
  // sanitize_url_for_logging
  // ---------------------------------------------------------------------------

  /** What `urlparse` guarantees of the three parts that are logged: no query or fragment delimiter. */
  predicate WellParsed(u: Url) {
    && '?' !in u.scheme && '#' !in u.scheme
    && '?' !in u.netloc && '#' !in u.netloc
    && '?' !in u.path && '#' !in u.path
  }

  /**
   * `sanitize_url_for_logging(url)`: scheme, `://`, host and path, with
   * params, query and fragment dropped; `[invalid URL]` when parsing raised.
   */
  function SanitizeUrlForLogging(url: PageUrl): (r: string)
    ensures url.parsed.None? ==> r == "[invalid URL]"
    ensures url.parsed.Some? ==>
              var u := url.parsed.value;
              StartsWith(r, u.scheme + "://") && EndsWith(r, u.path) && |r| == |u.scheme| + 3 + |u.netloc| + |u.path|
  {
    match url.parsed
    case None => "[invalid URL]"
    case Some(u) =>
      var r := u.scheme + "://" + u.netloc + u.path;
      assert r[..|u.scheme + "://"|] == u.scheme + "://";
      assert r[|r| - |u.path|..] == u.path;
      r
  }

  /** The logged form does not depend on the query, params or fragment, where a token would travel. */
  lemma LoggingIgnoresQuery(raw: string, raw': string, u: Url, params: string, query: string, fragment: string)
    ensures SanitizeUrlForLogging(PageUrl(raw, Some(u)))
              == SanitizeUrlForLogging(PageUrl(raw', Some(u.(params := params, query := query, fragment := fragment))))
  {
  }

  /** The logged form of a well-parsed URL has no `?` or `#`, so no query string reaches the log. */
  lemma LoggingHasNoQuery(url: PageUrl)
    requires url.parsed.Some? ==> WellParsed(url.parsed.value)
    ensures '?' !in SanitizeUrlForLogging(url) && '#' !in SanitizeUrlForLogging(url)
  {
    if url.parsed.Some? {
      var u := url.parsed.value;
      var r := u.scheme + "://" + u.netloc + u.path;
      forall i | 0 <= i < |r|
        ensures r[i] != '?' && r[i] != '#'
      {
        if i < |u.scheme| {
          assert r[i] == u.scheme[i];
        } else if i < |u.scheme| + 3 {
          assert r[i] == "://"[i - |u.scheme|];
        } else if i < |u.scheme| + 3 + |u.netloc| {
          assert r[i] == u.netloc[i - |u.scheme| - 3];
        } else {
          assert r[i] == u.path[i - |u.scheme| - 3 - |u.netloc|];
        }
      }
    } else {
      assert "[invalid URL]" == ['[', 'i', 'n', 'v', 'a', 'l', 'i', 'd', ' ', 'U', 'R', 'L', ']'];
    }
  }

  // ---------------------------------------------------------------------------
  // validate_next_page_url
  // ---------------------------------------------------------------------------

  /** The three tests a pagination URL has to pass. */
  predicate IsAllowedPageUrl(u: Url) {
    u.scheme == "https" && u.netloc in AllowedApiHosts && StartsWith(u.path, "/api/")
  }

  /**
   * `validate_next_page_url(url)`: the link itself when it is
   * non-empty, parses, uses HTTPS, names an allowed host and points
   * under `/api/`; `None` otherwise.
   */
  function ValidateNextPageUrl(url: Option<PageUrl>): (r: Option<PageUrl>)
    ensures r.None? || r == url
    ensures r.Some? <==> url.Some? && url.value.raw != [] && url.value.parsed.Some? && IsAllowedPageUrl(url.value.parsed.value)
  {
    match url
    case None => None
    case Some(p) =>
      if p.raw == [] then None
      else
        match p.parsed
        case None => None
        case Some(u) =>
          if u.scheme != "https" then None
          else if u.netloc !in AllowedApiHosts then None
          else if !StartsWith(u.path, "/api/") then None
          else url
  }

  /** Validating an already validated link changes nothing. */
  lemma ValidateIdempotent(url: Option<PageUrl>)
    ensures ValidateNextPageUrl(ValidateNextPageUrl(url)) == ValidateNextPageUrl(url)
  {
  }

  /** A plain-HTTP link to the right host is refused. */
  lemma ValidateRejectsHttp(raw: string, host: string, path: string, query: string)
    requires raw != []
    ensures ValidateNextPageUrl(Some(PageUrl(raw, Some(Url("http", host, path, "", query, ""))))) == None
  {
    assert "http" != "https";
  }

  /** A well-formed link to the listing endpoint passes, query and all. */
  lemma ValidateAcceptsListing(raw: string, query: string)
    requires raw != []
    ensures var p := PageUrl(raw, Some(Url("https", "civitai.com", "/api/v1/models", "", query, "")));
            ValidateNextPageUrl(Some(p)) == Some(p)
  {
    assert "/api/v1/models"[..5] == "/api/";
  }

  // ---------------------------------------------------------------------------
  // Download-URL token suffix (download_model_files)
  // ---------------------------------------------------------------------------

  /**
   * The token and NSFW flag appended to a file's download URL: joined
   * with `&` when the URL already has a query (`'?' in file_url`), with
   * `?` otherwise.
   */
  function WithToken(url: string, token: string): (r: string)
    ensures StartsWith(r, url) && |r| > |url|
    ensures r[|url|] == if '?' in url then '&' else '?'
    ensures '?' in r && r != []
    ensures EndsWith(r, "&nsfw=true")
  {
    var r := url + (if '?' in url then "&" else "?") + "token=" + token + "&nsfw=true";
    assert r[..|url|] == url;
    assert r[|r| - 10..] == "&nsfw=true";
    assert '?' in url || r[|url|] == '?';
    r
  }

  /** The token ends up in the URL as a `token=` parameter. */
  lemma WithTokenCarriesToken(url: string, token: string)
    ensures Contains(WithToken(url, token), "token=" + token)
  {
    var r := WithToken(url, token);
    var k := |url| + 1;
    assert r[k..k + |"token=" + token|] == "token=" + token;
    ContainsAt(r, "token=" + token, k);
  }

  /**
   * Without an earlier `?`, the `?` the suffix adds is the first one: the
   * original URL is exactly the part before the query.
   */
  lemma WithTokenStartsQuery(url: string, token: string)
    requires '?' !in url
    ensures var r := WithToken(url, token); forall i :: 0 <= i < |url| ==> r[i] != '?'
  {
    var r := WithToken(url, token);
    assert forall i :: 0 <= i < |url| ==> r[i] == url[i];
  }
}
