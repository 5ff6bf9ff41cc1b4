/**
 * `MainWindow` (src/main/window.js), the older main-window variant: it
 * loads the first ten stored accounts into a 5 x 2 grid, answers proxy
 * logins from the accounts' own credentials, rewrites Origin and Referer on
 * requests, strips security, CORS and Set-Cookie headers from responses,
 * synthesizes permissive CORS headers, and re-issues every Set-Cookie as a
 * relaxed cookie (always Secure, SameSite "no_restriction") or evicts it
 * when already expired.
 */
module MainWindow {
  import opened Wrappers
  import opened Strings
  import opened Host
  import WebRequest

  type Headers = WebRequest.Headers

  // ---------------------------------------------------------------------
  // Accounts, layout and proxy

  /** A stored account as far as this window reads it. */
  datatype StoredAccount = StoredAccount(
    partition: string,
    proxyHost: Option<string>,
    proxyPort: Option<PortValue>,
    proxyUsername: Option<string>,
    proxyPassword: Option<string>)

  /** An account with its session (the view is not modelled). */
  datatype LoadedAccount = LoadedAccount(account: StoredAccount, session: Session)

  const MaxLoadedAccounts: nat := 10
  const GridColumns: nat := 5
  const GridRows: nat := 2

  /** `this.app.accounts.slice(0, 10).map(...)` with each account's session. */
  function LoadAccounts(stored: seq<StoredAccount>): (loaded: seq<LoadedAccount>)
    ensures |loaded| == if |stored| < MaxLoadedAccounts then |stored| else MaxLoadedAccounts
    ensures forall i :: 0 <= i < |loaded| ==>
              loaded[i].account == stored[i] && loaded[i].session == FromPartition(stored[i].partition)
  {
    var n := if |stored| < MaxLoadedAccounts then |stored| else MaxLoadedAccounts;
    seq(n, i requires 0 <= i < n => LoadedAccount(stored[i], FromPartition(stored[i].partition)))
  }

  /** `col = index % columns`, `row = Math.floor(index / columns)`. */
  function GridCell(index: nat): (nat, nat) {
    (index % GridColumns, index / GridColumns)
  }

  /**
   * The ten loaded accounts fill the 5 x 2 grid: every index lands inside
   * it, the cell gives the index back, and no two accounts share a cell.
   */
  lemma GridCellsDistinct(i: nat, j: nat)
    requires i < MaxLoadedAccounts && j < MaxLoadedAccounts
    ensures GridCell(i).0 < GridColumns && GridCell(i).1 < GridRows
    ensures GridCell(i).1 * GridColumns + GridCell(i).0 == i
    ensures GridCell(i) == GridCell(j) ==> i == j
  {
  }

  /** `configureProxy(account)`: the one `setProxy` call it makes. */
  function ConfigureProxy(a: LoadedAccount): (call: HostCall)
    ensures call.SetProxy? && call.session == a.session
    ensures call.config == FixedServers(ProxyRules(a.account.proxyHost, a.account.proxyPort), Some("<local>"))
  {
    SetProxy(a.session, FixedServers(ProxyRules(a.account.proxyHost, a.account.proxyPort), Some("<local>")))
  }

  /**
   * `loadViews` configures a proxy for every account, so an account saved
   * without proxy host and port gets the rule `null:80,direct://`.
   */
  lemma AccountWithoutProxyGetsNullRule(a: LoadedAccount)
    requires a.account.proxyHost.None? && !PortTruthy(a.account.proxyPort)
    ensures ConfigureProxy(a) == SetProxy(a.session, FixedServers("null:80,direct://", Some("<local>")))
  {
    assert ProxyRules(a.account.proxyHost, a.account.proxyPort) == "null" + ":" + "80" + ",direct://";
    assert "null" + ":" + "80" + ",direct://" == "null:80,direct://";
  }

  /**
   * What `loadViews` asks of the host for one account, in order: the proxy,
   * the two interceptors, and the extension from the configured path.
   */
  function LoadViewCalls(a: LoadedAccount, extensionPath: string): (calls: seq<HostCall>)
    ensures |calls| == 4
    ensures calls[0] == ConfigureProxy(a)
    ensures calls[1] == RegisterBeforeSendHeaders(a.session) && calls[2] == RegisterHeadersReceived(a.session)
    ensures calls[3] == LoadExtension(a.session, extensionPath)
  {
    [ConfigureProxy(a), RegisterBeforeSendHeaders(a.session), RegisterHeadersReceived(a.session),
     LoadExtension(a.session, extensionPath)]
  }

  /**
   * The `login` listener of `configureProxyHandler`: the first account
   * whose session is the requesting one, when the challenge comes from a
   * proxy.
   */
  function FindAccountBySession(accounts: seq<LoadedAccount>, session: Session): (r: Option<nat>)
    ensures r.Some? ==> r.value < |accounts| && accounts[r.value].session == session
                        && forall j :: 0 <= j < r.value ==> accounts[j].session != session
    ensures r.None? ==> forall j :: 0 <= j < |accounts| ==> accounts[j].session != session
  {
    if accounts == [] then None
    else if accounts[0].session == session then Some(0)
    else
      var r := FindAccountBySession(accounts[1..], session);
      if r.Some? then Some(r.value + 1) else None
  }

  /** The credentials the login callback receives, or `None` when it does not intercept. */
  function LoginReply(accounts: seq<LoadedAccount>, session: Session, isProxy: bool): (r: Option<Credentials>)
    ensures r.Some? <==> isProxy && exists j :: 0 <= j < |accounts| && accounts[j].session == session
  {
    if !isProxy then None
    else
      var found := FindAccountBySession(accounts, session);
      if found.None? then None
      else
        var a := accounts[found.value].account;
        Some(Credentials(a.proxyUsername, a.proxyPassword))
  }

  /** The reply carries the credentials of the first account on that session. */
  lemma LoginReplyUsesFirstMatch(accounts: seq<LoadedAccount>, session: Session, i: nat)
    requires i < |accounts| && accounts[i].session == session
    requires forall j :: 0 <= j < i ==> accounts[j].session != session
    ensures LoginReply(accounts, session, true)
            == Some(Credentials(accounts[i].account.proxyUsername, accounts[i].account.proxyPassword))
  {
    var found := FindAccountBySession(accounts, session);
    assert found == Some(i);
  }

  // ---------------------------------------------------------------------
  // Requests and responses

  /** Only `http://` and `https://` are rewritten; ws and wss pass through. */
  predicate IsHttpUrl(url: string) {
    HasPrefix(url, "http://") || HasPrefix(url, "https://")
  }

  /** The ten names removed from responses, compared lower-cased. */
  const StrippedResponseHeaders: seq<string> := [
    "set-cookie",
    "x-frame-options",
    "content-security-policy",
    "cross-origin-embedder-policy",
    "cross-origin-opener-policy",
    "cross-origin-resource-policy",
    "access-control-allow-origin",
    "access-control-allow-credentials",
    "access-control-allow-methods",
    "access-control-allow-header"
  ]

  /** The request headers after the Origin and Referer rewrite. */
  function RewriteRequestHeaders(h: Headers, origin: string): (r: Headers)
    ensures r.Keys == h.Keys + {"Origin", "Referer"}
    ensures r["Origin"] == origin && r["Referer"] == origin + "/"
    ensures forall k :: k in h && k != "Origin" && k != "Referer" ==> r[k] == h[k]
  {
    h["Origin" := origin]["Referer" := origin + "/"]
  }

  /**
   * The response headers: the ten names stripped, then the CORS headers
   * written with the same values as in the newer interceptors; nothing
   * else appears.
   */
  function RewriteResponseHeaders(h: Headers, request: Option<WebRequest.RequestInfo>): (r: Headers)
    ensures forall k :: k in r ==> WebRequest.IsCorsHeader(k) || (k in h && Lower(k) !in StrippedResponseHeaders)
    ensures forall k :: WebRequest.IsCorsHeader(k) ==> k in r
    ensures WebRequest.AllowCredentials in r && r[WebRequest.AllowCredentials] == "true"
    ensures WebRequest.AllowHeaders in r && r[WebRequest.AllowHeaders] == OrElse(WebRequest.RecordedHeaders(request), "*")
    ensures WebRequest.AllowOrigin in r && r[WebRequest.AllowOrigin] == OrElse(WebRequest.RecordedOrigin(request), "*")
    ensures WebRequest.AllowMethods in r && r[WebRequest.AllowMethods] == OrElse(WebRequest.RecordedMethod(request), "*")
  {
    WebRequest.WithCorsHeaders(WebRequest.StripHeaders(h, StrippedResponseHeaders), request)
  }

  /** `set-cookie` is on the list, so no upstream Set-Cookie header survives, whatever its case. */
  lemma SetCookieNeverForwarded(h: Headers, request: Option<WebRequest.RequestInfo>, k: string)
    requires Lower(k) == "set-cookie"
    ensures k !in RewriteResponseHeaders(h, request)
  {
    assert StrippedResponseHeaders[0] == "set-cookie";
  }

  /** Every other upstream header is kept with its value, unless it is one of the four CORS headers. */
  lemma OtherResponseHeaderKept(h: Headers, request: Option<WebRequest.RequestInfo>, k: string)
    requires k in h && Lower(k) !in StrippedResponseHeaders && !WebRequest.IsCorsHeader(k)
    ensures k in RewriteResponseHeaders(h, request)
            && RewriteResponseHeaders(h, request)[k] == h[k]
  {
  }

  // ---------------------------------------------------------------------
  // Cookie relaxation

  /**
   * What `set-cookie-parser` yields for one header line. `maxAge` is
   * present when the line had a numeric Max-Age; `expires` holds the
   * Expires date in milliseconds since the epoch when the line had a valid
   * date. A non-numeric Max-Age (`NaN`) or an unparseable Expires (an
   * invalid `Date`) has no value here.
   */
  datatype ParsedCookie = ParsedCookie(
    name: string,
    value: string,
    domain: Option<string>,
    path: Option<string>,
    httpOnly: bool,
    maxAge: Option<int>,
    expires: Option<int>)

  /** The cookie handed to `session.cookies.set`. */
  datatype Cookie = Cookie(
    url: string,
    name: string,
    domain: Option<string>,
    path: Option<string>,
    value: string,
    httpOnly: bool,
    secure: bool,
    sameSite: string,
    expirationDate: Option<int>)

  /** A call on the session's cookie store. */
  datatype CookieCall = SetCookie(cookie: Cookie) | RemoveCookie(url: string, name: string)

  /**
   * The absolute expiry in seconds: Max-Age counts from now and wins over
   * Expires, as in section 5.3 of RFC 6265; `now` and Expires are in
   * milliseconds and are floored to seconds.
   */
  function ExpirationDate(p: ParsedCookie, now: nat): (r: Option<int>)
    ensures p.maxAge.Some? ==> r == Some(now / 1000 + p.maxAge.value)
    ensures p.maxAge.None? && p.expires.Some? ==>
              r.Some? && r.value * 1000 <= p.expires.value < (r.value + 1) * 1000
    ensures p.maxAge.None? && p.expires.None? ==> r.None?
  {
    if p.maxAge.Some? then Some(now / 1000 + p.maxAge.value)
    else if p.expires.Some? then Some(p.expires.value / 1000)
    else None
  }

  /** The relaxed cookie built from one parse. */
  function RelaxedCookie(url: string, p: ParsedCookie, now: nat): Cookie {
    Cookie(url, p.name, p.domain, p.path, p.value, p.httpOnly, true, "no_restriction",
           ExpirationDate(p, now))
  }

  /**
   * `cookie.expirationDate && cookie.expirationDate < Date.now() / 1000`:
   * truthy (non-zero) and before now, compared without rounding, so an
   * expiry before the current whole second always counts and one after it
   * never does.
   */
  predicate IsExpired(c: Cookie, now: nat): (r: bool)
    ensures c.expirationDate.Some? && c.expirationDate.value != 0 && c.expirationDate.value < now / 1000 ==> r
    ensures r ==> c.expirationDate.Some? && c.expirationDate.value != 0 && c.expirationDate.value <= now / 1000
  {
    c.expirationDate.Some? && c.expirationDate.value != 0 && c.expirationDate.value * 1000 < now
  }

  /** The cookie-store call made for one Set-Cookie line. */
  function CookieCallFor(url: string, p: ParsedCookie, now: nat): (call: CookieCall)
    ensures call.RemoveCookie? <==> IsExpired(RelaxedCookie(url, p, now), now)
    ensures call.RemoveCookie? ==> call.url == url && call.name == p.name
    ensures call.SetCookie? ==> call.cookie == RelaxedCookie(url, p, now)
  {
    var c := RelaxedCookie(url, p, now);
    if IsExpired(c, now) then RemoveCookie(c.url, c.name) else SetCookie(c)
  }

  /** Every cookie set is Secure and SameSite "no_restriction" and copies the parse. */
  lemma SetCookieIsRelaxed(url: string, p: ParsedCookie, now: nat)
    requires CookieCallFor(url, p, now).SetCookie?
    ensures var c := CookieCallFor(url, p, now).cookie;
            c.secure && c.sameSite == "no_restriction"
            && c.url == url && c.name == p.name && c.domain == p.domain && c.path == p.path
            && c.value == p.value && c.httpOnly == p.httpOnly
  {
  }

  /** A cookie with neither Max-Age nor Expires is set, with no expiry. */
  lemma SessionCookieIsSet(url: string, p: ParsedCookie, now: nat)
    requires p.maxAge.None? && p.expires.None?
    ensures CookieCallFor(url, p, now) == SetCookie(RelaxedCookie(url, p, now))
    ensures RelaxedCookie(url, p, now).expirationDate.None?
  {
  }

  /**
   * `Max-Age=0` evicts only when `now` is not a whole second: the expiry is
   * `floor(now / 1000)`, which is before `now / 1000` exactly when the
   * milliseconds are non-zero.
   */
  lemma MaxAgeZeroEvictedIffMillisecondsNonZero(url: string, p: ParsedCookie, now: nat)
    requires p.maxAge == Some(0) && now >= 1000
    ensures CookieCallFor(url, p, now).RemoveCookie? <==> now % 1000 != 0
  {
    var e := now / 1000;
    assert e * 1000 + now % 1000 == now;
  }

  /** A negative Max-Age evicts unless the computed expiry happens to be 0. */
  lemma NegativeMaxAgeEvicted(url: string, p: ParsedCookie, now: nat)
    requires p.maxAge.Some? && p.maxAge.value < 0
    requires now / 1000 + p.maxAge.value != 0
    ensures CookieCallFor(url, p, now) == RemoveCookie(url, p.name)
  {
    var e := now / 1000 + p.maxAge.value;
    assert e * 1000 < now by {
      assert (now / 1000) * 1000 <= now;
      assert e * 1000 == (now / 1000) * 1000 + p.maxAge.value * 1000;
    }
  }

  /** A positive Max-Age never evicts. */
  lemma PositiveMaxAgeSet(url: string, p: ParsedCookie, now: nat)
    requires p.maxAge.Some? && p.maxAge.value > 0
    ensures CookieCallFor(url, p, now).SetCookie?
  {
    var e := now / 1000 + p.maxAge.value;
    assert e * 1000 >= now by {
      assert (now / 1000 + 1) * 1000 > now;
      assert e * 1000 == (now / 1000) * 1000 + p.maxAge.value * 1000;
    }
  }

  /** The loop over the Set-Cookie lines: one cookie-store call per line, in order. */
  method RelaxCookies(url: string, parsed: seq<ParsedCookie>, now: nat) returns (calls: seq<CookieCall>)
    ensures |calls| == |parsed|
    ensures forall i :: 0 <= i < |parsed| ==> calls[i] == CookieCallFor(url, parsed[i], now)
  {
    calls := [];
    var i := 0;
    while i < |parsed|
      invariant 0 <= i <= |parsed|
      invariant |calls| == i
      invariant forall j :: 0 <= j < i ==> calls[j] == CookieCallFor(url, parsed[j], now)
    {
      var p := parsed[i];
      var cookie := Cookie(url, p.name, p.domain, p.path, p.value, p.httpOnly, true, "no_restriction", None);
      if p.maxAge.Some? {
        cookie := cookie.(expirationDate := Some(now / 1000 + p.maxAge.value));
      } else if p.expires.Some? {
        cookie := cookie.(expirationDate := Some(p.expires.value / 1000));
      }
      if cookie.expirationDate.Some? && cookie.expirationDate.value != 0
         && cookie.expirationDate.value * 1000 < now {
        calls := calls + [RemoveCookie(cookie.url, cookie.name)];
      } else {
        calls := calls + [SetCookie(cookie)];
      }
      i := i + 1;
    }
  }

  // ---------------------------------------------------------------------
  // The per-account interceptors

  datatype RequestDetails = RequestDetails(id: int, url: string, requestHeaders: Headers)

  /**
   * A response. `setCookies` holds, already parsed by `set-cookie-parser`,
   * the lines of the header entry named exactly `set-cookie` when the
   * response has one; header values are otherwise single strings.
   */
  datatype ResponseDetails = ResponseDetails(
    id: int, url: string, httpMethod: string, statusLine: string,
    responseHeaders: Headers, setCookies: seq<ParsedCookie>)

  /**
   * `details.responseHeaders["set-cookie"] || []`: the lookup uses the
   * exact lower-case key, so cookies sent under any other spelling are
   * not re-issued.
   */
  function CookieLines(d: ResponseDetails): seq<ParsedCookie> {
    if "set-cookie" in d.responseHeaders then d.setCookies else []
  }

  /**
   * A response that spells the header `Set-Cookie` loses its cookies: the
   * header is stripped, as every spelling is, and no cookie is re-issued.
   */
  lemma CapitalisedSetCookieLost(d: ResponseDetails, request: Option<WebRequest.RequestInfo>)
    requires "Set-Cookie" in d.responseHeaders && "set-cookie" !in d.responseHeaders
    ensures CookieLines(d) == []
    ensures "Set-Cookie" !in RewriteResponseHeaders(d.responseHeaders, request)
  {
    assert Lower("Set-Cookie") == "set-cookie";
    SetCookieNeverForwarded(d.responseHeaders, request, "Set-Cookie");
  }

  /**
   * `handleWebRequest(account)`: its own request map and the calls made on
   * the account's cookie store.
   */
  class AccountInterceptor {
    const session: Session
    var requestMap: map<int, WebRequest.RequestInfo>
    var cookieCalls: seq<CookieCall>

    constructor (session: Session)
      ensures this.session == session && requestMap == map[] && cookieCalls == []
    {
      this.session := session;
      requestMap := map[];
      cookieCalls := [];
    }

    /**
     * Records the ORIGINAL Origin and preflight headers, then overwrites
     * Origin with the URL's origin and Referer with that origin plus `/`.
     */
    method OnBeforeSendHeaders(d: RequestDetails, urlOrigin: string) returns (headers: Headers)
      modifies this`requestMap
      ensures !IsHttpUrl(d.url) ==> headers == d.requestHeaders && requestMap == old(requestMap)
      ensures IsHttpUrl(d.url) ==>
                requestMap == old(requestMap)[d.id := WebRequest.InfoOf(d.requestHeaders)]
                && headers == RewriteRequestHeaders(d.requestHeaders, urlOrigin)
    {
      if !IsHttpUrl(d.url) {
        return d.requestHeaders;
      }
      headers := d.requestHeaders;
      requestMap := requestMap[d.id := WebRequest.InfoOf(headers)];
      headers := headers["Origin" := urlOrigin];
      headers := headers["Referer" := headers["Origin"] + "/"];
    }

    /**
     * Strips the ten names, forces the OPTIONS status line, writes the CORS
     * headers, and issues one cookie-store call per Set-Cookie line.
     */
    method OnHeadersReceived(d: ResponseDetails, now: nat) returns (r: WebRequest.ResponseResult)
      modifies this`cookieCalls
      ensures !IsHttpUrl(d.url) ==>
                r == WebRequest.ResponseResult(d.responseHeaders, None) && cookieCalls == old(cookieCalls)
      ensures IsHttpUrl(d.url) ==>
                && r.responseHeaders == RewriteResponseHeaders(d.responseHeaders, Get(requestMap, d.id))
                && r.statusLine == Some(if d.httpMethod == "OPTIONS" then WebRequest.ForcedStatusLine else d.statusLine)
                && |cookieCalls| == |old(cookieCalls)| + |CookieLines(d)|
                && cookieCalls[..|old(cookieCalls)|] == old(cookieCalls)
                && forall i :: 0 <= i < |CookieLines(d)| ==>
                     cookieCalls[|old(cookieCalls)| + i] == CookieCallFor(d.url, CookieLines(d)[i], now)
    {
      if !IsHttpUrl(d.url) {
        return WebRequest.ResponseResult(d.responseHeaders, None);
      }
      var statusLine := d.statusLine;
      var headers := WebRequest.StripHeaders(d.responseHeaders, StrippedResponseHeaders);
      if d.httpMethod == "OPTIONS" {
        statusLine := WebRequest.ForcedStatusLine;
      }
      var request := Get(requestMap, d.id);
      headers := WebRequest.WithCorsHeaders(headers, request);
      var setCookieHeaders := if "set-cookie" in d.responseHeaders then d.setCookies else [];
      var calls := RelaxCookies(d.url, setCookieHeaders, now);
      cookieCalls := cookieCalls + calls;
      r := WebRequest.ResponseResult(headers, Some(statusLine));
    }
  }
}
