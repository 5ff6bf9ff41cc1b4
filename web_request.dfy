/**
 * `registerWebRequest` (src/main/libs/webRequest.js): the per-session pair
 * of interceptors that applies declarative per-domain header rules to
 * requests and responses, records each request's CORS preflight metadata
 * under its id, strips the security headers of responses, forces OPTIONS
 * responses to succeed and rebuilds the `Access-Control-Allow-*` headers
 * from the recorded request.
 *
 * This deliberately relaxes the CORS protocol of section 3.2 of the WHATWG
 * Fetch Standard: the model states what the code does, not what the
 * protocol asks for.
 */
module WebRequest {
  import opened Wrappers
  import opened Strings

  /** A header dictionary: the JavaScript object `{ [name]: value }`. */
  type Headers = map<string, string>

  /** A declarative header operation; anything but set/remove is ignored. */
  datatype Operation = Set | Remove | OtherOperation

  datatype HeaderModification = HeaderModification(header: string, operation: Operation, value: string)

  /**
   * A declarative net request rule: `condition.requestDomains`, optional in
   * the rule format, and the `action.requestHeaders` /
   * `action.responseHeaders` lists (an absent list is empty).
   */
  datatype Rule = Rule(
    requestDomains: Option<seq<string>>,
    requestHeaders: seq<HeaderModification>,
    responseHeaders: seq<HeaderModification>)

  datatype Side = RequestSide | ResponseSide

  function ModificationsOf(rule: Rule, side: Side): seq<HeaderModification> {
    match side
    case RequestSide => rule.requestHeaders
    case ResponseSide => rule.responseHeaders
  }

  /** `rule.condition.requestDomains.includes(hostname)`. */
  predicate RuleMatches(rule: Rule, hostname: string) {
    rule.requestDomains.Some? && hostname in rule.requestDomains.value
  }

  /**
   * Every rule lists its domains. Otherwise the loop over the rules calls
   * `includes` on `undefined` when it reaches that rule, whatever the host,
   * and the listener throws before it calls back.
   */
  predicate AllRulesHaveDomains(rules: seq<Rule>) {
    forall i :: 0 <= i < |rules| ==> rules[i].requestDomains.Some?
  }

  /** The test `/^(http|https|ws|wss):\/\//.test(url)`. */
  predicate IsWebUrl(url: string) {
    HasPrefix(url, "http://") || HasPrefix(url, "https://")
    || HasPrefix(url, "ws://") || HasPrefix(url, "wss://")
  }

  // ---------------------------------------------------------------------
  // Header rules

  /** One operation on the header object: assign, `delete`, or nothing. */
  function ApplyModification(h: Headers, m: HeaderModification): Headers {
    match m.operation
    case Set => h[m.header := m.value]
    case Remove => h - {m.header}
    case OtherOperation => h
  }

  /**
   * The operations of one list, in list order: a header that was not
   * there before appears only when some operation sets it.
   */
  function ApplyModifications(h: Headers, ms: seq<HeaderModification>): (r: Headers)
    ensures forall k :: k in r && k !in h ==> exists m :: m in ms && m.header == k && m.operation.Set?
    decreases |ms|
  {
    if ms == [] then h
    else ApplyModification(ApplyModifications(h, ms[..|ms| - 1]), ms[|ms| - 1])
  }

  /**
   * The rules, in rule order; a rule applies when its domains list the
   * host. A header that was not there before appears only when a matching
   * rule sets it.
   */
  function ApplyRules(h: Headers, rules: seq<Rule>, hostname: string, side: Side): (r: Headers)
    ensures forall k :: k in r && k !in h ==>
              exists i :: 0 <= i < |rules| && RuleMatches(rules[i], hostname)
                          && exists m :: m in ModificationsOf(rules[i], side) && m.header == k && m.operation.Set?
    decreases |rules|
  {
    if rules == [] then h
    else
      var previous := ApplyRules(h, rules[..|rules| - 1], hostname, side);
      var last := rules[|rules| - 1];
      if RuleMatches(last, hostname) then ApplyModifications(previous, ModificationsOf(last, side))
      else previous
  }

  /** The operations of all matching rules, concatenated in rule order. */
  function MatchingModifications(rules: seq<Rule>, hostname: string, side: Side): seq<HeaderModification>
    decreases |rules|
  {
    if rules == [] then []
    else
      var last := rules[|rules| - 1];
      MatchingModifications(rules[..|rules| - 1], hostname, side)
      + (if RuleMatches(last, hostname) then ModificationsOf(last, side) else [])
  }

  /** An operation that sets or removes header `k`. */
  predicate Touches(m: HeaderModification, k: string) {
    m.header == k && !m.operation.OtherOperation?
  }

  lemma {:induction false} ApplyModificationsAppend(h: Headers, xs: seq<HeaderModification>, ys: seq<HeaderModification>)
    ensures ApplyModifications(h, xs + ys) == ApplyModifications(ApplyModifications(h, xs), ys)
    decreases |ys|
  {
    if ys == [] {
      assert xs + ys == xs;
    } else {
      var init := ys[..|ys| - 1];
      assert (xs + ys)[..|xs + ys| - 1] == xs + init;
      assert (xs + ys)[|xs + ys| - 1] == ys[|ys| - 1];
      ApplyModificationsAppend(h, xs, init);
    }
  }

  /**
   * Rule order, then list order: applying the rules is applying the
   * concatenated operations of the matching rules.
   */
  lemma {:induction false} ApplyRulesIsMatchingModifications(h: Headers, rules: seq<Rule>, hostname: string, side: Side)
    ensures ApplyRules(h, rules, hostname, side)
         == ApplyModifications(h, MatchingModifications(rules, hostname, side))
    decreases |rules|
  {
    if rules != [] {
      var init := rules[..|rules| - 1];
      var last := rules[|rules| - 1];
      ApplyRulesIsMatchingModifications(h, init, hostname, side);
      var extra := if RuleMatches(last, hostname) then ModificationsOf(last, side) else [];
      ApplyModificationsAppend(h, MatchingModifications(init, hostname, side), extra);
    }
  }

  /** A header no operation sets or removes keeps its presence and value. */
  lemma {:induction false} UntouchedHeaderKept(h: Headers, ms: seq<HeaderModification>, k: string)
    requires forall i :: 0 <= i < |ms| ==> !Touches(ms[i], k)
    ensures k in ApplyModifications(h, ms) <==> k in h
    ensures k in h ==> ApplyModifications(h, ms)[k] == h[k]
    decreases |ms|
  {
    if ms != [] {
      UntouchedHeaderKept(h, ms[..|ms| - 1], k);
    }
  }

  /**
   * The last operation that sets or removes `ms[i].header` decides it: a
   * `set` leaves that value, a `remove` leaves the header absent.
   */
  lemma {:induction false} LastModificationWins(h: Headers, ms: seq<HeaderModification>, i: nat)
    requires i < |ms| && !ms[i].operation.OtherOperation?
    requires forall j :: i < j < |ms| ==> !Touches(ms[j], ms[i].header)
    ensures ms[i].operation.Set? ==>
              ms[i].header in ApplyModifications(h, ms)
              && ApplyModifications(h, ms)[ms[i].header] == ms[i].value
    ensures ms[i].operation.Remove? ==> ms[i].header !in ApplyModifications(h, ms)
    decreases |ms|
  {
    if i < |ms| - 1 {
      LastModificationWins(h, ms[..|ms| - 1], i);
    }
  }

  /** A host that no rule lists leaves the headers as they were. */
  lemma {:induction false} NoMatchingRuleNoChange(h: Headers, rules: seq<Rule>, hostname: string, side: Side)
    requires forall i :: 0 <= i < |rules| ==> !RuleMatches(rules[i], hostname)
    ensures ApplyRules(h, rules, hostname, side) == h
    decreases |rules|
  {
    if rules != [] {
      NoMatchingRuleNoChange(h, rules[..|rules| - 1], hostname, side);
    }
  }

  /** The inner loop over one rule's operations, updating the header object in place. */
  method ApplyModificationsInPlace(headers: Headers, mods: seq<HeaderModification>) returns (h: Headers)
    ensures h == ApplyModifications(headers, mods)
  {
    h := headers;
    var j := 0;
    while j < |mods|
      invariant 0 <= j <= |mods|
      invariant h == ApplyModifications(headers, mods[..j])
    {
      var m := mods[j];
      if m.operation == Set {
        h := h[m.header := m.value];
      } else if m.operation == Remove {
        h := h - {m.header};
      }
      assert mods[..j + 1][..j] == mods[..j];
      j := j + 1;
    }
    assert mods[..j] == mods;
  }

  /**
   * The nested rule loops, updating the header object in place; `None`
   * when a rule without `requestDomains` makes the loop throw.
   */
  method ApplyRulesInPlace(headers: Headers, rules: seq<Rule>, hostname: string, side: Side)
    returns (result: Option<Headers>)
    ensures result.Some? <==> AllRulesHaveDomains(rules)
    ensures result.Some? ==> result.value == ApplyRules(headers, rules, hostname, side)
  {
    var h := headers;
    var i := 0;
    while i < |rules|
      invariant 0 <= i <= |rules|
      invariant AllRulesHaveDomains(rules[..i])
      invariant h == ApplyRules(headers, rules[..i], hostname, side)
    {
      var rule := rules[i];
      if rule.requestDomains.None? {
        return None;
      }
      assert rules[..i + 1][..i] == rules[..i] && rules[..i + 1][i] == rule;
      if hostname in rule.requestDomains.value {
        h := ApplyModificationsInPlace(h, ModificationsOf(rule, side));
      }
      i := i + 1;
    }
    assert rules[..i] == rules;
    result := Some(h);
  }

  // ---------------------------------------------------------------------
  // The request record

  /** What `requestMap` stores per request id. */
  datatype RequestInfo = RequestInfo(origin: Option<string>, requestMethod: Option<string>, requestHeaders: Option<string>)

  /** The preflight metadata read from a request's headers. */
  function InfoOf(h: Headers): RequestInfo {
    RequestInfo(Get(h, "Origin"), Get(h, "Access-Control-Request-Method"),
                Get(h, "Access-Control-Request-Headers"))
  }

  datatype RequestDetails = RequestDetails(id: int, url: string, hostname: string, requestHeaders: Headers)

  // ---------------------------------------------------------------------
  // The response rewrite

  /** The header names removed from every response, compared lower-cased. */
  const StrippedResponseHeaders: seq<string> := [
    "x-frame-options",
    "content-security-policy",
    "cross-origin-embedder-policy",
    "cross-origin-opener-policy",
    "cross-origin-resource-policy",
    "access-control-allow-origin",
    "access-control-allow-credentials",
    "access-control-allow-methods",
    "access-control-allow-header"
  ]

  /**
   * `Object.fromEntries(Object.entries(h).filter(([k]) => !names.includes(k.toLowerCase())))`:
   * a header stays, with its value, iff its lower-cased name is not listed.
   */
  function StripHeaders(h: Headers, names: seq<string>): (r: Headers)
    ensures forall k :: k in r <==> k in h && Lower(k) !in names
    ensures forall k :: k in r ==> r[k] == h[k]
  {
    map k | k in h && Lower(k) !in names :: h[k]
  }

  const AllowCredentials: string := "Access-Control-Allow-Credentials"
  const AllowHeaders: string := "Access-Control-Allow-Headers"
  const AllowOrigin: string := "Access-Control-Allow-Origin"
  const AllowMethods: string := "Access-Control-Allow-Methods"

  predicate IsCorsHeader(k: string) {
    k == AllowCredentials || k == AllowHeaders || k == AllowOrigin || k == AllowMethods
  }

  /** `request?.origin`, `request?.method`, `request?.headers`. */
  function RecordedOrigin(request: Option<RequestInfo>): Option<string> {
    if request.Some? then request.value.origin else None
  }

  function RecordedMethod(request: Option<RequestInfo>): Option<string> {
    if request.Some? then request.value.requestMethod else None
  }

  function RecordedHeaders(request: Option<RequestInfo>): Option<string> {
    if request.Some? then request.value.requestHeaders else None
  }

  /**
   * The four assignments of the synthesized CORS headers, in source order:
   * credentials are allowed, the other three echo the recorded request
   * when that value is truthy and are `*` otherwise, and every other
   * header is kept with its value.
   */
  function WithCorsHeaders(h: Headers, request: Option<RequestInfo>): (r: Headers)
    ensures r.Keys == h.Keys + {AllowCredentials, AllowHeaders, AllowOrigin, AllowMethods}
    ensures r[AllowCredentials] == "true"
    ensures r[AllowHeaders] == OrElse(RecordedHeaders(request), "*")
    ensures r[AllowOrigin] == OrElse(RecordedOrigin(request), "*")
    ensures r[AllowMethods] == OrElse(RecordedMethod(request), "*")
    ensures forall k :: IsCorsHeader(k) ==> r[k] != ""
    ensures forall k :: k in h && !IsCorsHeader(k) ==> r[k] == h[k]
  {
    h[AllowCredentials := "true"]
     [AllowHeaders := OrElse(RecordedHeaders(request), "*")]
     [AllowOrigin := OrElse(RecordedOrigin(request), "*")]
     [AllowMethods := OrElse(RecordedMethod(request), "*")]
  }

  datatype ResponseDetails = ResponseDetails(
    id: int, url: string, hostname: string, httpMethod: string,
    statusLine: string, responseHeaders: Headers)

  /** What the response callback receives; `None` leaves the upstream status line. */
  datatype ResponseResult = ResponseResult(responseHeaders: Headers, statusLine: Option<string>)

  const ForcedStatusLine: string := "HTTP/1.1 200"

  /**
   * The whole response rewrite, given the record found for the request id;
   * `None` when the listener throws in the rule loop and never calls back.
   */
  function RewriteResponse(d: ResponseDetails, rules: seq<Rule>, request: Option<RequestInfo>): (r: Option<ResponseResult>)
    ensures r.None? <==> IsWebUrl(d.url) && !AllRulesHaveDomains(rules)
    ensures r.Some? && IsWebUrl(d.url) ==>
              r.value.statusLine.Some? && AllowCredentials in r.value.responseHeaders
              && r.value.responseHeaders[AllowCredentials] == "true"
    ensures !IsWebUrl(d.url) ==> r == Some(ResponseResult(d.responseHeaders, None))
  {
    if !IsWebUrl(d.url) then Some(ResponseResult(d.responseHeaders, None))
    else if !AllRulesHaveDomains(rules) then None
    else
      var filtered := StripHeaders(d.responseHeaders, StrippedResponseHeaders);
      var ruled := ApplyRules(filtered, rules, d.hostname, ResponseSide);
      Some(ResponseResult(WithCorsHeaders(ruled, request),
                          Some(if d.httpMethod == "OPTIONS" then ForcedStatusLine else d.statusLine)))
  }

  /**
   * One rule without `requestDomains` anywhere in the list silences the
   * response listener for every web URL, whatever the host, while non-web
   * URLs still pass through.
   */
  lemma RuleWithoutDomainsSilencesResponses(d: ResponseDetails, rules: seq<Rule>, request: Option<RequestInfo>, i: nat)
    requires i < |rules| && rules[i].requestDomains.None?
    ensures RewriteResponse(d, rules, request).None? <==> IsWebUrl(d.url)
  {
  }

  /**
   * A header that is not one of the four synthesized ones and that no
   * matching response rule sets or removes is present in the rewrite iff it
   * was upstream and its lower-cased name is not on the stripped list; its
   * value is kept.
   */
  lemma ResponseHeaderKeptIffNotStripped(d: ResponseDetails, rules: seq<Rule>, request: Option<RequestInfo>, k: string)
    requires IsWebUrl(d.url) && AllRulesHaveDomains(rules) && !IsCorsHeader(k)
    requires forall m :: m in MatchingModifications(rules, d.hostname, ResponseSide) ==> !Touches(m, k)
    ensures RewriteResponse(d, rules, request).Some?
    ensures k in RewriteResponse(d, rules, request).value.responseHeaders
            <==> k in d.responseHeaders && Lower(k) !in StrippedResponseHeaders
    ensures k in RewriteResponse(d, rules, request).value.responseHeaders
            ==> RewriteResponse(d, rules, request).value.responseHeaders[k] == d.responseHeaders[k]
  {
    var filtered := StripHeaders(d.responseHeaders, StrippedResponseHeaders);
    ApplyRulesIsMatchingModifications(filtered, rules, d.hostname, ResponseSide);
    var ms := MatchingModifications(rules, d.hostname, ResponseSide);
    assert forall i :: 0 <= i < |ms| ==> !Touches(ms[i], k) by {
      forall i | 0 <= i < |ms| ensures !Touches(ms[i], k) {
        assert ms[i] in ms;
      }
    }
    UntouchedHeaderKept(filtered, ms, k);
  }

  /**
   * The list names `access-control-allow-header` (singular): an upstream
   * `access-control-allow-headers` survives the filter, next to the
   * synthesized `Access-Control-Allow-Headers`.
   */
  lemma PluralAllowHeadersSurvives(d: ResponseDetails, rules: seq<Rule>, request: Option<RequestInfo>)
    requires IsWebUrl(d.url) && AllRulesHaveDomains(rules) && "access-control-allow-headers" in d.responseHeaders
    requires forall m :: m in MatchingModifications(rules, d.hostname, ResponseSide)
               ==> !Touches(m, "access-control-allow-headers")
    ensures RewriteResponse(d, rules, request).Some?
    ensures var out := RewriteResponse(d, rules, request).value.responseHeaders;
            "access-control-allow-headers" in out
            && out["access-control-allow-headers"] == d.responseHeaders["access-control-allow-headers"]
            && AllowHeaders in out
  {
    PluralAllowHeadersNotListed();
    ResponseHeaderKeptIffNotStripped(d, rules, request, "access-control-allow-headers");
  }

  lemma PluralAllowHeadersNotListed()
    ensures Lower("access-control-allow-headers") !in StrippedResponseHeaders
  {
    var k := "access-control-allow-headers";
    LowerOfLowerCase(k);
    assert forall n :: n in StrippedResponseHeaders ==> |n| != |k| || n[21] != k[21];
  }

  /** Upper-case spellings are stripped too: the comparison lower-cases the name. */
  lemma MixedCaseSecurityHeaderStripped(d: ResponseDetails, rules: seq<Rule>, request: Option<RequestInfo>)
    requires IsWebUrl(d.url) && AllRulesHaveDomains(rules)
    requires forall m :: m in MatchingModifications(rules, d.hostname, ResponseSide)
               ==> !Touches(m, "X-Frame-Options")
    ensures RewriteResponse(d, rules, request).Some?
    ensures "X-Frame-Options" !in RewriteResponse(d, rules, request).value.responseHeaders
  {
    assert Lower("X-Frame-Options") == "x-frame-options";
    ResponseHeaderKeptIffNotStripped(d, rules, request, "X-Frame-Options");
  }

  // ---------------------------------------------------------------------
  // The interceptor pair

  /**
   * One call of `registerWebRequest(session, rules)`: the rules it closes
   * over and its own `requestMap`, which starts empty and only grows.
   */
  class Interceptor {
    const rules: seq<Rule>
    var requestMap: map<int, RequestInfo>

    constructor (rules: seq<Rule>)
      ensures this.rules == rules && requestMap == map[]
    {
      this.rules := rules;
      requestMap := map[];
    }

    /**
     * `onBeforeSendHeaders`: non-web URLs pass through and leave no record;
     * otherwise the request rules run and the record holds the headers as
     * they stand after them. `None` means the callback is never called: a
     * rule without `requestDomains` made the rule loop throw, before the
     * record is written.
     */
    method OnBeforeSendHeaders(d: RequestDetails) returns (headers: Option<Headers>)
      modifies this
      ensures !IsWebUrl(d.url) ==> headers == Some(d.requestHeaders) && requestMap == old(requestMap)
      ensures IsWebUrl(d.url) && !AllRulesHaveDomains(rules) ==>
                headers.None? && requestMap == old(requestMap)
      ensures IsWebUrl(d.url) && AllRulesHaveDomains(rules) ==>
                headers == Some(ApplyRules(d.requestHeaders, rules, d.hostname, RequestSide))
                && requestMap == old(requestMap)[d.id := InfoOf(headers.value)]
      ensures old(requestMap).Keys <= requestMap.Keys
    {
      if !IsWebUrl(d.url) {
        return Some(d.requestHeaders);
      }
      headers := ApplyRulesInPlace(d.requestHeaders, rules, d.hostname, RequestSide);
      if headers.None? {
        return;
      }
      var h := headers.value;
      requestMap := requestMap[d.id := RequestInfo(Get(h, "Origin"),
                                                   Get(h, "Access-Control-Request-Method"),
                                                   Get(h, "Access-Control-Request-Headers"))];
    }

    /**
     * `onHeadersReceived`: strips, applies the response rules, forces the
     * OPTIONS status line and writes the CORS headers last, so they win
     * over any rule that set the same name.
     */
    method OnHeadersReceived(d: ResponseDetails) returns (result: Option<ResponseResult>)
      ensures result == RewriteResponse(d, rules, Get(requestMap, d.id))
      ensures result.None? <==> IsWebUrl(d.url) && !AllRulesHaveDomains(rules)
      ensures !IsWebUrl(d.url) ==> result == Some(ResponseResult(d.responseHeaders, None))
      ensures IsWebUrl(d.url) && result.Some? ==>
                var r := result.value;
                && r.statusLine == Some(if d.httpMethod == "OPTIONS" then ForcedStatusLine else d.statusLine)
                && r.responseHeaders[AllowCredentials] == "true"
                && r.responseHeaders[AllowOrigin]
                   == (if d.id in requestMap then OrElse(requestMap[d.id].origin, "*") else "*")
                && r.responseHeaders[AllowMethods]
                   == (if d.id in requestMap then OrElse(requestMap[d.id].requestMethod, "*") else "*")
                && r.responseHeaders[AllowHeaders]
                   == (if d.id in requestMap then OrElse(requestMap[d.id].requestHeaders, "*") else "*")
    {
      if !IsWebUrl(d.url) {
        return Some(ResponseResult(d.responseHeaders, None));
      }
      var statusLine := d.statusLine;
      var ruled := ApplyRulesInPlace(StripHeaders(d.responseHeaders, StrippedResponseHeaders),
                                     rules, d.hostname, ResponseSide);
      if ruled.None? {
        return None;
      }
      var headers := ruled.value;
      if d.httpMethod == "OPTIONS" {
        statusLine := ForcedStatusLine;
      }
      var request := Get(requestMap, d.id);
      headers := headers[AllowCredentials := "true"];
      headers := headers[AllowHeaders := OrElse(RecordedHeaders(request), "*")];
      headers := headers[AllowOrigin := OrElse(RecordedOrigin(request), "*")];
      headers := headers[AllowMethods := OrElse(RecordedMethod(request), "*")];
      result := Some(ResponseResult(headers, Some(statusLine)));
    }
  }
}
