# Purrfect Whiskers: the session, header and list rules

Purrfect Whiskers is an Electron desktop app. It runs many isolated browser
sessions side by side, one per account, and each session has its own storage
partition. This project models the rule sets underneath the UI and proves
properties of them:

- **Header rewriting and CORS synthesis.**
  - The per-session interceptors of `registerWebRequest` apply declarative
    per-domain header rules and record each request's preflight metadata under
    its id.
  - On responses they strip a case-insensitive list of security headers,
    force `OPTIONS` responses to `HTTP/1.1 200` and rebuild the
    `Access-Control-Allow-*` headers from the recorded request.
  - `WebRequest.Interceptor` is the current variant;
    `MainWindow.AccountInterceptor` is the older one in `MainWindow`.
- **Set-Cookie relaxation.** The older window re-issues each cookie found
  under the lower-case `set-cookie` key as Secure with SameSite
  `no_restriction`, or evicts it when it has already expired. Max-Age wins
  over Expires, as in section 5.3 of RFC 6265. The upstream Set-Cookie
  header is stripped in any letter case, so cookies under another spelling
  of the key are dropped without being re-issued.
- **Proxy configuration.**
  - A per-session "last applied options" slot decides between three outcomes:
    apply a fixed-servers rule, do nothing (the options are unchanged), or
    clear.
  - The same slot decides whether a proxy-auth challenge is answered.
  - This slot is a field of `Profiles.Profile` and a map in
    `Handles.SessionHandles`.
  - Around it sit the lazy registries with create-once and
    delete-on-remove behaviour: `Handles.SessionHandles`, `MainApp.App`.
- **Session setup and teardown.**
  - Each one is an ordered sequence of host calls: `Profiles`, `Handles`,
    `MainApp`, `LegacyPartitions`.
  - The partition directory name is derived from the partition string.
  - The release file glob is turned into a regular expression.
- **The renderer's store and paging.**
  - Accounts and open partitions are kept in `AppStore`.
  - Launching a partition is `LaunchPartition`.
  - `Pages` holds the page arithmetic: items per page, page count, clamped
    current page, closing a page, and the visible webviews.
- **Tab lists.**
  - `BrowserTabs` is the in-app browser. It keeps a single-active invariant
    and a defined rule for which tab becomes active after a close.
  - `WebUI` is the browser top bar: a class over its signals whose listeners
    update the tab list, the active tab and the address.
- **Small helpers.**
  - Array chunking, name joining and case-insensitive search are in `Utils`.
  - The whisker-data projection and the webview message dispatch are in
    `WhiskerData`.

Calls into the host (setting a proxy, registering listeners, loading
extensions, clearing storage, deleting directories) are not performed. They are
appended to an effect log of `Host.HostCall` values, in the order the source
makes them. What the host answers is passed in as parameters:

- the loaded extensions;
- the preload-script ids;
- whether `setProxy` resolved;
- the parsed cookie;
- the current time in milliseconds.

JavaScript objects with open key sets (accounts, Chrome tabs) are
`Records.Record` maps. Object spread is right-biased map union.

Shared building blocks live in their own modules:

- `Wrappers`: `Option` and JavaScript truthiness.
- `Strings`: prefixes, ASCII lower-casing, substring search, `replaceAll`, decimal rendering.
- `Lists`: `filter`, `indexOf`.
- `Records`: plain objects and spread.
- `Division`: floor-division facts.
- `Host`: sessions, proxy options, extensions, the effect log, the partition path.

## Model

| member | source | states |
|---|---|---|
| WebRequest.ApplyRulesInPlace | src/main/libs/webRequest.js:22-35 | the nested rule loops, mutating the header object, end with exactly the headers the rule-by-rule specification gives when every rule lists its domains, and with nothing (the listener throws) as soon as a rule without `requestDomains` is reached |
| WebRequest.ApplyModificationsInPlace | src/main/libs/webRequest.js:26-33 | the loop over one rule's operations, assigning and deleting keys in place, ends with the headers the list specification gives |
| WebRequest.ApplyModifications | src/main/libs/webRequest.js:26-33 | one rule's operation list: a new key appears only when some `set` operation names it |
| WebRequest.ApplyModificationsAppend | src/main/libs/webRequest.js:26-33 | running two operation lists one after the other is running their concatenation |
| WebRequest.ApplyRules | src/main/libs/webRequest.js:22-35 | every rule whose domains include the host, in order: a new key appears only when a matching `set` names it |
| WebRequest.ApplyRulesIsMatchingModifications | src/main/libs/webRequest.js:22-35 | applying the rules is applying the operations of the matching rules, concatenated in rule order then list order |
| WebRequest.UntouchedHeaderKept | src/main/libs/webRequest.js:26-33 | a header that no operation sets or removes keeps its presence and its value |
| WebRequest.LastModificationWins | src/main/libs/webRequest.js:26-33 | the last set or remove of a header decides it: a set leaves that value, a remove leaves it absent |
| WebRequest.NoMatchingRuleNoChange | src/main/libs/webRequest.js:22-25 | a host that no rule lists gets its headers back unchanged |
| WebRequest.ResponseHeaderKeptIffNotStripped | src/main/libs/webRequest.js:61-91 | when every rule lists its domains the listener answers, and a non-CORS header that no rule touches survives iff it was upstream and its lower-cased name is not on the stripped list, with its value |
| WebRequest.PluralAllowHeadersSurvives | src/main/libs/webRequest.js:61-107 | because the list says `access-control-allow-header` (singular), an upstream `access-control-allow-headers` survives next to the synthesized one |
| WebRequest.PluralAllowHeadersNotListed | src/main/libs/webRequest.js:63-73 | the lower-cased plural name is not on the stripped list |
| WebRequest.MixedCaseSecurityHeaderStripped | src/main/libs/webRequest.js:61-75 | an upper-case `X-Frame-Options` is stripped too, because names are compared lower-cased |
| WebRequest.StripHeaders | src/main/libs/webRequest.js:61-75 | a header is kept iff its lower-cased name is not on the list, with its value |
| WebRequest.WithCorsHeaders | src/main/libs/webRequest.js:102-114 | the four CORS headers are present afterwards: Allow-Credentials is `true`, and Allow-Headers, Allow-Origin and Allow-Methods are the recorded value when truthy and `*` otherwise, so never empty; every other header keeps its presence and value |
| WebRequest.RewriteResponse | src/main/libs/webRequest.js:50-122 | a non-web URL gets its headers back with no status override; for a web URL there is no answer iff some rule lacks `requestDomains`, and otherwise a status line and Allow-Credentials `true` |
| WebRequest.RuleWithoutDomainsSilencesResponses | src/main/libs/webRequest.js:78-81 | one rule without `requestDomains` anywhere in the list leaves every web response unanswered, whatever its host |
| WebRequest.Interceptor.constructor | src/main/libs/webRequest.js:7-8 | each registration starts with its own empty request map |
| WebRequest.Interceptor.OnBeforeSendHeaders | src/main/libs/webRequest.js:11-47 | a non-web URL passes through and leaves no record; a rule without `requestDomains` throws before the callback and before any record; otherwise the request rules run and the id's record holds Origin and the two preflight headers as they stand after the rules; records are never deleted |
| WebRequest.Interceptor.OnHeadersReceived | src/main/libs/webRequest.js:50-122 | a non-web URL passes through with no status override; a rule without `requestDomains` leaves a web response unanswered; otherwise the status line is `HTTP/1.1 200` iff the method is OPTIONS, Allow-Credentials is `true`, and Allow-Origin, Allow-Methods and Allow-Headers are the recorded value when truthy and `*` otherwise (also when there is no record); they are written after the rules, so they win |
| Wrappers.OrElse | src/main/libs/webRequest.js:106-113 | JavaScript's `value or fallback`: the value when truthy, the fallback otherwise, never empty when the fallback is not |
| MainWindow.LoadAccounts | src/main/window.js:70-81 | only the first ten stored accounts are loaded, in order, each with the session of its own partition |
| MainWindow.GridCellsDistinct | src/main/window.js:286-288 | account i sits at column i % 5, row i / 5; every loaded account lands inside the 5 x 2 grid and no two share a cell |
| MainWindow.ConfigureProxy | src/main/window.js:105-112 | one `setProxy` on the account's session, with rule `host:port,direct://` (host text, port defaulting to 80) and bypass `<local>` |
| MainWindow.AccountWithoutProxyGetsNullRule | src/main/window.js:105-112 | an account saved without host and port still gets a proxy, with the rule `null:80,direct://` |
| MainWindow.LoadViewCalls | src/main/window.js:251-274 | per account the host sees the proxy, the two interceptors, then the extension load, in that order |
| MainWindow.FindAccountBySession | src/main/window.js:93-95 | the index of the first account on the requesting session, or none when no account uses it |
| MainWindow.LoginReply | src/main/window.js:91-102 | a challenge is answered iff it is a proxy challenge and some account uses the requesting session |
| MainWindow.LoginReplyUsesFirstMatch | src/main/window.js:93-99 | the reply carries the credentials of the first account on that session |
| MainWindow.RewriteRequestHeaders | src/main/window.js:135-140 | Origin becomes the URL's origin and Referer that origin plus `/`; every other header is kept |
| MainWindow.SetCookieNeverForwarded | src/main/window.js:157-172 | no upstream Set-Cookie header survives, in any letter case |
| MainWindow.RewriteResponseHeaders | src/main/window.js:156-196 | every header in the result is one of the four CORS headers or an upstream header whose lower-cased name is off the list; the four CORS headers are always present, Allow-Credentials `true` and the other three the recorded value when truthy, `*` otherwise |
| MainWindow.CapitalisedSetCookieLost | src/main/window.js:157-199 | cookies delivered only under `Set-Cookie` are stripped and not re-issued, because the loop reads the lower-case key only |
| MainWindow.OtherResponseHeaderKept | src/main/window.js:157-196 | every header off the list, other than the four CORS headers, is kept with its value |
| MainWindow.ExpirationDate | src/main/window.js:219-226 | floor(now/1000) + Max-Age when Max-Age is given; otherwise floor(Expires/1000) when Expires parsed; otherwise no expiry |
| MainWindow.IsExpired | src/main/window.js:229-232 | a non-zero expiry before the current whole second counts as expired, and an expired cookie's expiry is at most the current whole second |
| MainWindow.CookieCallFor | src/main/window.js:228-240 | the cookie is removed by (url, name) iff its expiry is non-zero and before now/1000; otherwise the relaxed cookie is set |
| MainWindow.SetCookieIsRelaxed | src/main/window.js:208-217 | every cookie set is Secure with SameSite `no_restriction` and copies url, name, value, domain, path and httpOnly from the parse |
| MainWindow.SessionCookieIsSet | src/main/window.js:219-240 | a cookie with neither Max-Age nor Expires is set with no expiry |
| MainWindow.MaxAgeZeroEvictedIffMillisecondsNonZero | src/main/window.js:219-232 | `Max-Age=0` evicts only when now is not a whole second, because the expiry is floored and the comparison is not |
| MainWindow.NegativeMaxAgeEvicted | src/main/window.js:219-236 | a negative Max-Age evicts, unless the computed expiry happens to be 0 |
| MainWindow.PositiveMaxAgeSet | src/main/window.js:219-239 | a positive Max-Age never evicts |
| MainWindow.RelaxCookies | src/main/window.js:199-241 | the loop over the `set-cookie` lines makes one cookie-store call per line, in order |
| MainWindow.AccountInterceptor.constructor | src/main/window.js:114-115 | each account's interceptor starts with an empty request map and no cookie calls |
| MainWindow.AccountInterceptor.OnBeforeSendHeaders | src/main/window.js:117-144 | only http and https are rewritten; the record keeps the original Origin and preflight headers, taken before Origin is overwritten |
| MainWindow.AccountInterceptor.OnHeadersReceived | src/main/window.js:146-248 | only http and https are rewritten; the ten names are stripped, OPTIONS is forced to 200, the CORS headers are written, and the cookie calls of the lines under the lower-case `set-cookie` key are appended |
| Host.PortOr80 | src/main/libs/handles.js:143 | the port when truthy, else 80: a missing, null or numeric-zero port becomes 80; any other port is kept as written, the string `"0"` included |
| Host.HostText | src/main/libs/handles.js:143 | a template literal writes a null host as `null` and a string host as itself |
| Host.ProxyRules | src/main/libs/handles.js:143 | the rule string starts with the host text and `:`, and ends with `,direct://` |
| Host.ParseProxyRules | src/main/Profile.js:93 | a successful parse splits the rule string into a colon-free host, the port text and the `,direct://` suffix, which concatenate back to it |
| Host.ProxyRulesRoundTrip | src/main/Profile.js:93 | for a host text without `:` the rule string reads back as that text (`null` for a null host) and the effective port, and a non-zero numeric port reads back as its number |
| Host.FindExtension | src/main/Profile.js:212-214 | the first loaded extension whose path matches, and none iff no path matches |
| Host.ExtensionLookup | src/main/Profile.js:206-226 | nothing without a truthy path; a loaded extension at that path when there is one; otherwise what `loadExtension` produced |
| Host.StripPersist | src/main/libs/handles.js:220 | a leading `persist:` is removed, any other partition is kept as it is |
| Host.StripPersistOfPersistent | src/main/libs/handles.js:220 | the partition `persist:<id>` has directory name `<id>` |
| Host.StripPersistOnce | src/main/libs/handles.js:220 | only the first `persist:` is removed |
| Host.PartitionPath | src/main/libs/handles.js:217-221 | the partition directory lies under `userData/Partitions/` |
| Host.PartitionPathInjective | src/main/libs/handles.js:217-221 | two persistent partitions never share a directory |
| Host.FromPartitionInjective | src/main/libs/handles.js:121-126 | distinct partitions never share a session |
| Profiles.ProxyOptionsAfter | src/main/Profile.js:85-111 | the apply branch stores the options before awaiting `setProxy`, so a rejection still leaves them stored; the clear branch empties the slot only after the clearing call resolved |
| Profiles.ShouldApplyProxy | src/main/Profile.js:87 | options apply only with a present, non-empty host, so the rule string a profile installs names that host |
| Profiles.ConfigureProxyCalls | src/main/Profile.js:85-118 | every call acts on the profile's session and none attaches a listener |
| Profiles.DestroyCalls | src/main/Profile.js:34-55 | every call acts on the profile's session and none attaches a listener |
| Profiles.ListenerCalls | src/main/Profile.js:194-203 | both listeners are attached, and only to the profile's session |
| Profiles.ConfigureProxyCallsShape | src/main/Profile.js:85-118 | `setProxy` runs iff the options clear, or apply and differ from the stored ones; connections are closed and the interceptors registered after every call, whatever the branch |
| Profiles.RepeatedOptionsSkipSetProxy | src/main/Profile.js:87-101 | configuring again with the same applying options makes no `setProxy` call |
| Profiles.ProxyLoginReply | src/main/Profile.js:128-139 | a challenge is answered iff it is for this profile's session, it is a proxy challenge and options are stored; the answer is the stored credentials |
| Profiles.LoginFollowsConfigure | src/main/Profile.js:85-139 | after applying options the challenge is answered with their credentials (even when `setProxy` rejected); after a successful clear it is not answered; after a failed clear the previous answer stands |
| Profiles.DestroyCallsCover | src/main/Profile.js:34-55 | destroy removes both listeners, unregisters every preload script, removes every extension, then clears the proxy and closes connections, and adds no listener |
| Profiles.InitializeKeepsLogInvariant | src/main/Profile.js:58-64 | after initialize the listeners are attached exactly once |
| Profiles.InitializeTwiceAttachesOnce | src/main/Profile.js:58-64 | from any state where each listener is attached at most once, initializing and then initializing again adds nothing the second time, and leaves each listener attached exactly once |
| Profiles.ConfigureProxyKeepsLogInvariant | src/main/Profile.js:85-118 | configuring the proxy attaches no listener and acts only on the profile's session |
| Profiles.GetExtensionKeepsLogInvariant | src/main/Profile.js:206-228 | looking up the extension attaches no listener and acts only on the profile's session |
| Profiles.DestroyKeepsLogInvariant | src/main/Profile.js:34-55 | destroy attaches no listener and acts only on the profile's session |
| Profiles.Profile.constructor | src/main/Profile.js:25-31 | a new profile holds its partition's session, is not configured and has no options stored |
| Profiles.Profile.Initialize | src/main/Profile.js:58-64 | configure runs on the first call only; later calls add no host call |
| Profiles.Profile.Configure | src/main/Profile.js:194-203 | attaches the login and web-contents listeners |
| Profiles.Profile.ConfigureProxy | src/main/Profile.js:85-118 | the slot becomes what the slot rule gives, and the host sees the calls the branch rule gives |
| Profiles.Profile.LoginReply | src/main/Profile.js:128-139 | answers only challenges on its own session, following the slot rule |
| Profiles.Profile.GetExtension | src/main/Profile.js:206-228 | returns the find-or-load result, loads only when nothing matches, and always returns the preload URL |
| Profiles.Profile.Destroy | src/main/Profile.js:34-55 | appends the destroy calls in source order: both unregister loops, then the proxy clear |
| Handles.CredentialsAfter | src/main/libs/handles.js:134-157 | only `proxyEnabled` is consulted; enabled options are stored before `setProxy`, and a disable deletes them only after the clear resolved |
| Handles.ProxyCallsOnlyOnChange | src/main/libs/handles.js:134-157 | at most one `setProxy`, and none iff the options are enabled and equal to the stored ones; configuring the same enabled options again makes no call |
| Handles.ProxyCalls | src/main/libs/handles.js:134-157 | at most one call, and it is a `setProxy` on the given session |
| Handles.NullHostStillApplied | src/main/libs/handles.js:134-149 | unlike the profile, enabled options with a null host and no port still install the rule `null:80,direct://` |
| Handles.CredentialsReply | src/main/libs/handles.js:24-35 | a challenge is answered iff it is a proxy challenge and the session has stored credentials, and the answer is those credentials |
| Handles.ReplyFollowsConfigure | src/main/libs/handles.js:129-161 | after enabling, the session's challenge is answered with the new credentials; after a successful disable it is not answered; other sessions are unaffected |
| Handles.InterceptorsOnlyForNewPartition | src/main/libs/handles.js:164-182 | setup registers the two interceptors iff the partition was not yet in the session map |
| Handles.SetupSessionCalls | src/main/libs/handles.js:164-203 | every call of the setup acts on the partition's session |
| Wrappers.Get | src/main/libs/handles.js:136-137 | `Map.get`: present iff the key is in the map, with its value |
| Handles.Put | src/main/libs/handles.js:140-156 | `Map.set` for a value, `Map.delete` for none |
| Handles.SessionHandles.constructor | src/main/libs/handles.js:17-21 | both maps start empty |
| Handles.SessionHandles.GetSession | src/main/libs/handles.js:121-126 | created on the first request for a partition, the same session on every later one |
| Handles.SessionHandles.ConfigureProxy | src/main/libs/handles.js:129-161 | registers the session, and updates the credentials map and the host calls by the rules above |
| Handles.SessionHandles.LoginReply | src/main/libs/handles.js:24-35 | the listener's reply is the credentials rule over the current map |
| Handles.SessionHandles.SetupSession | src/main/libs/handles.js:164-203 | proxy when options are given, interceptors only for a new partition, then find-or-load of the extension, in that order; returns the preload URL |
| Handles.SessionHandles.FindOrLoadExtension | src/main/libs/handles.js:184-200 | loads only when the path is truthy and no loaded extension has it |
| Handles.SessionHandles.RemoveSession | src/main/libs/handles.js:206-225 | both map entries go and the directory `userData/Partitions/<partition without persist:>` is removed |
| MainApp.FilePatternCons | src/main/App.js:218-223 | the two `replaceAll`s act character by character: `*` becomes `\d+`, `.` becomes `\.` |
| MainApp.FilePattern | src/main/App.js:218-223 | no `*` is left in the expression, and every other glob character still occurs in it |
| MainApp.ReplaceAllAppend | src/main/App.js:218-223 | `replaceAll` distributes over concatenation |
| MainApp.FilePatternReadsAsGlob | src/main/App.js:218-223 | for a glob without backslashes the built expression reads back as the glob meant: every `*` a digit run, every `.` a literal dot, no wildcard dot left |
| MainApp.GlobTokens | src/main/App.js:218-223 | the reference reading of a glob, one token per character: `*` a digit run, `.` a literal dot, anything else itself |
| MainApp.App.constructor | src/main/App.js:32 | the profile map starts empty |
| MainApp.App.GetProfile | src/main/App.js:266-273 | a fresh, unconfigured profile on the first request for a partition, the same object afterwards; other entries unchanged |
| MainApp.App.SetupSession | src/main/App.js:276-289 | initializes the profile (listeners once), configures the proxy only when options are given, and returns the find-or-load result; other profiles unchanged |
| MainApp.App.ConfigureProxy | src/main/App.js:292-300 | always initializes the profile before delegating to its proxy rule |
| MainApp.App.RemoveSession | src/main/App.js:319-338 | destroys and forgets the profile only when there is one; always clears the cache, then the storage, then removes the storage path |
| LegacyPartitions.FilterResponseHeaders | src/main/libs/partitions.js:182-198 | a header is kept iff its lower-cased name is not one of the five security headers, with its value |
| LegacyPartitions.MixedCaseFrameOptionsDropped | src/main/libs/partitions.js:185-195 | `X-Frame-Options` is dropped whatever its case |
| LegacyPartitions.NewerFilterStripsMore | src/main/libs/partitions.js:187-193 | the newer interceptors strip every name this filter strips |
| LegacyPartitions.CorsHeadersKept | src/main/libs/partitions.js:185-195 | a header whose lower-cased name starts with `access-control-` passes this filter with its value, whatever its letter case |
| LegacyPartitions.SetupSession | src/main/libs/partitions.js:167-208 | unregisters every preload, registers the one preload, installs the filter, and loads the extension iff the path is truthy (otherwise returns nothing) |
| LegacyPartitions.SetupSessionCalls | src/main/libs/partitions.js:167-208 | one unregister per existing preload, one register, the filter, and the extension load only for a truthy path; all on the partition's session |
| LegacyPartitions.PreloadResetOrder | src/main/libs/partitions.js:170-179 | every existing preload is unregistered before the single new one is registered |
| LegacyPartitions.RemoveSession | src/main/libs/partitions.js:211-224 | detaches the listener and clears storage before deleting the partition directory |
| AppStore.SetPage | src/renderer/src/store/useAppStore.js:15 | sets the page and leaves accounts and partitions alone |
| AppStore.AddAccount | src/renderer/src/store/useAppStore.js:17 | the data becomes the last account and the earlier ones are unchanged |
| AppStore.SetAccounts | src/renderer/src/store/useAppStore.js:18 | replaces the accounts only |
| AppStore.UpdateAccount | src/renderer/src/store/useAppStore.js:19-24 | the data is merged into every account with the same partition; the others, the length and the order are unchanged |
| AppStore.UpdateAccountKeepsPartitions | src/renderer/src/store/useAppStore.js:19-24 | no account changes partition under an update |
| AppStore.UpdateAccountIdempotent | src/renderer/src/store/useAppStore.js:19-24 | applying the same update twice is applying it once |
| AppStore.RemoveAccount | src/renderer/src/store/useAppStore.js:25-30 | an account survives iff it is not of that partition |
| AppStore.RemoveUndoesAdd | src/renderer/src/store/useAppStore.js:17-30 | adding an account and removing its partition equals only removing the partition |
| AppStore.RemoveAccountKeepsOrder | src/renderer/src/store/useAppStore.js:25-30 | removal keeps the relative order of the rest |
| AppStore.SetPartitions | src/renderer/src/store/useAppStore.js:32 | replaces the partitions only |
| AppStore.AddPartition | src/renderer/src/store/useAppStore.js:33-37 | appends the id and sets the page |
| AppStore.AddPartitionCanDuplicate | src/renderer/src/store/useAppStore.js:33-37 | there is no duplicate check: adding an open id duplicates it |
| AppStore.ClosePartition | src/renderer/src/store/useAppStore.js:38-42 | an id survives iff it is not the closed one; the closed id has no occurrence left and every other id keeps its number of occurrences; page and accounts are unchanged |
| AppStore.ClosePartitionKeepsOrder | src/renderer/src/store/useAppStore.js:38-42 | closing keeps the relative order of what stays, duplicates included |
| AppStore.ClosePartitionRemovesSlot | src/renderer/src/store/useAppStore.js:38-42 | on a duplicate-free list closing removes exactly the id's slot and keeps the order |
| AppStore.CloseAbsentPartition | src/renderer/src/store/useAppStore.js:38-42 | closing an id that is not open changes nothing |
| Pages.ItemsPerPage | src/renderer/src/App.jsx:28 | with at least one column and one row a page holds at least a full row and a full column |
| Pages.PageCount | src/renderer/src/App.jsx:29 | there are no pages exactly when there are no partitions |
| Pages.PageCountIsCeiling | src/renderer/src/App.jsx:29 | the page count is the ceiling: enough pages for every item, and not one more |
| Pages.IndexOnCountedPage | src/renderer/src/App.jsx:29 | every index lies on one of the counted pages |
| Pages.CurrentPage | src/renderer/src/App.jsx:30 | the page clamped into [0, pageCount - 1], or 0 when there are no pages; an in-range page is kept |
| Pages.ClosePage | src/renderer/src/App.jsx:39-48 | closing never adds a partition |
| Pages.ClosePageRemovesBlock | src/renderer/src/App.jsx:39-48 | closing page q removes exactly indices q*perPage up to (q+1)*perPage and keeps the rest in order |
| Pages.CloseBlock | src/renderer/src/App.jsx:39-48 | for any page whose indices are exactly [a, a + perPage), closing it removes that block and keeps the rest in order |
| Pages.CloseNegativePage | src/renderer/src/App.jsx:39-48 | a negative page closes nothing |
| Pages.Webviews | src/renderer/src/App.jsx:33-36 | an account is shown iff its partition is open |
| Pages.WebviewsKeepAccountOrder | src/renderer/src/App.jsx:33-36 | webviews follow the order of the accounts, not of the partitions |
| Pages.ClosedPartitionHasNoWebview | src/renderer/src/App.jsx:33-36 | closing a partition removes its webviews |
| LaunchPartition.Launch | src/renderer/src/hooks/useLaunchPartition.js:18-21 | an open id only moves to floor(indexOf(id) / perPage); a new id is appended and the page becomes floor(oldLength / perPage) |
| LaunchPartition.IndexOfAppended | src/renderer/src/hooks/useLaunchPartition.js:20-21 | an id appended to a list without it sits at the old length |
| LaunchPartition.LaunchShowsPartition | src/renderer/src/hooks/useLaunchPartition.js:18-21 | afterwards the id is open and the page holds its first occurrence |
| LaunchPartition.LaunchedPageIsShown | src/renderer/src/hooks/useLaunchPartition.js:18-21 | the page is within the page count, so the clamped current page is that page |
| LaunchPartition.LaunchKeepsNoDuplicates | src/renderer/src/hooks/useLaunchPartition.js:18-21 | launching never duplicates an open id |
| LaunchPartition.LaunchIdempotent | src/renderer/src/hooks/useLaunchPartition.js:18-21 | launching the same id twice is launching it once |
| Utils.ChunkArray | src/renderer/src/lib/utils.js:11-15 | the chunks laid end to end are the input; all but the last have the chunk size; the last has between 1 and size items; there are ceil(len / size) of them |
| Utils.TruthyParts | src/renderer/src/lib/utils.js:19 | `filter(Boolean)`: a string is kept iff it is a present, non-empty part, and nothing is added |
| Utils.TruthyPartsAppend | src/renderer/src/lib/utils.js:19 | the kept parts keep their order: filtering a concatenation filters each side |
| Utils.Join | src/renderer/src/lib/utils.js:19 | `join`: the first part comes first, followed by the separator when another part follows |
| Utils.FullName | src/renderer/src/lib/utils.js:18-20 | first and last name joined by one space, with an empty or missing part dropped |
| Utils.SearchIncludes | src/renderer/src/lib/utils.js:23-25 | true iff the lower-cased search occurs somewhere in the lower-cased value |
| Utils.SearchIgnoresCase | src/renderer/src/lib/utils.js:23-25 | lower-casing either side does not change the answer |
| Utils.SearchMatchesSelfAndEmpty | src/renderer/src/lib/utils.js:23-25 | every value matches itself and the empty search |
| WhiskerData.GetWhiskerData | src/renderer/src/lib/partitions.js:16-46 | `account` holds only title and partition; `sharedSettings` holds allowProxies from the settings and the five proxy fields from the account; `settings` holds only theme |
| WhiskerData.WhiskerDataOmitsOtherFields | src/renderer/src/lib/partitions.js:29-44 | no other account field or setting reaches the webview |
| WhiskerData.Reply | src/renderer/src/lib/partitions.js:53-55 | a reply always goes out on `host-message` with the given data |
| WhiskerData.Lookup | src/renderer/src/lib/partitions.js:61 | `handlers[action]`: the own entry, else the inherited `Object.prototype` function of that name, else nothing callable |
| WhiskerData.Dispatch | src/renderer/src/lib/partitions.js:57-65 | a handler is called iff the channel is `webview-message` and `handlers[action]`, own or inherited from `Object.prototype`, is a function; it gets the message data |
| WhiskerData.OnlyWebviewMessagesDispatch | src/renderer/src/lib/partitions.js:57-65 | messages on other channels, and actions that are neither an own entry nor an inherited function, reach no handler |
| WhiskerData.InheritedNameDispatches | src/renderer/src/lib/partitions.js:57-65 | a `webview-message` for an inherited name such as `toString` that the table does not define calls the inherited function |
| BrowserTabs.Initial | src/renderer/src/hooks/useBrowser.js:6-16 | the panel starts hidden and disabled with one active "New Tab" |
| BrowserTabs.Toggle | src/renderer/src/hooks/useBrowser.js:19-22 | the panel is enabled from then on and its visibility flips |
| BrowserTabs.ToggleTwice | src/renderer/src/hooks/useBrowser.js:19-22 | toggling twice restores the visibility and leaves the panel enabled |
| BrowserTabs.SetActiveTab | src/renderer/src/hooks/useBrowser.js:25-32 | a tab is active iff it has the id; length, order and the other fields are unchanged |
| BrowserTabs.SetActiveTabSingleActive | src/renderer/src/hooks/useBrowser.js:25-32 | with unique ids, activating a present tab leaves exactly that tab active |
| BrowserTabs.SetActiveTabAbsent | src/renderer/src/hooks/useBrowser.js:25-32 | activating an absent id leaves no tab active |
| BrowserTabs.AddTab | src/renderer/src/hooks/useBrowser.js:35-50 | one more tab, the new one last and the only active one, the others otherwise unchanged; the panel is enabled and shown |
| BrowserTabs.FindIndex | src/renderer/src/hooks/useBrowser.js:57 | the first index with that id, or -1 when there is none |
| BrowserTabs.CloseTab | src/renderer/src/hooks/useBrowser.js:53-76 | an absent id changes nothing; otherwise the tabs with that id go, and when the first match was active the tab at max(index - 1, 0) of the result becomes the only active one, else the flags are kept |
| BrowserTabs.CloseTabRemovesSlot | src/renderer/src/hooks/useBrowser.js:57-62 | with unique ids, closing removes exactly that tab's slot |
| BrowserTabs.CloseActiveTabActivatesNeighbour | src/renderer/src/hooks/useBrowser.js:59-68 | closing the active tab activates its left neighbour, or the new first tab when it was first |
| BrowserTabs.CloseInactiveTabKeepsActive | src/renderer/src/hooks/useBrowser.js:59-68 | closing an inactive tab keeps the same tab active |
| BrowserTabs.CloseTabKeepsOneActive | src/renderer/src/hooks/useBrowser.js:53-76 | with unique ids, exactly one active tab stays exactly one, unless the only tab is closed |
| BrowserTabs.CloseLastTab | src/renderer/src/hooks/useBrowser.js:53-76 | closing the only tab leaves no tabs |
| BrowserTabs.UpdateTitle | src/renderer/src/hooks/useBrowser.js:79-86 | only the title of the tabs with that id changes |
| BrowserTabs.FirstIcon | src/renderer/src/hooks/useBrowser.js:93 | `icons[0]`, undefined for an empty list |
| BrowserTabs.UpdateIcon | src/renderer/src/hooks/useBrowser.js:89-98 | only the icon of the tabs with that id changes, to the first icon |
| BrowserTabs.UpdatesKeepActiveTab | src/renderer/src/hooks/useBrowser.js:79-98 | title and icon updates keep the active tab and the unique ids |
| WebUI.MarkActive | src/browser/src/WebUI.jsx:26-38 | every tab is kept and marked active iff its id is the given one |
| WebUI.MarkActiveSingle | src/browser/src/WebUI.jsx:26-38 | with unique ids exactly the chosen tab is active |
| WebUI.AppendIfInWindow | src/browser/src/WebUI.jsx:45-48 | a created tab is appended iff it opened in the current window |
| WebUI.MergeUpdate | src/browser/src/WebUI.jsx:58-65 | the update is merged into the tabs with that id only |
| WebUI.MergeUpdateIdempotent | src/browser/src/WebUI.jsx:58-65 | delivering the same update twice is delivering it once |
| WebUI.RemoveTab | src/browser/src/WebUI.jsx:67-69 | a tab survives iff its id is not the removed one |
| WebUI.RemoveTabKeepsOrder | src/browser/src/WebUI.jsx:67-69 | removal keeps the relative order of the rest |
| WebUI.RemoveUndoesCreate | src/browser/src/WebUI.jsx:45-69 | removing a created tab undoes its creation |
| WebUI.FindActive | src/browser/src/WebUI.jsx:9-18 | finds a tab iff some tab is active, and then the first active one |
| WebUI.MinimizeTarget | src/browser/src/WebUI.jsx:84-89 | back to normal iff minimized, otherwise minimized |
| WebUI.MaximizeTarget | src/browser/src/WebUI.jsx:91-96 | back to normal iff maximized, otherwise maximized |
| WebUI.WindowButtonsToggle | src/browser/src/WebUI.jsx:84-96 | each button toggles between normal and its own state; from the other states two presses end at normal |
| WebUI.TopBar.constructor | src/browser/src/WebUI.jsx:4-7 | no window, no active tab, no tabs, an empty address |
| WebUI.TopBar.SetActiveTab | src/browser/src/WebUI.jsx:26-38 | the tab's id, window and URL become current and only it is marked active |
| WebUI.TopBar.Mount | src/browser/src/WebUI.jsx:9-18 | takes the window's tabs; with an active tab, the first one becomes current (id, window and address) and the only one marked active; without one, nothing else changes |
| WebUI.TopBar.OnCreated | src/browser/src/WebUI.jsx:45-48 | appends the tab iff it opened in the current window |
| WebUI.TopBar.OnActivated | src/browser/src/WebUI.jsx:50-56 | a tab activated in another window changes nothing; otherwise its id, window and address become current and only it is marked active |
| WebUI.TopBar.OnUpdated | src/browser/src/WebUI.jsx:58-65 | merges the update, and the address follows only the active tab |
| WebUI.TopBar.OnRemoved | src/browser/src/WebUI.jsx:67-69 | filters out the removed id |

## Left out

- Host I/O and its failures are not modelled. Electron's session, extension, preload, cookie and proxy APIs, and the file system, appear only as entries in an effect log. Their answers are parameters.
- Async interleaving is not modelled. All calls run sequentially, in source order. The only once-only guard in the code is `initialize`'s memoized promise, modelled as the `ready` flag.
- The `destroy` preload loop does not await its promises. The model records the calls in source order.
- A rejection of `closeAllConnections` in `configureProxy` is not modelled: it is awaited outside the `try`.
- `Profile`'s `setupPreload`, `registerPreload` and `handleWebContentsCreated` are not modelled. They are preload and webview wiring whose outcome lies wholly in the host.
- `resizeBounds` pixel layout is not modelled: it is floating-point division. Only the column/row indexing is.
- `Date.now()` is read twice in the cookie code. The model uses a single `now` for both reads.
- `deep-equal` and `fast-deep-equal` are taken as structural equality of the options record.
- `path.resolve` is taken as string equality, and `path.join` as concatenation with `/`.
- `toLowerCase` is modelled on ASCII letters only.
- MainApp.FilePatternReadsAsGlob: covers only globs without backslashes, and only the constructs `\d+`, `\.`, `.` and literals. Other regular-expression metacharacters in the configured glob are not modelled.
- Utils.SearchIncludes: takes the value as a string. `toString` of numbers and other values is not modelled.
- Undefined fields of plain objects are modelled as absent keys. An explicit `undefined` value cannot be told apart from a missing key.
- `registerWebviewMessage`'s listener registration and the handler bodies are not modelled. Only the dispatch rule and the reply channel are.
- The extension-update check (`updateExtension`, `getExtensionVersion`) is not modelled. It is network and file access with a semver comparison. Only its file-pattern transform is modelled.
- Electron delivers response header values as `string[]`. The model takes one string per header, and the parsed `set-cookie` lines are an input beside the headers.
- `${undefined}` renders as `undefined`, not `null`. The model has one "missing" state for the proxy host, rendered as a stored `null`.
- An absent `condition` or `action` object on a rule is not modelled. Either one makes the rule loop throw, like an absent `requestDomains` list, which is modelled. An absent header list inside `action` is modelled as empty.
- MainApp.App.RemoveSession: the profile's destroy calls go to the profile's own log and the cache and storage calls to the app's log, so the order between the two groups is not captured.
- The interceptors that `handles.js` registers are taken to be the `onBeforeSendHeaders`/`onHeadersReceived` pair. `webRequest.js` does not export functions under those names.
- Pages.ItemsPerPage: requires at least one column and one row. The settings inputs enforce a minimum of 1. With 0, the page count becomes `Infinity` (or `NaN` when there are no partitions), and with partitions present `Array.from({ length: pageCount })` throws a `RangeError`.
- MainWindow.ExpirationDate: a non-numeric Max-Age or an unparseable Expires is not modelled. The parser yields `NaN` or an invalid `Date`, the computed expiry is `NaN`, and since `NaN` is falsy the cookie is set with that expiry, not evicted. The model has no value for these cases.
- Utils.ChunkArray: requires a chunk size of at least 1. With 0 or less the generator never terminates; its only caller passes 2.
- The window and tab glue of the `shell` browser, the mirror server, the Spider client, backups and the other UI components are outside this model.
