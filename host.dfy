/**
 * The Electron host as the main process sees it: sessions keyed by
 * partition, the proxy options the renderer sends, loaded extensions, and
 * the host calls (proxy, connections, preload scripts, extensions,
 * storage, file system) recorded as an effect log instead of performed.
 */
module Host {
  import opened Wrappers
  import opened Strings

  /**
   * An isolated session. `session.fromPartition(p)` returns the same
   * session object for the same partition string within one process, so a
   * session is identified by its partition.
   */
  datatype Session = Session(partition: string)

  /** `session.fromPartition(partition)`. */
  function FromPartition(partition: string): (s: Session)
    ensures s.partition == partition
  {
    Session(partition)
  }

  /** Distinct partitions never share a session. */
  lemma FromPartitionInjective(p: string, q: string)
    ensures FromPartition(p) == FromPartition(q) <==> p == q
  {
  }

  /**
   * A proxy port as an account holds it: the account form stores the text
   * of its field, and older callers pass a number.
   */
  datatype PortValue = PortText(text: string) | PortNumber(number: nat)

  /**
   * The proxy options object sent by the renderer. `allowProxies` is
   * absent from some callers, hence optional; the account form stores an
   * empty host or port as `null`; user name and password may be absent.
   */
  datatype ProxyOptions = ProxyOptions(
    allowProxies: Option<bool>,
    proxyEnabled: bool,
    proxyHost: Option<string>,
    proxyPort: Option<PortValue>,
    proxyUsername: Option<string>,
    proxyPassword: Option<string>)

  /** The (user name, password) pair handed to a proxy-auth callback. */
  datatype Credentials = Credentials(username: Option<string>, password: Option<string>)

  function CredentialsOf(o: ProxyOptions): Credentials {
    Credentials(o.proxyUsername, o.proxyPassword)
  }

  /** JavaScript truthiness of a port: a non-empty string or a non-zero number. */
  predicate PortTruthy(port: Option<PortValue>) {
    match port
    case None => false
    case Some(PortText(t)) => t != ""
    case Some(PortNumber(n)) => n != 0
  }

  /** A port value inside a template literal. */
  function PortString(v: PortValue): string {
    match v
    case PortText(t) => t
    case PortNumber(n) => NatToString(n)
  }

  /**
   * `${options.proxyPort || 80}`: null, the empty string and the number 0
   * fall back to 80; any other port is written as it is held, so the
   * string "0", being truthy, is kept.
   */
  function PortOr80(port: Option<PortValue>): (r: string)
    ensures r != ""
    ensures PortTruthy(port) ==> r == PortString(port.value)
    ensures !PortTruthy(port) ==> r == "80"
    ensures port == Some(PortText("0")) ==> r == "0"
    ensures port == Some(PortNumber(0)) ==> r == "80"
  {
    if PortTruthy(port) then PortString(port.value) else "80"
  }

  /** `${options.proxyHost}`: a null host is written as the word `null`. */
  function HostText(host: Option<string>): (r: string)
    ensures host.Some? ==> r == host.value
    ensures host.None? ==> r == "null"
  {
    if host.Some? then host.value else "null"
  }

  /** `,direct://`, the fallback entry every proxy rule string ends with. */
  const DirectSuffix: string := ",direct://"

  /**
   * The proxy rule string `${host}:${port || 80},direct://`: it names the
   * host's text first and always ends with the direct fallback.
   */
  function ProxyRules(host: Option<string>, port: Option<PortValue>): (r: string)
    ensures HasPrefix(r, HostText(host) + ":")
    ensures |r| >= |DirectSuffix| && r[|r| - |DirectSuffix|..] == DirectSuffix
  {
    var r := HostText(host) + ":" + PortOr80(port) + DirectSuffix;
    assert r[..|HostText(host) + ":"|] == HostText(host) + ":";
    r
  }

  /**
   * Reads a proxy rule string back into its host and port text: the host
   * is everything before the first `:`, the port what lies between it and
   * the trailing `,direct://`.
   */
  function ParseProxyRules(rules: string): (r: Option<(string, string)>)
    ensures r.Some? ==> ':' !in r.value.0 && rules == r.value.0 + ":" + r.value.1 + DirectSuffix
  {
    var i := IndexOfChar(rules, ':');
    if i < |rules| && |rules| - (i + 1) >= |DirectSuffix|
       && rules[|rules| - |DirectSuffix|..] == DirectSuffix then
      Some((rules[..i], rules[i + 1..|rules| - |DirectSuffix|]))
    else None
  }

  /**
   * The rule string is unambiguous: for a host without `:` it reads back
   * as the host's text and the effective port, and a numeric port reads
   * back as its number.
   */
  lemma ProxyRulesRoundTrip(host: Option<string>, port: Option<PortValue>)
    requires ':' !in HostText(host)
    ensures ParseProxyRules(ProxyRules(host, port)) == Some((HostText(host), PortOr80(port)))
    ensures port.Some? && port.value.PortNumber? && port.value.number != 0 ==>
              var p := PortOr80(port);
              (forall k :: 0 <= k < |p| ==> IsDigit(p[k])) && ParseDigits(p) == port.value.number
  {
    var h := HostText(host);
    var n := PortOr80(port);
    var rules := ProxyRules(host, port);
    assert rules == h + [':'] + n + DirectSuffix;
    assert rules[|h|] == ':';
    assert forall k :: 0 <= k < |h| ==> rules[k] == h[k];
    assert IndexOfChar(rules, ':') == |h|;
    assert rules[|rules| - |DirectSuffix|..] == DirectSuffix;
    assert rules[|h| + 1..|rules| - |DirectSuffix|] == n;
    assert rules[..|h|] == h;
    if port.Some? && port.value.PortNumber? && port.value.number != 0 {
      ParseNatToString(port.value.number);
    }
  }

  /** Arguments of `session.setProxy(...)`. */
  datatype ProxyConfig =
    | FixedServers(rules: string, bypassRules: Option<string>)  // mode "fixed_servers"
    | NoProxy                                                   // { proxyRules: "" }

  /** A loaded extension: its id, its directory and its base URL. */
  datatype Extension = Extension(id: string, path: string, url: string)

  /**
   * `extensions.find((item) => resolve(item.path) === resolve(path))`, with
   * path resolution taken as string equality.
   */
  function FindExtension(loaded: seq<Extension>, path: string): (r: Option<Extension>)
    ensures r.Some? <==> exists i :: 0 <= i < |loaded| && loaded[i].path == path
    ensures r.Some? ==> exists i :: 0 <= i < |loaded| && loaded[i] == r.value
                          && r.value.path == path
                          && forall j :: 0 <= j < i ==> loaded[j].path != path
  {
    if loaded == [] then None
    else if loaded[0].path == path then Some(loaded[0])
    else
      var r := FindExtension(loaded[1..], path);
      assert forall i :: 1 <= i < |loaded| ==> loaded[i] == loaded[1..][i - 1];
      r
  }

  /**
   * The find-or-load rule for the configured extension: nothing without a
   * (truthy) path; otherwise the first loaded extension at that path, or,
   * when none is loaded there, what `loadExtension` produced (`None` when it
   * rejected and the error was caught).
   */
  function ExtensionLookup(path: Option<string>, loaded: seq<Extension>, loadResult: Option<Extension>): (r: Option<Extension>)
    ensures !Truthy(path) ==> r.None?
    ensures Truthy(path) && (exists i :: 0 <= i < |loaded| && loaded[i].path == path.value) ==>
              r.Some? && r.value.path == path.value && r.value in loaded
    ensures Truthy(path) && (forall i :: 0 <= i < |loaded| ==> loaded[i].path != path.value) ==>
              r == loadResult
  {
    if !Truthy(path) then None
    else
      var found := FindExtension(loaded, path.value);
      if found.Some? then found else loadResult
  }

  /** Whether the find-or-load rule calls `loadExtension`. */
  predicate ExtensionLoads(path: Option<string>, loaded: seq<Extension>) {
    Truthy(path) && FindExtension(loaded, path.value).None?
  }

  /** A call into the host runtime, recorded in order. */
  datatype HostCall =
    | FromPartitionCall(partition: string)
    | SetProxy(session: Session, config: ProxyConfig)
    | CloseAllConnections(session: Session)
    | RegisterWebRequest(session: Session)
    | RegisterBeforeSendHeaders(session: Session)
    | RegisterHeadersReceived(session: Session)
    | UnregisterHeadersReceived(session: Session)
    | AddLoginListener(listener: Session)
    | RemoveLoginListener(listener: Session)
    | AddWebContentsListener(listener: Session)
    | RemoveWebContentsListener(listener: Session)
    | RegisterPreload(session: Session, filePath: string)
    | UnregisterPreload(session: Session, scriptId: string)
    | LoadExtension(session: Session, path: string)
    | RemoveExtension(session: Session, extensionId: string)
    | ClearCache(session: Session)
    | ClearStorageData(session: Session)
    | RemoveDirectory(path: string)

  /** The session a host call acts on; a directory removal acts on none. */
  predicate Concerns(c: HostCall, s: Session) {
    match c
    case FromPartitionCall(p) => p == s.partition
    case SetProxy(t, _) => t == s
    case CloseAllConnections(t) => t == s
    case RegisterWebRequest(t) => t == s
    case RegisterBeforeSendHeaders(t) => t == s
    case RegisterHeadersReceived(t) => t == s
    case UnregisterHeadersReceived(t) => t == s
    case AddLoginListener(t) => t == s
    case RemoveLoginListener(t) => t == s
    case AddWebContentsListener(t) => t == s
    case RemoveWebContentsListener(t) => t == s
    case RegisterPreload(t, _) => t == s
    case UnregisterPreload(t, _) => t == s
    case LoadExtension(t, _) => t == s
    case RemoveExtension(t, _) => t == s
    case ClearCache(t) => t == s
    case ClearStorageData(t) => t == s
    case RemoveDirectory(_) => false
  }

  /** `join(__dirname, "../preload/index.js")`, the one preload script. */
  const PreloadFile: string := "out/preload/index.js"

  /** The preload URL handed back to the renderer. */
  const PreloadUrl: string := "file://" + PreloadFile

  const PersistPrefix: string := "persist:"

  /** `partition.replace(/^persist:/, "")`: drops a leading `persist:` only. */
  function StripPersist(partition: string): (r: string)
    ensures HasPrefix(partition, PersistPrefix) ==> partition == PersistPrefix + r
    ensures !HasPrefix(partition, PersistPrefix) ==> r == partition
  {
    if HasPrefix(partition, PersistPrefix) then partition[|PersistPrefix|..] else partition
  }

  /** The durable partition `persist:<id>` has directory name `<id>`. */
  lemma StripPersistOfPersistent(id: string)
    ensures StripPersist(PersistPrefix + id) == id
  {
    assert (PersistPrefix + id)[..|PersistPrefix|] == PersistPrefix;
  }

  /**
   * Only the first `persist:` goes: a partition named `persist:persist:x`
   * lives in directory `persist:x`.
   */
  lemma StripPersistOnce(id: string)
    ensures StripPersist(PersistPrefix + PersistPrefix + id) == PersistPrefix + id
  {
    StripPersistOfPersistent(PersistPrefix + id);
    assert PersistPrefix + PersistPrefix + id == PersistPrefix + (PersistPrefix + id);
  }

  /**
   * `join(userData, "Partitions", partition.replace(/^persist:/, ""))`,
   * with `join` taken as concatenation with `/`.
   */
  function PartitionPath(userData: string, partition: string): (r: string)
    ensures HasPrefix(r, userData + "/Partitions/")
  {
    var r := userData + "/Partitions/" + StripPersist(partition);
    assert r[..|userData + "/Partitions/"|] == userData + "/Partitions/";
    r
  }

  /**
   * Two persistent partitions get distinct directories: the derivation
   * loses no information for `persist:` partitions.
   */
  lemma PartitionPathInjective(userData: string, a: string, b: string)
    requires HasPrefix(a, PersistPrefix) && HasPrefix(b, PersistPrefix)
    requires PartitionPath(userData, a) == PartitionPath(userData, b)
    ensures a == b
  {
    var base := userData + "/Partitions/";
    assert (base + StripPersist(a))[|base|..] == StripPersist(a);
    assert (base + StripPersist(b))[|base|..] == StripPersist(b);
  }
}
