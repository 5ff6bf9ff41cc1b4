/**
 * The session handlers of the older main process (src/main/libs/handles.js):
 * a lazy partition-to-session registry, a credentials map keyed by session
 * that both decides whether `setProxy` runs again and answers proxy-auth
 * challenges, session setup that registers the interceptors for a new
 * partition only, and session removal that forgets both entries and deletes
 * the partition's directory.
 */
module Handles {
  import opened Wrappers
  import opened Strings
  import opened Host

  /** The `setProxy` call of the enabled branch: no bypass rules here. */
  function EnabledProxy(s: Session, o: ProxyOptions): HostCall {
    SetProxy(s, FixedServers(ProxyRules(o.proxyHost, o.proxyPort), None))
  }

  /**
   * The credentials stored for a session after `configureProxy(o)`: stored
   * before `setProxy` is awaited when enabled, deleted only after a
   * successful clear when disabled. Only `proxyEnabled` is consulted.
   */
  function CredentialsAfter(stored: Option<ProxyOptions>, o: ProxyOptions, setProxyOk: bool): (r: Option<ProxyOptions>)
    ensures o.proxyEnabled ==> r == Some(o)
    ensures !o.proxyEnabled && setProxyOk ==> r.None?
    ensures !o.proxyEnabled && !setProxyOk ==> r == stored
  {
    if o.proxyEnabled then Some(o) else if setProxyOk then None else stored
  }

  /** The `setProxy` calls of `configureProxy(o)`, given the stored credentials. */
  function ProxyCalls(s: Session, stored: Option<ProxyOptions>, o: ProxyOptions): (r: seq<HostCall>)
    ensures |r| <= 1
    ensures forall i :: 0 <= i < |r| ==> r[i].SetProxy? && r[i].session == s
  {
    if o.proxyEnabled then (if stored != Some(o) then [EnabledProxy(s, o)] else [])
    else [SetProxy(s, NoProxy)]
  }

  /** A map entry written or deleted according to an optional value. */
  function Put<K, V>(m: map<K, V>, k: K, v: Option<V>): (r: map<K, V>)
    ensures v.Some? ==> r == m[k := v.value]
    ensures v.None? ==> r == m - {k}
  {
    if v.Some? then m[k := v.value] else m - {k}
  }

  /**
   * `setProxy` runs exactly when clearing or when the enabled options
   * differ from the stored ones; the same options again make no call.
   */
  lemma ProxyCallsOnlyOnChange(s: Session, stored: Option<ProxyOptions>, o: ProxyOptions, setProxyOk: bool)
    ensures |ProxyCalls(s, stored, o)| <= 1
    ensures ProxyCalls(s, stored, o) == [] <==> o.proxyEnabled && stored == Some(o)
    ensures o.proxyEnabled ==> ProxyCalls(s, CredentialsAfter(stored, o, setProxyOk), o) == []
  {
  }

  /**
   * Unlike `Profile`, `allowProxies` and `proxyHost` play no part: enabled
   * options whose host and port are null still install a rule, and it
   * names the host `null` on port 80.
   */
  lemma NullHostStillApplied(s: Session, o: ProxyOptions)
    requires o.proxyEnabled && o.proxyHost.None? && !PortTruthy(o.proxyPort)
    ensures ProxyCalls(s, None, o) == [SetProxy(s, FixedServers("null:80,direct://", None))]
  {
    assert ProxyRules(o.proxyHost, o.proxyPort) == "null" + ":" + "80" + ",direct://";
    assert "null" + ":" + "80" + ",direct://" == "null:80,direct://";
  }

  /** The login listener's reply: only for a proxy challenge on a session with stored credentials. */
  function CredentialsReply(credentials: map<Session, ProxyOptions>, webSession: Session, isProxy: bool): (r: Option<Credentials>)
    ensures r.Some? <==> isProxy && webSession in credentials
    ensures r.Some? ==> r.value == CredentialsOf(credentials[webSession])
  {
    if isProxy && webSession in credentials then Some(CredentialsOf(credentials[webSession])) else None
  }

  /**
   * The reply follows the last `configureProxy` on that session: enabled
   * options answer with their own credentials even when `setProxy`
   * rejected, and a successful clear stops the answers.
   */
  lemma ReplyFollowsConfigure(credentials: map<Session, ProxyOptions>, s: Session, o: ProxyOptions, setProxyOk: bool)
    ensures var after := Put(credentials, s, CredentialsAfter(Get(credentials, s), o, setProxyOk));
            && (o.proxyEnabled ==> CredentialsReply(after, s, true) == Some(CredentialsOf(o)))
            && (!o.proxyEnabled && setProxyOk ==> CredentialsReply(after, s, true).None?)
            && (forall t :: t != s ==> CredentialsReply(after, t, true) == CredentialsReply(credentials, t, true))
  {
  }

  /** The two interceptor registrations of a new partition. */
  function InterceptorCalls(s: Session): seq<HostCall> {
    [RegisterBeforeSendHeaders(s), RegisterHeadersReceived(s)]
  }

  /**
   * The host calls of `setupSession`, in order: the proxy when options are
   * given, the interceptors for a new partition, then the extension load.
   */
  function SetupSessionCalls(s: Session, isNew: bool, stored: Option<ProxyOptions>, proxyOptions: Option<ProxyOptions>,
                             extensionPath: Option<string>, loaded: seq<Extension>): (r: seq<HostCall>)
    ensures forall i :: 0 <= i < |r| ==> Concerns(r[i], s)
  {
    (if proxyOptions.Some? then ProxyCalls(s, stored, proxyOptions.value) else [])
    + (if isNew then InterceptorCalls(s) else [])
    + (if ExtensionLoads(extensionPath, loaded) then [LoadExtension(s, extensionPath.value)] else [])
  }

  /**
   * Register-once: the interceptors are registered by a setup exactly when
   * its partition was not in the map before.
   */
  lemma InterceptorsOnlyForNewPartition(s: Session, isNew: bool, stored: Option<ProxyOptions>, proxyOptions: Option<ProxyOptions>,
                                        extensionPath: Option<string>, loaded: seq<Extension>)
    ensures RegisterHeadersReceived(s) in SetupSessionCalls(s, isNew, stored, proxyOptions, extensionPath, loaded) <==> isNew
    ensures RegisterBeforeSendHeaders(s) in SetupSessionCalls(s, isNew, stored, proxyOptions, extensionPath, loaded) <==> isNew
  {
    var calls := SetupSessionCalls(s, isNew, stored, proxyOptions, extensionPath, loaded);
    if isNew {
      var p := if proxyOptions.Some? then ProxyCalls(s, stored, proxyOptions.value) else [];
      assert calls[|p|] == RegisterBeforeSendHeaders(s);
      assert calls[|p| + 1] == RegisterHeadersReceived(s);
    }
  }

  /**
   * The module state of handles.js: `sessionMap`, `proxyCredentialsMap`,
   * and the host calls made so far.
   */
  class SessionHandles {
    var sessionMap: map<string, Session>
    var proxyCredentials: map<Session, ProxyOptions>
    var log: seq<HostCall>

    /**
     * Every registered partition maps to its own session, and credentials
     * are only held for sessions of registered partitions.
     */
    ghost predicate Valid()
      reads this
    {
      && (forall p :: p in sessionMap ==> sessionMap[p] == FromPartition(p))
      && (forall s :: s in proxyCredentials ==> s.partition in sessionMap)
    }

    constructor ()
      ensures sessionMap == map[] && proxyCredentials == map[] && log == []
      ensures Valid()
    {
      sessionMap := map[];
      proxyCredentials := map[];
      log := [];
    }

    /** `getSession`: created on the first request, the same one afterwards. */
    method GetSession(partition: string) returns (s: Session)
      requires Valid()
      modifies this`sessionMap
      ensures Valid()
      ensures s == FromPartition(partition)
      ensures sessionMap == old(sessionMap)[partition := s]
      ensures partition in old(sessionMap) ==> sessionMap == old(sessionMap)
    {
      if partition !in sessionMap {
        sessionMap := sessionMap[partition := FromPartition(partition)];
      }
      s := sessionMap[partition];
    }

    /** `configureProxy`; `setProxyOk` says whether the awaited `setProxy` resolved. */
    method ConfigureProxy(partition: string, options: ProxyOptions, setProxyOk: bool)
      requires Valid()
      modifies this
      ensures Valid()
      ensures sessionMap == old(sessionMap)[partition := FromPartition(partition)]
      ensures var s := FromPartition(partition);
              && proxyCredentials == Put(old(proxyCredentials), s, CredentialsAfter(Get(old(proxyCredentials), s), options, setProxyOk))
              && log == old(log) + ProxyCalls(s, Get(old(proxyCredentials), s), options)
    {
      var session := GetSession(partition);
      if options.proxyEnabled {
        if session !in proxyCredentials || proxyCredentials[session] != options {
          proxyCredentials := proxyCredentials[session := options];
          var proxyRules := ProxyRules(options.proxyHost, options.proxyPort);
          log := log + [SetProxy(session, FixedServers(proxyRules, None))];
        }
      } else {
        log := log + [SetProxy(session, NoProxy)];
        if setProxyOk {
          proxyCredentials := proxyCredentials - {session};
        }
      }
    }

    /** The listener of `registerProxyAuthHandler`. */
    function LoginReply(webSession: Session, isProxy: bool): (r: Option<Credentials>)
      reads this
      ensures r == CredentialsReply(proxyCredentials, webSession, isProxy)
    {
      if isProxy && webSession in proxyCredentials then
        Some(Credentials(proxyCredentials[webSession].proxyUsername, proxyCredentials[webSession].proxyPassword))
      else None
    }

    /**
     * `setupSession(data)`: the proxy when options are given, the
     * interceptors only for a partition not yet in the map, and the
     * extension by the find-or-load rule.
     */
    method SetupSession(partition: string, proxyOptions: Option<ProxyOptions>, extensionPath: Option<string>,
                        loaded: seq<Extension>, loadResult: Option<Extension>, setProxyOk: bool)
      returns (extension: Option<Extension>, preload: string)
      requires Valid()
      modifies this
      ensures Valid()
      ensures sessionMap == old(sessionMap)[partition := FromPartition(partition)]
      ensures var s := FromPartition(partition);
              && proxyCredentials
                 == (if proxyOptions.Some?
                     then Put(old(proxyCredentials), s, CredentialsAfter(Get(old(proxyCredentials), s), proxyOptions.value, setProxyOk))
                     else old(proxyCredentials))
              && log == old(log) + SetupSessionCalls(s, partition !in old(sessionMap), Get(old(proxyCredentials), s),
                                                     proxyOptions, extensionPath, loaded)
      ensures extension == ExtensionLookup(extensionPath, loaded, loadResult)
      ensures preload == PreloadUrl
    {
      var existed := partition in sessionMap;
      preload := "file://" + PreloadFile;
      ghost var session' := FromPartition(partition);
      ghost var stored := Get(proxyCredentials, session');
      ghost var proxyCalls := if proxyOptions.Some? then ProxyCalls(session', stored, proxyOptions.value) else [];
      ghost var registerCalls := if !existed then InterceptorCalls(session') else [];
      ghost var extensionCalls := if ExtensionLoads(extensionPath, loaded) then [LoadExtension(session', extensionPath.value)] else [];
      var session := OpenWithProxy(partition, proxyOptions, setProxyOk);
      assert log == old(log) + proxyCalls;
      ghost var proxied := log;
      if !existed {
        RegisterInterceptors(session);
      }
      assert log == proxied + registerCalls;
      ghost var registered := log;
      extension := FindOrLoadExtension(session, extensionPath, loaded, loadResult);
      assert log == registered + extensionCalls;
      assert SetupSessionCalls(session, !existed, stored, proxyOptions, extensionPath, loaded)
             == proxyCalls + registerCalls + extensionCalls;
      assert old(log) + proxyCalls + registerCalls + extensionCalls == old(log) + (proxyCalls + registerCalls + extensionCalls);
    }

    /** The first steps of `setupSession`: the session, then its proxy when options are given. */
    method OpenWithProxy(partition: string, proxyOptions: Option<ProxyOptions>, setProxyOk: bool) returns (session: Session)
      requires Valid()
      modifies this
      ensures Valid()
      ensures session == FromPartition(partition)
      ensures sessionMap == old(sessionMap)[partition := session]
      ensures proxyCredentials
              == (if proxyOptions.Some?
                  then Put(old(proxyCredentials), session, CredentialsAfter(Get(old(proxyCredentials), session), proxyOptions.value, setProxyOk))
                  else old(proxyCredentials))
      ensures log == old(log) + (if proxyOptions.Some? then ProxyCalls(session, Get(old(proxyCredentials), session), proxyOptions.value) else [])
    {
      session := GetSession(partition);
      if proxyOptions.Some? {
        ConfigureProxy(partition, proxyOptions.value, setProxyOk);
      }
    }

    /** The two `webRequest` registrations of a partition seen for the first time. */
    method RegisterInterceptors(session: Session)
      modifies this`log
      ensures log == old(log) + InterceptorCalls(session)
    {
      log := log + [RegisterBeforeSendHeaders(session)];
      log := log + [RegisterHeadersReceived(session)];
    }

    /** The `if (data.extensionPath)` block of `setupSession`. */
    method FindOrLoadExtension(session: Session, extensionPath: Option<string>, loaded: seq<Extension>,
                               loadResult: Option<Extension>)
      returns (extension: Option<Extension>)
      modifies this`log
      ensures extension == ExtensionLookup(extensionPath, loaded, loadResult)
      ensures log == old(log) + (if ExtensionLoads(extensionPath, loaded) then [LoadExtension(session, extensionPath.value)] else [])
    {
      extension := None;
      if extensionPath.Some? && extensionPath.value != "" {
        extension := FindExtension(loaded, extensionPath.value);
        if extension.None? {
          log := log + [LoadExtension(session, extensionPath.value)];
          extension := loadResult;
        }
      }
    }

    /**
     * `removeSession`: both entries go and the directory under
     * `userData/Partitions` is removed.
     */
    method RemoveSession(partition: string, userData: string)
      requires Valid()
      modifies this
      ensures Valid()
      ensures sessionMap == old(sessionMap) - {partition}
      ensures proxyCredentials == old(proxyCredentials) - {FromPartition(partition)}
      ensures log == old(log) + [RemoveDirectory(PartitionPath(userData, partition))]
    {
      var session := GetSession(partition);
      proxyCredentials := proxyCredentials - {session};
      sessionMap := sessionMap - {partition};
      var partitionPath := userData + "/Partitions/" + StripPersist(partition);
      log := log + [RemoveDirectory(partitionPath)];
    }
  }
}
