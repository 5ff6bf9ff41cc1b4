/**
 * `Profile` (src/main/Profile.js): one account's session in the current
 * main process. It attaches its login listener once, keeps the last
 * applied proxy options in a slot that both decides whether `setProxy` runs
 * again and answers proxy-auth challenges, finds or loads the extension, and
 * tears the session down on removal.
 */
module Profiles {
  import opened Wrappers
  import opened Strings
  import opened Host

  /**
   * `options.allowProxies && options.proxyEnabled && options.proxyHost`:
   * unlike the older handlers, a profile never installs a rule whose host
   * is null or empty.
   */
  predicate ShouldApplyProxy(o: ProxyOptions): (r: bool)
    ensures r ==> o.proxyHost.Some? && o.proxyHost.value != ""
                  && HasPrefix(ProxyRules(o.proxyHost, o.proxyPort), o.proxyHost.value + ":")
  {
    o.allowProxies == Some(true) && o.proxyEnabled && Truthy(o.proxyHost)
  }

  /** The `setProxy` call of the apply branch. */
  function AppliedProxy(s: Session, o: ProxyOptions): HostCall {
    SetProxy(s, FixedServers(ProxyRules(o.proxyHost, o.proxyPort), Some("<local>")))
  }

  /**
   * The slot after `configureProxy(o)`: the apply branch stores `o` before
   * awaiting `setProxy`, so even a rejected call leaves `o` stored; the
   * clear branch empties the slot only once the clearing `setProxy`
   * resolved.
   */
  function ProxyOptionsAfter(stored: Option<ProxyOptions>, o: ProxyOptions, setProxyOk: bool): (r: Option<ProxyOptions>)
    ensures ShouldApplyProxy(o) ==> r == Some(o)
    ensures !ShouldApplyProxy(o) && setProxyOk ==> r.None?
    ensures !ShouldApplyProxy(o) && !setProxyOk ==> r == stored
  {
    if ShouldApplyProxy(o) then Some(o)
    else if setProxyOk then None
    else stored
  }

  /** The `setProxy` calls of the `try` block of `configureProxy(o)`, given the stored slot. */
  function ProxySetCalls(s: Session, stored: Option<ProxyOptions>, o: ProxyOptions): seq<HostCall> {
    if ShouldApplyProxy(o) then (if stored != Some(o) then [AppliedProxy(s, o)] else [])
    else [SetProxy(s, NoProxy)]
  }

  /**
   * The host calls of `configureProxy(o)`: the `try` block, then the two
   * unconditional steps; all act on the profile's session and none attaches
   * a listener.
   */
  function ConfigureProxyCalls(s: Session, stored: Option<ProxyOptions>, o: ProxyOptions): (r: seq<HostCall>)
    ensures Neutral(r, s)
  {
    ProxySetCalls(s, stored, o) + [CloseAllConnections(s), RegisterWebRequest(s)]
  }

  /**
   * `setProxy` runs exactly when the options say to clear, or when they
   * apply and differ from the stored ones; connections are then closed and
   * the interceptors registered whatever the branch.
   */
  lemma ConfigureProxyCallsShape(s: Session, stored: Option<ProxyOptions>, o: ProxyOptions)
    ensures var calls := ConfigureProxyCalls(s, stored, o);
            && |calls| >= 2
            && calls[|calls| - 2..] == [CloseAllConnections(s), RegisterWebRequest(s)]
            && ((exists i :: 0 <= i < |calls| && calls[i].SetProxy?)
                <==> !ShouldApplyProxy(o) || stored != Some(o))
  {
    var calls := ConfigureProxyCalls(s, stored, o);
    if !ShouldApplyProxy(o) || stored != Some(o) {
      assert calls[0].SetProxy?;
    }
  }

  /** Configuring again with the same applying options makes no `setProxy` call. */
  lemma {:induction false} RepeatedOptionsSkipSetProxy(s: Session, stored: Option<ProxyOptions>, o: ProxyOptions, setProxyOk: bool)
    requires ShouldApplyProxy(o)
    ensures ConfigureProxyCalls(s, ProxyOptionsAfter(stored, o, setProxyOk), o)
            == [CloseAllConnections(s), RegisterWebRequest(s)]
  {
    assert ProxyOptionsAfter(stored, o, setProxyOk) == Some(o);
  }

  /**
   * The login reply: answered only for this profile's session, for a proxy
   * challenge, with options stored; the answer is the stored credentials.
   */
  function ProxyLoginReply(stored: Option<ProxyOptions>, sameSession: bool, isProxy: bool): (r: Option<Credentials>)
    ensures r.Some? <==> sameSession && isProxy && stored.Some?
    ensures r.Some? ==> r.value == CredentialsOf(stored.value)
  {
    if sameSession && isProxy && stored.Some? then Some(CredentialsOf(stored.value)) else None
  }

  /**
   * One slot decides both: after applying options the challenge is
   * answered with their credentials, even when `setProxy` rejected; after a
   * successful clear it is not answered; after a failed clear the previous
   * answer stands.
   */
  lemma LoginFollowsConfigure(stored: Option<ProxyOptions>, o: ProxyOptions, setProxyOk: bool)
    ensures ShouldApplyProxy(o) ==>
              ProxyLoginReply(ProxyOptionsAfter(stored, o, setProxyOk), true, true) == Some(CredentialsOf(o))
    ensures !ShouldApplyProxy(o) && setProxyOk ==>
              ProxyLoginReply(ProxyOptionsAfter(stored, o, setProxyOk), true, true).None?
    ensures !ShouldApplyProxy(o) && !setProxyOk ==>
              ProxyLoginReply(ProxyOptionsAfter(stored, o, setProxyOk), true, true)
              == ProxyLoginReply(stored, true, true)
  {
  }

  /** `app.on("login", ...)` and `app.on("web-contents-created", ...)`. */
  function ListenerCalls(s: Session): (r: seq<HostCall>)
    ensures AddLoginListener(s) in r && AddWebContentsListener(s) in r
    ensures forall i :: 0 <= i < |r| ==> Concerns(r[i], s)
  {
    [AddLoginListener(s), AddWebContentsListener(s)]
  }

  /** The calls of `initialize`: the listeners, unless the profile is already ready. */
  function InitializeCalls(s: Session, ready: bool): seq<HostCall> {
    if ready then [] else ListenerCalls(s)
  }

  /** The calls of `destroy`, in source order. */
  function DestroyCalls(s: Session, preloadIds: seq<string>, extensions: seq<Extension>): (r: seq<HostCall>)
    ensures Neutral(r, s)
  {
    [RemoveLoginListener(s), RemoveWebContentsListener(s)]
    + seq(|preloadIds|, i requires 0 <= i < |preloadIds| => UnregisterPreload(s, preloadIds[i]))
    + seq(|extensions|, i requires 0 <= i < |extensions| => RemoveExtension(s, extensions[i].id))
    + [SetProxy(s, NoProxy), CloseAllConnections(s)]
  }

  /**
   * `destroy` removes the listeners, unregisters every preload script,
   * removes every loaded extension, and ends by clearing the proxy and
   * closing the connections; it adds no listener.
   */
  lemma DestroyCallsCover(s: Session, preloadIds: seq<string>, extensions: seq<Extension>)
    ensures var calls := DestroyCalls(s, preloadIds, extensions);
            && |calls| == |preloadIds| + |extensions| + 4
            && calls[..2] == [RemoveLoginListener(s), RemoveWebContentsListener(s)]
            && calls[|calls| - 2..] == [SetProxy(s, NoProxy), CloseAllConnections(s)]
            && (forall id :: id in preloadIds ==> UnregisterPreload(s, id) in calls)
            && (forall e :: e in extensions ==> RemoveExtension(s, e.id) in calls)
            && AddLoginListener(s) !in calls
  {
    var calls := DestroyCalls(s, preloadIds, extensions);
    forall id | id in preloadIds
      ensures UnregisterPreload(s, id) in calls
    {
      var i :| 0 <= i < |preloadIds| && preloadIds[i] == id;
      assert calls[2 + i] == UnregisterPreload(s, id);
    }
    forall e | e in extensions
      ensures RemoveExtension(s, e.id) in calls
    {
      var i :| 0 <= i < |extensions| && extensions[i] == e;
      assert calls[2 + |preloadIds| + i] == RemoveExtension(s, e.id);
    }
  }

  /**
   * What the profile's call log keeps true: the listeners were attached
   * exactly once if `configure` has run and never otherwise, and every call
   * acts on the profile's own session.
   */
  ghost predicate LogInvariant(log: seq<HostCall>, s: Session, ready: bool) {
    && multiset(log)[AddLoginListener(s)] == (if ready then 1 else 0)
    && multiset(log)[AddWebContentsListener(s)] == (if ready then 1 else 0)
    && forall i :: 0 <= i < |log| ==> Concerns(log[i], s)
  }

  /** Calls on session `s` that attach no listener. */
  predicate Neutral(calls: seq<HostCall>, s: Session) {
    && (forall i :: 0 <= i < |calls| ==> Concerns(calls[i], s))
    && AddLoginListener(s) !in calls && AddWebContentsListener(s) !in calls
  }

  /** Appending neutral calls keeps the invariant. */
  lemma AppendNeutral(log: seq<HostCall>, extra: seq<HostCall>, s: Session, ready: bool)
    requires LogInvariant(log, s, ready) && Neutral(extra, s)
    ensures LogInvariant(log + extra, s, ready)
  {
    assert multiset(log + extra) == multiset(log) + multiset(extra);
    assert forall i :: |log| <= i < |log + extra| ==> (log + extra)[i] == extra[i - |log|];
  }

  /** `initialize` keeps the invariant and leaves the profile configured. */
  lemma InitializeKeepsLogInvariant(log: seq<HostCall>, s: Session, ready: bool)
    requires LogInvariant(log, s, ready)
    ensures LogInvariant(log + InitializeCalls(s, ready), s, true)
  {
    if !ready {
      var extra := ListenerCalls(s);
      assert multiset(log + extra) == multiset(log) + multiset(extra);
      assert forall i :: |log| <= i < |log + extra| ==> (log + extra)[i] == extra[i - |log|];
    } else {
      assert log + [] == log;
    }
  }

  /**
   * From any state the invariant allows, `initialize` leaves each listener
   * attached exactly once, and a second `initialize` adds no call.
   */
  lemma InitializeTwiceAttachesOnce(log: seq<HostCall>, s: Session, ready: bool)
    requires LogInvariant(log, s, ready)
    ensures var once := log + InitializeCalls(s, ready);
            && once + InitializeCalls(s, true) == once
            && multiset(once)[AddLoginListener(s)] == 1
            && multiset(once)[AddWebContentsListener(s)] == 1
  {
    InitializeKeepsLogInvariant(log, s, ready);
    assert log + InitializeCalls(s, ready) + [] == log + InitializeCalls(s, ready);
  }

  /** `configureProxy` keeps the invariant. */
  lemma ConfigureProxyKeepsLogInvariant(log: seq<HostCall>, s: Session, ready: bool, stored: Option<ProxyOptions>, o: ProxyOptions)
    requires LogInvariant(log, s, ready)
    ensures LogInvariant(log + ConfigureProxyCalls(s, stored, o), s, ready)
  {
    AppendNeutral(log, ConfigureProxyCalls(s, stored, o), s, ready);
  }

  /** `getExtension` keeps the invariant. */
  lemma GetExtensionKeepsLogInvariant(log: seq<HostCall>, s: Session, ready: bool, path: Option<string>, loaded: seq<Extension>)
    requires LogInvariant(log, s, ready)
    ensures LogInvariant(log + (if ExtensionLoads(path, loaded) then [LoadExtension(s, path.value)] else []), s, ready)
  {
    AppendNeutral(log, if ExtensionLoads(path, loaded) then [LoadExtension(s, path.value)] else [], s, ready);
  }

  /** `destroy` keeps the invariant: it detaches, but attaches nothing. */
  lemma DestroyKeepsLogInvariant(log: seq<HostCall>, s: Session, ready: bool, preloadIds: seq<string>, extensions: seq<Extension>)
    requires LogInvariant(log, s, ready)
    ensures LogInvariant(log + DestroyCalls(s, preloadIds, extensions), s, ready)
  {
    var calls := DestroyCalls(s, preloadIds, extensions);
    assert Neutral(calls, s) by {
      DestroyCallsCover(s, preloadIds, extensions);
    }
    AppendNeutral(log, calls, s, ready);
  }

  class Profile {
    const partition: string
    const session: Session
    /** Whether `readyPromise` has been set, i.e. `configure` has run. */
    var ready: bool
    /** The last applied options; `None` is JavaScript's `null`. */
    var proxyOptions: Option<ProxyOptions>
    /** The host calls made so far on this profile's behalf. */
    var log: seq<HostCall>

    constructor (partition: string)
      ensures this.partition == partition && session == FromPartition(partition)
      ensures !ready && proxyOptions.None? && log == []
    {
      this.partition := partition;
      session := FromPartition(partition);
      ready := false;
      proxyOptions := None;
      log := [];
    }

    /** `initialize`: `configure` runs on the first call only. */
    method Initialize()
      modifies this`ready, this`log
      ensures ready
      ensures log == old(log) + InitializeCalls(session, old(ready))
    {
      if !ready {
        ready := true;
        Configure();
      }
    }

    /** `configure`, i.e. `setupEventListeners`. */
    method Configure()
      modifies this`log
      ensures log == old(log) + ListenerCalls(session)
    {
      log := log + [AddLoginListener(session)];
      log := log + [AddWebContentsListener(session)];
    }

    /**
     * `configureProxy(options)`; `setProxyOk` says whether the awaited
     * `setProxy` resolved (a rejection is caught and logged).
     */
    method ConfigureProxy(options: ProxyOptions, setProxyOk: bool)
      modifies this`proxyOptions, this`log
      ensures proxyOptions == ProxyOptionsAfter(old(proxyOptions), options, setProxyOk)
      ensures log == old(log) + ConfigureProxyCalls(session, old(proxyOptions), options)
    {
      if options.allowProxies == Some(true) && options.proxyEnabled && Truthy(options.proxyHost) {
        if proxyOptions.None? || proxyOptions.value != options {
          proxyOptions := Some(options);
          var proxyRules := ProxyRules(options.proxyHost, options.proxyPort);
          log := log + [SetProxy(session, FixedServers(proxyRules, Some("<local>")))];
        }
      } else {
        log := log + [SetProxy(session, NoProxy)];
        if setProxyOk {
          proxyOptions := None;
        }
      }
      log := log + [CloseAllConnections(session)];
      log := log + [RegisterWebRequest(session)];
    }

    /** `handleLogin`: the credentials handed to the callback, if it intercepts. */
    function LoginReply(webSession: Session, isProxy: bool): (r: Option<Credentials>)
      reads this
      ensures r == ProxyLoginReply(proxyOptions, webSession == session, isProxy)
      ensures r.Some? ==> webSession == session
    {
      if webSession == session && isProxy && proxyOptions.Some? then
        Some(Credentials(proxyOptions.value.proxyUsername, proxyOptions.value.proxyPassword))
      else None
    }

    /**
     * `getExtension(extensionPath)`: `loaded` is `getAllExtensions()`,
     * `loadResult` what `loadExtension` produces if called.
     */
    method GetExtension(extensionPath: Option<string>, loaded: seq<Extension>, loadResult: Option<Extension>)
      returns (extension: Option<Extension>, preload: string)
      modifies this`log
      ensures extension == ExtensionLookup(extensionPath, loaded, loadResult)
      ensures preload == PreloadUrl
      ensures log == old(log) + (if ExtensionLoads(extensionPath, loaded)
                                 then [LoadExtension(session, extensionPath.value)] else [])
    {
      extension := None;
      if extensionPath.Some? && extensionPath.value != "" {
        extension := FindExtension(loaded, extensionPath.value);
        if extension.None? {
          log := log + [LoadExtension(session, extensionPath.value)];
          extension := loadResult;
        }
      }
      preload := "file://" + PreloadFile;
    }

    /**
     * `destroy`: `preloadIds` are the ids `getPreloadScripts` reports and
     * `extensions` what `getAllExtensions` returns.
     */
    method Destroy(preloadIds: seq<string>, extensions: seq<Extension>)
      modifies this`log
      ensures log == old(log) + DestroyCalls(session, preloadIds, extensions)
    {
      log := log + [RemoveLoginListener(session), RemoveWebContentsListener(session)];
      ghost var start := log;
      var i := 0;
      while i < |preloadIds|
        invariant 0 <= i <= |preloadIds|
        invariant log == start + seq(i, k requires 0 <= k < i => UnregisterPreload(session, preloadIds[k]))
      {
        log := log + [UnregisterPreload(session, preloadIds[i])];
        i := i + 1;
      }
      ghost var middle := log;
      var j := 0;
      while j < |extensions|
        invariant 0 <= j <= |extensions|
        invariant log == middle + seq(j, k requires 0 <= k < j => RemoveExtension(session, extensions[k].id))
      {
        log := log + [RemoveExtension(session, extensions[j].id)];
        j := j + 1;
      }
      log := log + [SetProxy(session, NoProxy)];
      log := log + [CloseAllConnections(session)];
    }
  }
}
