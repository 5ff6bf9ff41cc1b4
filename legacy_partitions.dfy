/**
 * The older per-partition session setup: reset the preload scripts, strip
 * the frame-blocking security headers from every response, and optionally
 * load the extension; and the matching teardown that clears storage and
 * deletes the partition directory.
 */
module LegacyPartitions {
  import opened Wrappers
  import opened Strings
  import opened Host
  import WebRequest

  /** The five response headers this setup removes (compared lower-cased). */
  const FrameBlockingHeaders: seq<string> := [
    "x-frame-options",
    "content-security-policy",
    "cross-origin-embedder-policy",
    "cross-origin-opener-policy",
    "cross-origin-resource-policy"
  ]

  /**
   * The `onHeadersReceived` listener's filter: exactly the keys whose
   * lower-case form is one of the five names go; every other key keeps
   * its value.
   */
  function FilterResponseHeaders(h: WebRequest.Headers): (r: WebRequest.Headers)
    ensures forall k :: k in r <==> k in h && Lower(k) !in FrameBlockingHeaders
    ensures forall k :: k in r ==> r[k] == h[k]
  {
    WebRequest.StripHeaders(h, FrameBlockingHeaders)
  }

  /** Header names match whatever their case: `X-Frame-Options` is dropped too. */
  lemma MixedCaseFrameOptionsDropped(h: WebRequest.Headers, v: string)
    ensures "X-Frame-Options" !in FilterResponseHeaders(h["X-Frame-Options" := v])
  {
    assert Lower("X-Frame-Options") == "x-frame-options";
  }

  /** The newer interceptors strip everything this filter strips. */
  lemma NewerFilterStripsMore()
    ensures forall n :: n in FrameBlockingHeaders ==> n in WebRequest.StrippedResponseHeaders
  {
  }

  /**
   * Unlike the newer list, this filter touches no `access-control-` header:
   * whatever its letter case, such a header passes with its value.
   */
  lemma CorsHeadersKept(h: WebRequest.Headers, k: string)
    requires k in h && HasPrefix(Lower(k), "access-control-")
    ensures k in FilterResponseHeaders(h) && FilterResponseHeaders(h)[k] == h[k]
  {
    forall n | n in FrameBlockingHeaders
      ensures !HasPrefix(n, "access-control-")
    {
      assert n[0] != 'a';
    }
  }

  /**
   * The host calls of `setupSession`, in order: one unregistration per
   * existing preload script, the registration of the preload file, the
   * response listener, and the extension load when a path is given.
   */
  function SetupSessionCalls(s: Session, preloadIds: seq<string>, extensionPath: Option<string>): (r: seq<HostCall>)
    ensures |r| == |preloadIds| + 2 + (if Truthy(extensionPath) then 1 else 0)
    ensures forall i :: 0 <= i < |r| ==> Concerns(r[i], s)
  {
    seq(|preloadIds|, i requires 0 <= i < |preloadIds| => UnregisterPreload(s, preloadIds[i]))
    + [RegisterPreload(s, PreloadFile), RegisterHeadersReceived(s)]
    + (if Truthy(extensionPath) then [LoadExtension(s, extensionPath.value)] else [])
  }

  /**
   * `setupSession`: `preloadIds` are the ids `getPreloadScripts()` reports
   * and `loaded` is what `loadExtension` resolves to.
   */
  method SetupSession(partition: string, preloadIds: seq<string>, extensionPath: Option<string>, loaded: Extension)
    returns (calls: seq<HostCall>, extension: Option<Extension>)
    ensures calls == SetupSessionCalls(FromPartition(partition), preloadIds, extensionPath)
    ensures Truthy(extensionPath) ==> extension == Some(loaded)
    ensures !Truthy(extensionPath) ==> extension.None?
  {
    var session := FromPartition(partition);
    calls := [];
    var i := 0;
    while i < |preloadIds|
      invariant 0 <= i <= |preloadIds|
      invariant |calls| == i
      invariant forall j :: 0 <= j < i ==> calls[j] == UnregisterPreload(session, preloadIds[j])
    {
      calls := calls + [UnregisterPreload(session, preloadIds[i])];
      i := i + 1;
    }
    calls := calls + [RegisterPreload(session, PreloadFile), RegisterHeadersReceived(session)];
    extension := None;
    if Truthy(extensionPath) {
      calls := calls + [LoadExtension(session, extensionPath.value)];
      extension := Some(loaded);
    }
  }

  /**
   * Every old preload script is unregistered, and all unregistrations
   * precede the single registration of the new one.
   */
  lemma {:induction false} PreloadResetOrder(s: Session, preloadIds: seq<string>, extensionPath: Option<string>)
    ensures var calls := SetupSessionCalls(s, preloadIds, extensionPath);
      (forall id :: id in preloadIds ==> UnregisterPreload(s, id) in calls)
      && (forall i, j :: 0 <= i < |calls| && 0 <= j < |calls| && calls[i].UnregisterPreload? && calls[j].RegisterPreload? ==> i < j)
      && (forall j :: 0 <= j < |calls| && calls[j].RegisterPreload? ==> j == |preloadIds| && calls[j].filePath == PreloadFile)
  {
    var calls := SetupSessionCalls(s, preloadIds, extensionPath);
    assert forall i :: 0 <= i < |preloadIds| ==> calls[i] == UnregisterPreload(s, preloadIds[i]);
    assert forall j :: |preloadIds| < j < |calls| ==> !calls[j].RegisterPreload? && !calls[j].UnregisterPreload?;
    forall id | id in preloadIds ensures UnregisterPreload(s, id) in calls {
      var i :| 0 <= i < |preloadIds| && preloadIds[i] == id;
      assert calls[i] == UnregisterPreload(s, id);
    }
  }

  /** `removeSession`: detach the listener, clear storage, delete the partition directory. */
  method RemoveSession(partition: string, userData: string) returns (calls: seq<HostCall>)
    ensures |calls| == 3
    ensures calls[0] == UnregisterHeadersReceived(FromPartition(partition))
    ensures calls[1] == ClearStorageData(FromPartition(partition))
    ensures calls[2] == RemoveDirectory(PartitionPath(userData, partition))
  {
    var session := FromPartition(partition);
    calls := [UnregisterHeadersReceived(session), ClearStorageData(session)];
    calls := calls + [RemoveDirectory(PartitionPath(userData, partition))];
  }
}
