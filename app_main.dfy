/**
 * The main-process application object (src/main/App.js) as far as
 * sessions go: a lazy partition-to-`Profile` registry, session setup and
 * proxy configuration through the profile, session removal, and the
 * transform that turns the release file glob into a regular expression.
 */
module MainApp {
  import opened Wrappers
  import opened Strings
  import opened Host
  import opened Profiles

  // ---------------------------------------------------------------------
  // The release file pattern

  /**
   * `glob.replaceAll("*", "\\d+").replaceAll(".", "\\.")`: no `*` is left,
   * and every other character of the glob still occurs.
   */
  function FilePattern(glob: string): (r: string)
    ensures '*' !in r
    ensures forall c :: c in glob && c != '*' ==> c in r
  {
    ReplaceAll(ReplaceAll(glob, '*', "\\d+"), '.', "\\.")
  }

  /** One element of a release file glob, or of the expression built from it. */
  datatype PatternToken =
    | Digits       // `*` in the glob, `\d+` in the expression
    | Dot          // `.` in the glob, `\.` in the expression
    | AnyChar      // an unescaped `.` in the expression
    | Char(c: char)

  /** What one glob character means: `*` a version number, `.` itself. */
  function GlobToken(c: char): PatternToken {
    if c == '*' then Digits else if c == '.' then Dot else Char(c)
  }

  /**
   * How the glob is meant, the reference reading of the expression: one
   * token per character, each the meaning of the character at that place.
   */
  function GlobTokens(glob: string): (r: seq<PatternToken>)
    ensures |r| == |glob|
    ensures forall i :: 0 <= i < |glob| ==> r[i] == GlobToken(glob[i])
  {
    if glob == [] then []
    else [GlobToken(glob[0])] + GlobTokens(glob[1..])
  }

  /**
   * How a regular-expression engine reads the built expression, for the
   * few constructs it can contain: `\d+`, `\.`, a bare `.`, and literals.
   */
  function ReadPattern(r: string): Option<seq<PatternToken>>
    decreases |r|
  {
    if r == [] then Some([])
    else if HasPrefix(r, "\\d+") then Prepend(Digits, ReadPattern(r[3..]))
    else if HasPrefix(r, "\\.") then Prepend(Dot, ReadPattern(r[2..]))
    else if r[0] == '\\' then None
    else if r[0] == '.' then Prepend(AnyChar, ReadPattern(r[1..]))
    else Prepend(Char(r[0]), ReadPattern(r[1..]))
  }

  function Prepend(t: PatternToken, rest: Option<seq<PatternToken>>): Option<seq<PatternToken>> {
    if rest.Some? then Some([t] + rest.value) else None
  }

  /** The encoding of one glob character. */
  function EncodeChar(c: char): string {
    if c == '*' then "\\d+" else if c == '.' then "\\." else [c]
  }

  lemma {:induction false} ReplaceAllAppend(a: string, b: string, c: char, rep: string)
    ensures ReplaceAll(a + b, c, rep) == ReplaceAll(a, c, rep) + ReplaceAll(b, c, rep)
    decreases |a|
  {
    if a != [] {
      assert (a + b)[1..] == a[1..] + b;
      ReplaceAllAppend(a[1..], b, c, rep);
    } else {
      assert a + b == b;
    }
  }

  /** The pattern is built character by character. */
  lemma {:induction false} FilePatternCons(glob: string)
    requires glob != []
    ensures FilePattern(glob) == EncodeChar(glob[0]) + FilePattern(glob[1..])
  {
    var c := glob[0];
    var inner := ReplaceAll(glob[1..], '*', "\\d+");
    var head := if c == '*' then "\\d+" else [c];
    assert ReplaceAll(glob, '*', "\\d+") == head + inner;
    ReplaceAllAppend(head, inner, '.', "\\.");
    if c == '*' {
      assert ReplaceAll("\\d+", '.', "\\.") == "\\d+";
    } else if c == '.' {
      assert ReplaceAll(".", '.', "\\.") == "\\.";
    } else {
      assert ReplaceAll([c], '.', "\\.") == [c];
    }
  }

  /** One encoded character is read back as that character's meaning, ahead of what follows. */
  lemma ReadEncodedChar(c: char, rest: string)
    requires c != '\\'
    ensures ReadPattern(EncodeChar(c) + rest) == Prepend(GlobToken(c), ReadPattern(rest))
  {
    var r := EncodeChar(c) + rest;
    if c == '*' {
      assert HasPrefix(r, "\\d+") && r[3..] == rest;
    } else if c == '.' {
      assert r[1] == '.' && "\\d+"[1] == 'd';
      assert !HasPrefix(r, "\\d+") && HasPrefix(r, "\\.") && r[2..] == rest;
    } else {
      assert r[0] == c && r[1..] == rest;
      assert !HasPrefix(r, "\\d+") && !HasPrefix(r, "\\.");
    }
  }

  /**
   * For a glob without backslashes, the built expression reads back as the
   * glob meant: every `*` became a digit run, every `.` a literal dot, and
   * no bare `.` (any character) remains.
   */
  lemma {:induction false} FilePatternReadsAsGlob(glob: string)
    requires '\\' !in glob
    ensures ReadPattern(FilePattern(glob)) == Some(GlobTokens(glob))
    decreases |glob|
  {
    if glob == [] {
      assert FilePattern(glob) == [];
    } else {
      FilePatternCons(glob);
      assert '\\' !in glob[1..] by {
        assert forall i :: 0 <= i < |glob[1..]| ==> glob[1..][i] == glob[i + 1];
      }
      FilePatternReadsAsGlob(glob[1..]);
      ReadEncodedChar(glob[0], FilePattern(glob[1..]));
    }
  }

  // ---------------------------------------------------------------------
  // The profile registry

  class App {
    /** The module-level `profileMap`. */
    var profiles: map<string, Profile>
    /** Host calls made on sessions directly rather than through a profile. */
    var log: seq<HostCall>

    /** Every registered profile belongs to its key's partition and session. */
    ghost predicate Valid()
      reads this, profiles.Values
    {
      forall p :: p in profiles ==> profiles[p].partition == p && profiles[p].session == FromPartition(p)
    }

    constructor ()
      ensures profiles == map[] && log == []
      ensures Valid()
    {
      profiles := map[];
      log := [];
    }

    /** `getProfile`: created on the first request, the same object afterwards. */
    method GetProfile(partition: string) returns (profile: Profile)
      requires Valid()
      modifies this`profiles
      ensures Valid()
      ensures profiles.Keys == old(profiles).Keys + {partition}
      ensures profile == profiles[partition]
      ensures forall p :: p in old(profiles) ==> profiles[p] == old(profiles)[p]
      ensures partition in old(profiles) ==> profiles == old(profiles)
      ensures partition !in old(profiles) ==>
                && fresh(profile) && profile.session == FromPartition(partition)
                && !profile.ready && profile.proxyOptions.None? && profile.log == []
    {
      if partition !in profiles {
        var created := new Profile(partition);
        profiles := profiles[partition := created];
      }
      profile := profiles[partition];
    }

    /**
     * `setupSession(data)`: initialize the profile, configure its proxy
     * when options are given, then find or load the extension.
     */
    method SetupSession(partition: string, proxyOptions: Option<ProxyOptions>, extensionPath: Option<string>,
                        loaded: seq<Extension>, loadResult: Option<Extension>, setProxyOk: bool)
      returns (extension: Option<Extension>, preload: string)
      requires Valid()
      modifies this`profiles, profiles.Values
      ensures Valid()
      ensures profiles.Keys == old(profiles).Keys + {partition}
      ensures forall p :: p in old(profiles) ==> profiles[p] == old(profiles)[p]
      ensures forall p :: p in old(profiles) && p != partition ==> unchanged(old(profiles)[p])
      ensures var pr := profiles[partition];
              var known := partition in old(profiles);
              var stored := if known then old(profiles[partition].proxyOptions) else None;
              && pr.ready
              && pr.proxyOptions == (if proxyOptions.Some? then ProxyOptionsAfter(stored, proxyOptions.value, setProxyOk) else stored)
              && pr.log == (if known then old(profiles[partition].log) else [])
                           + (if known && old(profiles[partition].ready) then [] else ListenerCalls(pr.session))
                           + (if proxyOptions.Some? then ConfigureProxyCalls(pr.session, stored, proxyOptions.value) else [])
                           + (if ExtensionLoads(extensionPath, loaded) then [LoadExtension(pr.session, extensionPath.value)] else [])
      ensures extension == ExtensionLookup(extensionPath, loaded, loadResult)
      ensures preload == PreloadUrl
    {
      var profile := GetProfile(partition);
      profile.Initialize();
      if proxyOptions.Some? {
        profile.ConfigureProxy(proxyOptions.value, setProxyOk);
      }
      extension, preload := profile.GetExtension(extensionPath, loaded, loadResult);
    }

    /** `configureProxy`: always through an initialized profile. */
    method ConfigureProxy(partition: string, options: ProxyOptions, setProxyOk: bool)
      requires Valid()
      modifies this`profiles, profiles.Values
      ensures Valid()
      ensures profiles.Keys == old(profiles).Keys + {partition}
      ensures forall p :: p in old(profiles) ==> profiles[p] == old(profiles)[p]
      ensures forall p :: p in old(profiles) && p != partition ==> unchanged(old(profiles)[p])
      ensures var pr := profiles[partition];
              var known := partition in old(profiles);
              var stored := if known then old(profiles[partition].proxyOptions) else None;
              && pr.ready
              && pr.proxyOptions == ProxyOptionsAfter(stored, options, setProxyOk)
              && pr.log == (if known then old(profiles[partition].log) else [])
                           + (if known && old(profiles[partition].ready) then [] else ListenerCalls(pr.session))
                           + ConfigureProxyCalls(pr.session, stored, options)
    {
      var profile := GetProfile(partition);
      profile.Initialize();
      profile.ConfigureProxy(options, setProxyOk);
    }

    /**
     * `removeSession`: destroy and forget the profile if there is one, then
     * clear the session's cache and storage and remove its storage path
     * (`storagePath` is what `getStoragePath` reports).
     */
    method RemoveSession(partition: string, storagePath: string, preloadIds: seq<string>, extensions: seq<Extension>)
      requires Valid()
      modifies this, profiles.Values
      ensures Valid()
      ensures profiles == old(profiles) - {partition}
      ensures forall p :: p in profiles ==> unchanged(profiles[p])
      ensures partition in old(profiles) ==>
                old(profiles)[partition].log
                == old(profiles[partition].log) + DestroyCalls(FromPartition(partition), preloadIds, extensions)
      ensures var s := FromPartition(partition);
              log == old(log) + [ClearCache(s), ClearStorageData(s), RemoveDirectory(storagePath)]
    {
      if partition in profiles {
        profiles[partition].Destroy(preloadIds, extensions);
        profiles := profiles - {partition};
      }
      var ses := FromPartition(partition);
      log := log + [ClearCache(ses)];
      log := log + [ClearStorageData(ses)];
      log := log + [RemoveDirectory(storagePath)];
    }
  }
}
