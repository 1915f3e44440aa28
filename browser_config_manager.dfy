/** The Windows helper's browser configuration
    (native-host-windows/TabSwitcher/Services/BrowserConfigManager.cs): the
    list of browsers with their extension ids and switches, merged from the
    built-in or cached remote list and the saved file, and the native
    messaging registrations derived from it. Files and registry are values:
    the saved configuration, a map from registry key to manifest path, and a
    map from manifest path to the extension origins it allows. */
module WinBrowserConfig {
  import opened Common
  import opened WinBrowserInfo
  import ShortcutConfig

  const NativeMessagingHostName: string := "com.tabswitcher.native"
  const ManifestFileName: string := "com.tabswitcher.native.json"
  /** Constants.AppDataDir, with the user's folder left symbolic. */
  const AppDataDir: string := "%APPDATA%\\TabSwitcher"
  const ManifestDir: string := AppDataDir + "\\manifests"
  /** The one manifest file every browser's registration is written to. */
  const SharedManifestPath: string := ManifestDir + "\\" + ManifestFileName

  function Known(id: string, name: string, appName: string, exeName: string, registryKey: string, paths: seq<string>): BrowserInfo {
    BrowserInfo(id, name, appName, exeName, registryKey, paths, None, false, false)
  }

  /** The built-in list, used when no remote list is cached. */
  const KnownBrowsers: seq<BrowserInfo> := [
    Known("com.google.Chrome", "Google Chrome", "Google Chrome", "chrome.exe", "SOFTWARE\\Google\\Chrome\\NativeMessagingHosts",
          ["%PROGRAMFILES%\\Google\\Chrome\\Application\\chrome.exe", "%LOCALAPPDATA%\\Google\\Chrome\\Application\\chrome.exe"]),
    Known("com.brave.Browser", "Brave", "Brave Browser", "brave.exe", "SOFTWARE\\BraveSoftware\\Brave-Browser\\NativeMessagingHosts",
          ["%PROGRAMFILES%\\BraveSoftware\\Brave-Browser\\Application\\brave.exe", "%LOCALAPPDATA%\\BraveSoftware\\Brave-Browser\\Application\\brave.exe"]),
    Known("com.microsoft.edgemac", "Microsoft Edge", "Microsoft Edge", "msedge.exe", "SOFTWARE\\Microsoft\\Edge\\NativeMessagingHosts",
          ["%PROGRAMFILES(X86)%\\Microsoft\\Edge\\Application\\msedge.exe", "%PROGRAMFILES%\\Microsoft\\Edge\\Application\\msedge.exe"]),
    Known("com.vivaldi.Vivaldi", "Vivaldi", "Vivaldi", "vivaldi.exe", "SOFTWARE\\Vivaldi\\NativeMessagingHosts",
          ["%LOCALAPPDATA%\\Vivaldi\\Application\\vivaldi.exe"]),
    Known("com.operasoftware.Opera", "Opera", "Opera", "opera.exe", "SOFTWARE\\Google\\Chrome\\NativeMessagingHosts",
          ["%LOCALAPPDATA%\\Programs\\Opera\\opera.exe"]),
    Known("com.operasoftware.OperaGX", "Opera GX", "Opera GX", "opera.exe", "SOFTWARE\\Google\\Chrome\\NativeMessagingHosts",
          ["%LOCALAPPDATA%\\Programs\\Opera GX\\opera.exe"]),
    Known("org.chromium.Chromium", "Chromium", "Chromium", "chrome.exe", "SOFTWARE\\Chromium\\NativeMessagingHosts",
          ["%LOCALAPPDATA%\\Chromium\\Application\\chrome.exe"]),
    Known("org.chromium.Thorium", "Thorium", "Thorium", "thorium.exe", "SOFTWARE\\Thorium\\NativeMessagingHosts",
          ["%PROGRAMFILES%\\Thorium\\Application\\thorium.exe"])
  ]

  /** The guess tables used for remote definitions without Windows details
      agree with the built-in list on every built-in browser. */
  lemma GuessesMatchKnownBrowsers()
    ensures forall i :: 0 <= i < |KnownBrowsers| ==>
      GuessBrowserExeName(KnownBrowsers[i].id) == KnownBrowsers[i].exeName &&
      GuessBrowserRegistryKey(KnownBrowsers[i].id) == KnownBrowsers[i].registryKey
  {
    ExeGuessesMatchKnownBrowsers();
    KeyGuessesMatchKnownBrowsers();
  }

  lemma ExeGuessesMatchKnownBrowsers()
    ensures forall i :: 0 <= i < |KnownBrowsers| ==> GuessBrowserExeName(KnownBrowsers[i].id) == KnownBrowsers[i].exeName
  {
  }

  lemma KeyGuessesMatchKnownBrowsers()
    ensures forall i :: 0 <= i < |KnownBrowsers| ==> GuessBrowserRegistryKey(KnownBrowsers[i].id) == KnownBrowsers[i].registryKey
  {
  }

  /** BaseBrowserList: the cached remote list when it has entries, converted
      with FromDefinition; otherwise a copy of the built-in list. A cache that
      is missing, unreadable or empty is None or []. */
  function BaseBrowserList(cache: Option<seq<BrowserDefinition>>): (r: seq<BrowserInfo>)
    ensures cache.Some? && |cache.value| > 0 ==>
      |r| == |cache.value| && forall i :: 0 <= i < |r| ==> r[i] == FromDefinition(cache.value[i])
    ensures !(cache.Some? && |cache.value| > 0) ==> r == KnownBrowsers
    ensures forall i :: 0 <= i < |r| ==> !r[i].isEnabled && r[i].extensionId.None? && !r[i].combineAllWindows
  {
    if cache.Some? && |cache.value| > 0 then
      var defs := cache.value;
      seq(|defs|, i requires 0 <= i < |defs| => FromDefinition(defs[i]))
    else KnownBrowsers
  }

  /** `FirstOrDefault(b => b.Id == id)`, as an index. */
  function FirstWithId(s: seq<BrowserInfo>, id: string): (r: Option<nat>)
    ensures r.None? <==> forall k :: 0 <= k < |s| ==> s[k].id != id
    ensures r.Some? ==> r.value < |s| && s[r.value].id == id && forall k :: 0 <= k < r.value ==> s[k].id != id
  {
    if |s| == 0 then None
    else if s[0].id == id then Some(0)
    else match FirstWithId(s[1..], id)
      case None => None
      case Some(k) => Some(k + 1)
  }

  /** The first merge loop's effect on one base entry: the extension id and
      the two switches of the first saved entry with the same id. */
  function MergeEntry(b: BrowserInfo, saved: seq<BrowserInfo>): BrowserInfo {
    match FirstWithId(saved, b.id)
    case None => b
    case Some(j) => b.(extensionId := saved[j].extensionId, isEnabled := saved[j].isEnabled,
                       combineAllWindows := saved[j].combineAllWindows)
  }

  /** The second loop: each enabled saved entry whose id is not yet in the
      growing list is appended, in the saved order. */
  function AppendEnabled(acc: seq<BrowserInfo>, saved: seq<BrowserInfo>): (r: seq<BrowserInfo>)
    ensures |acc| <= |r| && r[..|acc|] == acc
    decreases |saved|
  {
    if |saved| == 0 then acc
    else
      var next := if saved[0].isEnabled && FirstWithId(acc, saved[0].id).None? then acc + [saved[0]] else acc;
      var r := AppendEnabled(next, saved[1..]);
      assert r[..|next|] == next;
      assert r[..|acc|] == next[..|acc|];
      r
  }

  /** LoadConfig's result: the base list, merged with the saved file when it
      could be read. */
  function Loaded(saved: Option<seq<BrowserInfo>>, cache: Option<seq<BrowserDefinition>>): (r: seq<BrowserInfo>)
    ensures saved.None? ==> r == BaseBrowserList(cache)
    ensures |BaseBrowserList(cache)| <= |r|
  {
    var base := BaseBrowserList(cache);
    if saved.None? then base
    else
      var merged := seq(|base|, i requires 0 <= i < |base| => MergeEntry(base[i], saved.value));
      AppendEnabled(merged, saved.value)
  }

  /** Every entry the second loop appends is an enabled saved entry, and no
      id is appended twice or duplicates one already in the list. */
  lemma {:induction false} AppendedAreEnabledSavedAndNew(acc: seq<BrowserInfo>, saved: seq<BrowserInfo>)
    ensures forall k :: |acc| <= k < |AppendEnabled(acc, saved)| ==>
      AppendEnabled(acc, saved)[k] in saved && AppendEnabled(acc, saved)[k].isEnabled
    ensures forall k, m :: 0 <= m < |AppendEnabled(acc, saved)| && |acc| <= k < |AppendEnabled(acc, saved)| && m != k ==>
      AppendEnabled(acc, saved)[m].id != AppendEnabled(acc, saved)[k].id
    decreases |saved|
  {
    if |saved| > 0 {
      var next := if saved[0].isEnabled && FirstWithId(acc, saved[0].id).None? then acc + [saved[0]] else acc;
      AppendedAreEnabledSavedAndNew(next, saved[1..]);
      var r := AppendEnabled(acc, saved);
      assert r == AppendEnabled(next, saved[1..]);
      assert r[..|next|] == next;
      forall k | |acc| <= k < |r|
        ensures r[k] in saved && r[k].isEnabled
      {
        if k < |next| {
          assert r[k] == next[k] == saved[0];
        } else {
          assert r[k] in saved[1..];
        }
      }
      forall k, m | 0 <= m < |r| && |acc| <= k < |r| && m != k
        ensures r[m].id != r[k].id
      {
        if k < |next| {
          assert k == |acc| && r[k] == saved[0];
          if m < |acc| {
            assert r[m] == acc[m];
          } else {
            assert m >= |next|;
          }
        } else if m >= |next| {
        } else {
          assert r[k].id != next[m].id;
        }
      }
    }
  }

  /** Every enabled saved entry's id is present after the second loop. */
  lemma {:induction false} EnabledSavedIdsKept(acc: seq<BrowserInfo>, saved: seq<BrowserInfo>, j: nat)
    requires j < |saved| && saved[j].isEnabled
    ensures FirstWithId(AppendEnabled(acc, saved), saved[j].id).Some?
    decreases |saved|
  {
    var next := if saved[0].isEnabled && FirstWithId(acc, saved[0].id).None? then acc + [saved[0]] else acc;
    var r := AppendEnabled(acc, saved);
    assert r == AppendEnabled(next, saved[1..]);
    if j == 0 {
      var k := FirstWithId(next, saved[0].id);
      assert k.Some? by {
        if FirstWithId(acc, saved[0].id).None? {
          assert next[|acc|] == saved[0];
        }
      }
      assert r[..|next|] == next;
      assert r[k.value] == next[k.value];
    } else {
      assert saved[1..][j - 1] == saved[j];
      EnabledSavedIdsKept(next, saved[1..], j - 1);
    }
  }

  /** The merge: base entries keep their order and their own fields but take
      the extension id and switches of the first saved entry with their id;
      after them come enabled saved entries with new ids, and every enabled
      saved id is present. Without a saved file the base list is the result. */
  lemma LoadedShape(saved: Option<seq<BrowserInfo>>, cache: Option<seq<BrowserDefinition>>)
    ensures var base := BaseBrowserList(cache); var r := Loaded(saved, cache);
      |base| <= |r| &&
      (forall i :: 0 <= i < |base| ==> r[i] == (if saved.Some? then MergeEntry(base[i], saved.value) else base[i])) &&
      (saved.None? ==> r == base) &&
      (saved.Some? ==> forall k :: |base| <= k < |r| ==> r[k] in saved.value && r[k].isEnabled) &&
      (saved.Some? ==> forall j :: 0 <= j < |saved.value| && saved.value[j].isEnabled ==> FirstWithId(r, saved.value[j].id).Some?)
  {
    if saved.Some? {
      var base := BaseBrowserList(cache);
      var merged := seq(|base|, i requires 0 <= i < |base| => MergeEntry(base[i], saved.value));
      AppendedAreEnabledSavedAndNew(merged, saved.value);
      var r := Loaded(saved, cache);
      assert r[..|merged|] == merged;
      forall i | 0 <= i < |base|
        ensures r[i] == MergeEntry(base[i], saved.value)
      {
        assert r[i] == r[..|merged|][i];
      }
      forall j | 0 <= j < |saved.value| && saved.value[j].isEnabled
        ensures FirstWithId(r, saved.value[j].id).Some?
      {
        EnabledSavedIdsKept(merged, saved.value, j);
      }
    }
  }

  /** The ids of the enabled entries. */
  function EnabledBrowserIds(browsers: seq<BrowserInfo>): (r: set<string>)
    ensures forall id :: id in r <==> exists i :: 0 <= i < |browsers| && browsers[i].isEnabled && browsers[i].id == id
  {
    set i | 0 <= i < |browsers| && browsers[i].isEnabled :: browsers[i].id
  }

  // ---------------------------------------------------------------- registrations

  /** The registry key of a browser's registration. */
  function KeyPath(b: BrowserInfo): string {
    b.registryKey + "\\" + NativeMessagingHostName
  }

  /** The entry is registered: enabled, with a non-empty extension id. */
  predicate Registers(b: BrowserInfo) {
    b.isEnabled && b.extensionId.Some? && |b.extensionId.value| > 0
  }

  function Origin(extensionId: string): string {
    "chrome-extension://" + extensionId + "/"
  }

  /** Registry and manifests: what each key points to, and the origins each
      manifest file allows. */
  datatype Registrations = Registrations(registry: map<string, string>, manifests: map<string, seq<string>>)

  /** UpdateManifests' work for one browser as written: the shared manifest
      is overwritten with this browser's origin and its key points to it, or
      its key is deleted. */
  function StepAsWritten(r: Registrations, b: BrowserInfo): Registrations {
    if Registers(b) then
      Registrations(r.registry[KeyPath(b) := SharedManifestPath],
                    r.manifests[SharedManifestPath := [Origin(b.extensionId.value)]])
    else
      Registrations(r.registry - {KeyPath(b)}, r.manifests)
  }

  /** The registrations after UpdateManifests as written, which walks the list in order. */
  function RegisteredAsWritten(r: Registrations, bs: seq<BrowserInfo>): (out: Registrations)
    ensures forall key :: key in out.registry ==> key in r.registry || out.registry[key] == SharedManifestPath
    decreases |bs|
  {
    if |bs| == 0 then r else StepAsWritten(RegisteredAsWritten(r, bs[..|bs| - 1]), bs[|bs| - 1])
  }

  /** The last entry of the list with the given key. */
  function LastWithKey(bs: seq<BrowserInfo>, key: string): (r: Option<nat>)
    ensures r.Some? ==> r.value < |bs| && KeyPath(bs[r.value]) == key && forall k :: r.value < k < |bs| ==> KeyPath(bs[k]) != key
    ensures r.None? ==> forall k :: 0 <= k < |bs| ==> KeyPath(bs[k]) != key
    decreases |bs|
  {
    if |bs| == 0 then None
    else if KeyPath(bs[|bs| - 1]) == key then Some(|bs| - 1)
    else LastWithKey(bs[..|bs| - 1], key)
  }

  /** As written, the last entry with a key decides it alone: the key is
      present iff that entry registers, and then points to the shared file. */
  lemma {:induction false} LastEntryDecidesKeyAsWritten(r: Registrations, bs: seq<BrowserInfo>, key: string)
    ensures var out := RegisteredAsWritten(r, bs);
      match LastWithKey(bs, key)
      case None => (key in out.registry <==> key in r.registry) && (key in r.registry ==> out.registry[key] == r.registry[key])
      case Some(j) => (key in out.registry <==> Registers(bs[j])) && (Registers(bs[j]) ==> out.registry[key] == SharedManifestPath)
    decreases |bs|
  {
    if |bs| > 0 {
      LastEntryDecidesKeyAsWritten(r, bs[..|bs| - 1], key);
      if KeyPath(bs[|bs| - 1]) != key {
        assert forall k :: 0 <= k < |bs| - 1 ==> bs[..|bs| - 1][k] == bs[k];
      }
    }
  }

  /** Counterexample: with the built-in list and only Chrome enabled, the
      disabled Opera GX entry, which shares Chrome's key and comes later,
      deletes Chrome's registration. */
  lemma ChromeAloneIsUnregisteredAsWritten()
    ensures var bs := KnownBrowsers[0 := KnownBrowsers[0].(extensionId := Some("abc"), isEnabled := true)];
      KeyPath(bs[0]) !in RegisteredAsWritten(Registrations(map[], map[]), bs).registry
  {
    var bs := KnownBrowsers[0 := KnownBrowsers[0].(extensionId := Some("abc"), isEnabled := true)];
    assert KeyPath(bs[7]) != KeyPath(bs[0]) && KeyPath(bs[6]) != KeyPath(bs[0]);
    assert KeyPath(bs[5]) == KeyPath(bs[0]);
    assert bs[..7][..6] == bs[..6];
    assert LastWithKey(bs, KeyPath(bs[0])) == Some(5);
    LastEntryDecidesKeyAsWritten(Registrations(map[], map[]), bs, KeyPath(bs[0]));
  }

  /** The last entry of the list that registers. */
  function LastRegistering(bs: seq<BrowserInfo>): (r: Option<nat>)
    ensures r.Some? ==> r.value < |bs| && Registers(bs[r.value]) && forall k :: r.value < k < |bs| ==> !Registers(bs[k])
    ensures r.None? ==> forall k :: 0 <= k < |bs| ==> !Registers(bs[k])
    decreases |bs|
  {
    if |bs| == 0 then None
    else if Registers(bs[|bs| - 1]) then Some(|bs| - 1)
    else LastRegistering(bs[..|bs| - 1])
  }

  /** As written, the shared manifest ends up allowing the last registering
      entry's origin alone, whichever keys point to it. */
  lemma {:induction false} SharedManifestIsLastAsWritten(r: Registrations, bs: seq<BrowserInfo>)
    ensures var out := RegisteredAsWritten(r, bs);
      match LastRegistering(bs)
      case None => out.manifests == r.manifests
      case Some(j) => SharedManifestPath in out.manifests && out.manifests[SharedManifestPath] == [Origin(bs[j].extensionId.value)]
    decreases |bs|
  {
    if |bs| > 0 && !Registers(bs[|bs| - 1]) {
      SharedManifestIsLastAsWritten(r, bs[..|bs| - 1]);
      assert forall k :: 0 <= k < |bs| - 1 ==> bs[..|bs| - 1][k] == bs[k];
    }
  }

  /** Different registry keys give different registration keys. */
  lemma KeyPathsDiffer(a: BrowserInfo, b: BrowserInfo)
    requires a.registryKey != b.registryKey
    ensures KeyPath(a) != KeyPath(b)
  {
    var z := "\\" + NativeMessagingHostName;
    assert KeyPath(a) == a.registryKey + z && KeyPath(b) == b.registryKey + z;
    if KeyPath(a) == KeyPath(b) {
      SuffixCancels(a.registryKey, b.registryKey, z);
    }
  }

  lemma SuffixCancels(x: string, y: string, z: string)
    requires x + z == y + z
    ensures x == y
  {
    assert x == (x + z)[..|x|];
  }

  /** No built-in browser after Brave uses Brave's registry key. */
  lemma BraveKeyIsItsOwn()
    ensures forall j :: 1 < j < |KnownBrowsers| ==> KnownBrowsers[j].registryKey != KnownBrowsers[1].registryKey
  {
  }

  /** Counterexample: with Brave and Edge both enabled with different
      extensions, Brave's key points to a manifest allowing only Edge's. */
  lemma SharedManifestAllowsOnlyLastAsWritten()
    ensures var bs := KnownBrowsers[1 := KnownBrowsers[1].(extensionId := Some("aaa"), isEnabled := true)]
                                   [2 := KnownBrowsers[2].(extensionId := Some("bbb"), isEnabled := true)];
      var out := RegisteredAsWritten(Registrations(map[], map[]), bs);
      KeyPath(bs[1]) in out.registry && out.registry[KeyPath(bs[1])] in out.manifests &&
      Origin("aaa") !in out.manifests[out.registry[KeyPath(bs[1])]]
  {
    var bs := KnownBrowsers[1 := KnownBrowsers[1].(extensionId := Some("aaa"), isEnabled := true)]
                           [2 := KnownBrowsers[2].(extensionId := Some("bbb"), isEnabled := true)];
    var r0 := Registrations(map[], map[]);
    var k := KeyPath(bs[1]);
    BraveKeyIsItsOwn();
    forall j | 1 < j < |bs|
      ensures KeyPath(bs[j]) != k
    {
      KeyPathsDiffer(bs[j], bs[1]);
    }
    assert LastWithKey(bs, k) == Some(1);
    LastEntryDecidesKeyAsWritten(r0, bs, k);
    assert Registers(bs[2]) && forall j :: 2 < j < |bs| ==> !Registers(bs[j]);
    assert LastRegistering(bs) == Some(2);
    SharedManifestIsLastAsWritten(r0, bs);
    assert Origin("aaa")[19] != Origin("bbb")[19];
  }

  /** The manifest file of one registry key in the corrected registration. */
  function ManifestPathForKey(key: string): string {
    ManifestDir + "\\" + key + ".json"
  }

  lemma ManifestPathsDiffer(k1: string, k2: string)
    requires k1 != k2
    ensures ManifestPathForKey(k1) != ManifestPathForKey(k2)
  {
    var p := ManifestDir + "\\";
    assert ManifestPathForKey(k1)[|p|..|p| + |k1|] == k1;
    assert ManifestPathForKey(k2)[|p|..|p| + |k2|] == k2;
    assert |ManifestPathForKey(k1)| == |p| + |k1| + 5;
    assert |ManifestPathForKey(k2)| == |p| + |k2| + 5;
  }

  /** The origins of every registered entry with the given key, in order. */
  function OriginsForKey(bs: seq<BrowserInfo>, key: string): (r: seq<string>)
    decreases |bs|
  {
    if |bs| == 0 then []
    else OriginsForKey(bs[..|bs| - 1], key) +
         (if Registers(bs[|bs| - 1]) && KeyPath(bs[|bs| - 1]) == key then [Origin(bs[|bs| - 1].extensionId.value)] else [])
  }

  lemma {:induction false} OriginsForKeyHasEach(bs: seq<BrowserInfo>, i: nat)
    requires i < |bs| && Registers(bs[i])
    ensures Origin(bs[i].extensionId.value) in OriginsForKey(bs, KeyPath(bs[i]))
    decreases |bs|
  {
    if i < |bs| - 1 {
      assert bs[..|bs| - 1][i] == bs[i];
      OriginsForKeyHasEach(bs[..|bs| - 1], i);
    }
  }

  /** The corrected registration state of one key: registered, pointing to a
      manifest of its own that allows every registered browser sharing the
      key, or absent when none of them is registered. */
  predicate KeyDecided(r: Registrations, bs: seq<BrowserInfo>, key: string) {
    var origins := OriginsForKey(bs, key);
    if |origins| > 0 then
      key in r.registry && r.registry[key] == ManifestPathForKey(key) &&
      ManifestPathForKey(key) in r.manifests && r.manifests[ManifestPathForKey(key)] == origins
    else key !in r.registry
  }

  /** Some entry's key names the manifest file `p` in the corrected
      registration. */
  predicate ManifestPathUsed(bs: seq<BrowserInfo>, p: string)
    decreases |bs|
  {
    |bs| > 0 && (ManifestPathForKey(KeyPath(bs[|bs| - 1])) == p || ManifestPathUsed(bs[..|bs| - 1], p))
  }

  lemma {:induction false} ManifestPathUsedByEach(bs: seq<BrowserInfo>, i: nat)
    requires i < |bs|
    ensures ManifestPathUsed(bs, ManifestPathForKey(KeyPath(bs[i])))
    decreases |bs|
  {
    if i < |bs| - 1 {
      assert bs[..|bs| - 1][i] == bs[i];
      ManifestPathUsedByEach(bs[..|bs| - 1], i);
    }
  }

  /** The corrected registration of one key: pointed to a manifest of its
      own allowing every registered entry that uses it, or deleted when none
      does. */
  function DecideKey(r: Registrations, bs: seq<BrowserInfo>, key: string): Registrations {
    var origins := OriginsForKey(bs, key);
    if |origins| > 0 then
      Registrations(r.registry[key := ManifestPathForKey(key)], r.manifests[ManifestPathForKey(key) := origins])
    else Registrations(r.registry - {key}, r.manifests)
  }

  /** From `r0` to `r`, no key that the list does not use and no manifest
      file that its keys do not name has changed. */
  ghost predicate UnusedKept(r0: Registrations, r: Registrations, bs: seq<BrowserInfo>) {
    (forall key :: LastWithKey(bs, key).None? ==>
       (key in r.registry <==> key in r0.registry) && (key in r.registry ==> r.registry[key] == r0.registry[key])) &&
    (forall p :: !ManifestPathUsed(bs, p) ==>
       (p in r.manifests <==> p in r0.manifests) && (p in r.manifests ==> r.manifests[p] == r0.manifests[p]))
  }

  lemma DecideKeyKeepsUnused(r0: Registrations, r: Registrations, bs: seq<BrowserInfo>, i: nat)
    requires i < |bs| && UnusedKept(r0, r, bs)
    ensures UnusedKept(r0, DecideKey(r, bs, KeyPath(bs[i])), bs)
  {
    var key := KeyPath(bs[i]);
    var out := DecideKey(r, bs, key);
    ManifestPathUsedByEach(bs, i);
    forall k | LastWithKey(bs, k).None?
      ensures (k in out.registry <==> k in r0.registry) && (k in out.registry ==> out.registry[k] == r0.registry[k])
    {
      assert k != key;
    }
    forall p | !ManifestPathUsed(bs, p)
      ensures (p in out.manifests <==> p in r0.manifests) && (p in out.manifests ==> out.manifests[p] == r0.manifests[p])
    {
      assert p != ManifestPathForKey(key);
    }
  }

  lemma DecideKeyKeepsDecided(r: Registrations, bs: seq<BrowserInfo>, i: nat)
    requires i < |bs|
    requires forall j :: 0 <= j < i ==> KeyDecided(r, bs, KeyPath(bs[j]))
    ensures forall j :: 0 <= j <= i ==> KeyDecided(DecideKey(r, bs, KeyPath(bs[i])), bs, KeyPath(bs[j]))
  {
    var key := KeyPath(bs[i]);
    forall j | 0 <= j <= i
      ensures KeyDecided(DecideKey(r, bs, key), bs, KeyPath(bs[j]))
    {
      var other := KeyPath(bs[j]);
      if other != key {
        assert KeyDecided(r, bs, other);
        ManifestPathsDiffer(other, key);
      }
    }
  }

  /** The manager. */
  class BrowserConfigManager {
    var browsers: seq<BrowserInfo>
    var shortcuts: ShortcutConfig.ShortcutsConfiguration
    /** The saved configuration file, once written. */
    var savedConfig: Option<seq<BrowserInfo>>
    var registrations: Registrations

    constructor (registrations: Registrations)
      ensures browsers == [] && shortcuts == ShortcutConfig.Defaults() && savedConfig == None
      ensures this.registrations == registrations
    {
      browsers := [];
      shortcuts := ShortcutConfig.Defaults();
      savedConfig := None;
      this.registrations := registrations;
    }

    /** LoadConfig: `saved` is the saved file's list, None when the file is
        missing, unreadable or null; `cache` the cached remote list. */
    method LoadConfig(saved: Option<seq<BrowserInfo>>, cache: Option<seq<BrowserDefinition>>)
      modifies this`browsers
      ensures browsers == Loaded(saved, cache)
    {
      var base := BaseBrowserList(cache);
      if saved.None? {
        browsers := base;
        return;
      }
      var s := saved.value;
      ghost var b0 := base;
      var i := 0;
      while i < |base|
        invariant |base| == |b0| && 0 <= i <= |base|
        invariant forall k :: 0 <= k < i ==> base[k] == MergeEntry(b0[k], s)
        invariant forall k :: i <= k < |base| ==> base[k] == b0[k]
      {
        var j := FirstWithId(s, base[i].id);
        if j.Some? {
          base := base[i := base[i].(extensionId := s[j.value].extensionId, isEnabled := s[j.value].isEnabled,
                                     combineAllWindows := s[j.value].combineAllWindows)];
        }
        i := i + 1;
      }
      ghost var merged := base;
      assert merged == seq(|b0|, i requires 0 <= i < |b0| => MergeEntry(b0[i], s));
      var k := 0;
      while k < |s|
        invariant 0 <= k <= |s|
        invariant AppendEnabled(base, s[k..]) == AppendEnabled(merged, s)
      {
        assert s[k..][0] == s[k] && s[k..][1..] == s[k + 1..];
        if s[k].isEnabled && FirstWithId(base, s[k].id).None? {
          base := base + [s[k]];
        }
        k := k + 1;
      }
      assert s[|s|..] == [];
      browsers := base;
    }

    /** LoadShortcuts: a readable, non-null file replaces the shortcuts. */
    method LoadShortcuts(loaded: Option<ShortcutConfig.ShortcutsConfiguration>)
      modifies this`shortcuts
      ensures shortcuts == if loaded.Some? then loaded.value else old(shortcuts)
    {
      if loaded.Some? {
        shortcuts := loaded.value;
      }
    }

    /** UpdateManifests, corrected: a key is written when some registered
        browser uses it, pointing to a manifest of its own that allows every
        such browser's extension, and deleted only when none does. */
    method UpdateManifests()
      modifies this`registrations
      ensures forall i :: 0 <= i < |browsers| ==> KeyDecided(registrations, browsers, KeyPath(browsers[i]))
      ensures forall i :: 0 <= i < |browsers| && Registers(browsers[i]) ==>
        KeyPath(browsers[i]) in registrations.registry &&
        registrations.registry[KeyPath(browsers[i])] in registrations.manifests &&
        Origin(browsers[i].extensionId.value) in registrations.manifests[registrations.registry[KeyPath(browsers[i])]]
      ensures forall key :: key !in old(registrations.registry) && LastWithKey(browsers, key).None? ==> key !in registrations.registry
      ensures forall key :: key in old(registrations.registry) && LastWithKey(browsers, key).None? ==>
        key in registrations.registry && registrations.registry[key] == old(registrations.registry)[key]
      ensures forall p :: !ManifestPathUsed(browsers, p) ==>
        (p in registrations.manifests <==> p in old(registrations.manifests)) &&
        (p in registrations.manifests ==> registrations.manifests[p] == old(registrations.manifests)[p])
    {
      var i := 0;
      while i < |browsers|
        invariant 0 <= i <= |browsers|
        invariant forall j :: 0 <= j < i ==> KeyDecided(registrations, browsers, KeyPath(browsers[j]))
        invariant UnusedKept(old(registrations), registrations, browsers)
      {
        var key := KeyPath(browsers[i]);
        var origins := OriginsForKey(browsers, key);
        var r := registrations;
        if |origins| > 0 {
          registrations := Registrations(r.registry[key := ManifestPathForKey(key)],
                                         r.manifests[ManifestPathForKey(key) := origins]);
        } else {
          registrations := Registrations(r.registry - {key}, r.manifests);
        }
        assert registrations == DecideKey(r, browsers, key);
        DecideKeyKeepsUnused(old(registrations), r, browsers, i);
        DecideKeyKeepsDecided(r, browsers, i);
        i := i + 1;
      }
      forall i | 0 <= i < |browsers| && Registers(browsers[i])
        ensures Origin(browsers[i].extensionId.value) in OriginsForKey(browsers, KeyPath(browsers[i]))
      {
        OriginsForKeyHasEach(browsers, i);
      }
    }

    /** UpdateManifests as written: each browser in turn overwrites the one
        shared manifest with its own origin and points its key to it, or
        deletes its key. */
    method UpdateManifestsAsWritten()
      modifies this`registrations
      ensures registrations == RegisteredAsWritten(old(registrations), browsers)
    {
      var i := 0;
      while i < |browsers|
        invariant 0 <= i <= |browsers|
        invariant registrations == RegisteredAsWritten(old(registrations), browsers[..i])
      {
        assert browsers[..i + 1][..i] == browsers[..i];
        var b := browsers[i];
        var key := KeyPath(b);
        if b.isEnabled && b.extensionId.Some? && |b.extensionId.value| > 0 {
          registrations := Registrations(registrations.registry[key := SharedManifestPath],
                                         registrations.manifests[SharedManifestPath := [Origin(b.extensionId.value)]]);
        } else {
          registrations := Registrations(registrations.registry - {key}, registrations.manifests);
        }
        i := i + 1;
      }
      assert browsers[..|browsers|] == browsers;
    }

    /** SaveConfig: write the configuration, then the registrations as
        written. */
    method SaveConfig()
      modifies this`savedConfig, this`registrations
      ensures savedConfig == Some(browsers)
      ensures registrations == RegisteredAsWritten(old(registrations), browsers)
    {
      savedConfig := Some(browsers);
      UpdateManifestsAsWritten();
    }

    /** SaveConfig with the corrected UpdateManifests: every key used by the
        list ends up decided by all the browsers sharing it. */
    method SaveConfigCorrected()
      modifies this`savedConfig, this`registrations
      ensures savedConfig == Some(browsers)
      ensures forall i :: 0 <= i < |browsers| ==> KeyDecided(registrations, browsers, KeyPath(browsers[i]))
      ensures forall key :: LastWithKey(browsers, key).None? ==>
        (key in registrations.registry <==> key in old(registrations.registry)) &&
        (key in registrations.registry ==> registrations.registry[key] == old(registrations.registry)[key])
      ensures forall p :: !ManifestPathUsed(browsers, p) ==>
        (p in registrations.manifests <==> p in old(registrations.manifests)) &&
        (p in registrations.manifests ==> registrations.manifests[p] == old(registrations.manifests)[p])
    {
      savedConfig := Some(browsers);
      UpdateManifests();
    }

    /** EnableBrowser: the first entry with the id takes the extension id and
        is enabled, then everything is saved; an unknown id changes nothing.
        As written, the enabled entry's key points to the shared manifest
        allowing its extension only when no later entry uses the same key. */
    method EnableBrowser(id: string, extensionId: string)
      modifies this`browsers, this`savedConfig, this`registrations
      ensures match FirstWithId(old(browsers), id)
        case None => browsers == old(browsers) && savedConfig == old(savedConfig) && registrations == old(registrations)
        case Some(i) => browsers == old(browsers)[i := old(browsers)[i].(extensionId := Some(extensionId), isEnabled := true)] &&
                        savedConfig == Some(browsers) &&
                        registrations == RegisteredAsWritten(old(registrations), browsers) &&
                        (|extensionId| > 0 && LastWithKey(browsers, KeyPath(browsers[i])) == Some(i) ==>
                           KeyPath(browsers[i]) in registrations.registry &&
                           registrations.registry[KeyPath(browsers[i])] == SharedManifestPath)
      ensures id in EnabledBrowserIds(browsers) <==> id in EnabledBrowserIds(old(browsers)) || FirstWithId(old(browsers), id).Some?
    {
      var j := FirstWithId(browsers, id);
      if j.Some? {
        browsers := browsers[j.value := browsers[j.value].(extensionId := Some(extensionId), isEnabled := true)];
        ghost var before := registrations;
        SaveConfig();
        LastEntryDecidesKeyAsWritten(before, browsers, KeyPath(browsers[j.value]));
      }
    }

    /** DisableBrowser: only the first entry with the id changes, and only its
        switch; then everything is saved. */
    method DisableBrowser(id: string)
      modifies this`browsers, this`savedConfig, this`registrations
      ensures match FirstWithId(old(browsers), id)
        case None => browsers == old(browsers) && savedConfig == old(savedConfig) && registrations == old(registrations)
        case Some(i) => browsers == old(browsers)[i := old(browsers)[i].(isEnabled := false)] && savedConfig == Some(browsers) &&
                        registrations == RegisteredAsWritten(old(registrations), browsers)
    {
      var j := FirstWithId(browsers, id);
      if j.Some? {
        browsers := browsers[j.value := browsers[j.value].(isEnabled := false)];
        SaveConfig();
      }
    }

    /** SetCombineWindows: only the first entry with the id changes, and only
        its switch; then everything is saved. */
    method SetCombineWindows(id: string, combine: bool)
      modifies this`browsers, this`savedConfig, this`registrations
      ensures match FirstWithId(old(browsers), id)
        case None => browsers == old(browsers) && savedConfig == old(savedConfig) && registrations == old(registrations)
        case Some(i) => browsers == old(browsers)[i := old(browsers)[i].(combineAllWindows := combine)] && savedConfig == Some(browsers) &&
                        registrations == RegisteredAsWritten(old(registrations), browsers)
    {
      var j := FirstWithId(browsers, id);
      if j.Some? {
        browsers := browsers[j.value := browsers[j.value].(combineAllWindows := combine)];
        SaveConfig();
      }
    }
  }

  /** Disabling the only entry with an id removes the id from the enabled
      ids; nothing else's enabled state changes. */
  lemma DisableRemovesId(browsers: seq<BrowserInfo>, i: nat)
    requires i < |browsers| && forall k :: 0 <= k < |browsers| && k != i ==> browsers[k].id != browsers[i].id
    ensures EnabledBrowserIds(browsers[i := browsers[i].(isEnabled := false)]) == EnabledBrowserIds(browsers) - {browsers[i].id}
  {
    var after := browsers[i := browsers[i].(isEnabled := false)];
    forall id
      ensures id in EnabledBrowserIds(after) <==> id in EnabledBrowserIds(browsers) - {browsers[i].id}
    {
      if id in EnabledBrowserIds(after) {
        var k :| 0 <= k < |after| && after[k].isEnabled && after[k].id == id;
        assert k != i && browsers[k] == after[k];
      }
      if id in EnabledBrowserIds(browsers) - {browsers[i].id} {
        var k :| 0 <= k < |browsers| && browsers[k].isEnabled && browsers[k].id == id;
        assert k != i && browsers[k] == after[k];
      }
    }
  }
}
