/** The macOS helper's browser configuration (native-host/Sources/tab-switcher/main.swift,
    BrowserInfo and BrowserConfigManager): the built-in browser list, the merge of
    the saved per-browser settings into it, the per-browser edits of the setup
    window and which native messaging manifests those settings call for. */
module MacConfig {
  import opened Common

  datatype MacBrowserInfo = MacBrowserInfo(
    id: string,                  // bundle identifier
    name: string,
    nativeMessagingPath: string, // relative to ~/Library/Application Support/
    extensionId: Option<string>,
    isEnabled: bool,
    combineAllWindows: bool)

  /** The application name shown for a bundle id; the entry's own name otherwise. */
  function AppName(b: MacBrowserInfo): (r: string)
    ensures b.id == "com.google.Chrome" ==> r == "Google Chrome"
    ensures b.id == "com.operasoftware.OperaGX" ==> r == "Opera GX"
    ensures r != b.name ==> b.id in AppNames
  {
    if b.id in AppNames then AppNames[b.id] else b.name
  }

  const AppNames: map<string, string> := map[
    "com.google.Chrome" := "Google Chrome",
    "com.brave.Browser" := "Brave Browser",
    "com.microsoft.edgemac" := "Microsoft Edge",
    "company.thebrowser.Browser" := "Arc",
    "com.vivaldi.Vivaldi" := "Vivaldi",
    "com.operasoftware.Opera" := "Opera",
    "com.operasoftware.OperaGX" := "Opera GX",
    "org.chromium.Chromium" := "Chromium",
    "com.nicklockwood.Sidekick" := "Sidekick",
    "ru.nicklockwood.Yandex" := "Yandex Browser",
    "net.imput.helium" := "Helium"]

  function Known(id: string, name: string, path: string): MacBrowserInfo {
    MacBrowserInfo(id, name, path, None, false, false)
  }

  /** The built-in list every load starts from: all disabled, no extension id. */
  const KnownBrowsers: seq<MacBrowserInfo> := [
    Known("com.google.Chrome", "Google Chrome", "Google/Chrome/NativeMessagingHosts"),
    Known("com.brave.Browser", "Brave", "BraveSoftware/Brave-Browser/NativeMessagingHosts"),
    Known("com.microsoft.edgemac", "Microsoft Edge", "Microsoft Edge/NativeMessagingHosts"),
    Known("company.thebrowser.Browser", "Arc", "Arc/User Data/NativeMessagingHosts"),
    Known("com.vivaldi.Vivaldi", "Vivaldi", "Vivaldi/NativeMessagingHosts"),
    Known("com.operasoftware.Opera", "Opera", "com.operasoftware.Opera/NativeMessagingHosts"),
    Known("com.operasoftware.OperaGX", "Opera GX", "com.operasoftware.OperaGX/NativeMessagingHosts"),
    Known("org.chromium.Chromium", "Chromium", "Chromium/NativeMessagingHosts"),
    Known("net.imput.helium", "Helium", "net.imput.helium/NativeMessagingHosts")]

  /** Index of the first entry with the given id (Swift's firstIndex(where:)). */
  function FirstWithId(s: seq<MacBrowserInfo>, id: string): (r: Option<nat>)
    ensures r.None? <==> forall k :: 0 <= k < |s| ==> s[k].id != id
    ensures r.Some? ==> r.value < |s| && s[r.value].id == id
    ensures r.Some? ==> forall k :: 0 <= k < r.value ==> s[k].id != id
  {
    if |s| == 0 then None
    else if s[0].id == id then Some(0)
    else match FirstWithId(s[1..], id)
      case None => None
      case Some(k) => Some(k + 1)
  }

  /** A built-in entry after the merge: the first saved entry with the same id
      supplies the extension id, the enabled flag and the window setting. */
  function MergeEntry(b: MacBrowserInfo, saved: seq<MacBrowserInfo>): MacBrowserInfo {
    match FirstWithId(saved, b.id)
    case None => b
    case Some(j) => b.(extensionId := saved[j].extensionId, isEnabled := saved[j].isEnabled,
                       combineAllWindows := saved[j].combineAllWindows)
  }

  function MergeSaved(base: seq<MacBrowserInfo>, saved: seq<MacBrowserInfo>): (r: seq<MacBrowserInfo>)
    ensures |r| == |base|
  {
    seq(|base|, i requires 0 <= i < |base| => MergeEntry(base[i], saved))
  }

  function EnabledBundleIds(browsers: seq<MacBrowserInfo>): (r: set<string>)
    ensures forall id :: id in r <==> exists k :: 0 <= k < |browsers| && browsers[k].id == id && browsers[k].isEnabled
  {
    set k | 0 <= k < |browsers| && browsers[k].isEnabled :: browsers[k].id
  }

  /** The manifest file for one browser is written or removed. */
  datatype ManifestAction = WriteManifest(browserId: string, extensionId: string) | RemoveManifest(browserId: string)

  function ManifestFor(b: MacBrowserInfo): ManifestAction {
    if b.isEnabled && b.extensionId.Some? && b.extensionId.value != "" then WriteManifest(b.id, b.extensionId.value)
    else RemoveManifest(b.id)
  }

  function ManifestPlan(browsers: seq<MacBrowserInfo>): (r: seq<ManifestAction>)
    ensures |r| == |browsers|
  {
    seq(|browsers|, i requires 0 <= i < |browsers| => ManifestFor(browsers[i]))
  }

  /** A manifest is written exactly for the enabled entries with a non-empty extension id. */
  lemma ManifestPlanWritesExactlyEnabled(browsers: seq<MacBrowserInfo>, i: nat)
    requires i < |browsers|
    ensures ManifestPlan(browsers)[i].WriteManifest? <==>
              browsers[i].isEnabled && browsers[i].extensionId.Some? && browsers[i].extensionId.value != ""
    ensures ManifestPlan(browsers)[i].browserId == browsers[i].id
  {
  }

  /** The merge keeps every built-in entry in place and copies exactly the three
      user settings from the first saved entry with the same id; saved entries
      that are not built in are dropped. */
  lemma MergeSavedFields(base: seq<MacBrowserInfo>, saved: seq<MacBrowserInfo>, i: nat)
    requires i < |base|
    ensures var r := MergeSaved(base, saved)[i];
      r.id == base[i].id && r.name == base[i].name && r.nativeMessagingPath == base[i].nativeMessagingPath
    ensures (forall k :: 0 <= k < |saved| ==> saved[k].id != base[i].id) ==> MergeSaved(base, saved)[i] == base[i]
    ensures forall j :: 0 <= j < |saved| && saved[j].id == base[i].id && (forall k :: 0 <= k < j ==> saved[k].id != base[i].id) ==>
      var r := MergeSaved(base, saved)[i];
      r.extensionId == saved[j].extensionId && r.isEnabled == saved[j].isEnabled && r.combineAllWindows == saved[j].combineAllWindows
  {
    var r := MergeSaved(base, saved)[i];
    forall j | 0 <= j < |saved| && saved[j].id == base[i].id && (forall k :: 0 <= k < j ==> saved[k].id != base[i].id)
      ensures r.extensionId == saved[j].extensionId && r.isEnabled == saved[j].isEnabled && r.combineAllWindows == saved[j].combineAllWindows
    {
      assert FirstWithId(saved, base[i].id) == Some(j);
    }
  }

  /** Only a built-in browser can be enabled after a load. */
  lemma EnabledAfterLoadAreKnown(saved: seq<MacBrowserInfo>)
    ensures forall id :: id in EnabledBundleIds(MergeSaved(KnownBrowsers, saved)) ==>
      exists k :: 0 <= k < |KnownBrowsers| && KnownBrowsers[k].id == id
  {
    var r := MergeSaved(KnownBrowsers, saved);
    forall id | id in EnabledBundleIds(r)
      ensures exists k :: 0 <= k < |KnownBrowsers| && KnownBrowsers[k].id == id
    {
      var k :| 0 <= k < |r| && r[k].id == id && r[k].isEnabled;
      assert r[k].id == KnownBrowsers[k].id;
    }
  }

  /** The merge loop of loadConfig: each built-in entry updated in place. */
  method MergeInto(base: seq<MacBrowserInfo>, saved: seq<MacBrowserInfo>) returns (loaded: seq<MacBrowserInfo>)
    ensures loaded == MergeSaved(base, saved)
  {
    loaded := base;
    var index := 0;
    while index < |loaded|
      invariant 0 <= index <= |loaded| == |base|
      invariant forall k :: 0 <= k < index ==> loaded[k] == MergeEntry(base[k], saved)
      invariant forall k :: index <= k < |loaded| ==> loaded[k] == base[k]
    {
      var found := FirstWithId(saved, loaded[index].id);
      if found.Some? {
        var s := saved[found.value];
        loaded := loaded[index := loaded[index].(extensionId := s.extensionId, isEnabled := s.isEnabled,
                                               combineAllWindows := s.combineAllWindows)];
      }
      index := index + 1;
    }
  }

  class BrowserConfigManager {
    var browsers: seq<MacBrowserInfo>
    /** The setup window is scheduled to open (after a 0.5 s delay in the source). */
    var setupScheduled: bool
    /** The list most recently written to browsers.json, if any. */
    var persisted: Option<seq<MacBrowserInfo>>
    /** The manifest writes and removals of the most recent save. */
    var manifests: seq<ManifestAction>

    /** `init()` loads the configuration; `saved` is the decoded browsers.json,
        None when the file is missing or does not decode. */
    constructor (saved: Option<seq<MacBrowserInfo>>)
      ensures browsers == (if saved.Some? then MergeSaved(KnownBrowsers, saved.value) else KnownBrowsers)
      ensures setupScheduled == (EnabledBundleIds(browsers) == {})
      ensures persisted == None && manifests == []
    {
      persisted := None;
      manifests := [];
      setupScheduled := false;
      new;
      LoadConfig(saved);
    }

    method LoadConfig(saved: Option<seq<MacBrowserInfo>>)
      modifies this
      ensures browsers == (if saved.Some? then MergeSaved(KnownBrowsers, saved.value) else KnownBrowsers)
      ensures setupScheduled == (old(setupScheduled) || EnabledBundleIds(browsers) == {})
      ensures persisted == old(persisted) && manifests == old(manifests)
    {
      var loaded := KnownBrowsers;
      if saved.Some? {
        loaded := MergeInto(KnownBrowsers, saved.value);
      }
      browsers := loaded;
      var anyEnabled := exists k :: 0 <= k < |browsers| && browsers[k].isEnabled;
      if !anyEnabled {
        setupScheduled := true;
      }
      assert anyEnabled <==> EnabledBundleIds(browsers) != {} by {
        if anyEnabled {
          var k :| 0 <= k < |browsers| && browsers[k].isEnabled;
          assert browsers[k].id in EnabledBundleIds(browsers);
        }
      }
    }

    /** Writes browsers.json and brings the manifests in line with it. */
    method SaveConfig()
      modifies this
      ensures persisted == Some(browsers) && manifests == ManifestPlan(browsers)
      ensures browsers == old(browsers) && setupScheduled == old(setupScheduled)
    {
      persisted := Some(browsers);
      manifests := ManifestPlan(browsers);
    }

    method EnableBrowser(id: string, extensionId: string)
      modifies this
      ensures match FirstWithId(old(browsers), id)
        case None => browsers == old(browsers) && persisted == old(persisted) && manifests == old(manifests)
        case Some(i) => browsers == old(browsers)[i := old(browsers)[i].(extensionId := Some(extensionId), isEnabled := true)]
                        && persisted == Some(browsers) && manifests == ManifestPlan(browsers)
      ensures setupScheduled == old(setupScheduled)
    {
      var index := FirstWithId(browsers, id);
      if index.Some? {
        browsers := browsers[index.value := browsers[index.value].(extensionId := Some(extensionId), isEnabled := true)];
        SaveConfig();
      }
    }

    method DisableBrowser(id: string)
      modifies this
      ensures match FirstWithId(old(browsers), id)
        case None => browsers == old(browsers) && persisted == old(persisted) && manifests == old(manifests)
        case Some(i) => browsers == old(browsers)[i := old(browsers)[i].(isEnabled := false)]
                        && persisted == Some(browsers) && manifests == ManifestPlan(browsers)
      ensures setupScheduled == old(setupScheduled)
    {
      var index := FirstWithId(browsers, id);
      if index.Some? {
        browsers := browsers[index.value := browsers[index.value].(isEnabled := false)];
        SaveConfig();
      }
    }

    method SetCombineWindows(id: string, combine: bool)
      modifies this
      ensures match FirstWithId(old(browsers), id)
        case None => browsers == old(browsers) && persisted == old(persisted) && manifests == old(manifests)
        case Some(i) => browsers == old(browsers)[i := old(browsers)[i].(combineAllWindows := combine)]
                        && persisted == Some(browsers) && manifests == ManifestPlan(browsers)
      ensures setupScheduled == old(setupScheduled)
    {
      var index := FirstWithId(browsers, id);
      if index.Some? {
        browsers := browsers[index.value := browsers[index.value].(combineAllWindows := combine)];
        SaveConfig();
      }
    }
  }

  /** Enabling then disabling a browser leaves it disabled with the new extension
      id, and its manifest is removed; the other entries are untouched. */
  lemma EnableThenDisable(browsers: seq<MacBrowserInfo>, i: nat, extId: string)
    requires i < |browsers|
    ensures var after := browsers[i := browsers[i].(extensionId := Some(extId), isEnabled := true)];
      var off := after[i := after[i].(isEnabled := false)];
      off[i].extensionId == Some(extId) && !off[i].isEnabled && ManifestPlan(off)[i] == RemoveManifest(browsers[i].id) &&
      (forall k :: 0 <= k < |browsers| && k != i ==> off[k] == browsers[k])
  {
  }
}
