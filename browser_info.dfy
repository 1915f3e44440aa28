/** Browser records of the Windows helper
    (native-host-windows/TabSwitcher/Models/BrowserInfo.cs): the definition
    published in the remote browser list and the locally persisted entry
    built from it. */
module WinBrowserInfo {
  import opened Common

  /** The Windows part of a remote definition. Each field defaults to an
      empty value but the JSON may set it to null, hence the options. */
  datatype WindowsBrowserInfo = WindowsBrowserInfo(exeName: Option<string>, registryKey: Option<string>, installPaths: Option<seq<string>>)

  /** One entry of the remote browser list. */
  datatype BrowserDefinition = BrowserDefinition(
    id: string, name: string, appName: string, nativeMessagingPath: string,
    windows: Option<WindowsBrowserInfo>)

  /** A browser as the helper persists it; `extensionId` is null until the
      browser is enabled with an extension. */
  datatype BrowserInfo = BrowserInfo(
    id: string, name: string, appName: string, exeName: string, registryKey: string,
    installPaths: seq<string>, extensionId: Option<string>, isEnabled: bool, combineAllWindows: bool)

  /** The ids the guessing tables know. */
  const KnownIds: set<string> := {
    "com.google.Chrome", "com.google.Chrome.dev", "com.google.Chrome.canary", "com.brave.Browser",
    "com.microsoft.edgemac", "com.vivaldi.Vivaldi", "com.operasoftware.Opera", "com.operasoftware.OperaGX",
    "org.chromium.Chromium", "org.chromium.Thorium"}

  const ChromeRegistryKey: string := "SOFTWARE\\Google\\Chrome\\NativeMessagingHosts"

  /** The executable name assumed for a browser without Windows details. */
  function GuessBrowserExeName(id: string): (r: string)
    ensures r in {"chrome.exe", "brave.exe", "msedge.exe", "vivaldi.exe", "opera.exe", "thorium.exe"}
  {
    if id == "com.google.Chrome" || id == "com.google.Chrome.dev" || id == "com.google.Chrome.canary" then "chrome.exe"
    else if id == "com.brave.Browser" then "brave.exe"
    else if id == "com.microsoft.edgemac" then "msedge.exe"
    else if id == "com.vivaldi.Vivaldi" then "vivaldi.exe"
    else if id == "com.operasoftware.Opera" || id == "com.operasoftware.OperaGX" then "opera.exe"
    else if id == "org.chromium.Chromium" then "chrome.exe"
    else if id == "org.chromium.Thorium" then "thorium.exe"
    else "chrome.exe"
  }

  /** The NativeMessagingHosts key assumed for a browser without Windows details. */
  function GuessBrowserRegistryKey(id: string): (r: string)
    ensures r == ChromeRegistryKey <==>
      id !in KnownIds || id in {"com.google.Chrome", "com.operasoftware.Opera", "com.operasoftware.OperaGX"}
  {
    if id == "com.google.Chrome" then ChromeRegistryKey
    else if id == "com.google.Chrome.dev" then "SOFTWARE\\Google\\Chrome Dev\\NativeMessagingHosts"
    else if id == "com.google.Chrome.canary" then "SOFTWARE\\Google\\Chrome SxS\\NativeMessagingHosts"
    else if id == "com.brave.Browser" then "SOFTWARE\\BraveSoftware\\Brave-Browser\\NativeMessagingHosts"
    else if id == "com.microsoft.edgemac" then "SOFTWARE\\Microsoft\\Edge\\NativeMessagingHosts"
    else if id == "com.vivaldi.Vivaldi" then "SOFTWARE\\Vivaldi\\NativeMessagingHosts"
    else if id == "com.operasoftware.Opera" then ChromeRegistryKey
    else if id == "com.operasoftware.OperaGX" then ChromeRegistryKey
    else if id == "org.chromium.Chromium" then "SOFTWARE\\Chromium\\NativeMessagingHosts"
    else if id == "org.chromium.Thorium" then "SOFTWARE\\Thorium\\NativeMessagingHosts"
    else ChromeRegistryKey
  }

  /** The browsers without a key of their own (Opera, Opera GX, and any id
      the table does not know) use Chrome's; Chrome's own variants do not. */
  lemma RegistryKeyFallsBackToChrome(id: string)
    ensures id in {"com.operasoftware.Opera", "com.operasoftware.OperaGX", "com.google.Chrome"} ==>
      GuessBrowserRegistryKey(id) == ChromeRegistryKey
    ensures id !in KnownIds ==> GuessBrowserRegistryKey(id) == ChromeRegistryKey && GuessBrowserExeName(id) == "chrome.exe"
    ensures GuessBrowserRegistryKey(id) != ChromeRegistryKey ==>
      id in {"com.google.Chrome.dev", "com.google.Chrome.canary", "com.brave.Browser", "com.microsoft.edgemac",
             "com.vivaldi.Vivaldi", "org.chromium.Chromium", "org.chromium.Thorium"}
  {
  }

  /** FromDefinition: a fresh, disabled entry; each Windows detail comes
      from the definition when it is there and not null, and from the guess
      (or an empty path list) otherwise, field by field. */
  function FromDefinition(def: BrowserDefinition): (b: BrowserInfo)
    ensures b.id == def.id && b.name == def.name && b.appName == def.appName
    ensures !b.isEnabled && !b.combineAllWindows && b.extensionId.None?
    ensures b.exeName == if def.windows.Some? && def.windows.value.exeName.Some?
                         then def.windows.value.exeName.value else GuessBrowserExeName(def.id)
    ensures b.registryKey == if def.windows.Some? && def.windows.value.registryKey.Some?
                             then def.windows.value.registryKey.value else GuessBrowserRegistryKey(def.id)
    ensures b.installPaths == if def.windows.Some? && def.windows.value.installPaths.Some?
                              then def.windows.value.installPaths.value else []
  {
    var exe := if def.windows.Some? then def.windows.value.exeName else None;
    var key := if def.windows.Some? then def.windows.value.registryKey else None;
    var paths := if def.windows.Some? then def.windows.value.installPaths else None;
    BrowserInfo(def.id, def.name, def.appName,
                exe.GetOr(GuessBrowserExeName(def.id)), key.GetOr(GuessBrowserRegistryKey(def.id)),
                paths.GetOr([]), None, false, false)
  }
}
