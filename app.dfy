/** The Windows helper's application object
    (native-host-windows/TabSwitcher/App.xaml.cs): start-up wiring of the
    election, the pipe between instances, the keyboard hook, the native
    messaging host and the update checker; the handlers for the extension's
    messages and for the events of the other instances; and shutdown.
    Messages for the extension are recorded as values; their JSON text and
    its framing are those of WinNativeHost. */
module WinApp {
  import opened Common
  import opened Wire
  import opened ShortcutConfig
  import IC = InstanceCommunication
  import KH = KeyboardHook
  import LE = LeaderElection
  import BD = WinBrowserDetector
  import US = UpdateService
  import NH = WinNativeHost
  import WinBrowserConfig
  import WinBrowserInfo

  /** The argument a browser passes to a native messaging host it starts:
      the calling extension's origin. */
  const ExtensionOriginPrefix: string := "chrome-extension://"

  /** DetectLaunchMode: the helper was started directly (by the user) unless
      one of its arguments is an extension origin. */
  function LaunchedDirectly(args: seq<string>): (direct: bool)
    ensures direct <==> forall i :: 0 <= i < |args| ==> !StartsWith(args[i], ExtensionOriginPrefix)
  {
    if |args| == 0 then true
    else if StartsWith(args[0], ExtensionOriginPrefix) then false
    else LaunchedDirectly(args[1..])
  }

  /** What the helper does in its own windows: the switcher overlay, the
      clipboard with its "Copied!" toast, and the setup window. */
  datatype UiCommand =
    | OverlayShow(tabs: Option<seq<TabInfo>>, selectedIndex: Option<int>)
    | OverlaySelect(index: int)
    | OverlayHide
    | CopiedToClipboard(url: string)
    | SetupWindowShown

  /** The browser an event of the pipe is meant for; none for the events
      that are not about one browser. */
  function Target(e: IC.IpcEvent): (r: Option<string>)
    ensures r.None? <==> e.ShortcutsChangedEvent? || e.LeaderResignedEvent? || e.ShowConfigEvent?
  {
    match e
    case CtrlTabEvent(_, _, _, target) => Some(target)
    case CtrlReleaseEvent(target) => Some(target)
    case RequestShowUIEvent(_, target) => Some(target)
    case CopyUrlEvent(target) => Some(target)
    case _ => None
  }

  /** OnIpcCtrlTab, OnIpcCtrlRelease, OnIpcRequestShowUI and OnIpcCopyUrl:
      the message passed on to the extension, exactly when the event is
      meant for the browser that owns this helper. */
  function Forward(owner: Option<string>, e: IC.IpcEvent): (r: Option<HostMessage>)
    ensures r.Some? <==> owner.Some? && Target(e) == owner
  {
    if owner.None? || Target(e) != owner then None
    else match e
      case CtrlTabEvent(direction, showUI, combineWindows, _) => Some(Cycle(direction, showUI, !combineWindows))
      case CtrlReleaseEvent(_) => Some(EndSwitch)
      case RequestShowUIEvent(combineWindows, _) => Some(RequestShowUi(!combineWindows))
      case CopyUrlEvent(_) => Some(CopyUrl)
  }

  /** The messages a helper owned by `owner` passes on for a run of events. */
  function ForwardAll(owner: Option<string>, es: seq<IC.IpcEvent>): (r: seq<HostMessage>)
    ensures |r| <= |es|
    ensures owner.None? ==> r == []
    decreases |es|
  {
    if |es| == 0 then []
    else (if Forward(owner, es[0]).Some? then [Forward(owner, es[0]).value] else []) + ForwardAll(owner, es[1..])
  }

  lemma {:induction false} ForwardAllConcat(owner: Option<string>, a: seq<IC.IpcEvent>, b: seq<IC.IpcEvent>)
    ensures ForwardAll(owner, a + b) == ForwardAll(owner, a) + ForwardAll(owner, b)
    decreases |a|
  {
    if |a| > 0 {
      assert (a + b)[0] == a[0];
      assert (a + b)[1..] == a[1..] + b;
      ForwardAllConcat(owner, a[1..], b);
    } else {
      assert a + b == b;
    }
  }

  lemma {:induction false} ForwardAllRepeat(owner: Option<string>, e: IC.IpcEvent, n: nat)
    ensures ForwardAll(owner, KH.Repeat(e, n)) == if Forward(owner, e).Some? then KH.Repeat(Forward(owner, e).value, n) else []
    decreases n
  {
    if n > 0 {
      var es := KH.Repeat(e, n);
      assert es[0] == e;
      assert es[1..] == KH.Repeat(e, n - 1);
      ForwardAllRepeat(owner, e, n - 1);
    }
  }

  /** A whole Ctrl+Tab switch in front of `browser`, as the keyboard hook
      posts it, reaches the extension through the helper that browser owns
      as one step without the overlay, n - 1 steps with it, all in the
      current window, then the end of the switch; every other helper passes
      nothing on. So it goes with the hook as written and with the Windows
      key read. */
  lemma SwitchSessionReachesOwner(readWin: bool, n: nat, browser: string, sc: ShortcutsConfiguration, owner: Option<string>)
    requires n >= 1 && sc.tabSwitch.modifiers & !Shift == Control
    ensures var posted := KH.Run(readWin, KH.Idle, KH.Repeat(KH.Press(sc), n) + [KH.ReleaseCtrl], browser, sc).1;
      ForwardAll(owner, posted) ==
        if owner == Some(browser) then [Cycle("cycle_next", false, true)] + KH.Repeat(Cycle("cycle_next", true, true), n - 1) + [EndSwitch]
        else []
  {
    KH.SwitchSession(readWin, n, browser, sc);
    ForwardSession(n, browser, owner);
  }

  /** The events of one switch session, forwarded by a helper owned by `owner`. */
  lemma ForwardSession(n: nat, browser: string, owner: Option<string>)
    requires n >= 1
    ensures ForwardAll(owner, [IC.CtrlTabEvent("cycle_next", false, false, browser)] +
                              KH.Repeat(IC.CtrlTabEvent("cycle_next", true, false, browser), n - 1) +
                              [IC.CtrlReleaseEvent(browser)]) ==
      if owner == Some(browser) then [Cycle("cycle_next", false, true)] + KH.Repeat(Cycle("cycle_next", true, true), n - 1) + [EndSwitch]
      else []
  {
    var first := IC.CtrlTabEvent("cycle_next", false, false, browser);
    var step := IC.CtrlTabEvent("cycle_next", true, false, browser);
    var release := IC.CtrlReleaseEvent(browser);
    ForwardAllConcat(owner, [first] + KH.Repeat(step, n - 1), [release]);
    ForwardAllConcat(owner, [first], KH.Repeat(step, n - 1));
    ForwardAllRepeat(owner, step, n - 1);
    assert [first][1..] == [];
    assert [release][1..] == [];
    assert ForwardAll(owner, [first]) == if owner == Some(browser) then [Cycle("cycle_next", false, true)] else [];
    assert ForwardAll(owner, [release]) == if owner == Some(browser) then [EndSwitch] else [];
  }

  /** HandleRegister's effect on the owner: the first browser named wins. */
  function AfterRegister(owner: Option<string>, bundleId: string): Option<string> {
    Some(owner.GetOr(bundleId))
  }

  /** The owner after a run of registrations. */
  function OwnerAfter(owner: Option<string>, bundleIds: seq<string>): Option<string>
    decreases |bundleIds|
  {
    if |bundleIds| == 0 then owner else OwnerAfter(AfterRegister(owner, bundleIds[0]), bundleIds[1..])
  }

  /** A helper keeps the browser it first learned of, whether it detected it
      at start-up or the first registration named it: later registrations,
      from whatever browser, do not move it. */
  lemma {:induction false} OwnerIsFirstKnown(owner: Option<string>, bundleIds: seq<string>)
    requires |bundleIds| > 0
    ensures OwnerAfter(owner, bundleIds) == Some(owner.GetOr(bundleIds[0]))
    decreases |bundleIds|
  {
    if |bundleIds| > 1 {
      OwnerIsFirstKnown(AfterRegister(owner, bundleIds[0]), bundleIds[1..]);
    }
  }

  /** The reply to a registration, carrying the shortcuts as displayed. */
  function RegisterReply(owner: string, shortcuts: ShortcutsConfiguration): HostMessage {
    RegisteredWithShortcuts(owner, DisplayString(shortcuts.tabSwitch), DisplayString(shortcuts.copyUrl))
  }

  /** The process id HandleRegister records: detected late only when neither
      the owner nor its process was known. */
  function LateProcessId(owner: Option<string>, processId: Option<nat>, t: BD.WinProcessTable, self: int): Option<nat> {
    if owner.None? && processId.None? then DetectedOwner(t, self).1 else processId
  }

  /** A pipe channel that has neither connected nor carried anything. */
  predicate Idle(c: IC.InstanceCommunication)
    reads c
  {
    !c.cancelled && c.connections == [] && !c.clientConnected && !c.hasClientWriter && c.toLeader == [] && c.handled == []
  }

  /** OnStartup's first step: the browser list and the shortcuts. */
  method LoadSettings(config: WinBrowserConfig.BrowserConfigManager,
                      savedConfig: Option<seq<WinBrowserInfo.BrowserInfo>>,
                      remoteCache: Option<seq<WinBrowserInfo.BrowserDefinition>>,
                      savedShortcuts: Option<ShortcutsConfiguration>)
    modifies config`browsers, config`shortcuts
    ensures config.browsers == WinBrowserConfig.Loaded(savedConfig, remoteCache)
    ensures config.shortcuts == if savedShortcuts.Some? then savedShortcuts.value else old(config.shortcuts)
  {
    config.LoadConfig(savedConfig, remoteCache);
    config.LoadShortcuts(savedShortcuts);
  }

  /** OnStartup's election: run it, open the pipe in the mode it decided,
      and, for a leader, create and install the keyboard hook on that pipe. */
  method ElectAndHook(self: int, mutex: LE.NamedMutex, electionFails: bool, hookInstalls: bool)
    returns (e: LE.LeaderElection, channel: IC.InstanceCommunication, h: KH.KeyboardHook?)
    requires mutex.Valid()
    modifies mutex
    ensures fresh(e) && fresh(channel) && e.mutex == mutex && e.pid == self && e.Valid()
    ensures e.isLeader <==>
      !electionFails && (old(mutex.handles) == 0 || old(mutex.owner).None? || old(mutex.owner) == Some(self))
    ensures !electionFails && old(mutex.handles) == 0 ==> mutex.owner == None
    ensures e.isLeader && old(mutex.handles) > 0 ==> mutex.owner == Some(self)
    ensures !e.isLeader ==> mutex.owner == old(mutex.owner)
    ensures channel.isLeader == e.isLeader && Idle(channel)
    ensures e.isLeader ==> h != null && fresh(h) && h.ipc == channel && h.installed == hookInstalls && h.State() == KH.Idle
    ensures !e.isLeader ==> h == null
  {
    e := new LE.LeaderElection(self, mutex);
    var isLeader := e.TryBecomeLeaderAsWritten(electionFails);
    channel := new IC.InstanceCommunication(isLeader);
    h := null;
    if isLeader {
      var k := new KH.KeyboardHook(channel);
      k.Install(hookInstalls);
      h := k;
    }
  }

  /** The owner detected from the process tree: the browser and its process. */
  function DetectedOwner(t: BD.WinProcessTable, self: int): (r: (Option<string>, Option<nat>))
    ensures r.0.Some? <==> r.1.Some?
    ensures r.0.Some? ==> r.1.value in t.names && BD.BrowserIdForName(t.names[r.1.value]) == r.0
    ensures r.0.None? ==> forall k :: 0 <= k < |BD.Visited(t, BD.ParentOf(t, self), 10)| ==>
      BD.MatchAt(t, BD.Visited(t, BD.ParentOf(t, self), 10)[k]).None?
  {
    var d := BD.Detect(t, BD.ParentOf(t, self), 10);
    if d.Some? then (Some(d.value.browserId), Some(d.value.processId)) else (None, None)
  }

  /** OnStartup's front end: launched by a browser, detect the owner from
      the process tree, start the host and say "ready"; launched directly,
      show the setup window. */
  method StartFrontEnd(direct: bool, t: BD.WinProcessTable, self: int)
    returns (owner: Option<string>, ownerPid: Option<nat>, running: bool, sent: seq<HostMessage>, ui: seq<UiCommand>)
    ensures !direct ==> (owner, ownerPid) == DetectedOwner(t, self) && running && sent == [Ready] && ui == []
    ensures direct ==> owner == None && ownerPid == None && !running && sent == [] && ui == [SetupWindowShown]
  {
    if !direct {
      var d := BD.DetectParentBrowser(t, self);
      owner := if d.Some? then Some(d.value.browserId) else None;
      ownerPid := if d.Some? then Some(d.value.processId) else None;
      running, sent, ui := true, [Ready], [];
    } else {
      owner, ownerPid := None, None;
      running, sent, ui := false, [], [SetupWindowShown];
    }
  }

  /** OnStartup's last step: create the update checker and start it. */
  method StartUpdates(direct: bool, self: int, updateMutex: LE.NamedMutex, updateFails: bool,
                      notifiedFile: Option<US.NotifiedVersions>) returns (u: US.UpdateService)
    requires updateMutex.Valid()
    modifies updateMutex
    ensures fresh(u) && u.launchedDirectly == direct && u.mutex == updateMutex
    ensures u.connectedExtensionVersion == None && u.notifiedFile == notifiedFile
    ensures u.checksScheduled == u.isUpdateLeader
    ensures !updateFails ==> (u.isUpdateLeader <==>
      old(updateMutex.handles) == 0 || old(updateMutex.owner).None? || old(updateMutex.owner) == Some(self))
    ensures !updateFails && old(updateMutex.handles) == 0 ==> updateMutex.owner == None
    ensures u.isUpdateLeader && old(updateMutex.handles) > 0 ==> updateMutex.owner == Some(self)
  {
    u := new US.UpdateService(direct, self, updateMutex, notifiedFile);
    u.StartAsWritten(updateFails);
  }

  class App {
    const launchedDirectly: bool
    /** This process's id. */
    const pid: int
    /** BrowserConfigManager.Instance. */
    const config: WinBrowserConfig.BrowserConfigManager
    const election: LE.LeaderElection
    const updates: US.UpdateService
    var ipc: IC.InstanceCommunication
    var hook: KH.KeyboardHook?
    /** `_nativeMessaging` started and not stopped. */
    var hostRunning: bool
    var ownerBrowserId: Option<string>
    var ownerBrowserProcessId: Option<nat>
    /** The messages written to the extension, in order. */
    var sent: seq<HostMessage>
    var ui: seq<UiCommand>
    /** Shutdown has been requested. */
    var shutdownRequested: bool

    /** A helper started directly has no extension to talk to and never
        writes to it; one started by a browser says "ready" first. Every
        leader has a keyboard hook, and a hook posts through a channel in
        leader mode, the only one that raises and broadcasts its posts. */
    predicate Valid()
      reads this, election, election.mutex, ipc, hook
    {
      election.Valid() && election.pid == pid &&
      (launchedDirectly ==> ownerBrowserId.None? && sent == []) &&
      (!launchedDirectly ==> |sent| > 0 && sent[0] == Ready) &&
      (election.isLeader ==> hook != null) &&
      (hook != null ==> hook.ipc == ipc && ipc.isLeader)
    }

    /** OnStartup after the settings are loaded. The inputs are what the
        process finds: its arguments, the process table, the two named
        mutexes, whether opening each fails, whether the hook installs, and
        the record of announced versions. */
    constructor (args: seq<string>, t: BD.WinProcessTable, self: int, config: WinBrowserConfig.BrowserConfigManager,
                 mutex: LE.NamedMutex, electionFails: bool, hookInstalls: bool,
                 updateMutex: LE.NamedMutex, updateFails: bool, notifiedFile: Option<US.NotifiedVersions>)
      requires mutex.Valid() && updateMutex.Valid() && mutex != updateMutex
      modifies mutex, updateMutex
      ensures Valid() && !shutdownRequested
      ensures launchedDirectly == LaunchedDirectly(args) && pid == self && this.config == config
      ensures fresh(election) && election.mutex == mutex
      ensures election.isLeader <==>
        !electionFails && (old(mutex.handles) == 0 || old(mutex.owner).None? || old(mutex.owner) == Some(self))
      ensures !electionFails && old(mutex.handles) == 0 ==> mutex.owner == None
      ensures fresh(ipc) && ipc.isLeader == election.isLeader && Idle(ipc)
      ensures election.isLeader ==> hook != null && fresh(hook) && hook.installed == hookInstalls && hook.State() == KH.Idle
      ensures !election.isLeader ==> hook == null
      ensures !launchedDirectly ==>
        (ownerBrowserId, ownerBrowserProcessId) == DetectedOwner(t, self) && hostRunning && sent == [Ready] && ui == []
      ensures launchedDirectly ==>
        !hostRunning && sent == [] && ui == [SetupWindowShown] && ownerBrowserId == None && ownerBrowserProcessId == None
      ensures fresh(updates) && updates.launchedDirectly == launchedDirectly && updates.mutex == updateMutex &&
              updates.connectedExtensionVersion == None && updates.notifiedFile == notifiedFile
      ensures updates.checksScheduled == updates.isUpdateLeader
      ensures !updateFails ==> (updates.isUpdateLeader <==>
        old(updateMutex.handles) == 0 || old(updateMutex.owner).None? || old(updateMutex.owner) == Some(self))
      ensures !updateFails && old(updateMutex.handles) == 0 ==> updateMutex.owner == None
    {
      var direct := LaunchedDirectly(args);
      var e, channel, h := ElectAndHook(self, mutex, electionFails, hookInstalls);
      var owner, ownerPid, running, out, shown := StartFrontEnd(direct, t, self);
      var u := StartUpdates(direct, self, updateMutex, updateFails, notifiedFile);
      launchedDirectly, pid, this.config := direct, self, config;
      election, ipc, hook, updates := e, channel, h, u;
      ownerBrowserId, ownerBrowserProcessId, hostRunning, sent, ui := owner, ownerPid, running, out, shown;
      shutdownRequested := false;
    }

    /** HandleRegister: record the extension's version for the update
        checker; on a browser id, adopt it as owner if none is known yet
        (detecting the owner's process late if needed) and reply with the
        owner and the shortcuts as displayed. */
    method HandleRegister(bundleId: Option<string>, extensionVersion: Option<string>, t: BD.WinProcessTable)
      requires Valid() && !launchedDirectly
      modifies this`ownerBrowserId, this`ownerBrowserProcessId, this`sent, updates`connectedExtensionVersion
      ensures Valid()
      ensures updates.connectedExtensionVersion ==
        if extensionVersion.Some? then extensionVersion else old(updates.connectedExtensionVersion)
      ensures bundleId.None? ==>
        ownerBrowserId == old(ownerBrowserId) && ownerBrowserProcessId == old(ownerBrowserProcessId) && sent == old(sent)
      ensures bundleId.Some? ==>
        ownerBrowserId == AfterRegister(old(ownerBrowserId), bundleId.value) &&
        ownerBrowserProcessId == LateProcessId(old(ownerBrowserId), old(ownerBrowserProcessId), t, pid) &&
        sent == old(sent) + [RegisterReply(ownerBrowserId.value, config.shortcuts)]
    {
      if extensionVersion.Some? {
        updates.SetExtensionVersion(extensionVersion.value);
      }
      if bundleId.Some? {
        AdoptOwner(bundleId.value, t);
        var shortcuts := config.shortcuts;
        sent := sent + [RegisteredWithShortcuts(ownerBrowserId.GetOr(bundleId.value),
                                                DisplayString(shortcuts.tabSwitch), DisplayString(shortcuts.copyUrl))];
      }
    }

    /** The owner part of a registration: the first bundle id to register
        becomes the owner, and its process is looked up if still unknown. */
    method AdoptOwner(bundleId: string, t: BD.WinProcessTable)
      modifies this`ownerBrowserId, this`ownerBrowserProcessId
      ensures ownerBrowserId == AfterRegister(old(ownerBrowserId), bundleId)
      ensures ownerBrowserProcessId == LateProcessId(old(ownerBrowserId), old(ownerBrowserProcessId), t, pid)
    {
      if ownerBrowserId.None? {
        ownerBrowserId := Some(bundleId);
        if ownerBrowserProcessId.None? {
          var detected := BD.DetectParentBrowser(t, pid);
          if detected.Some? {
            ownerBrowserProcessId := Some(detected.value.processId);
          }
        }
      }
    }

    /** OnNativeMessage: dispatch on the action; an unknown action, or one
        missing the field it needs, does nothing. */
    method OnNativeMessage(m: NH.NativeMessage, t: BD.WinProcessTable)
      requires Valid() && !launchedDirectly
      modifies this`ownerBrowserId, this`ownerBrowserProcessId, this`sent, this`ui, updates`connectedExtensionVersion
      ensures Valid()
      ensures m.action != "register" ==>
        ownerBrowserId == old(ownerBrowserId) && ownerBrowserProcessId == old(ownerBrowserProcessId) &&
        updates.connectedExtensionVersion == old(updates.connectedExtensionVersion)
      ensures m.action == "register" ==> (ui == old(ui) &&
        ownerBrowserId == (if m.bundleId.Some? then AfterRegister(old(ownerBrowserId), m.bundleId.value) else old(ownerBrowserId)) &&
        sent == old(sent) + (if m.bundleId.Some? then [RegisterReply(ownerBrowserId.value, config.shortcuts)] else []))
      ensures m.action == "ping" ==> sent == old(sent) + [Pong] && ui == old(ui)
      ensures m.action == "show_switcher" ==> sent == old(sent) && ui == old(ui) + [OverlayShow(m.tabs, m.selectedIndex)]
      ensures m.action == "update_selection" ==> (sent == old(sent) &&
        ui == old(ui) + (if m.selectedIndex.Some? then [OverlaySelect(m.selectedIndex.value)] else []))
      ensures m.action == "hide_switcher" ==> sent == old(sent) && ui == old(ui) + [OverlayHide]
      ensures m.action == "url_copied" ==> (sent == old(sent) &&
        ui == old(ui) + (if m.url.Some? then [CopiedToClipboard(m.url.value)] else []))
      ensures m.action !in {"show_switcher", "update_selection", "hide_switcher", "register", "ping", "url_copied"} ==>
        sent == old(sent) && ui == old(ui)
    {
      match m.action
      case "show_switcher" =>
        ui := ui + [OverlayShow(m.tabs, m.selectedIndex)];
      case "update_selection" =>
        if m.selectedIndex.Some? {
          ui := ui + [OverlaySelect(m.selectedIndex.value)];
        }
      case "hide_switcher" =>
        ui := ui + [OverlayHide];
      case "register" =>
        HandleRegister(m.bundleId, m.extensionVersion, t);
      case "ping" =>
        sent := sent + [Pong];
      case "url_copied" =>
        if m.url.Some? {
          ui := ui + [CopiedToClipboard(m.url.value)];
        }
      case _ =>
    }

    /** OnNativeDisconnected: the extension closed standard input. */
    method OnNativeDisconnected()
      modifies this`shutdownRequested
      ensures shutdownRequested
    {
      shutdownRequested := true;
    }

    /** The four handlers of browser-targeted events: each returns at once
        unless the event is meant for this helper's owner. */
    method OnIpcBrowserEvent(e: IC.IpcEvent)
      requires Valid() && Target(e).Some?
      modifies this`sent
      ensures Valid()
      ensures sent == old(sent) + (if Forward(ownerBrowserId, e).Some? then [Forward(ownerBrowserId, e).value] else [])
    {
      var target := Target(e).value;
      if ownerBrowserId.None? || ownerBrowserId.value != target {
        return;
      }
      // `_nativeMessaging?.`: no host when launched directly
      if launchedDirectly {
        return;
      }
      match e
      case CtrlTabEvent(direction, showUI, combineWindows, _) =>
        sent := sent + [Cycle(direction, showUI, !combineWindows)];
      case CtrlReleaseEvent(_) =>
        sent := sent + [EndSwitch];
      case RequestShowUIEvent(combineWindows, _) =>
        sent := sent + [RequestShowUi(!combineWindows)];
      case CopyUrlEvent(_) =>
        sent := sent + [CopyUrl];
    }

    /** OnIpcShortcutsChanged: reload the shortcuts from their file. */
    method OnIpcShortcutsChanged(savedShortcuts: Option<ShortcutsConfiguration>)
      modifies config`shortcuts
      ensures config.shortcuts == if savedShortcuts.Some? then savedShortcuts.value else old(config.shortcuts)
    {
      config.LoadShortcuts(savedShortcuts);
    }

    /** OnIpcLeaderResigned as written: a follower that wins the election
        installs a hook on its existing channel, which stays in follower mode. */
    method OnIpcLeaderResignedAsWritten(openFails: bool, hookInstalls: bool)
      requires Valid()
      modifies this`hook, election, election.mutex
      ensures election.Valid()
      ensures !old(election.isLeader) ==> (election.isLeader <==>
        !openFails && (old(election.mutex.handles) == 0 || old(election.mutex.owner).None? ||
                       old(election.mutex.owner) == Some(pid)))
      ensures !old(election.isLeader) && !openFails && old(election.mutex.handles) == 0 ==>
        election.isLeader && election.mutex.owner == None
      ensures old(election.isLeader) ==> election.isLeader && hook == old(hook)
      ensures !old(election.isLeader) && election.isLeader ==>
        hook != null && fresh(hook) && hook.ipc == ipc && ipc.isLeader == old(ipc.isLeader) &&
        hook.installed == hookInstalls && hook.State() == KH.Idle
      ensures !election.isLeader ==> hook == old(hook)
    {
      if !election.isLeader {
        var won := election.TryBecomeLeaderAsWritten(openFails);
        if won {
          var k := new KH.KeyboardHook(ipc);
          k.Install(hookInstalls);
          hook := k;
        }
      }
    }

    /** OnIpcLeaderResigned, corrected: a follower that wins the election
        stops its client channel and opens one in leader mode before
        installing the hook on it. The election itself runs as written. */
    method OnIpcLeaderResigned(openFails: bool, hookInstalls: bool)
      requires Valid()
      modifies this`ipc, this`hook, election, election.mutex, ipc`cancelled, ipc`connections, ipc`clientConnected
      ensures Valid()
      ensures !old(election.isLeader) ==> (election.isLeader <==>
        !openFails && (old(election.mutex.handles) == 0 || old(election.mutex.owner).None? ||
                       old(election.mutex.owner) == Some(pid)))
      ensures !old(election.isLeader) && !openFails && old(election.mutex.handles) == 0 ==>
        election.isLeader && election.mutex.owner == None
      ensures old(election.isLeader) ==> election.isLeader && hook == old(hook) && ipc == old(ipc)
      ensures !old(election.isLeader) && election.isLeader ==>
        old(ipc).cancelled && fresh(ipc) && ipc.isLeader && ipc.connections == [] && ipc.handled == [] &&
        hook != null && fresh(hook) && hook.installed == hookInstalls && hook.State() == KH.Idle
      ensures !election.isLeader ==> hook == old(hook) && ipc == old(ipc)
    {
      if !election.isLeader {
        var won := election.TryBecomeLeaderAsWritten(openFails);
        if won {
          ipc.Stop();
          var channel := new IC.InstanceCommunication(true);
          ipc := channel;
          var k := new KH.KeyboardHook(channel);
          k.Install(hookInstalls);
          hook := k;
        }
      }
    }

    /** OnExit: unhook, give up leadership, stop the pipe and the host. */
    method OnExit()
      requires Valid()
      modifies hook, election, election.mutex, ipc`cancelled, ipc`connections, ipc`clientConnected, this`hostRunning
      ensures Valid()
      ensures hook != null ==> !hook.installed
      ensures !election.isLeader && election.mutex.handles == old(election.mutex.handles)
      ensures election.mutex.owner ==
        if old(election.isLeader) && old(election.mutex.owner) == Some(pid) then None else old(election.mutex.owner)
      ensures ipc.cancelled && !ipc.clientConnected && !hostRunning
    {
      if hook != null {
        hook.Uninstall();
      }
      election.Release();
      ipc.Stop();
      hostRunning := false;
    }
  }

  /** OnStartup: load the browser list and the shortcuts, then run the
      election and start the rest (App's constructor). */
  method OnStartup(args: seq<string>, t: BD.WinProcessTable, self: int, config: WinBrowserConfig.BrowserConfigManager,
                   savedConfig: Option<seq<WinBrowserInfo.BrowserInfo>>,
                   remoteCache: Option<seq<WinBrowserInfo.BrowserDefinition>>,
                   savedShortcuts: Option<ShortcutsConfiguration>,
                   mutex: LE.NamedMutex, electionFails: bool, hookInstalls: bool,
                   updateMutex: LE.NamedMutex, updateFails: bool, notifiedFile: Option<US.NotifiedVersions>)
    returns (app: App)
    requires mutex.Valid() && updateMutex.Valid() && mutex != updateMutex
    modifies mutex, updateMutex, config`browsers, config`shortcuts
    ensures fresh(app) && app.Valid() && app.config == config && app.launchedDirectly == LaunchedDirectly(args)
    ensures config.browsers == WinBrowserConfig.Loaded(savedConfig, remoteCache)
    ensures config.shortcuts == if savedShortcuts.Some? then savedShortcuts.value else old(config.shortcuts)
    ensures app.election.isLeader <==>
      !electionFails && (old(mutex.handles) == 0 || old(mutex.owner).None? || old(mutex.owner) == Some(self))
  {
    LoadSettings(config, savedConfig, remoteCache, savedShortcuts);
    app := new App(args, t, self, config, mutex, electionFails, hookInstalls, updateMutex, updateFails, notifiedFile);
  }

  /** As written, an instance that wins the election after the leader
      resigned keeps its follower channel, whose leader is gone: when its new
      hook's callback handles a Ctrl+Tab, the event it posts is neither raised
      locally, nor broadcast, nor written to any leader. Whether the callback
      runs at all on the pipe client's thread is not modelled. */
  method TakeoverSwallowsKeysAsWritten(app: App, browser: string, sc: ShortcutsConfiguration) returns (swallowed: bool)
    requires app.Valid() && !app.election.isLeader && !app.ipc.isLeader && !app.ipc.clientConnected
    requires app.election.mutex.owner.None?
    requires sc.tabSwitch.modifiers & !Shift == Control
    modifies app, app.election, app.election.mutex, app.ipc
    ensures app.election.isLeader && app.hook != null && swallowed
    ensures app.ipc.handled == old(app.ipc.handled) && app.ipc.toLeader == old(app.ipc.toLeader) &&
            app.ipc.connections == old(app.ipc.connections)
  {
    app.OnIpcLeaderResignedAsWritten(false, true);
    assert KH.HeldModifiers(KH.Press(sc), false) & !Shift == Control;
    var hook := app.hook;
    swallowed := hook.HookCallback(KH.Press(sc), Some(browser), sc);
  }

  /** With the corrected takeover, the same key press is swallowed, raised
      on the new leader's channel, and passed on to the extension by the
      helper that owns the browser in front. The hook is taken to run on a
      thread with a message loop, as the corrected takeover installs it. */
  method TakeoverKeysReachBrowser(app: App, browser: string, sc: ShortcutsConfiguration) returns (swallowed: bool)
    requires app.Valid() && !app.election.isLeader && app.election.mutex.owner.None?
    requires !app.launchedDirectly && app.ownerBrowserId == Some(browser)
    requires sc.tabSwitch.modifiers & !Shift == Control
    modifies app, app.election, app.election.mutex, app.ipc
    ensures app.Valid() && app.election.isLeader && swallowed
    ensures app.ipc.handled == [IC.CtrlTabEvent("cycle_next", false, false, browser)]
    ensures app.sent == old(app.sent) + [Cycle("cycle_next", false, true)]
  {
    app.OnIpcLeaderResigned(false, true);
    assert KH.HeldModifiers(KH.Press(sc), false) & !Shift == Control;
    var hook := app.hook;
    swallowed := hook.HookCallback(KH.Press(sc), Some(browser), sc);
    app.OnIpcBrowserEvent(app.ipc.handled[0]);
  }
}
