/** The Windows helper's low-level keyboard hook
    (native-host-windows/TabSwitcher/Keyboard/KeyboardHook.cs): while a
    supported browser is in front, the tab-switch shortcut starts or continues
    a switch, releasing its modifier ends it, and the copy-URL shortcut asks
    for the active tab's address. Every decision is posted to the other
    instances over the pipe. */
module KeyboardHook {
  import opened Common
  import opened ShortcutConfig
  import opened InstanceCommunication

  const WM_KEYDOWN: int := 0x0100
  const WM_KEYUP: int := 0x0101
  const WM_SYSKEYDOWN: int := 0x0104
  const WM_SYSKEYUP: int := 0x0105
  const VK_CONTROL: int := 0x11
  const VK_MENU: int := 0x12
  const VK_LWIN: int := 0x5B
  const VK_RWIN: int := 0x5C
  const VK_LCONTROL: int := 0xA2
  const VK_RCONTROL: int := 0xA3
  const VK_LMENU: int := 0xA4
  const VK_RMENU: int := 0xA5
  /** Delay before a held switch asks for the overlay, in milliseconds. */
  const ShowUIDelayMs: nat := 150

  /** One call of the hook: the hook code, the message, the key, and the
      modifier keys held at that moment (GetAsyncKeyState). */
  datatype KeyEvent = KeyEvent(nCode: int, msg: int, vkCode: int, ctrlDown: bool, shiftDown: bool, altDown: bool, winDown: bool)

  /** The hook's fields: whether the switch modifier is held, whether a switch
      is in progress, how many times the shortcut was pressed in it, and the
      pending show-UI timer with the browser its tick posts for. */
  datatype HookState = HookState(switchModifierIsPressed: bool, switchInProgress: bool, tabPressCount: nat, timer: Option<string>)

  const Idle: HookState := HookState(false, false, 0, None)

  /** What a call decides: the new state, whether the key is swallowed
      (returning 1) rather than passed on (CallNextHookEx), and the event
      posted, if any. */
  datatype HookResult = HookResult(state: HookState, swallow: bool, post: Option<IpcEvent>)

  /** The hook's own consistency: a switch in progress has been pressed at
      least once with its modifier held, and the show-UI timer is armed only
      after the first press. */
  predicate HookInvariant(s: HookState) {
    (!s.switchInProgress ==> s.tabPressCount == 0 && s.timer.None?) &&
    (s.switchInProgress ==> s.tabPressCount >= 1 && s.switchModifierIsPressed) &&
    (s.timer.Some? ==> s.tabPressCount == 1)
  }

  predicate IsControlKey(vk: int) { vk == VK_CONTROL || vk == VK_LCONTROL || vk == VK_RCONTROL }
  predicate IsAltKey(vk: int) { vk == VK_MENU || vk == VK_LMENU || vk == VK_RMENU }
  predicate IsWinKey(vk: int) { vk == VK_LWIN || vk == VK_RWIN }

  /** The modifiers held: the source reads Ctrl, Shift and Alt only; with
      `readWin` the Windows key is read as well. */
  function HeldModifiers(ev: KeyEvent, readWin: bool): (r: Modifiers)
    ensures HasFlag(r, Control) <==> ev.ctrlDown
    ensures HasFlag(r, Shift) <==> ev.shiftDown
    ensures HasFlag(r, Alt) <==> ev.altDown
    ensures HasFlag(r, Win) <==> readWin && ev.winDown
  {
    FlagsAreDistinctBits(ev.ctrlDown, ev.shiftDown, ev.altDown, readWin && ev.winDown);
    (if ev.ctrlDown then Control else 0) | (if ev.shiftDown then Shift else 0) |
    (if ev.altDown then Alt else 0) | (if readWin && ev.winDown then Win else 0)
  }

  /** Whether releasing key `vk` releases the switch modifiers: the source
      checks Control and Alt; with `readWin` the Windows key counts too. */
  predicate Released(readWin: bool, switchBaseMods: Modifiers, vk: int)
    ensures Released(readWin, switchBaseMods, vk) ==> IsControlKey(vk) || IsAltKey(vk) || IsWinKey(vk)
    ensures !readWin && IsWinKey(vk) ==> !Released(readWin, switchBaseMods, vk)
  {
    (HasFlag(switchBaseMods, Control) && IsControlKey(vk)) ||
    (HasFlag(switchBaseMods, Alt) && IsAltKey(vk)) ||
    (readWin && HasFlag(switchBaseMods, Win) && IsWinKey(vk))
  }

  /** HookCallback, with the Windows key read or not. */
  function Step(readWin: bool, s: HookState, ev: KeyEvent, frontmost: Option<string>, sc: ShortcutsConfiguration): (r: HookResult)
    ensures ev.nCode < 0 || frontmost.None? ==> r == HookResult(s, false, None)
    ensures r.swallow ==> r.post.Some? && (r.post.value.CtrlTabEvent? || r.post.value.CopyUrlEvent?)
    ensures r.post.Some? ==> frontmost.Some? && Postable(r.post.value) && !r.post.value.ShortcutsChangedEvent? &&
                             r.post.value.targetBrowser == frontmost.value
    ensures r.post.Some? && r.post.value.CtrlReleaseEvent? ==> !r.swallow && r.state == Idle && s.switchInProgress
    ensures HookInvariant(s) ==> HookInvariant(r.state)
  {
    Decide(s, ev, frontmost, sc, HeldModifiers(ev, readWin), Released(readWin, sc.tabSwitch.modifiers & !Shift, ev.vkCode))
  }

  /** HookCallback's decision, given the modifiers it found held and whether
      a released key releases the switch modifiers. */
  function Decide(s: HookState, ev: KeyEvent, frontmost: Option<string>, sc: ShortcutsConfiguration,
                  currentMods: Modifiers, released: bool): (r: HookResult)
    ensures ev.nCode < 0 || frontmost.None? ==> r == HookResult(s, false, None)
    ensures r.swallow ==> r.post.Some? && (r.post.value.CtrlTabEvent? || r.post.value.CopyUrlEvent?)
    ensures r.post.Some? ==> frontmost.Some? && Postable(r.post.value) && !r.post.value.ShortcutsChangedEvent? &&
                             r.post.value.targetBrowser == frontmost.value
    ensures r.post.Some? && r.post.value.CtrlReleaseEvent? ==> !r.swallow && r.state == Idle && s.switchInProgress
    ensures HookInvariant(s) ==> HookInvariant(r.state)
  {
    if ev.nCode < 0 || frontmost.None? then HookResult(s, false, None)
    else
      var browser := frontmost.value;
      var switchBaseMods := sc.tabSwitch.modifiers & !Shift;
      var currentBaseMods := currentMods & !Shift;
      if ev.msg == WM_KEYUP || ev.msg == WM_SYSKEYUP then
        if released && s.switchModifierIsPressed && s.switchInProgress then
          HookResult(Idle, false, Some(CtrlReleaseEvent(browser)))
        else
          HookResult(s, false, None)
      else if ev.msg == WM_KEYDOWN || ev.msg == WM_SYSKEYDOWN then
        if ev.vkCode == sc.tabSwitch.vkCode && currentBaseMods == switchBaseMods && switchBaseMods != NoModifiers then
          var count := (if s.switchInProgress then s.tabPressCount else 0) + 1;
          var direction := if ev.shiftDown then "cycle_prev" else "cycle_next";
          if count == 1 then
            HookResult(HookState(true, true, 1, Some(browser)), true, Some(CtrlTabEvent(direction, false, false, browser)))
          else
            HookResult(HookState(true, true, count, None), true, Some(CtrlTabEvent(direction, true, false, browser)))
        else if ev.vkCode == sc.copyUrl.vkCode && currentMods == sc.copyUrl.modifiers && sc.copyUrl.modifiers != NoModifiers then
          HookResult(s, true, Some(CopyUrlEvent(browser)))
        else
          HookResult(s, false, None)
      else
        HookResult(s, false, None)
  }

  /** HookCallback as written: the Windows key's state is never read. */
  function HookStepAsWritten(s: HookState, ev: KeyEvent, frontmost: Option<string>, sc: ShortcutsConfiguration): (r: HookResult)
    ensures ev.nCode < 0 || frontmost.None? ==> r == HookResult(s, false, None)
    ensures r.swallow ==> r.post.Some? && (r.post.value.CtrlTabEvent? || r.post.value.CopyUrlEvent?)
    ensures HookInvariant(s) ==> HookInvariant(r.state)
  {
    Step(false, s, ev, frontmost, sc)
  }

  /** HookCallback reading the Windows key too, so that every shortcut the
      setup window can record can fire. */
  function HookStep(s: HookState, ev: KeyEvent, frontmost: Option<string>, sc: ShortcutsConfiguration): (r: HookResult)
    ensures ev.nCode < 0 || frontmost.None? ==> r == HookResult(s, false, None)
    ensures r.swallow ==> r.post.Some? && (r.post.value.CtrlTabEvent? || r.post.value.CopyUrlEvent?)
    ensures HookInvariant(s) ==> HookInvariant(r.state)
  {
    Step(true, s, ev, frontmost, sc)
  }

  /** As written, a shortcut recorded with the Windows key never fires: no
      key event ever posts a switch or a copy-URL request for it. */
  lemma WinShortcutNeverFiresAsWritten(s: HookState, ev: KeyEvent, frontmost: Option<string>, sc: ShortcutsConfiguration)
    ensures HasFlag(sc.tabSwitch.modifiers, Win) ==> !(HookStepAsWritten(s, ev, frontmost, sc).post.Some? &&
                                                        HookStepAsWritten(s, ev, frontmost, sc).post.value.CtrlTabEvent?)
    ensures HasFlag(sc.copyUrl.modifiers, Win) ==> !(HookStepAsWritten(s, ev, frontmost, sc).post.Some? &&
                                                      HookStepAsWritten(s, ev, frontmost, sc).post.value.CopyUrlEvent?)
  {
    var held := HeldModifiers(ev, false);
    assert held & Win == 0;
    assert held & !Shift & Win == 0;
  }

  /** The two steps decide alike on every event with the Windows key up when
      the switch shortcut does not use it: the correction changes nothing
      for the default Ctrl+Tab shortcut. */
  lemma StepsAgreeWithoutWin(s: HookState, ev: KeyEvent, frontmost: Option<string>, sc: ShortcutsConfiguration)
    requires !ev.winDown && !HasFlag(sc.tabSwitch.modifiers, Win)
    ensures HookStepAsWritten(s, ev, frontmost, sc) == HookStep(s, ev, frontmost, sc)
  {
    ReadingIgnoresWin(ev, sc.tabSwitch.modifiers);
    StepsAgreeOnSameReading(s, ev, frontmost, sc);
  }

  /** With the Windows key up and a switch shortcut without it, reading the
      Windows key changes neither the modifiers found held nor the release. */
  lemma ReadingIgnoresWin(ev: KeyEvent, m: Modifiers)
    requires !ev.winDown && !HasFlag(m, Win)
    ensures HeldModifiers(ev, false) == HeldModifiers(ev, true)
    ensures Released(false, m & !Shift, ev.vkCode) == Released(true, m & !Shift, ev.vkCode)
  {
    assert !HasFlag(m & !Shift, Win);
  }

  /** The two steps decide alike whenever they read the same modifiers and
      the same release. */
  lemma StepsAgreeOnSameReading(s: HookState, ev: KeyEvent, frontmost: Option<string>, sc: ShortcutsConfiguration)
    requires HeldModifiers(ev, false) == HeldModifiers(ev, true)
    requires Released(false, sc.tabSwitch.modifiers & !Shift, ev.vkCode) == Released(true, sc.tabSwitch.modifiers & !Shift, ev.vkCode)
    ensures HookStepAsWritten(s, ev, frontmost, sc) == HookStep(s, ev, frontmost, sc)
  {
  }

  /** With the Windows key read, the copy-URL shortcut fires exactly when its
      key goes down with exactly its modifiers held (and it is not also the
      switch shortcut), Win+C included. */
  lemma CopyUrlShortcutFires(s: HookState, ev: KeyEvent, browser: string, sc: ShortcutsConfiguration)
    requires ev.nCode >= 0 && (ev.msg == WM_KEYDOWN || ev.msg == WM_SYSKEYDOWN)
    requires ev.vkCode != sc.tabSwitch.vkCode
    ensures HookStep(s, ev, Some(browser), sc).post == Some(CopyUrlEvent(browser)) <==>
      ev.vkCode == sc.copyUrl.vkCode && HeldModifiers(ev, true) == sc.copyUrl.modifiers && sc.copyUrl.modifiers != NoModifiers
  {
  }

  /** The Win+C example: recorded and held, it posts nothing as written and
      asks for the address once the Windows key is read. */
  lemma WinCExample(browser: string)
    ensures var sc := ShortcutsConfiguration(DefaultTabSwitch, Shortcut(0x43, Win));
            var ev := KeyEvent(0, WM_KEYDOWN, 0x43, false, false, false, true);
            HookStepAsWritten(Idle, ev, Some(browser), sc).post == None &&
            HookStep(Idle, ev, Some(browser), sc).post == Some(CopyUrlEvent(browser))
  {
    var ev := KeyEvent(0, WM_KEYDOWN, 0x43, false, false, false, true);
    assert HeldModifiers(ev, false) == 0;
    assert HeldModifiers(ev, true) == Win;
  }

  /** The show-UI timer fires: it stops itself and asks for the overlay in
      the browser of the first press. */
  function TimerTick(s: HookState): (r: HookResult)
    requires s.timer.Some?
    ensures r.post == Some(RequestShowUIEvent(false, s.timer.value)) && !r.swallow
    ensures HookInvariant(s) ==> HookInvariant(r.state)
  {
    HookResult(s.(timer := None), false, Some(RequestShowUIEvent(false, s.timer.value)))
  }

  /** The events a run of key events posts, all in front of one browser,
      and the state it ends in. */
  function Run(readWin: bool, s: HookState, evs: seq<KeyEvent>, browser: string, sc: ShortcutsConfiguration): (HookState, seq<IpcEvent>)
    decreases |evs|
  {
    if |evs| == 0 then (s, [])
    else
      var r := Step(readWin, s, evs[0], Some(browser), sc);
      var rest := Run(readWin, r.state, evs[1..], browser, sc);
      (rest.0, (if r.post.Some? then [r.post.value] else []) + rest.1)
  }

  function Repeat<T>(x: T, n: nat): (r: seq<T>)
    ensures |r| == n && forall i :: 0 <= i < n ==> r[i] == x
  {
    if n == 0 then [] else [x] + Repeat(x, n - 1)
  }

  /** A press of the switch shortcut with Ctrl held and Shift up. */
  function Press(sc: ShortcutsConfiguration): KeyEvent {
    KeyEvent(0, WM_KEYDOWN, sc.tabSwitch.vkCode, true, false, false, false)
  }

  /** Releasing the left Ctrl key. */
  const ReleaseCtrl: KeyEvent := KeyEvent(0, WM_KEYUP, VK_LCONTROL, false, false, false, false)

  /** The state after k presses of one switch. */
  function Pressed(k: nat, browser: string): HookState
    requires k >= 1
  {
    HookState(true, true, k, if k == 1 then Some(browser) else None)
  }

  lemma {:induction false} PressesFrom(readWin: bool, k: nat, m: nat, browser: string, sc: ShortcutsConfiguration)
    requires k >= 1 && sc.tabSwitch.modifiers & !Shift == Control
    ensures Run(readWin, Pressed(k, browser), Repeat(Press(sc), m) + [ReleaseCtrl], browser, sc) ==
      (Idle, Repeat(CtrlTabEvent("cycle_next", true, false, browser), m) + [CtrlReleaseEvent(browser)])
    decreases m
  {
    var evs := Repeat(Press(sc), m) + [ReleaseCtrl];
    assert HeldModifiers(Press(sc), readWin) & !Shift == Control;
    assert HeldModifiers(ReleaseCtrl, readWin) == 0;
    if m == 0 {
      assert evs == [ReleaseCtrl];
      assert evs[1..] == [];
      assert Step(readWin, Pressed(k, browser), ReleaseCtrl, Some(browser), sc) ==
        HookResult(Idle, false, Some(CtrlReleaseEvent(browser)));
      assert Run(readWin, Idle, evs[1..], browser, sc) == (Idle, []);
      assert [CtrlReleaseEvent(browser)] + [] == [CtrlReleaseEvent(browser)];
      assert Run(readWin, Pressed(k, browser), evs, browser, sc) == (Idle, [CtrlReleaseEvent(browser)]);
      assert Repeat(CtrlTabEvent("cycle_next", true, false, browser), 0) + [CtrlReleaseEvent(browser)] == [CtrlReleaseEvent(browser)];
    } else {
      assert evs[0] == Press(sc);
      assert evs[1..] == Repeat(Press(sc), m - 1) + [ReleaseCtrl];
      assert Step(readWin, Pressed(k, browser), Press(sc), Some(browser), sc) ==
        HookResult(Pressed(k + 1, browser), true, Some(CtrlTabEvent("cycle_next", true, false, browser)));
      PressesFrom(readWin, k + 1, m - 1, browser, sc);
      var step := CtrlTabEvent("cycle_next", true, false, browser);
      var tail := Repeat(step, m - 1) + [CtrlReleaseEvent(browser)];
      assert Run(readWin, Pressed(k, browser), evs, browser, sc) == (Idle, [step] + tail);
      assert Repeat(step, m) == [step] + Repeat(step, m - 1);
      assert [step] + tail == Repeat(step, m) + [CtrlReleaseEvent(browser)];
    }
  }

  /** A whole switch: n presses of Ctrl+Tab then releasing Ctrl post one
      switch step without the overlay, n - 1 steps with it, and one release,
      all for the browser in front, and leave the hook idle again; so it
      goes whether the Windows key is read or not. */
  lemma SwitchSession(readWin: bool, n: nat, browser: string, sc: ShortcutsConfiguration)
    requires n >= 1 && sc.tabSwitch.modifiers & !Shift == Control
    ensures Run(readWin, Idle, Repeat(Press(sc), n) + [ReleaseCtrl], browser, sc) ==
      (Idle, [CtrlTabEvent("cycle_next", false, false, browser)] +
             Repeat(CtrlTabEvent("cycle_next", true, false, browser), n - 1) + [CtrlReleaseEvent(browser)])
  {
    var evs := Repeat(Press(sc), n) + [ReleaseCtrl];
    assert HeldModifiers(Press(sc), readWin) & !Shift == Control;
    assert evs[0] == Press(sc);
    assert evs[1..] == Repeat(Press(sc), n - 1) + [ReleaseCtrl];
    assert Step(readWin, Idle, Press(sc), Some(browser), sc) ==
      HookResult(Pressed(1, browser), true, Some(CtrlTabEvent("cycle_next", false, false, browser)));
    PressesFrom(readWin, 1, n - 1, browser, sc);
    var first := CtrlTabEvent("cycle_next", false, false, browser);
    var tail := Repeat(CtrlTabEvent("cycle_next", true, false, browser), n - 1) + [CtrlReleaseEvent(browser)];
    assert Run(readWin, Idle, evs, browser, sc) == (Idle, [first] + tail);
    assert [first] + tail == [first] + Repeat(CtrlTabEvent("cycle_next", true, false, browser), n - 1) + [CtrlReleaseEvent(browser)];
  }

  /** The process names GetFrontmostBrowserId recognises, lower-cased. */
  const ForegroundBrowserIds: map<string, string> :=
    map["chrome" := "com.google.Chrome", "brave" := "com.brave.Browser", "msedge" := "com.microsoft.edgemac",
        "vivaldi" := "com.vivaldi.Vivaldi", "opera" := "com.operasoftware.Opera", "thorium" := "org.chromium.Thorium"]

  /** GetFrontmostBrowserId: the browser owning the foreground window, found
      by its process name; none without a window, a process id, or a
      readable process (the exception is swallowed). */
  function FrontmostBrowserId(hwnd: int, processId: int, processName: Option<string>): (r: Option<string>)
    ensures hwnd == 0 || processId == 0 || processName.None? ==> r.None?
    ensures r.Some? ==> r.value in {"com.google.Chrome", "com.brave.Browser", "com.microsoft.edgemac",
                                    "com.vivaldi.Vivaldi", "com.operasoftware.Opera", "org.chromium.Thorium"}
  {
    if hwnd == 0 || processId == 0 || processName.None? then None
    else
      var name := Lower(processName.value);
      if name == "chrome" then Some("com.google.Chrome")
      else if name == "brave" then Some("com.brave.Browser")
      else if name == "msedge" then Some("com.microsoft.edgemac")
      else if name == "vivaldi" then Some("com.vivaldi.Vivaldi")
      else if name == "opera" then Some("com.operasoftware.Opera")
      else if name == "thorium" then Some("org.chromium.Thorium")
      else None
  }

  /** The name switch is a lookup of the lower-cased name in the six-entry
      table, once a window, a process id and a name are all there. */
  lemma FrontmostBrowserIdIsLookup(hwnd: int, processId: int, processName: Option<string>, b: string)
    ensures FrontmostBrowserId(hwnd, processId, processName) == Some(b) <==>
              hwnd != 0 && processId != 0 && processName.Some? &&
              Lower(processName.value) in ForegroundBrowserIds && ForegroundBrowserIds[Lower(processName.value)] == b
  {
  }

  /** Process names are matched without regard to ASCII case: a name and its
      lower-cased form pick the same browser. */
  lemma FrontmostIgnoresCase(hwnd: int, processId: int, name: string)
    ensures FrontmostBrowserId(hwnd, processId, Some(name)) == FrontmostBrowserId(hwnd, processId, Some(Lower(name)))
  {
    LowerIdempotent(name);
  }

  /** The hook object. */
  class KeyboardHook {
    const ipc: InstanceCommunication
    /** `_hookId != IntPtr.Zero`. */
    var installed: bool
    var switchModifierIsPressed: bool
    var switchInProgress: bool
    var tabPressCount: nat
    var timer: Option<string>

    function State(): HookState
      reads this
    {
      HookState(switchModifierIsPressed, switchInProgress, tabPressCount, timer)
    }

    constructor (ipc: InstanceCommunication)
      ensures this.ipc == ipc && !installed && State() == Idle
    {
      this.ipc := ipc;
      installed := false;
      switchModifierIsPressed := false;
      switchInProgress := false;
      tabPressCount := 0;
      timer := None;
    }

    /** Install: SetWindowsHookEx, which may fail (the failure is logged). */
    method Install(succeeds: bool)
      modifies this`installed
      ensures installed == succeeds
    {
      installed := succeeds;
    }

    /** Uninstall: unhook if hooked. */
    method Uninstall()
      modifies this`installed
      ensures !installed
    {
      if installed {
        installed := false;
      }
    }

    /** HookCallback: update the state, post the event decided, and report
        whether the key is swallowed. */
    method HookCallback(ev: KeyEvent, frontmost: Option<string>, sc: ShortcutsConfiguration) returns (swallow: bool)
      modifies this`switchModifierIsPressed, this`switchInProgress, this`tabPressCount, this`timer
      modifies ipc`connections, ipc`handled, ipc`toLeader
      ensures var r := HookStepAsWritten(old(State()), ev, frontmost, sc);
        State() == r.state && swallow == r.swallow &&
        (r.post.Some? ==> ipc.PostedOnce(r.post.value)) &&
        (r.post.None? ==> ipc.connections == old(ipc.connections) && ipc.handled == old(ipc.handled) && ipc.toLeader == old(ipc.toLeader))
    {
      var r := HookStepAsWritten(State(), ev, frontmost, sc);
      switchModifierIsPressed, switchInProgress, tabPressCount, timer :=
        r.state.switchModifierIsPressed, r.state.switchInProgress, r.state.tabPressCount, r.state.timer;
      if r.post.Some? {
        ipc.Post(r.post.value);
      }
      swallow := r.swallow;
    }

    /** The show-UI timer's tick. */
    method OnTimerTick()
      requires timer.Some?
      modifies this`timer, ipc`connections, ipc`handled, ipc`toLeader
      ensures timer.None? && ipc.PostedOnce(RequestShowUIEvent(false, old(timer).value))
    {
      var browser := timer.value;
      timer := None;
      ipc.Post(RequestShowUIEvent(false, browser));
    }
  }
}
