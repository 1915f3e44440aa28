/** The extension's service worker (mainsw.js): the MRU list kept up to date by
    tab events, the legacy Alt-switch sessions driven by commands and a timer,
    the native Ctrl+Tab sessions driven by the helper's messages, and the
    thumbnail cache. The Chrome APIs a handler awaits are passed in as a
    snapshot of the browser (`Browser`). */
module ServiceWorker {
  import opened Common
  import opened Wire
  import opened Mru
  import MacConfig

  const FastTimerMs: nat := 200
  const SlowTimerMs: nat := 1500

  /** What the Chrome APIs report while one handler runs: the window of every
      existing tab, whether a window of this profile has focus, and the current
      window (None when chrome.windows.getCurrent fails). */
  datatype Browser = Browser(windows: map<int, int>, focused: bool, currentWindow: Option<int>)

  /** A URL captureVisibleTab is not used on. An empty URL is falsy and passes. */
  predicate RestrictedUrl(url: string) {
    url != "" &&
    (StartsWith(url, "chrome://") || StartsWith(url, "chrome-extension://") || StartsWith(url, "devtools://") ||
     StartsWith(url, "edge://") || StartsWith(url, "about:"))
  }

  /** processCommand's trigger class: every command but the two slow ones is fast. */
  predicate IsFastCommand(command: string) {
    command != "alt_switch_slow_backward" && command != "alt_switch_slow_forward"
  }

  class ServiceWorker {
    var mru: seq<int>
    var initialized: bool
    var slowSwitchOngoing: bool
    var fastSwitchOngoing: bool
    var nativeSwitchOngoing: bool
    var intSwitchCount: nat
    var lastIntSwitchIndex: nat
    var slowswitchForward: bool
    /** The delay of the pending endSwitch timer, if one is pending. */
    var endTimer: Option<nat>
    var uiShownDuringSwitch: bool
    var currentWindowOnly: bool
    /** filteredMru: either the very array `mru` (getFilteredMru returned it,
        so later edits of `mru` show through) or a list of its own. */
    var filteredIsMru: bool
    var filteredOwn: seq<int>
    var tabThumbnails: map<int, string>
    var tabThumbnailOrder: seq<int>
    var lastActiveTabId: Option<int>
    /** nativePort is open. */
    var portOpen: bool
    var nativeHostConnected: bool
    /** Messages posted to the helper, in order. */
    var sent: seq<ExtMessage>
    /** Tabs made active by chrome.tabs.update, in order. */
    var activated: seq<int>
    /** Tabs whose delayed captureThumbnail has been scheduled, in order. */
    var captureRequests: seq<int>
    const browserBundleId: string

    function FilteredMru(): seq<int>
      reads this
    {
      if filteredIsMru then mru else filteredOwn
    }

    /** What sendToNativeHost posts: nothing while the port is closed. */
    function Out(m: ExtMessage): seq<ExtMessage>
      reads this
    {
      if portOpen then [m] else []
    }

    predicate Valid()
      reads this
    {
      !(slowSwitchOngoing && fastSwitchOngoing) &&
      ThumbnailsConsistent(tabThumbnails, tabThumbnailOrder)
    }

    /** The worker's state when the script is loaded; `userAgent` is navigator.userAgent. */
    constructor (userAgent: string, port: bool)
      ensures Valid() && mru == [] && !initialized && browserBundleId == BundleIdForUserAgent(userAgent)
      ensures !slowSwitchOngoing && !fastSwitchOngoing && !nativeSwitchOngoing && intSwitchCount == 0 && lastIntSwitchIndex == 0
      ensures FilteredMru() == [] && !uiShownDuringSwitch && !currentWindowOnly && endTimer == None
      ensures tabThumbnails == map[] && tabThumbnailOrder == [] && portOpen == port && sent == []
    {
      mru, initialized := [], false;
      slowSwitchOngoing, fastSwitchOngoing, nativeSwitchOngoing := false, false, false;
      intSwitchCount, lastIntSwitchIndex, slowswitchForward := 0, 0, false;
      endTimer, uiShownDuringSwitch, currentWindowOnly := None, false, false;
      filteredIsMru, filteredOwn := false, [];
      tabThumbnails, tabThumbnailOrder, lastActiveTabId := map[], [], None;
      portOpen, nativeHostConnected := port, false;
      sent, activated, captureRequests := [], [], [];
      browserBundleId := BundleIdForUserAgent(userAgent);
    }

    // ------------------------------------------------------------ list edits

    method AddTabToMRUAtBack(tabId: int)
      modifies this`mru
      ensures mru == AddedAtBack(old(mru), tabId)
    {
      if IndexOf(mru, tabId) == -1 {
        mru := mru[..BackIndex(|mru|)] + [tabId] + mru[BackIndex(|mru|)..];
      }
    }

    method AddTabToMRUAtFront(tabId: int)
      modifies this`mru
      ensures mru == AddedAtFront(old(mru), tabId)
    {
      if IndexOf(mru, tabId) == -1 {
        mru := [tabId] + mru;
      }
    }

    method PutExistingTabToTop(tabId: int)
      modifies this`mru
      ensures mru == MovedToFront(old(mru), tabId)
    {
      var index := IndexOf(mru, tabId);
      if index != -1 {
        mru := mru[..index] + mru[index + 1..];
        mru := [tabId] + mru;
      }
    }

    method RemoveTabFromMRU(tabId: int)
      modifies this`mru
      ensures mru == Removed(old(mru), tabId)
    {
      var index := IndexOf(mru, tabId);
      if index != -1 {
        mru := mru[..index] + mru[index + 1..];
      }
    }

    method RemoveItemAtIndexFromMRU(index: int)
      modifies this`mru
      ensures mru == RemovedAtIndex(old(mru), index)
    {
      if index < |mru| {
        var start := SpliceStart(|mru|, index);
        if start < |mru| {
          mru := mru[..start] + mru[start + 1..];
        }
      }
    }

    method IncrementSwitchCounter()
      requires |mru| > 0
      modifies this`intSwitchCount
      ensures intSwitchCount == Incremented(old(intSwitchCount), |mru|)
    {
      intSwitchCount := (intSwitchCount + 1) % |mru|;
    }

    method DecrementSwitchCounter()
      requires |mru| > 0
      modifies this`intSwitchCount
      ensures intSwitchCount == Decremented(old(intSwitchCount), |mru|)
    {
      if intSwitchCount == 0 {
        intSwitchCount := |mru| - 1;
      } else {
        intSwitchCount := intSwitchCount - 1;
      }
    }

    // ------------------------------------------------------------ legacy sessions

    /** doIntSwitch: step the cursor; activate the tab there if it still
        exists, otherwise drop it from the list and step again. */
    method DoIntSwitch(alive: set<int>)
      modifies this`mru, this`intSwitchCount, this`lastIntSwitchIndex, this`activated
      ensures var r := IntSwitch(old(mru), old(intSwitchCount), slowswitchForward, alive);
        mru == r.mru && intSwitchCount == r.cursor &&
        lastIntSwitchIndex == (if r.activated.Some? then r.activated.value else old(lastIntSwitchIndex)) &&
        activated == old(activated) + (if r.activated.Some? && r.activated.value < |r.mru| then [r.mru[r.activated.value]] else [])
    {
      while intSwitchCount < |mru|
        invariant IntSwitch(mru, intSwitchCount, slowswitchForward, alive) == IntSwitch(old(mru), old(intSwitchCount), slowswitchForward, alive)
        invariant lastIntSwitchIndex == old(lastIntSwitchIndex) && activated == old(activated)
        decreases |mru|
      {
        ghost var before := intSwitchCount;
        if slowswitchForward {
          DecrementSwitchCounter();
        } else {
          IncrementSwitchCounter();
        }
        var tabIdToMakeActive := mru[intSwitchCount];
        if tabIdToMakeActive in alive {
          IntSwitchStops(mru, before, intSwitchCount, slowswitchForward, alive);
          activated := activated + [tabIdToMakeActive];
          lastIntSwitchIndex := intSwitchCount;
          return;
        }
        IntSwitchSkips(mru, before, intSwitchCount, slowswitchForward, alive);
        RemovedAtIndexSpec(mru, intSwitchCount);
        RemoveItemAtIndexFromMRU(intSwitchCount);
        if intSwitchCount >= |mru| {
          intSwitchCount := 0;
        }
      }
    }

    /** endSwitch: all three sessions end, and the tab at lastIntSwitchIndex of
        the full list moves to the front. */
    method EndSwitch()
      modifies this`slowSwitchOngoing, this`fastSwitchOngoing, this`nativeSwitchOngoing, this`mru
      ensures !slowSwitchOngoing && !fastSwitchOngoing && !nativeSwitchOngoing
      ensures mru == Committed(old(mru), lastIntSwitchIndex)
    {
      slowSwitchOngoing := false;
      fastSwitchOngoing := false;
      nativeSwitchOngoing := false;
      if lastIntSwitchIndex < |mru| {
        PutExistingTabToTop(mru[lastIntSwitchIndex]);
      }
    }

    /** The START_SWITCH branch of processCommand: mark the session of the
        command's class as ongoing, reset the cursor and take the first step. */
    method StartSwitch(fastswitch: bool, alive: set<int>)
      requires !slowSwitchOngoing && !fastSwitchOngoing
      modifies this`slowSwitchOngoing, this`fastSwitchOngoing, this`mru, this`intSwitchCount, this`lastIntSwitchIndex, this`activated
      ensures fastSwitchOngoing == fastswitch && slowSwitchOngoing == !fastswitch
      ensures var r := IntSwitch(old(mru), 0, slowswitchForward, alive);
        mru == r.mru && intSwitchCount == r.cursor &&
        lastIntSwitchIndex == (if r.activated.Some? then r.activated.value else old(lastIntSwitchIndex)) &&
        activated == old(activated) + (if r.activated.Some? && r.activated.value < |r.mru| then [r.mru[r.activated.value]] else [])
    {
      if fastswitch {
        fastSwitchOngoing := true;
      } else {
        slowSwitchOngoing := true;
      }
      intSwitchCount := 0;
      DoIntSwitch(alive);
    }

    /** processCommand's reading of the command name: a fast switch unless
        one of the two slow commands, and forward only for the slow forward one. */
    static method ClassifyCommand(command: string) returns (fastswitch: bool, forward: bool)
      ensures fastswitch == IsFastCommand(command)
      ensures forward == (command == "alt_switch_slow_forward")
    {
      fastswitch := true;
      forward := false;
      if command == "alt_switch_fast" {
        fastswitch := true;
      } else if command == "alt_switch_slow_backward" {
        fastswitch := false;
        forward := false;
      } else if command == "alt_switch_slow_forward" {
        fastswitch := false;
        forward := true;
      }
    }

    /** processCommand for one Alt-switch command; `alive` are the tabs that exist. */
    method ProcessCommand(command: string, alive: set<int>)
      requires Valid()
      modifies this`slowSwitchOngoing, this`fastSwitchOngoing, this`nativeSwitchOngoing, this`slowswitchForward,
               this`intSwitchCount, this`lastIntSwitchIndex, this`mru, this`activated, this`endTimer
      ensures Valid()
      ensures fastSwitchOngoing == IsFastCommand(command) && slowSwitchOngoing == !IsFastCommand(command)
      ensures slowswitchForward == (command == "alt_switch_slow_forward")
      ensures endTimer == Some(if IsFastCommand(command) then FastTimerMs else SlowTimerMs)
      ensures var fast := IsFastCommand(command);
        var wasIdle := !old(slowSwitchOngoing) && !old(fastSwitchOngoing);
        var sameClass := (old(slowSwitchOngoing) && !fast) || (old(fastSwitchOngoing) && fast);
        var base := if wasIdle || sameClass then old(mru) else Committed(old(mru), old(lastIntSwitchIndex));
        var r := IntSwitch(base, if sameClass then old(intSwitchCount) else 0, slowswitchForward, alive);
        mru == r.mru && intSwitchCount == r.cursor &&
        lastIntSwitchIndex == (if r.activated.Some? then r.activated.value else old(lastIntSwitchIndex)) &&
        activated == old(activated) + (if r.activated.Some? && r.activated.value < |r.mru| then [r.mru[r.activated.value]] else []) &&
        nativeSwitchOngoing == (old(nativeSwitchOngoing) && (wasIdle || sameClass))
    {
      var fastswitch, forward := ClassifyCommand(command);
      slowswitchForward := forward;

      if !slowSwitchOngoing && !fastSwitchOngoing {
        StartSwitch(fastswitch, alive);
      } else if (slowSwitchOngoing && !fastswitch) || (fastSwitchOngoing && fastswitch) {
        DoIntSwitch(alive);
      } else if slowSwitchOngoing && fastswitch {
        EndSwitch();
        StartSwitch(true, alive);
      } else if fastSwitchOngoing && !fastswitch {
        EndSwitch();
        StartSwitch(false, alive);
      }

      endTimer := Some(if fastswitch then FastTimerMs else SlowTimerMs);
    }

    /** The endSwitch timer of a legacy session fires. */
    method EndTimerFires()
      requires Valid()
      modifies this`slowSwitchOngoing, this`fastSwitchOngoing, this`nativeSwitchOngoing, this`mru, this`endTimer
      ensures Valid() && endTimer == None
      ensures old(endTimer).Some? ==> !slowSwitchOngoing && !fastSwitchOngoing && !nativeSwitchOngoing &&
                                      mru == Committed(old(mru), lastIntSwitchIndex)
      ensures old(endTimer).None? ==> unchanged(this`slowSwitchOngoing, this`fastSwitchOngoing, this`nativeSwitchOngoing, this`mru)
    {
      if endTimer.Some? {
        endTimer := None;
        EndSwitch();
      }
    }

    // ------------------------------------------------------------ tab events

    /** initialize: every tab of every window is unshifted onto the list, so the
        list ends up in reverse enumeration order. */
    method Initialize(windowTabs: seq<seq<int>>)
      modifies this`initialized, this`mru
      ensures initialized
      ensures mru == if old(initialized) then old(mru) else Reverse(Flatten(windowTabs)) + old(mru)
    {
      if initialized {
        return;
      }
      initialized := true;
      var w := 0;
      while w < |windowTabs|
        invariant 0 <= w <= |windowTabs| && initialized
        invariant mru == Reverse(Flatten(windowTabs[..w])) + old(mru)
      {
        ReverseAppend(Flatten(windowTabs[..w]), windowTabs[w]);
        FlattenStep(windowTabs, w);
        UnshiftAll(windowTabs[w]);
        w := w + 1;
      }
      assert windowTabs[..w] == windowTabs;
    }

    /** One window's tabs unshifted onto the list one by one. */
    method UnshiftAll(tabs: seq<int>)
      modifies this`mru
      ensures mru == Reverse(tabs) + old(mru)
    {
      var t := 0;
      while t < |tabs|
        invariant 0 <= t <= |tabs|
        invariant mru == Reverse(tabs[..t]) + old(mru)
      {
        ReverseSnoc(tabs[..t], tabs[t]);
        assert tabs[..t + 1] == tabs[..t] + [tabs[t]];
        mru := [tabs[t]] + mru;
        t := t + 1;
      }
      assert tabs[..t] == tabs;
    }

    /** onActivated: outside any session the activated tab goes to the front of
        the list (inserted if unknown) and a thumbnail capture is scheduled. */
    method OnActivated(tabId: int)
      modifies this`mru, this`lastActiveTabId, this`captureRequests
      ensures lastActiveTabId == Some(tabId)
      ensures var idle := !slowSwitchOngoing && !fastSwitchOngoing && !nativeSwitchOngoing;
        mru == (if !idle then old(mru) else if tabId in old(mru) then MovedToFront(old(mru), tabId) else [tabId] + old(mru)) &&
        captureRequests == old(captureRequests) + (if idle then [tabId] else [])
    {
      lastActiveTabId := Some(tabId);
      if !slowSwitchOngoing && !fastSwitchOngoing && !nativeSwitchOngoing {
        var index := IndexOf(mru, tabId);
        if index == -1 {
          AddTabToMRUAtFront(tabId);
        } else {
          PutExistingTabToTop(tabId);
        }
        captureRequests := captureRequests + [tabId];
      }
    }

    /** onCreated. */
    method OnCreated(tabId: int)
      modifies this`mru
      ensures mru == AddedAtBack(old(mru), tabId)
    {
      AddTabToMRUAtBack(tabId);
    }

    /** onRemoved: the tab leaves the list, the cache and the cache order. */
    method OnRemoved(tabId: int)
      requires Valid()
      modifies this`mru, this`tabThumbnails, this`tabThumbnailOrder
      ensures Valid()
      ensures mru == Removed(old(mru), tabId)
      ensures tabThumbnails == old(tabThumbnails) - {tabId} && tabThumbnailOrder == Removed(old(tabThumbnailOrder), tabId)
    {
      RemoveTabFromMRU(tabId);
      tabThumbnails := tabThumbnails - {tabId};
      var thumbIndex := IndexOf(tabThumbnailOrder, tabId);
      if thumbIndex != -1 {
        tabThumbnailOrder := tabThumbnailOrder[..thumbIndex] + tabThumbnailOrder[thumbIndex + 1..];
      }
      RemovalKeepsCacheConsistent(old(tabThumbnails), old(tabThumbnailOrder), tabId);
    }

    /** captureThumbnail once its callbacks have run: `tabUrl` is the tab's URL
        (None when the tab is gone) and `dataUrl` the captured image (None when
        capturing failed). */
    method CaptureThumbnail(tabId: int, tabUrl: Option<string>, dataUrl: Option<string>)
      requires Valid()
      modifies this`tabThumbnails, this`tabThumbnailOrder
      ensures Valid()
      ensures var stored := tabUrl.Some? && !RestrictedUrl(tabUrl.value) && dataUrl.Some? && dataUrl.value != "";
        (stored ==> tabThumbnailOrder == OrderAfterCapture(old(tabThumbnailOrder), tabId) &&
                    tabThumbnails == old(tabThumbnails)[tabId := dataUrl.value] - Evicted(old(tabThumbnailOrder), tabId)) &&
        (!stored ==> tabThumbnailOrder == old(tabThumbnailOrder) && tabThumbnails == old(tabThumbnails))
    {
      if tabUrl.None? || RestrictedUrl(tabUrl.value) || dataUrl.None? || dataUrl.value == "" {
        return;
      }
      var existingIndex := IndexOf(tabThumbnailOrder, tabId);
      if existingIndex != -1 {
        tabThumbnailOrder := tabThumbnailOrder[..existingIndex] + tabThumbnailOrder[existingIndex + 1..];
      }
      tabThumbnailOrder := [tabId] + tabThumbnailOrder;
      tabThumbnails := tabThumbnails[tabId := dataUrl.value];
      assert tabThumbnailOrder == Touched(old(tabThumbnailOrder), tabId);
      TrimThumbnails(tabThumbnailOrder, tabThumbnails);
      CaptureKeepsCacheConsistent(old(tabThumbnails), old(tabThumbnailOrder), tabId, dataUrl.value);
    }

    /** captureThumbnail's eviction loop: drop the oldest entries until 20 remain. */
    method TrimThumbnails(ghost t: seq<int>, ghost m0: map<int, string>)
      requires tabThumbnailOrder == t && tabThumbnails == m0
      modifies this`tabThumbnails, this`tabThumbnailOrder
      ensures tabThumbnailOrder == (if |t| > MaxThumbnails then t[..MaxThumbnails] else t)
      ensures tabThumbnails == m0 - (if |t| > MaxThumbnails then Elems(t[MaxThumbnails..]) else {})
    {
      assert t[|t|..] == [];
      while |tabThumbnailOrder| > MaxThumbnails
        invariant |tabThumbnailOrder| <= |t| && tabThumbnailOrder == t[..|tabThumbnailOrder|]
        invariant |t| > MaxThumbnails ==> |tabThumbnailOrder| >= MaxThumbnails
        invariant |t| <= MaxThumbnails ==> tabThumbnailOrder == t
        invariant tabThumbnails == m0 - Elems(t[|tabThumbnailOrder|..])
      {
        var n := |tabThumbnailOrder|;
        var oldestTabId := tabThumbnailOrder[n - 1];
        tabThumbnailOrder := tabThumbnailOrder[..n - 1];
        assert t[n - 1..] == [oldestTabId] + t[n..];
        ElemsCons(oldestTabId, t[n..]);
        tabThumbnails := tabThumbnails - {oldestTabId};
      }
    }

    // ------------------------------------------------------------ native sessions

    /** getFilteredMru: the list itself, or the tabs of the current window.
        The second result says the list itself was returned. */
    method GetFilteredMru(b: Browser) returns (filtered: seq<int>, isMru: bool)
      ensures isMru <==> WindowChoice(mru, currentWindowOnly, b.currentWindow, b.windows).None?
      ensures isMru ==> filtered == mru
      ensures !isMru ==> filtered == WindowChoice(mru, currentWindowOnly, b.currentWindow, b.windows).value
    {
      if !currentWindowOnly || b.currentWindow.None? {
        return mru, true;
      }
      var currentWindowId := b.currentWindow.value;
      var acc: seq<int> := [];
      var i := 0;
      while i < |mru|
        invariant 0 <= i <= |mru|
        invariant acc == InWindow(mru[..i], currentWindowId, b.windows)
      {
        FilterSnoc(mru[..i], mru[i], InWindowTest(currentWindowId, b.windows));
        assert mru[..i + 1] == mru[..i] + [mru[i]];
        if mru[i] in b.windows && b.windows[mru[i]] == currentWindowId {
          acc := acc + [mru[i]];
        }
        i := i + 1;
      }
      assert mru[..i] == mru;
      if |acc| > 0 {
        return acc, false;
      }
      return mru, true;
    }

    /** The list the switcher shows: the filtered one during a native session. */
    function SwitcherList(): (r: seq<int>)
      reads this
      ensures !nativeSwitchOngoing ==> r == mru
      ensures nativeSwitchOngoing ==> r == FilteredMru()
    {
      if nativeSwitchOngoing then FilteredMru() else mru
    }

    /** handleNativeCycle: direction > 0 is cycle_next. */
    method HandleNativeCycle(direction: int, showUI: bool, windowOnly: bool, b: Browser)
      requires Valid()
      modifies this`nativeSwitchOngoing, this`uiShownDuringSwitch, this`filteredOwn, this`filteredIsMru,
               this`currentWindowOnly, this`intSwitchCount, this`lastIntSwitchIndex, this`sent
      ensures Valid()
      ensures !b.focused && old(nativeSwitchOngoing) ==>
        !nativeSwitchOngoing && !uiShownDuringSwitch && FilteredMru() == [] && !currentWindowOnly
      ensures !b.focused ==> sent == old(sent) && intSwitchCount == old(intSwitchCount) && lastIntSwitchIndex == old(lastIntSwitchIndex)
      ensures !b.focused && !old(nativeSwitchOngoing) ==>
        unchanged(this`nativeSwitchOngoing, this`uiShownDuringSwitch, this`filteredOwn, this`filteredIsMru, this`currentWindowOnly)
      ensures b.focused ==> nativeSwitchOngoing
      ensures b.focused && !old(nativeSwitchOngoing) ==>
        currentWindowOnly == windowOnly &&
        FilteredMru() == WindowChoice(mru, windowOnly, b.currentWindow, b.windows).GetOr(mru)
      ensures b.focused && old(nativeSwitchOngoing) ==>
        unchanged(this`filteredOwn, this`filteredIsMru, this`currentWindowOnly)
      ensures b.focused ==>
        var start := if old(nativeSwitchOngoing) then old(intSwitchCount) else 0;
        var shown := old(nativeSwitchOngoing) && old(uiShownDuringSwitch);
        var n := |FilteredMru()|;
        (n == 0 ==> intSwitchCount == start && lastIntSwitchIndex == old(lastIntSwitchIndex) &&
                    sent == old(sent) && uiShownDuringSwitch == shown) &&
        (n > 0 ==> intSwitchCount == (if direction > 0 then Incremented(start, n) else Decremented(start, n)) &&
                   lastIntSwitchIndex == intSwitchCount &&
                   uiShownDuringSwitch == (shown || showUI) &&
                   sent == old(sent) + (if showUI && !shown then Out(ShowSwitcher(Existing(FilteredMru(), b.windows), intSwitchCount))
                                        else if shown then Out(UpdateSelection(intSwitchCount))
                                        else []))
      ensures b.focused && |FilteredMru()| > 0 && (!old(nativeSwitchOngoing) || old(intSwitchCount) < |FilteredMru()|) ==>
        intSwitchCount < |FilteredMru()|
    {
      if !b.focused {
        if nativeSwitchOngoing {
          ResetNativeSession();
        }
        return;
      }
      if !nativeSwitchOngoing {
        StartNativeSession(windowOnly, b);
      }
      StepNativeSession(direction, showUI, b);
    }

    /** The session state a native session ends with when focus is lost. */
    method ResetNativeSession()
      modifies this`nativeSwitchOngoing, this`uiShownDuringSwitch, this`filteredOwn, this`filteredIsMru, this`currentWindowOnly
      ensures !nativeSwitchOngoing && !uiShownDuringSwitch && FilteredMru() == [] && !currentWindowOnly
    {
      nativeSwitchOngoing := false;
      uiShownDuringSwitch := false;
      filteredIsMru, filteredOwn := false, [];
      currentWindowOnly := false;
    }

    /** The start of a native session: cursor at 0, switcher hidden, and the
        list to cycle over chosen once. */
    method StartNativeSession(windowOnly: bool, b: Browser)
      modifies this`nativeSwitchOngoing, this`uiShownDuringSwitch, this`filteredOwn, this`filteredIsMru,
               this`currentWindowOnly, this`intSwitchCount
      ensures nativeSwitchOngoing && intSwitchCount == 0 && !uiShownDuringSwitch && currentWindowOnly == windowOnly
      ensures FilteredMru() == WindowChoice(mru, windowOnly, b.currentWindow, b.windows).GetOr(mru)
    {
      nativeSwitchOngoing := true;
      intSwitchCount := 0;
      uiShownDuringSwitch := false;
      currentWindowOnly := windowOnly;
      var f, isMru := GetFilteredMru(b);
      filteredIsMru := isMru;
      filteredOwn := if isMru then [] else f;
    }

    /** One Ctrl+Tab of a native session: move the cursor over the filtered
        list, then show the switcher or update its selection. */
    method StepNativeSession(direction: int, showUI: bool, b: Browser)
      requires nativeSwitchOngoing
      modifies this`intSwitchCount, this`lastIntSwitchIndex, this`uiShownDuringSwitch, this`sent
      ensures var n := |FilteredMru()|;
        (n == 0 ==> intSwitchCount == old(intSwitchCount) && lastIntSwitchIndex == old(lastIntSwitchIndex) &&
                    sent == old(sent) && uiShownDuringSwitch == old(uiShownDuringSwitch)) &&
        (n > 0 ==> intSwitchCount == (if direction > 0 then Incremented(old(intSwitchCount), n) else Decremented(old(intSwitchCount), n)) &&
                   lastIntSwitchIndex == intSwitchCount &&
                   uiShownDuringSwitch == (old(uiShownDuringSwitch) || showUI) &&
                   sent == old(sent) + (if showUI && !old(uiShownDuringSwitch) then Out(ShowSwitcher(Existing(FilteredMru(), b.windows), intSwitchCount))
                                        else if old(uiShownDuringSwitch) then Out(UpdateSelection(intSwitchCount))
                                        else []))
      ensures 0 < |FilteredMru()| && old(intSwitchCount) < |FilteredMru()| ==> intSwitchCount < |FilteredMru()|
    {
      var n := |FilteredMru()|;
      if n == 0 {
        return;
      }
      ghost var start := intSwitchCount;
      if direction > 0 {
        IncrementFilteredCounter();
      } else {
        DecrementFilteredCounter();
      }
      if start < n {
        CursorStepsAreInverse(start, n);
      }
      lastIntSwitchIndex := intSwitchCount;
      ShowOrUpdate(showUI, b);
    }

    /** The visual part of a cycle: show the switcher the first time it is
        asked for, afterwards only move its selection. */
    method ShowOrUpdate(showUI: bool, b: Browser)
      requires nativeSwitchOngoing
      modifies this`uiShownDuringSwitch, this`sent
      ensures uiShownDuringSwitch == (old(uiShownDuringSwitch) || showUI)
      ensures sent == old(sent) + (if showUI && !old(uiShownDuringSwitch) then Out(ShowSwitcher(Existing(FilteredMru(), b.windows), intSwitchCount))
                                   else if old(uiShownDuringSwitch) then Out(UpdateSelection(intSwitchCount))
                                   else [])
    {
      if showUI && !uiShownDuringSwitch {
        uiShownDuringSwitch := true;
        sent := sent + Out(ShowSwitcher(Existing(SwitcherList(), b.windows), intSwitchCount));
      } else if uiShownDuringSwitch {
        sent := sent + Out(UpdateSelection(intSwitchCount));
      }
    }

    method IncrementFilteredCounter()
      requires |FilteredMru()| > 0
      modifies this`intSwitchCount
      ensures intSwitchCount == Incremented(old(intSwitchCount), |FilteredMru()|)
    {
      intSwitchCount := (intSwitchCount + 1) % |FilteredMru()|;
    }

    method DecrementFilteredCounter()
      requires |FilteredMru()| > 0
      modifies this`intSwitchCount
      ensures intSwitchCount == Decremented(old(intSwitchCount), |FilteredMru()|)
    {
      if intSwitchCount == 0 {
        intSwitchCount := |FilteredMru()| - 1;
      } else {
        intSwitchCount := intSwitchCount - 1;
      }
    }

    /** handleRequestShowUI: the switcher is shown once per session, and only
        while this profile has focus. */
    method HandleRequestShowUI(b: Browser)
      modifies this`uiShownDuringSwitch, this`sent
      ensures var show := b.focused && nativeSwitchOngoing && !old(uiShownDuringSwitch);
        uiShownDuringSwitch == (old(uiShownDuringSwitch) || show) &&
        sent == old(sent) + (if show then Out(ShowSwitcher(Existing(FilteredMru(), b.windows), intSwitchCount)) else [])
    {
      if !b.focused {
        return;
      }
      if nativeSwitchOngoing && !uiShownDuringSwitch {
        uiShownDuringSwitch := true;
        sent := sent + Out(ShowSwitcher(Existing(SwitcherList(), b.windows), intSwitchCount));
      }
    }

    /** The tab handleNativeEndSwitch activates: filteredMru[lastIntSwitchIndex]
        when that is a truthy id of an existing tab. */
    function TabToActivate(b: Browser): Option<int>
      reads this
    {
      var f := FilteredMru();
      if lastIntSwitchIndex < |f| && f[lastIntSwitchIndex] != 0 && f[lastIntSwitchIndex] in b.windows
      then Some(f[lastIntSwitchIndex]) else None
    }

    /** handleNativeEndSwitch as written: it activates the tab at
        lastIntSwitchIndex of filteredMru but lets endSwitch move the tab at
        that index of the full list to the front. */
    method HandleNativeEndSwitchAsWritten(b: Browser)
      requires Valid()
      modifies this`nativeSwitchOngoing, this`slowSwitchOngoing, this`fastSwitchOngoing, this`uiShownDuringSwitch,
               this`filteredOwn, this`filteredIsMru, this`currentWindowOnly, this`sent, this`mru, this`activated
      ensures Valid()
      ensures !old(nativeSwitchOngoing) ==>
        unchanged(this`nativeSwitchOngoing, this`slowSwitchOngoing, this`fastSwitchOngoing, this`uiShownDuringSwitch) &&
        unchanged(this`filteredOwn, this`filteredIsMru, this`currentWindowOnly, this`sent, this`mru, this`activated)
      ensures old(nativeSwitchOngoing) ==>
        !nativeSwitchOngoing && !uiShownDuringSwitch && FilteredMru() == [] && !currentWindowOnly &&
        sent == old(sent) + (if old(uiShownDuringSwitch) then Out(HideSwitcher) else [])
      ensures old(nativeSwitchOngoing) && !b.focused ==>
        mru == old(mru) && activated == old(activated) &&
        unchanged(this`slowSwitchOngoing, this`fastSwitchOngoing)
      ensures old(nativeSwitchOngoing) && b.focused ==>
        activated == old(activated) + (if old(TabToActivate(b)).Some? then [old(TabToActivate(b)).value] else []) &&
        mru == Committed(old(mru), lastIntSwitchIndex) && !slowSwitchOngoing && !fastSwitchOngoing
    {
      if !nativeSwitchOngoing {
        return;
      }
      var hideMsg := if uiShownDuringSwitch then Out(HideSwitcher) else [];
      if !b.focused {
        ResetNativeSession();
        sent := sent + hideMsg;
        return;
      }
      var target := TabToActivate(b);
      if target.Some? {
        activated := activated + [target.value];
      }
      EndSwitch();
      ResetNativeSession();
      sent := sent + hideMsg;
    }

    /** The tab the native session has selected: the entry of filteredMru at
        lastIntSwitchIndex, if there is one. */
    function SelectedTab(): Option<int>
      reads this
    {
      var f := FilteredMru();
      if lastIntSwitchIndex < |f| then Some(f[lastIntSwitchIndex]) else None
    }

    /** The focused end of a native session, as intended: the tab to activate
        (if it still exists) is activated, the legacy sessions end, and the
        selected tab becomes the first of an unchanged number of tabs. */
    method ActivateAndCommit(target: Option<int>, selected: Option<int>)
      requires target.Some? ==> selected == target
      modifies this`slowSwitchOngoing, this`fastSwitchOngoing, this`mru, this`activated
      ensures activated == old(activated) + (if target.Some? then [target.value] else [])
      ensures mru == (if selected.Some? then MovedToFront(old(mru), selected.value) else old(mru))
      ensures !slowSwitchOngoing && !fastSwitchOngoing
      ensures target.Some? && target.value in old(mru) ==> |mru| == |old(mru)| && mru[0] == activated[|activated| - 1]
    {
      if target.Some? {
        activated := activated + [target.value];
      }
      slowSwitchOngoing, fastSwitchOngoing := false, false;
      if selected.Some? {
        MovedToFrontSpec(mru, selected.value);
        PutExistingTabToTop(selected.value);
      }
    }

    /** handleNativeEndSwitch with the commit taken from the list the session
        cycled over: the selected tab of filteredMru moves to the front of
        the full list, so the tab the switch activates is the one that becomes
        most recent. */
    method HandleNativeEndSwitch(b: Browser)
      requires Valid()
      modifies this`nativeSwitchOngoing, this`slowSwitchOngoing, this`fastSwitchOngoing, this`uiShownDuringSwitch,
               this`filteredOwn, this`filteredIsMru, this`currentWindowOnly, this`sent, this`mru, this`activated
      ensures Valid()
      ensures !old(nativeSwitchOngoing) ==>
        unchanged(this`nativeSwitchOngoing, this`slowSwitchOngoing, this`fastSwitchOngoing, this`uiShownDuringSwitch) &&
        unchanged(this`filteredOwn, this`filteredIsMru, this`currentWindowOnly, this`sent, this`mru, this`activated)
      ensures old(nativeSwitchOngoing) ==>
        !nativeSwitchOngoing && !uiShownDuringSwitch && FilteredMru() == [] && !currentWindowOnly &&
        sent == old(sent) + (if old(uiShownDuringSwitch) then Out(HideSwitcher) else [])
      ensures old(nativeSwitchOngoing) && !b.focused ==>
        mru == old(mru) && activated == old(activated) &&
        unchanged(this`slowSwitchOngoing, this`fastSwitchOngoing)
      ensures old(nativeSwitchOngoing) && b.focused ==>
        activated == old(activated) + (if old(TabToActivate(b)).Some? then [old(TabToActivate(b)).value] else []) &&
        mru == (if old(SelectedTab()).Some? then MovedToFront(old(mru), old(SelectedTab()).value) else old(mru)) &&
        !slowSwitchOngoing && !fastSwitchOngoing
      ensures old(nativeSwitchOngoing) && b.focused && old(TabToActivate(b)).Some? && old(TabToActivate(b)).value in old(mru) ==>
        |mru| == |old(mru)| && mru[0] == activated[|activated| - 1]
    {
      var target := TabToActivate(b);
      var selected := SelectedTab();
      assert target.Some? ==> selected == target;
      if !nativeSwitchOngoing {
        return;
      }
      var hideMsg := if uiShownDuringSwitch then Out(HideSwitcher) else [];
      if !b.focused {
        ResetNativeSession();
        sent := sent + hideMsg;
        return;
      }
      ActivateAndCommit(target, selected);
      ResetNativeSession();
      sent := sent + hideMsg;
    }

    /** The port's onMessage listener: any message marks the helper alive,
        `ready` is answered with `register`, and the session messages go to
        their handlers, end_switch to handleNativeEndSwitch as written. */
    method OnNativeMessage(message: HostMessage, b: Browser)
      requires Valid()
      modifies this`nativeHostConnected, this`sent, this`mru, this`activated, this`slowSwitchOngoing, this`fastSwitchOngoing,
               this`nativeSwitchOngoing, this`intSwitchCount, this`lastIntSwitchIndex, this`uiShownDuringSwitch,
               this`currentWindowOnly, this`filteredIsMru, this`filteredOwn
      ensures Valid()
      ensures nativeHostConnected == !message.ErrorNoAccessibility?
      ensures message.Ready? ==> sent == old(sent) + Out(Register(browserBundleId))
      ensures message.Registered? || message.RegisteredWithShortcuts? || message.Pong? || message.CopyUrl? ||
              message.ErrorNoAccessibility? || (message.Cycle? && message.action !in {"cycle_next", "cycle_prev"}) ==>
        sent == old(sent)
      ensures message.Ready? || message.Registered? || message.RegisteredWithShortcuts? || message.Pong? || message.CopyUrl? ||
              message.ErrorNoAccessibility? || (message.Cycle? && message.action !in {"cycle_next", "cycle_prev"}) ==>
        unchanged(this`mru, this`slowSwitchOngoing, this`fastSwitchOngoing, this`nativeSwitchOngoing, this`intSwitchCount,
                  this`lastIntSwitchIndex, this`uiShownDuringSwitch, this`currentWindowOnly, this`filteredIsMru,
                  this`filteredOwn, this`activated)
      ensures message.Cycle? && message.action in {"cycle_next", "cycle_prev"} ==>
        (!b.focused ==> !nativeSwitchOngoing && sent == old(sent) && mru == old(mru)) &&
        (b.focused ==> nativeSwitchOngoing && mru == old(mru))
      ensures message.Cycle? && message.action in {"cycle_next", "cycle_prev"} && b.focused && |FilteredMru()| > 0 ==>
        var start := if old(nativeSwitchOngoing) then old(intSwitchCount) else 0;
        var n := |FilteredMru()|;
        lastIntSwitchIndex == intSwitchCount &&
        intSwitchCount == (if message.action == "cycle_next" then Incremented(start, n) else Decremented(start, n))
      ensures message.RequestShowUi? ==>
        var show := b.focused && old(nativeSwitchOngoing) && !old(uiShownDuringSwitch);
        mru == old(mru) && nativeSwitchOngoing == old(nativeSwitchOngoing) &&
        sent == old(sent) + (if show then Out(ShowSwitcher(Existing(FilteredMru(), b.windows), intSwitchCount)) else [])
      ensures message.EndSwitch? && !old(nativeSwitchOngoing) ==> sent == old(sent) && mru == old(mru) && activated == old(activated)
      ensures message.EndSwitch? && old(nativeSwitchOngoing) ==>
        !nativeSwitchOngoing && sent == old(sent) + (if old(uiShownDuringSwitch) then Out(HideSwitcher) else [])
      ensures message.EndSwitch? && old(nativeSwitchOngoing) && b.focused ==>
        activated == old(activated) + (if old(TabToActivate(b)).Some? then [old(TabToActivate(b)).value] else []) &&
        mru == Committed(old(mru), old(lastIntSwitchIndex))
    {
      nativeHostConnected := true;
      match message
      case Ready =>
        sent := sent + Out(Register(browserBundleId));
      case Cycle(action, showUi, windowOnly) =>
        if action == "cycle_next" {
          HandleNativeCycle(1, showUi, windowOnly, b);
        } else if action == "cycle_prev" {
          HandleNativeCycle(-1, showUi, windowOnly, b);
        }
      case RequestShowUi(_) =>
        HandleRequestShowUI(b);
      case EndSwitch =>
        HandleNativeEndSwitchAsWritten(b);
      case ErrorNoAccessibility =>
        nativeHostConnected := false;
      case _ =>
    }
  }

  lemma ReverseAppend(a: seq<int>, b: seq<int>)
    ensures Reverse(a + b) == Reverse(b) + Reverse(a)
  {
    var l := Reverse(a + b);
    var r := Reverse(b) + Reverse(a);
    forall i | 0 <= i < |l|
      ensures l[i] == r[i]
    {
      if i < |b| {
        assert l[i] == (a + b)[|a| + |b| - 1 - i];
      } else {
        assert l[i] == (a + b)[|a| + |b| - 1 - i];
      }
    }
  }

  lemma ReverseSnoc(s: seq<int>, x: int)
    ensures Reverse(s + [x]) == [x] + Reverse(s)
  {
    var a := Reverse(s + [x]);
    var b := [x] + Reverse(s);
    assert |a| == |b|;
    forall i | 0 <= i < |a|
      ensures a[i] == b[i]
    {
      if i > 0 {
        assert a[i] == (s + [x])[|s| - i];
      }
    }
  }

  // ------------------------------------------------------------ properties

  /** The id the extension registers with is always one the macOS helper lists
      among its known browsers. */
  lemma RegisteredIdIsKnownBrowser(userAgent: string)
    ensures exists k :: 0 <= k < |MacConfig.KnownBrowsers| && MacConfig.KnownBrowsers[k].id == BundleIdForUserAgent(userAgent)
  {
    var id := BundleIdForUserAgent(userAgent);
    var ids := seq(|MacConfig.KnownBrowsers|, k requires 0 <= k < |MacConfig.KnownBrowsers| => MacConfig.KnownBrowsers[k].id);
    assert ids == ["com.google.Chrome", "com.brave.Browser", "com.microsoft.edgemac", "company.thebrowser.Browser",
                   "com.vivaldi.Vivaldi", "com.operasoftware.Opera", "com.operasoftware.OperaGX",
                   "org.chromium.Chromium", "net.imput.helium"];
    assert id in ids;
  }

  /** endSwitch commits by an index into the full list even after a session
      that cycled over the current window's tabs: with tabs 1 and 3 in window
      7, tab 2 in window 8, and the cursor on the second filtered tab, tab 3 is
      activated but tab 2 is moved to the front. */
  lemma EndSwitchCommitsFullListIndex()
    ensures var mru := [1, 2, 3];
      var windows := map[1 := 7, 2 := 8, 3 := 7];
      var filtered := WindowChoice(mru, true, Some(7), windows);
      filtered == Some([1, 3]) && filtered.value[1] == 3 && Committed(mru, 1) == [2, 1, 3]
  {
    var windows := map[1 := 7, 2 := 8, 3 := 7];
    var keep := InWindowTest(7, windows);
    assert [1, 2, 3][1..] == [2, 3];
    assert [2, 3][1..] == [3];
    assert [3][1..] == [];
    assert Filter([3], keep) == [3];
    assert Filter([2, 3], keep) == [3];
    assert Filter([1, 2, 3], keep) == [1, 3];
    assert IndexOf([1, 2, 3], 2) == 1;
  }
}
