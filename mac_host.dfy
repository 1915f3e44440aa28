/** The macOS helper's coordination logic (native-host/Sources/tab-switcher/main.swift):
    framing over stdin/stdout, the handling of the extension's messages, the
    owner check that gates the event tap, the walk up the process tree that
    finds the launching browser, and the Ctrl+Tab session driven by the tap. */
module MacHost {
  import opened Common
  import opened Wire
  import opened Framing
  import MacConfig

  // ---------------------------------------------------------------- framing

  /** What one `readMessage()` call does to standard input: the frame payload it
      accepted, if any, and the input left after the bytes it consumed. */
  datatype FrameRead = FrameRead(payload: Option<seq<byte>>, rest: seq<byte>)

  /** `readData(ofLength:)` blocks until it has the bytes or the input ends. A
      length prefix outside (0, 10 MiB) is consumed and dropped; the payload
      after it is then read as the next frame's header. */
  function ReadFrame(input: seq<byte>): (r: FrameRead)
    ensures |r.rest| <= |input|
    ensures r.payload.Some? ==> 0 < |r.payload.value| < MaxMessageLength
  {
    if |input| < 4 then FrameRead(None, [])
    else
      var length := DecodeLength(input[..4]);
      if !(length > 0 && length < MaxMessageLength) then FrameRead(None, input[4..])
      else if |input| - 4 < length then FrameRead(None, [])
      else FrameRead(Some(input[4..4 + length]), input[4 + length..])
  }

  /** `readMessage()`: a frame whose payload decodes (by the platform's JSON
      parser, `decode`) to a JSON object yields that object's fields. */
  function ReadMessage(input: seq<byte>, decode: seq<byte> -> Option<Json>): (r: (Option<map<string, Json>>, seq<byte>))
    ensures r.1 == ReadFrame(input).rest
    ensures r.0.Some? ==> ReadFrame(input).payload.Some?
  {
    var f := ReadFrame(input);
    if f.payload.None? then (None, f.rest)
    else match decode(f.payload.value)
      case Some(JObj(fields)) => (Some(fields), f.rest)
      case _ => (None, f.rest)
  }

  /** sendMessage writes a frame whose payload is exactly the serialized JSON and
      readMessage reads it back, for every length it accepts. */
  lemma ReadFrameOfSentFrame(payload: seq<byte>, rest: seq<byte>)
    requires 0 < |payload| < MaxMessageLength
    ensures ReadFrame(EncodeFrame(payload) + rest) == FrameRead(Some(payload), rest)
  {
    var input := EncodeFrame(payload) + rest;
    assert input[..4] == EncodeFrame(payload)[..4];
    assert input[4..4 + |payload|] == payload;
    assert input[4 + |payload|..] == rest;
  }

  /** readMessage rejects the outcomes the source lists: fewer than four header
      bytes, a zero length, a length of 10 MiB or more, and a short payload. */
  lemma ReadFrameRejects(input: seq<byte>)
    ensures |input| < 4 ==> ReadFrame(input).payload.None?
    ensures |input| >= 4 && (DecodeLength(input[..4]) == 0 || DecodeLength(input[..4]) >= MaxMessageLength) ==>
      ReadFrame(input) == FrameRead(None, input[4..])
    ensures |input| >= 4 && |input| - 4 < DecodeLength(input[..4]) ==> ReadFrame(input).payload.None?
  {
  }

  /** The reader thread never stops: at the end of input each call returns nil
      and the loop sleeps and calls again, with the input still empty. */
  lemma ReaderAtEndOfInputSpins(decode: seq<byte> -> Option<Json>)
    ensures ReadMessage([], decode) == (None, [])
  {
  }

  // ---------------------------------------------------------------- messages

  /** `components(separatedBy: ",").last`: the text after the last comma, or all of it. */
  function AfterLastComma(s: string): (r: string)
    ensures ',' !in r
    ensures |r| <= |s| && r == s[|s| - |r|..]
    ensures ',' !in s ==> r == s
  {
    if |s| == 0 then []
    else if s[|s| - 1] == ',' then []
    else AfterLastComma(s[..|s| - 1]) + [s[|s| - 1]]
  }

  /** parseTabInfo: a tab needs an integer id and a string title; the icon and
      URL default to the empty string; a non-empty thumbnail keeps the text after
      its last comma. */
  function ParseTabInfo(dict: map<string, Json>): (r: Option<TabInfo>)
    ensures r.Some? <==> SwInt(dict, "id").Some? && SwString(dict, "title").Some?
    ensures r.Some? ==> r.value.id == SwInt(dict, "id").value && r.value.title == SwString(dict, "title").value
    ensures r.Some? ==> r.value.favIconUrl == SwString(dict, "favIconUrl").GetOr("")
    ensures r.Some? ==> r.value.url == SwString(dict, "url").GetOr("")
  {
    match (SwInt(dict, "id"), SwString(dict, "title"))
    case (Some(id), Some(title)) =>
      var thumb := SwString(dict, "thumbnail");
      Some(TabInfo(id, title, SwString(dict, "favIconUrl").GetOr(""),
                   if thumb.Some? && thumb.value != "" then Some(AfterLastComma(thumb.value)) else None,
                   SwString(dict, "url").GetOr("")))
    case _ => None
  }

  /** `compactMap(parseTabInfo)`: the well-formed tabs, in order. */
  function ParseTabList(items: seq<map<string, Json>>): (r: seq<TabInfo>)
    ensures |r| <= |items|
  {
    if |items| == 0 then []
    else match ParseTabInfo(items[0])
      case Some(t) => [t] + ParseTabList(items[1..])
      case None => ParseTabList(items[1..])
  }

  /** `message["tabs"] as? [[String: Any]]`: the cast fails unless every element is an object. */
  function AsObjectArray(j: Json): (r: Option<seq<map<string, Json>>>)
    ensures r.Some? ==> j.JArr? && |r.value| == |j.items|
  {
    if j.JArr? && forall k :: 0 <= k < |j.items| ==> j.items[k].JObj? then
      Some(seq(|j.items|, k requires 0 <= k < |j.items| => j.items[k].fields))
    else None
  }

  // ---------------------------------------------------------------- owner check

  /** isSupportedBrowserActive: with an owner, exactly "the frontmost app is the
      owner"; without one, any enabled browser when started from a terminal, and
      nothing when started by a browser. */
  function SupportedBrowserActive(owner: Option<string>, frontmost: Option<string>, stdinIsTty: bool,
                                  enabled: set<string>): (r: bool)
    ensures frontmost.None? ==> !r
    ensures frontmost.Some? && owner.Some? ==> (r <==> frontmost.value == owner.value)
    ensures owner.None? && !stdinIsTty ==> !r
    ensures frontmost.Some? && owner.None? && stdinIsTty ==> (r <==> frontmost.value in enabled)
  {
    match frontmost
    case None => false
    case Some(bundleId) =>
      if owner.Some? then bundleId == owner.value
      else if stdinIsTty then bundleId in enabled
      else false
  }

  /** getActiveBrowserBundleId: the frontmost bundle id when that app passes the owner check. */
  function ActiveBrowserBundleId(owner: Option<string>, frontmost: Option<string>, stdinIsTty: bool,
                                 enabled: set<string>): (r: Option<string>)
    ensures r.Some? <==> SupportedBrowserActive(owner, frontmost, stdinIsTty, enabled)
    ensures r.Some? ==> r == frontmost
  {
    match frontmost
    case None => None
    case Some(bundleId) =>
      if owner.Some? then (if bundleId == owner.value then Some(bundleId) else None)
      else if stdinIsTty then (if bundleId in enabled then Some(bundleId) else None)
      else None
  }

  // ---------------------------------------------------------------- parent walk

  /** A process as NSRunningApplication reports it. */
  datatype RunningApp = RunningApp(bundleId: Option<string>, localizedName: Option<string>)

  /** The browser one level of detectParentBrowser recognises: an enabled bundle
      id as it is, then the name heuristics for Chrome, Helium, Brave and Edge. */
  function AppMatch(app: RunningApp, enabled: set<string>): (r: Option<string>)
    ensures app.bundleId.None? ==> r.None?
    ensures app.bundleId.Some? && app.bundleId.value in enabled ==> r == app.bundleId
  {
    match app.bundleId
    case None => None
    case Some(b) =>
      if b in enabled then Some(b)
      else if Contains(b, "Chrome") || (app.localizedName.Some? && Contains(app.localizedName.value, "Chrome")) then Some("com.google.Chrome")
      else if Contains(b, "Helium") || Contains(b, "imput") then Some("net.imput.helium")
      else if Contains(b, "Brave") then Some("com.brave.Browser")
      else if Contains(b, "Edge") then Some("com.microsoft.edgemac")
      else None
  }

  /** The macOS process table as the walk sees it: the running applications by
      pid, and the parent pid sysctl reports (a pid missing from `parent` is one
      for which sysctl fails). */
  datatype ProcessTable = ProcessTable(apps: map<int, RunningApp>, parent: map<int, int>)

  function MatchAt(t: ProcessTable, pid: int, enabled: set<string>): Option<string> {
    if pid in t.apps then AppMatch(t.apps[pid], enabled) else None
  }

  /** How the walk reads one pid: the browser it is recognised as, if any. */
  function Matcher(t: ProcessTable, enabled: set<string>): int -> Option<string> {
    pid => MatchAt(t, pid, enabled)
  }

  /** The pids a walk reading each pid with `m` looks at, starting from `pid`,
      for at most `levels` levels: it stops after a match, when sysctl fails,
      and when the parent is the process itself or a pid of at most 1. */
  function VisitedBy(t: ProcessTable, m: int -> Option<string>, pid: int, levels: nat): (r: seq<int>)
    ensures |r| <= levels
    ensures levels > 0 ==> |r| > 0 && r[0] == pid
    decreases levels
  {
    if levels == 0 then []
    else if m(pid).Some? then [pid]
    else if pid !in t.parent || t.parent[pid] == pid || t.parent[pid] <= 1 then [pid]
    else [pid] + VisitedBy(t, m, t.parent[pid], levels - 1)
  }

  /** The first match `m` finds along a list of pids. */
  function FirstOf(m: int -> Option<string>, pids: seq<int>): (r: Option<string>)
    ensures r.None? <==> forall k :: 0 <= k < |pids| ==> m(pids[k]).None?
  {
    if |pids| == 0 then None
    else if m(pids[0]).Some? then m(pids[0])
    else
      assert forall k :: 1 <= k < |pids| ==> pids[k] == pids[1..][k - 1];
      FirstOf(m, pids[1..])
  }

  /** The pids detectParentBrowser looks at, starting from `pid`. */
  function Visited(t: ProcessTable, pid: int, levels: nat, enabled: set<string>): (r: seq<int>)
    ensures |r| <= levels
    ensures levels > 0 ==> |r| > 0 && r[0] == pid
  {
    VisitedBy(t, Matcher(t, enabled), pid, levels)
  }

  /** The first match along a list of pids. */
  function FirstMatch(t: ProcessTable, pids: seq<int>, enabled: set<string>): (r: Option<string>)
    ensures r.None? <==> forall k :: 0 <= k < |pids| ==> MatchAt(t, pids[k], enabled).None?
  {
    FirstOf(Matcher(t, enabled), pids)
  }

  /** detectParentBrowser, from the parent of the helper (getppid). */
  method DetectParentBrowser(t: ProcessTable, ppid: int, enabled: set<string>) returns (r: Option<string>)
    ensures r == FirstMatch(t, Visited(t, ppid, 10, enabled), enabled)
  {
    var currentPid := ppid;
    var level := 0;
    while level < 10
      invariant 0 <= level <= 10
      invariant FirstMatch(t, Visited(t, ppid, 10, enabled), enabled) == FirstMatch(t, Visited(t, currentPid, 10 - level, enabled), enabled)
    {
      var found := MatchAt(t, currentPid, enabled);
      if found.Some? {
        return found;
      }
      if currentPid !in t.parent {
        break;
      }
      var nextParent := t.parent[currentPid];
      if nextParent == currentPid || nextParent <= 1 {
        break;
      }
      currentPid := nextParent;
      level := level + 1;
    }
    return None;
  }

  /** Each pid after the first is the parent sysctl reported for the one before
      it, greater than 1 and different from it. */
  predicate IsParentChain(t: ProcessTable, v: seq<int>)
    decreases |v|
  {
    |v| <= 1 ||
    (v[0] in t.parent && v[1] == t.parent[v[0]] && v[1] > 1 && v[1] != v[0] && IsParentChain(t, v[1..]))
  }

  /** The walk looks at no more than `levels` processes, each the parent of
      the one before, stops at the first one that matches, and its result is
      the match of the last process it looked at. This holds for any way `m`
      of reading a pid, so in particular for detectParentBrowser's own,
      `Matcher(t, enabled)`, with which `Visited` and `FirstMatch` are defined. */
  lemma {:induction false} WalkIsAncestorChain(t: ProcessTable, m: int -> Option<string>, pid: int, levels: nat)
    requires levels > 0
    ensures var v := VisitedBy(t, m, pid, levels);
      IsParentChain(t, v) && (forall k :: 0 <= k < |v| - 1 ==> m(v[k]).None?) && FirstOf(m, v) == m(v[|v| - 1])
    decreases levels
  {
    var v := VisitedBy(t, m, pid, levels);
    if m(pid).None? && pid in t.parent && t.parent[pid] != pid && t.parent[pid] > 1 {
      var parent := t.parent[pid];
      if levels == 1 {
        assert v == [pid];
      } else {
        WalkIsAncestorChain(t, m, parent, levels - 1);
        var w := VisitedBy(t, m, parent, levels - 1);
        assert v == [pid] + w;
        assert v[1..] == w;
        forall k | 0 <= k < |v| - 1
          ensures m(v[k]).None?
        {
          if k > 0 {
            assert v[k] == w[k - 1];
          }
        }
      }
    } else {
      assert v == [pid];
    }
  }

  // ---------------------------------------------------------------- session

  /** The events the tap receives. */
  datatype TapEvent =
    | TapDisabled
    | FlagsChanged(control: bool)
    | KeyDown(keyCode: int, control: bool, shift: bool)
    | OtherEvent

  const TabKeyCode: int := 48

  /** combineAllWindows of the owner's entry in the configuration reloaded on every press. */
  function CombineWindowsFor(owner: Option<string>, browsers: seq<MacConfig.MacBrowserInfo>): (r: bool)
    ensures r <==>
              owner.Some? && exists i :: 0 <= i < |browsers| && browsers[i].id == owner.value &&
                                           browsers[i].combineAllWindows && (forall k :: 0 <= k < i ==> browsers[k].id != owner.value)
  {
    if owner.None? then false
    else match MacConfig.FirstWithId(browsers, owner.value)
      case None => false
      case Some(i) => browsers[i].combineAllWindows
  }

  class MacHost {
    var ownerBrowserBundleId: Option<string>
    var ctrlIsPressed: bool
    var switchInProgress: bool
    var tabPressCount: nat
    /** The delayed request_show_ui: pending, with its current_window_only value. */
    var showUITimer: Option<bool>
    /** Messages written to standard output, in order. */
    var sent: seq<HostMessage>
    /** Commands given to the switcher overlay, in order. */
    var overlay: seq<OverlayCommand>
    /** Bytes written to standard output. */
    var stdout: seq<byte>
    /** Bytes not yet read from standard input. */
    var stdin: seq<byte>
    const stdinIsTty: bool

    /** The timer is armed only after the first press of a session, and a
        session is in progress exactly while presses are counted. */
    predicate Valid()
      reads this
    {
      (switchInProgress <==> tabPressCount > 0) &&
      (showUITimer.Some? ==> switchInProgress && tabPressCount == 1)
    }

    /** The state after start-up: `owner` is what detectParentBrowser found,
        `input` what the browser will write to standard input. */
    constructor (owner: Option<string>, tty: bool, input: seq<byte>)
      ensures Valid() && ownerBrowserBundleId == owner && stdinIsTty == tty && stdin == input
      ensures !ctrlIsPressed && !switchInProgress && tabPressCount == 0 && showUITimer == None
      ensures sent == [] && overlay == [] && stdout == []
    {
      ownerBrowserBundleId := owner;
      stdinIsTty := tty;
      stdin := input;
      ctrlIsPressed, switchInProgress, tabPressCount, showUITimer := false, false, 0, None;
      sent, overlay, stdout := [], [], [];
    }

    /** setupEventTap: when the tap cannot be created (no Accessibility
        permission) the extension is told so. */
    method SetupEventTap(tapCreated: bool) returns (ok: bool)
      modifies this`sent
      ensures ok == tapCreated
      ensures sent == old(sent) + (if tapCreated then [] else [ErrorNoAccessibility])
    {
      if !tapCreated {
        sent := sent + [ErrorNoAccessibility];
        return false;
      }
      return true;
    }

    /** One turn of the reader thread started by startMessageReader: read a
        message and handle it; a failed read only consumes input (the thread
        then sleeps and tries again). */
    method ReaderTurn(decode: seq<byte> -> Option<Json>)
      modifies this`stdin, this`ownerBrowserBundleId, this`sent, this`overlay
      ensures stdin == ReadMessage(old(stdin), decode).1
      ensures ReadMessage(old(stdin), decode).0.None? ==>
        ownerBrowserBundleId == old(ownerBrowserBundleId) && sent == old(sent) && overlay == old(overlay)
      ensures |stdin| < |old(stdin)| || (old(stdin) == [] && stdin == [])
    {
      var read := ReadMessage(stdin, decode);
      stdin := read.1;
      if read.0.Some? {
        HandleMessage(read.0.value);
      }
    }

    /** sendMessage: the 4-byte little-endian length of the serialized JSON, then those bytes. */
    method SendFrame(json: seq<byte>)
      requires |json| < TwoTo32
      modifies this`stdout
      ensures stdout == old(stdout) + EncodeFrame(json)
    {
      var header := LengthPrefix(|json|);
      stdout := stdout + header;
      stdout := stdout + json;
    }

    /** handleMessage for one decoded message from the extension. */
    method HandleMessage(message: map<string, Json>)
      modifies this`ownerBrowserBundleId, this`sent, this`overlay
      ensures SwString(message, "action").None? ==>
        ownerBrowserBundleId == old(ownerBrowserBundleId) && sent == old(sent) && overlay == old(overlay)
      ensures SwString(message, "action") == Some("register") && SwString(message, "bundleId").Some? ==>
        ownerBrowserBundleId == Some(old(ownerBrowserBundleId).GetOr(SwString(message, "bundleId").value)) &&
        sent == old(sent) + [Registered(ownerBrowserBundleId.value)] && overlay == old(overlay)
      ensures SwString(message, "action") == Some("register") && SwString(message, "bundleId").None? ==>
        ownerBrowserBundleId == old(ownerBrowserBundleId) && sent == old(sent) && overlay == old(overlay)
      ensures SwString(message, "action") != Some("register") ==> ownerBrowserBundleId == old(ownerBrowserBundleId)
      ensures SwString(message, "action") == Some("show_switcher") ==> sent == old(sent)
      ensures SwString(message, "action") == Some("show_switcher") ==>
        overlay == old(overlay) + (if "tabs" in message && AsObjectArray(message["tabs"]).Some? && SwInt(message, "selectedIndex").Some?
                                   then [ShowOverlay(ParseTabList(AsObjectArray(message["tabs"]).value), SwInt(message, "selectedIndex").value)]
                                   else [])
      ensures SwString(message, "action") == Some("update_selection") ==> sent == old(sent)
      ensures SwString(message, "action") == Some("update_selection") ==>
        overlay == old(overlay) + (if SwInt(message, "selectedIndex").Some? then [SelectInOverlay(SwInt(message, "selectedIndex").value)] else [])
      ensures SwString(message, "action") == Some("hide_switcher") ==> sent == old(sent) && overlay == old(overlay) + [HideOverlay]
      ensures SwString(message, "action").Some? &&
              SwString(message, "action").value !in {"register", "show_switcher", "update_selection", "hide_switcher"} ==>
        sent == old(sent) && overlay == old(overlay)
    {
      var action := SwString(message, "action");
      if action.None? {
        return;
      }
      match action.value
      case "show_switcher" =>
        var tabs := if "tabs" in message then AsObjectArray(message["tabs"]) else None;
        var selectedIndex := SwInt(message, "selectedIndex");
        if tabs.Some? && selectedIndex.Some? {
          overlay := overlay + [ShowOverlay(ParseTabList(tabs.value), selectedIndex.value)];
        }
      case "update_selection" =>
        var selectedIndex := SwInt(message, "selectedIndex");
        if selectedIndex.Some? {
          overlay := overlay + [SelectInOverlay(selectedIndex.value)];
        }
      case "hide_switcher" =>
        overlay := overlay + [HideOverlay];
      case "register" =>
        var bundleId := SwString(message, "bundleId");
        if bundleId.Some? {
          if ownerBrowserBundleId.None? {
            ownerBrowserBundleId := bundleId;
          }
          sent := sent + [Registered(ownerBrowserBundleId.GetOr(bundleId.value))];
        }
      case _ =>
    }

    /** eventTapCallback. `frontmost` is the bundle id of the frontmost
        application, `enabled` the enabled browsers, and `reloaded` the browser
        list as it reads after the reload on each press. The result is false
        when the event is suppressed. */
    method EventTap(event: TapEvent, frontmost: Option<string>, enabled: set<string>,
                    reloaded: seq<MacConfig.MacBrowserInfo>) returns (passThrough: bool)
      requires Valid()
      modifies this`ctrlIsPressed, this`switchInProgress, this`tabPressCount, this`showUITimer, this`sent
      ensures Valid()
      ensures var active := SupportedBrowserActive(ownerBrowserBundleId, frontmost, stdinIsTty, enabled);
        var s := TapStep(TapState(old(ctrlIsPressed), old(switchInProgress), old(tabPressCount), old(showUITimer)),
                         event, active, CombineWindowsFor(ownerBrowserBundleId, reloaded));
        TapState(ctrlIsPressed, switchInProgress, tabPressCount, showUITimer) == s.state &&
        sent == old(sent) + s.output && passThrough == s.passThrough
    {
      var active := SupportedBrowserActive(ownerBrowserBundleId, frontmost, stdinIsTty, enabled);
      if event.TapDisabled? || !active {
        return true;
      }
      if event.FlagsChanged? {
        var ctrlNowPressed := event.control;
        if ctrlIsPressed && !ctrlNowPressed && switchInProgress {
          showUITimer := None;
          sent := sent + [EndSwitch];
          switchInProgress := false;
          tabPressCount := 0;
        }
        ctrlIsPressed := ctrlNowPressed;
        return true;
      }
      if event.KeyDown? && event.keyCode == TabKeyCode && event.control {
        if !switchInProgress {
          switchInProgress := true;
          tabPressCount := 0;
        }
        ctrlIsPressed := true;
        tabPressCount := tabPressCount + 1;
        var direction := if event.shift then "cycle_prev" else "cycle_next";
        var combineWindows := CombineWindowsFor(ownerBrowserBundleId, reloaded);
        if tabPressCount == 1 {
          sent := sent + [Cycle(direction, false, !combineWindows)];
          showUITimer := Some(!combineWindows);
        } else {
          showUITimer := None;
          sent := sent + [Cycle(direction, true, !combineWindows)];
        }
        return false;
      }
      return true;
    }

    /** The 150 ms timer fires: the pending request_show_ui is sent once. */
    method RevealTimerFires()
      requires Valid()
      modifies this`showUITimer, this`sent
      ensures Valid() && showUITimer == None
      ensures sent == old(sent) + (if old(showUITimer).Some? then [RequestShowUi(old(showUITimer).value)] else [])
    {
      if showUITimer.Some? {
        sent := sent + [RequestShowUi(showUITimer.value)];
        showUITimer := None;
      }
    }
  }

  /** The session state the tap keeps between events. */
  datatype TapState = TapState(ctrlIsPressed: bool, switchInProgress: bool, tabPressCount: nat, showUITimer: Option<bool>)

  datatype TapResult = TapResult(state: TapState, output: seq<HostMessage>, passThrough: bool)

  predicate TapInvariant(s: TapState) {
    (s.switchInProgress <==> s.tabPressCount > 0) &&
    (s.showUITimer.Some? ==> s.switchInProgress && s.tabPressCount == 1)
  }

  /** One event on the tap, as eventTapCallback handles it; `active` is the
      owner check and `combine` the owner's window setting. */
  function TapStep(s: TapState, event: TapEvent, active: bool, combine: bool): (r: TapResult)
    ensures |r.output| <= 1
    ensures event.TapDisabled? || !active ==> r == TapResult(s, [], true)
    ensures !r.passThrough <==> |r.output| == 1 && r.output[0].Cycle?
  {
    if event.TapDisabled? || !active then TapResult(s, [], true)
    else match event
      case FlagsChanged(ctrlNow) =>
        if s.ctrlIsPressed && !ctrlNow && s.switchInProgress then
          TapResult(TapState(ctrlNow, false, 0, None), [EndSwitch], true)
        else TapResult(s.(ctrlIsPressed := ctrlNow), [], true)
      case KeyDown(code, ctrl, shift) =>
        if code == TabKeyCode && ctrl then
          var count := (if s.switchInProgress then s.tabPressCount else 0) + 1;
          var direction := if shift then "cycle_prev" else "cycle_next";
          if count == 1 then TapResult(TapState(true, true, 1, Some(!combine)), [Cycle(direction, false, !combine)], false)
          else TapResult(TapState(true, true, count, None), [Cycle(direction, true, !combine)], false)
        else TapResult(s, [], true)
      case _ => TapResult(s, [], true)
  }

  /** Every step keeps the session invariant. */
  lemma TapStepKeepsInvariant(s: TapState, event: TapEvent, active: bool, combine: bool)
    requires TapInvariant(s)
    ensures TapInvariant(TapStep(s, event, active, combine).state)
  {
  }

  /** The first Ctrl+Tab of a session cycles without the switcher and arms the
      reveal; every later one cycles with the switcher and disarms it. Both are
      swallowed. */
  lemma TapPressOutcome(s: TapState, shift: bool, combine: bool)
    requires TapInvariant(s)
    ensures var r := TapStep(s, KeyDown(TabKeyCode, true, shift), true, combine);
      var direction := if shift then "cycle_prev" else "cycle_next";
      !r.passThrough && r.state.switchInProgress && r.state.ctrlIsPressed &&
      (!s.switchInProgress ==> r.output == [Cycle(direction, false, !combine)] && r.state.showUITimer == Some(!combine) && r.state.tabPressCount == 1) &&
      (s.switchInProgress ==> r.output == [Cycle(direction, true, !combine)] && r.state.showUITimer == None && r.state.tabPressCount == s.tabPressCount + 1)
  {
  }

  /** Releasing Ctrl during a session sends end_switch once and resets the
      session; a second release sends nothing. */
  lemma TapReleaseEndsOnce(s: TapState, combine: bool)
    requires TapInvariant(s) && s.ctrlIsPressed && s.switchInProgress
    ensures var r := TapStep(s, FlagsChanged(false), true, combine);
      r.output == [EndSwitch] && r.state == TapState(false, false, 0, None) &&
      TapStep(r.state, FlagsChanged(false), true, combine).output == []
  {
  }

  /** k presses of Tab with Ctrl held and Shift up. */
  function Presses(k: nat): seq<TapEvent> {
    seq(k, _ => KeyDown(TabKeyCode, true, false))
  }

  /** A whole session: n presses with Ctrl held, then the release. */
  function SessionEvents(n: nat): seq<TapEvent> {
    Presses(n) + [FlagsChanged(false)]
  }

  /** One tap step, with the browser in front supported, as a function value. */
  function Stepper(combine: bool): (TapState, TapEvent) -> TapResult {
    (s, e) => TapStep(s, e, true, combine)
  }

  /** Runs events from a state through the step function `f`, collecting the messages. */
  function RunSteps(f: (TapState, TapEvent) -> TapResult, s: TapState, events: seq<TapEvent>): (r: (TapState, seq<HostMessage>))
    decreases |events|
  {
    if |events| == 0 then (s, [])
    else
      var step := f(s, events[0]);
      var rest := RunSteps(f, step.state, events[1..]);
      (rest.0, step.output + rest.1)
  }

  /** Runs events through the tap from a state, collecting the messages. */
  function RunTap(s: TapState, events: seq<TapEvent>, combine: bool): (TapState, seq<HostMessage>) {
    RunSteps(Stepper(combine), s, events)
  }

  lemma RunOne(s: TapState, e: TapEvent, combine: bool)
    ensures RunTap(s, [e], combine) == (TapStep(s, e, true, combine).state, TapStep(s, e, true, combine).output)
  {
    var step := TapStep(s, e, true, combine);
    assert [e][0] == e && [e][1..] == [];
    assert RunTap(step.state, [], combine) == (step.state, []);
    assert step.output + [] == step.output;
  }

  /** Runs compose: a run over `a + b` is the run over `a` followed by the
      run over `b` from where it ended, for any step function. */
  lemma {:induction false} RunConcat(f: (TapState, TapEvent) -> TapResult, s: TapState, a: seq<TapEvent>, b: seq<TapEvent>)
    ensures RunSteps(f, s, a + b) ==
      (RunSteps(f, RunSteps(f, s, a).0, b).0, RunSteps(f, s, a).1 + RunSteps(f, RunSteps(f, s, a).0, b).1)
    decreases |a|
  {
    if |a| > 0 {
      var step := f(s, a[0]);
      assert (a + b)[0] == a[0];
      assert (a + b)[1..] == a[1..] + b;
      RunConcat(f, step.state, a[1..], b);
      var mid := RunSteps(f, step.state, a[1..]);
      var tail := RunSteps(f, mid.0, b);
      assert RunSteps(f, s, a) == (mid.0, step.output + mid.1);
      assert RunSteps(f, s, a + b) == (tail.0, step.output + (mid.1 + tail.1));
      assert step.output + (mid.1 + tail.1) == (step.output + mid.1) + tail.1;
    } else {
      assert a + b == b;
      assert RunSteps(f, s, a) == (s, []);
      assert [] + RunSteps(f, s, b).1 == RunSteps(f, s, b).1;
    }
  }

  /** k further presses in a session already in progress each cycle with the
      switcher shown, count up, and leave no reveal pending. */
  lemma {:induction false} RunMorePresses(s: TapState, k: nat, combine: bool)
    requires TapInvariant(s) && s.switchInProgress && s.ctrlIsPressed
    ensures RunTap(s, Presses(k), combine) ==
      (if k == 0 then s else TapState(true, true, s.tabPressCount + k, None), seq(k, _ => Cycle("cycle_next", true, !combine)))
    decreases k
  {
    if k > 0 {
      var step := TapStep(s, Presses(k)[0], true, combine);
      assert step.state == TapState(true, true, s.tabPressCount + 1, None);
      assert step.output == [Cycle("cycle_next", true, !combine)];
      assert Presses(k)[1..] == Presses(k - 1);
      RunMorePresses(step.state, k - 1, combine);
      assert RunTap(s, Presses(k), combine) ==
        (RunTap(step.state, Presses(k - 1), combine).0, step.output + RunTap(step.state, Presses(k - 1), combine).1);
      assert [Cycle("cycle_next", true, !combine)] + seq(k - 1, _ => Cycle("cycle_next", true, !combine))
          == seq(k, _ => Cycle("cycle_next", true, !combine));
    } else {
      assert Presses(0) == [];
      assert seq(0, _ => Cycle("cycle_next", true, !combine)) == [];
    }
  }

  /** From rest, a session of n >= 1 forward presses and the release sends one
      silent cycle, n - 1 cycles that show the switcher, and one end_switch, and
      ends back at rest with no reveal pending. */
  lemma SessionMessages(n: nat, combine: bool)
    requires n >= 1
    ensures RunTap(TapState(false, false, 0, None), SessionEvents(n), combine) ==
      (TapState(false, false, 0, None),
       [Cycle("cycle_next", false, !combine)] + seq(n - 1, _ => Cycle("cycle_next", true, !combine)) + [EndSwitch])
  {
    var rest := TapState(false, false, 0, None);
    var press := KeyDown(TabKeyCode, true, false);
    var release := FlagsChanged(false);
    assert SessionEvents(n) == [press] + (Presses(n - 1) + [release]);
    RunConcat(Stepper(combine), rest, [press], Presses(n - 1) + [release]);
    RunOne(rest, press, combine);
    var first := TapState(true, true, 1, Some(!combine));
    RunConcat(Stepper(combine), first, Presses(n - 1), [release]);
    RunMorePresses(first, n - 1, combine);
    var last := RunTap(first, Presses(n - 1), combine).0;
    assert last.ctrlIsPressed && last.switchInProgress;
    RunOne(last, release, combine);
    assert RunTap(last, [release], combine) == (rest, [EndSwitch]);
    var cycles := seq(n - 1, _ => Cycle("cycle_next", true, !combine));
    assert RunTap(first, Presses(n - 1) + [release], combine) == (rest, cycles + [EndSwitch]);
    assert RunTap(rest, [press], combine) == (first, [Cycle("cycle_next", false, !combine)]);
    assert [Cycle("cycle_next", false, !combine)] + (cycles + [EndSwitch])
        == [Cycle("cycle_next", false, !combine)] + cycles + [EndSwitch];
  }
}
