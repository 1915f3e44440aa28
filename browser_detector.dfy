/** Detection of the browser that launched the Windows helper
    (native-host-windows/TabSwitcher/Services/BrowserDetector.cs): a walk up
    the process tree from the helper's parent to the first process whose name
    is a known browser executable, and the relative install locations
    searched for each browser. The process table is a value. */
module WinBrowserDetector {
  import opened Common

  /** ProcessNameToBrowserId: process names (without ".exe") of the browsers
      the walk recognises. The source's dictionary compares keys with
      OrdinalIgnoreCase; every key here is lower-case and lookups go through
      Lower, which has the same effect on ASCII names. */
  const ProcessNameToBrowserId: map<string, string> :=
    map["chrome" := "com.google.Chrome", "brave" := "com.brave.Browser", "msedge" := "com.microsoft.edgemac",
        "vivaldi" := "com.vivaldi.Vivaldi", "opera" := "com.operasoftware.Opera", "thorium" := "org.chromium.Thorium",
        "chromium" := "org.chromium.Chromium"]

  /** The browser a process name stands for, if any. */
  function BrowserIdForName(processName: string): (r: Option<string>)
    ensures r.Some? ==> r.value in ProcessNameToBrowserId.Values
  {
    var name := Lower(processName);
    if name in ProcessNameToBrowserId then Some(ProcessNameToBrowserId[name]) else None
  }

  /** The lookup ignores ASCII case: a name and its lower-cased form map to
      the same browser. */
  lemma BrowserIdForNameIgnoresCase(processName: string)
    ensures BrowserIdForName(processName) == BrowserIdForName(Lower(processName))
  {
    LowerIdempotent(processName);
  }

  /** Chromium's executable, which the foreground-window lookup does not
      know, is recognised here. */
  lemma ChromiumRecognised()
    ensures BrowserIdForName("chromium") == Some("org.chromium.Chromium")
  {
    var l := Lower("chromium");
    assert l[0] == 'c' && l[1] == 'h' && l[2] == 'r' && l[3] == 'o' && l[4] == 'm' && l[5] == 'i' && l[6] == 'u' && l[7] == 'm';
    assert l == "chromium";
  }

  /** The process table as the walk sees it: the name of every process that
      can be opened (a pid missing from `names` makes GetProcessById throw),
      the processes whose handle cannot be read (reading it throws), and the
      parent each process reports (a pid missing from `parent` is one whose
      query fails, read as -1). */
  datatype WinProcessTable = WinProcessTable(names: map<int, string>, denied: set<int>, parent: map<int, int>)

  /** GetParentProcessId: -1 when the query fails. */
  function ParentOf(t: WinProcessTable, pid: int): int {
    if pid in t.parent then t.parent[pid] else -1
  }

  /** The browser recognised at one pid, if its name can be read. */
  function MatchAt(t: WinProcessTable, pid: int): Option<string> {
    if pid in t.names then BrowserIdForName(t.names[pid]) else None
  }

  /** The walk can go on from `pid` to its parent: the process opens, is not
      a browser, its handle can be read, and the parent is positive and not
      the process itself. */
  predicate Continues(t: WinProcessTable, pid: int) {
    pid in t.names && MatchAt(t, pid).None? && pid !in t.denied &&
    ParentOf(t, pid) != pid && ParentOf(t, pid) > 0
  }

  /** The pids the walk opens, starting from `pid`, for at most `levels`
      levels: none when the pid is not positive; otherwise the pid, followed
      by the walk from its parent when it continues. */
  function Visited(t: WinProcessTable, pid: int, levels: nat): (r: seq<int>)
    ensures |r| <= levels
    ensures |r| > 0 ==> r[0] == pid
    ensures levels > 0 && pid > 0 ==> |r| > 0
    decreases levels
  {
    if levels == 0 || pid <= 0 then []
    else if Continues(t, pid) then [pid] + Visited(t, ParentOf(t, pid), levels - 1)
    else [pid]
  }

  /** The browser found and the pid of the process it was found at. */
  datatype Detected = Detected(browserId: string, processId: nat)

  /** The first recognised process along a list of pids. */
  function FirstDetected(t: WinProcessTable, pids: seq<int>): (r: Option<Detected>)
    requires forall k :: 0 <= k < |pids| ==> pids[k] > 0
    ensures r.None? <==> forall k :: 0 <= k < |pids| ==> MatchAt(t, pids[k]).None?
    ensures r.Some? ==> exists k :: 0 <= k < |pids| && r.value.processId == pids[k] && MatchAt(t, pids[k]) == Some(r.value.browserId)
  {
    if |pids| == 0 then None
    else if MatchAt(t, pids[0]).Some? then Some(Detected(MatchAt(t, pids[0]).value, pids[0]))
    else
      var r := FirstDetected(t, pids[1..]);
      assert r.Some? ==> exists k :: 0 <= k < |pids[1..]| && r.value.processId == pids[1..][k] && MatchAt(t, pids[1..][k]) == Some(r.value.browserId);
      r
  }

  lemma {:induction false} VisitedPositive(t: WinProcessTable, pid: int, levels: nat)
    ensures forall k :: 0 <= k < |Visited(t, pid, levels)| ==> Visited(t, pid, levels)[k] > 0
    decreases levels
  {
    if levels > 0 && pid > 0 && Continues(t, pid) {
      VisitedPositive(t, ParentOf(t, pid), levels - 1);
      var w := Visited(t, ParentOf(t, pid), levels - 1);
      assert Visited(t, pid, levels) == [pid] + w;
    }
  }

  /** The result of a walk of at most `levels` levels from `pid`. */
  function Detect(t: WinProcessTable, pid: int, levels: nat): Option<Detected> {
    VisitedPositive(t, pid, levels);
    FirstDetected(t, Visited(t, pid, levels))
  }

  /** DetectParentBrowser: the walk of at most ten levels, starting from the
      parent of the helper process `self`. */
  method DetectParentBrowser(t: WinProcessTable, self: int) returns (r: Option<Detected>)
    ensures r == Detect(t, ParentOf(t, self), 10)
  {
    var currentPid := ParentOf(t, self);
    var level := 0;
    while level < 10
      invariant 0 <= level <= 10
      invariant Detect(t, ParentOf(t, self), 10) == Detect(t, currentPid, 10 - level)
    {
      if currentPid <= 0 {
        break;
      }
      if currentPid !in t.names {
        // Process.GetProcessById throws; the exception ends the walk
        break;
      }
      var browserId := BrowserIdForName(t.names[currentPid]);
      if browserId.Some? {
        return Some(Detected(browserId.value, currentPid));
      }
      if currentPid in t.denied {
        // reading the handle throws
        break;
      }
      var parentPid := ParentOf(t, currentPid);
      if parentPid == currentPid || parentPid <= 0 {
        break;
      }
      assert Visited(t, currentPid, 10 - level) == [currentPid] + Visited(t, parentPid, 10 - level - 1);
      currentPid := parentPid;
      level := level + 1;
    }
    return None;
  }

  /** Each pid after the first is the parent the one before it reported,
      positive and different from it. */
  predicate IsParentChain(t: WinProcessTable, v: seq<int>)
    decreases |v|
  {
    |v| <= 1 || (v[1] == ParentOf(t, v[0]) && v[1] > 0 && v[1] != v[0] && IsParentChain(t, v[1..]))
  }

  /** The walk opens at most ten processes, each the parent of the one before;
      every process but the last is no browser; and a result is the browser
      of the last process, paired with that process's pid. A walk that finds
      nothing ended on a process that could not be opened, could not be read,
      or had no usable parent, or it ran out of levels. */
  lemma {:induction false} WalkIsAncestorChain(t: WinProcessTable, pid: int, levels: nat)
    requires pid > 0 && levels > 0
    ensures var v := Visited(t, pid, levels);
      IsParentChain(t, v) && (forall k :: 0 <= k < |v| - 1 ==> Continues(t, v[k])) &&
      (Detect(t, pid, levels).Some? <==> MatchAt(t, v[|v| - 1]).Some?) &&
      (Detect(t, pid, levels).Some? ==>
        Detect(t, pid, levels) == Some(Detected(MatchAt(t, v[|v| - 1]).value, v[|v| - 1]))) &&
      (Detect(t, pid, levels).None? ==> |v| == levels || !Continues(t, v[|v| - 1]))
    decreases levels
  {
    var v := Visited(t, pid, levels);
    VisitedPositive(t, pid, levels);
    if Continues(t, pid) {
      var parent := ParentOf(t, pid);
      if levels == 1 {
        assert v == [pid];
      } else {
        WalkIsAncestorChain(t, parent, levels - 1);
        var w := Visited(t, parent, levels - 1);
        VisitedPositive(t, parent, levels - 1);
        assert v == [pid] + w;
        assert v[1..] == w;
        assert FirstDetected(t, v) == FirstDetected(t, w);
        forall k | 0 <= k < |v| - 1
          ensures Continues(t, v[k])
        {
          if k > 0 {
            assert v[k] == w[k - 1];
          }
        }
      }
    } else {
      assert v == [pid];
    }
  }

  /** GetSearchPatterns: the install locations, relative to the common
      program directories, searched for a browser; none for an unknown id. */
  function GetSearchPatterns(browserId: string): (r: seq<string>)
    ensures r == [] <==> browserId !in {"com.google.Chrome", "com.google.Chrome.dev", "com.google.Chrome.canary",
                                        "com.brave.Browser", "com.microsoft.edgemac", "com.vivaldi.Vivaldi",
                                        "com.operasoftware.Opera", "com.operasoftware.OperaGX",
                                        "org.chromium.Chromium", "org.chromium.Thorium"}
  {
    if browserId == "com.google.Chrome" then ["Google\\Chrome\\Application\\chrome.exe", "Google\\Chrome\\chrome.exe"]
    else if browserId == "com.google.Chrome.dev" then ["Google\\Chrome Dev\\Application\\chrome.exe"]
    else if browserId == "com.google.Chrome.canary" then ["Google\\Chrome SxS\\Application\\chrome.exe"]
    else if browserId == "com.brave.Browser" then ["BraveSoftware\\Brave-Browser\\Application\\brave.exe"]
    else if browserId == "com.microsoft.edgemac" then ["Microsoft\\Edge\\Application\\msedge.exe"]
    else if browserId == "com.vivaldi.Vivaldi" then ["Vivaldi\\Application\\vivaldi.exe"]
    else if browserId == "com.operasoftware.Opera" then ["Opera\\opera.exe"]
    else if browserId == "com.operasoftware.OperaGX" then ["Opera GX\\opera.exe"]
    else if browserId == "org.chromium.Chromium" then ["Chromium\\Application\\chrome.exe"]
    else if browserId == "org.chromium.Thorium" then ["Thorium\\Application\\thorium.exe"]
    else []
  }
}
