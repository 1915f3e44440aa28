/** The Windows helper's background update checker
    (native-host-windows/TabSwitcher/Services/UpdateService.cs): one instance,
    chosen with a named mutex, fetches the published version record, compares
    the app and extension versions numerically, and remembers in a small file
    which new versions it has already announced so that each is announced
    once. The network fetch and the timers are inputs; the file is a field. */
module UpdateService {
  import opened Common
  import opened LeaderElection

  /** Constants.AppVersion. */
  const AppVersion: string := "3.7.4"
  /** Delay of the first check and period of the later ones, in seconds. */
  const FirstCheckDelaySeconds: nat := 30
  const CheckPeriodSeconds: nat := 4 * 60 * 60

  // ---------------------------------------------------------------- int.Parse

  predicate IsDigit(c: char) { '0' <= c <= '9' }

  predicate AllDigits(s: string) {
    forall i :: 0 <= i < |s| ==> IsDigit(s[i])
  }

  /** The value of a string of decimal digits, read from the front. */
  function DigitsValue(s: string): nat
    requires AllDigits(s)
    decreases |s|
  {
    if |s| == 0 then 0 else DigitsValue(s[..|s| - 1]) * 10 + (s[|s| - 1] as int - '0' as int)
  }

  const Int32Min: int := -0x8000_0000
  const Int32Max: int := 0x7FFF_FFFF

  /** The white space `int.Parse` skips around a number: U+0009 to U+000D
      and the space. */
  predicate IsWhite(c: char) { c == ' ' || '\t' <= c <= '\r' }

  /** `int.Parse` with the default integer style: white space around the
      number, an optional sign directly before at least one digit, within the
      range of a 32-bit int; anything else throws (None). The white space is
      peeled off one character at a time, from the front first. */
  function ParseInt(s: string): (r: Option<int>)
    ensures r.Some? ==> Int32Min <= r.value <= Int32Max
    decreases |s|
  {
    if |s| > 0 && IsWhite(s[0]) then ParseInt(s[1..])
    else if |s| > 0 && IsWhite(s[|s| - 1]) then ParseInt(s[..|s| - 1])
    else ParseSigned(s)
  }

  /** An optional sign and at least one digit, nothing else. */
  function ParseSigned(s: string): (r: Option<int>)
    ensures r.Some? ==> Int32Min <= r.value <= Int32Max
  {
    var body := if |s| > 0 && (s[0] == '-' || s[0] == '+') then s[1..] else s;
    if |body| == 0 || !AllDigits(body) then None
    else
      var d: int := DigitsValue(body);
      var v := if s[0] == '-' then -d else d;
      if Int32Min <= v <= Int32Max then Some(v) else None
  }

  /** White space before or after a number changes nothing. */
  lemma {:induction false} ParseIntIgnoresPadding(s: string, c: char)
    requires IsWhite(c)
    ensures ParseInt([c] + s) == ParseInt(s)
    ensures ParseInt(s + [c]) == ParseInt(s)
    decreases |s|
  {
    assert ([c] + s)[1..] == s;
    var t := s + [c];
    if |s| == 0 {
      assert t[1..] == s;
    } else if IsWhite(s[0]) {
      assert t[1..] == s[1..] + [c];
      ParseIntIgnoresPadding(s[1..], c);
    } else {
      assert t[..|t| - 1] == s;
    }
  }

  lemma {:induction false} DigitsValueOfNatToString(n: nat)
    ensures AllDigits(NatToString(n)) && DigitsValue(NatToString(n)) == n
    decreases n
  {
    var s := NatToString(n);
    if n >= 10 {
      DigitsValueOfNatToString(n / 10);
      assert s[..|s| - 1] == NatToString(n / 10);
    }
  }

  /** Parsing the decimal rendering of a number within range gives it back. */
  lemma ParseIntOfNatToString(n: nat)
    requires n <= Int32Max
    ensures ParseInt(NatToString(n)) == Some(n)
  {
    DigitsValueOfNatToString(n);
    var t := NatToString(n);
    assert IsDigit(t[0]) && IsDigit(t[|t| - 1]);
  }

  /** `parts.Select(int.Parse).ToArray()`: every part parsed, or the
      exception of the first that does not parse. */
  function ParseParts(parts: seq<string>): (r: Option<seq<int>>)
    decreases |parts|
  {
    if |parts| == 0 then Some([])
    else
      var last := ParseInt(parts[|parts| - 1]);
      var front := ParseParts(parts[..|parts| - 1]);
      if front.None? || last.None? then None else Some(front.value + [last.value])
  }

  /** Every part parsed, in order, or None when some part does not parse. */
  lemma {:induction false} ParsePartsEach(parts: seq<string>)
    ensures ParseParts(parts).Some? <==> forall i :: 0 <= i < |parts| ==> ParseInt(parts[i]).Some?
    ensures ParseParts(parts).Some? ==>
      |ParseParts(parts).value| == |parts| && forall i :: 0 <= i < |parts| ==> ParseParts(parts).value[i] == ParseInt(parts[i]).value
    decreases |parts|
  {
    if |parts| > 0 {
      var front := parts[..|parts| - 1];
      ParsePartsEach(front);
      assert forall i :: 0 <= i < |front| ==> front[i] == parts[i];
    }
  }

  // ---------------------------------------------------------------- comparison

  /** A component, with missing components read as 0. */
  function At(s: seq<int>, i: nat): int {
    if i < |s| then s[i] else 0
  }

  function MaxLen(a: seq<int>, b: seq<int>): nat {
    if |a| >= |b| then |a| else |b|
  }

  /** The comparison loop from index i on: the first component that differs
      decides; none differing means not newer. */
  function NewerFrom(a: seq<int>, b: seq<int>, i: nat): bool
    decreases MaxLen(a, b) - i
  {
    if i >= MaxLen(a, b) then false
    else if At(a, i) > At(b, i) then true
    else if At(a, i) < At(b, i) then false
    else NewerFrom(a, b, i + 1)
  }

  /** The numeric comparison the helper applies to dotted versions. */
  function NewerParts(a: seq<int>, b: seq<int>): bool {
    NewerFrom(a, b, 0)
  }

  /** The comparison is the lexicographic order on zero-padded components:
      newer exactly when some component is greater and all before it equal. */
  lemma {:induction false} NewerFromIsLexicographic(a: seq<int>, b: seq<int>, i: nat)
    ensures NewerFrom(a, b, i) <==>
      exists k :: i <= k < MaxLen(a, b) && At(a, k) > At(b, k) && forall j :: i <= j < k ==> At(a, j) == At(b, j)
    decreases MaxLen(a, b) - i
  {
    if i < MaxLen(a, b) {
      NewerFromIsLexicographic(a, b, i + 1);
      if At(a, i) == At(b, i) && NewerFrom(a, b, i + 1) {
        var k :| i + 1 <= k < MaxLen(a, b) && At(a, k) > At(b, k) && forall j :: i + 1 <= j < k ==> At(a, j) == At(b, j);
        assert forall j :: i <= j < k ==> At(a, j) == At(b, j);
      }
      if exists k :: i <= k < MaxLen(a, b) && At(a, k) > At(b, k) && forall j :: i <= j < k ==> At(a, j) == At(b, j) {
        var k :| i <= k < MaxLen(a, b) && At(a, k) > At(b, k) && forall j :: i <= j < k ==> At(a, j) == At(b, j);
        if k > i {
          assert At(a, i) == At(b, i);
          assert forall j :: i + 1 <= j < k ==> At(a, j) == At(b, j);
        }
      }
    }
  }

  lemma NewerPartsIsLexicographic(a: seq<int>, b: seq<int>)
    ensures NewerParts(a, b) <==>
      exists k :: 0 <= k < MaxLen(a, b) && At(a, k) > At(b, k) && forall j :: 0 <= j < k ==> At(a, j) == At(b, j)
  {
    NewerFromIsLexicographic(a, b, 0);
  }

  /** No version is newer than itself. */
  lemma {:induction false} NewerIrreflexive(a: seq<int>, i: nat)
    ensures !NewerFrom(a, a, i)
    decreases MaxLen(a, a) - i
  {
    if i < MaxLen(a, a) {
      NewerIrreflexive(a, i + 1);
    }
  }

  /** Of two versions at most one is newer than the other. */
  lemma {:induction false} NewerAsymmetric(a: seq<int>, b: seq<int>, i: nat)
    ensures !(NewerFrom(a, b, i) && NewerFrom(b, a, i))
    decreases MaxLen(a, b) - i
  {
    assert MaxLen(a, b) == MaxLen(b, a);
    if i < MaxLen(a, b) {
      NewerAsymmetric(a, b, i + 1);
    }
  }

  /** Being newer is transitive. */
  lemma NewerTransitive(a: seq<int>, b: seq<int>, c: seq<int>)
    requires NewerParts(a, b) && NewerParts(b, c)
    ensures NewerParts(a, c)
  {
    NewerPartsIsLexicographic(a, b);
    NewerPartsIsLexicographic(b, c);
    NewerPartsIsLexicographic(a, c);
    var k1 :| 0 <= k1 < MaxLen(a, b) && At(a, k1) > At(b, k1) && forall j :: 0 <= j < k1 ==> At(a, j) == At(b, j);
    var k2 :| 0 <= k2 < MaxLen(b, c) && At(b, k2) > At(c, k2) && forall j :: 0 <= j < k2 ==> At(b, j) == At(c, j);
    var k := if k1 <= k2 then k1 else k2;
    assert At(a, k) > At(c, k);
    assert forall j :: 0 <= j < k ==> At(a, j) == At(c, j);
  }

  /** A trailing zero component changes nothing: "1.2" and "1.2.0" compare
      alike against any version, on either side. */
  lemma {:induction false} TrailingZeroIgnored(a: seq<int>, b: seq<int>, i: nat)
    ensures NewerFrom(a + [0], b, i) == NewerFrom(a, b, i)
    ensures NewerFrom(b, a + [0], i) == NewerFrom(b, a, i)
    decreases MaxLen(a + [0], b) - i
  {
    assert forall j :: At(a + [0], j) == At(a, j);
    if i < MaxLen(a + [0], b) {
      TrailingZeroIgnored(a, b, i + 1);
    }
  }

  /** IsNewerVersion as a value: None is the exception a component that
      int.Parse rejects raises. */
  function NewerVersion(remote: string, local: string): Option<bool> {
    var r := VersionParts(remote);
    var l := VersionParts(local);
    if r.None? || l.None? then None else Some(NewerParts(r.value, l.value))
  }

  /** `version.Split('.').Select(int.Parse).ToArray()`. */
  function VersionParts(version: string): Option<seq<int>> {
    ParseParts(Split(version, '.'))
  }

  /** IsNewerVersion: both versions split at the dots and parsed, then the
      components compared left to right, missing ones read as 0. */
  method IsNewerVersion(remote: string, local: string) returns (r: Option<bool>)
    ensures r == NewerVersion(remote, local)
  {
    var remoteParts := VersionParts(remote);
    var localParts := VersionParts(local);
    if remoteParts.None? || localParts.None? {
      return None;
    }
    var newer := CompareParts(remoteParts.value, localParts.value);
    return Some(newer);
  }

  /** The comparison loop of IsNewerVersion. */
  method CompareParts(a: seq<int>, b: seq<int>) returns (newer: bool)
    ensures newer == NewerParts(a, b)
  {
    var len := MaxLen(a, b);
    var i := 0;
    while i < len
      invariant 0 <= i <= len
      invariant NewerParts(a, b) == NewerFrom(a, b, i)
    {
      var rc := if i < |a| then a[i] else 0;
      var lc := if i < |b| then b[i] else 0;
      if rc > lc {
        return true;
      }
      if rc < lc {
        return false;
      }
      i := i + 1;
    }
    return false;
  }

  /** A version string that does not parse, such as the empty default of a
      missing field, makes the comparison throw. */
  lemma EmptyVersionThrows(local: string)
    ensures NewerVersion("", local).None?
  {
  }

  // ---------------------------------------------------------------- announcements

  /** The fetched version record: the app's and the extension's version. */
  datatype VersionInfo = VersionInfo(appVersion: string, extVersion: string)

  /** The record of versions already announced (null fields are None). */
  datatype NotifiedVersions = NotifiedVersions(app: Option<string>, ext: Option<string>)

  /** What an announcement says; on Windows it is a log line. */
  datatype Notice = AppUpdate(version: string) | ExtensionUpdate(version: string)

  /** LoadNotifiedVersions: the file's record, or an empty one when the file
      is missing or unreadable (None). */
  function Load(file: Option<NotifiedVersions>): NotifiedVersions {
    file.GetOr(NotifiedVersions(None, None))
  }

  /** The new content of the file and the announcements one call makes. */
  datatype Outcome = Outcome(file: Option<NotifiedVersions>, notices: seq<Notice>)

  /** ProcessVersionInfo, given the outcome of its two comparisons (None is
      an exception; the extension comparison is made only with a connected
      extension) and parameterised by the record the extension step saves
      from: the record loaded at the start (`fromLoaded`, as written) or the
      one the app step produced. An exception ends the call, keeping what was
      saved before it. */
  function Process(fromLoaded: bool, file: Option<NotifiedVersions>, info: VersionInfo, connected: Option<string>,
                   appNewer: Option<bool>, extNewer: Option<bool>): (o: Outcome)
    ensures |o.notices| <= 2
  {
    match appNewer
    case None => Outcome(file, [])
    case Some(newer) =>
      var afterApp := AppStep(file, info, newer);
      if connected.None? || extNewer.None? then afterApp
      else ExtStep(if fromLoaded then Load(file) else Load(afterApp.file), Load(file), afterApp, info, extNewer.value)
  }

  /** The app step: a newer app version not yet recorded is announced and
      recorded, keeping the recorded extension version. */
  function AppStep(file: Option<NotifiedVersions>, info: VersionInfo, newer: bool): Outcome {
    var notified := Load(file);
    if newer && notified.app != Some(info.appVersion) then
      Outcome(Some(NotifiedVersions(Some(info.appVersion), notified.ext)), [AppUpdate(info.appVersion)])
    else Outcome(file, [])
  }

  /** The extension step: a newer extension version not yet recorded in the
      loaded record is announced and saved together with the app field of
      `base`. */
  function ExtStep(base: NotifiedVersions, loaded: NotifiedVersions, afterApp: Outcome, info: VersionInfo, newer: bool): Outcome {
    if newer && loaded.ext != Some(info.extVersion) then
      Outcome(Some(NotifiedVersions(base.app, Some(info.extVersion))), afterApp.notices + [ExtensionUpdate(info.extVersion)])
    else afterApp
  }

  /** The extension comparison, made only when an extension is connected. */
  function ExtComparison(info: VersionInfo, connected: Option<string>): Option<bool> {
    if connected.Some? then NewerVersion(info.extVersion, connected.value) else None
  }

  /** ProcessVersionInfo as written, for an app running version `running`:
      it announces what the corrected processing announces and records the
      same extension version; only the app field it saves can differ. */
  function ProcessAsWritten(running: string, file: Option<NotifiedVersions>, info: VersionInfo, connected: Option<string>): (o: Outcome)
    ensures o.notices == ProcessCorrected(running, file, info, connected).notices
    ensures Load(o.file).ext == Load(ProcessCorrected(running, file, info, connected).file).ext
  {
    Process(true, file, info, connected, NewerVersion(info.appVersion, running), ExtComparison(info, connected))
  }

  /** ProcessVersionInfo corrected, for an app running version `running`:
      every version it announces is in the record it saves. */
  function ProcessCorrected(running: string, file: Option<NotifiedVersions>, info: VersionInfo, connected: Option<string>): (o: Outcome)
    ensures AppUpdate(info.appVersion) in o.notices ==> Load(o.file).app == Some(info.appVersion)
    ensures ExtensionUpdate(info.extVersion) in o.notices ==> Load(o.file).ext == Some(info.extVersion)
  {
    Process(false, file, info, connected, NewerVersion(info.appVersion, running), ExtComparison(info, connected))
  }

  /** Both ways of processing announce the app version when the app
      comparison says newer and the record lacks it, then the extension
      version when an extension is connected, neither comparison threw, it
      is newer and the record lacks it; the saved extension field follows
      the same rule. The app field saved is the announced version, except
      that as written an extension save puts back the loaded app field. */
  lemma ProcessAnnounces(fromLoaded: bool, file: Option<NotifiedVersions>, info: VersionInfo, connected: Option<string>,
                         appNewer: Option<bool>, extNewer: Option<bool>)
    ensures var o := Process(fromLoaded, file, info, connected, appNewer, extNewer); var n := Load(file);
      var appNew := appNewer == Some(true) && n.app != Some(info.appVersion);
      var extNew := appNewer.Some? && connected.Some? && extNewer == Some(true) && n.ext != Some(info.extVersion);
      o.notices == (if appNew then [AppUpdate(info.appVersion)] else []) + (if extNew then [ExtensionUpdate(info.extVersion)] else []) &&
      Load(o.file).ext == (if extNew then Some(info.extVersion) else n.ext) &&
      Load(o.file).app == (if appNew && !(fromLoaded && extNew) then Some(info.appVersion) else n.app) &&
      (!appNew && !extNew ==> o.file == file)
  {
  }

  /** The corrected processing records exactly what it announces: the app
      version when it is newer than the running app and not yet recorded,
      the extension version when an extension is connected, the app
      comparison did not throw, and the version is newer than the connected
      extension's and not yet recorded; everything else is kept. */
  lemma ProcessRecordsAnnounced(file: Option<NotifiedVersions>, info: VersionInfo, connected: Option<string>,
                                appNewer: Option<bool>, extNewer: Option<bool>)
    ensures var o := Process(false, file, info, connected, appNewer, extNewer); var n := Load(file);
      var appNew := appNewer == Some(true) && n.app != Some(info.appVersion);
      var extNew := appNewer.Some? && connected.Some? && extNewer == Some(true) && n.ext != Some(info.extVersion);
      (AppUpdate(info.appVersion) in o.notices <==> appNew) &&
      (ExtensionUpdate(info.extVersion) in o.notices <==> extNew) &&
      Load(o.file).app == (if appNew then Some(info.appVersion) else n.app) &&
      Load(o.file).ext == (if extNew then Some(info.extVersion) else n.ext) &&
      (!appNew && !extNew ==> o.file == file && o.notices == [])
  {
  }

  /** With the corrected processing a version is announced once: processing
      the same record again, with the same comparisons, announces nothing and
      leaves the file as it is. */
  lemma AnnouncedOnce(file: Option<NotifiedVersions>, info: VersionInfo, connected: Option<string>,
                      appNewer: Option<bool>, extNewer: Option<bool>)
    ensures var first := Process(false, file, info, connected, appNewer, extNewer);
      Process(false, first.file, info, connected, appNewer, extNewer) == Outcome(first.file, [])
  {
    ProcessRecordsAnnounced(file, info, connected, appNewer, extNewer);
    ProcessRecordsAnnounced(Process(false, file, info, connected, appNewer, extNewer).file, info, connected, appNewer, extNewer);
  }

  /** As written, when the app and the extension both have a version not yet
      announced, the extension step saves the app field it loaded, so the
      app version is not recorded and the next check announces it again. */
  lemma AppAnnouncedTwiceAsWritten(info: VersionInfo, connected: string)
    requires info.appVersion != info.extVersion
    ensures var first := Process(true, None, info, Some(connected), Some(true), Some(true));
      var second := Process(true, first.file, info, Some(connected), Some(true), Some(true));
      first.notices == [AppUpdate(info.appVersion), ExtensionUpdate(info.extVersion)] &&
      first.file == Some(NotifiedVersions(None, Some(info.extVersion))) &&
      second.notices == [AppUpdate(info.appVersion)]
  {
  }

  /** The concrete case: with an extension 1.0.0 connected and nothing
      recorded, the record for app 9.0.0 and extension 2.0.0 announces both,
      and as written the next check announces the app again. */
  lemma AppAnnouncedTwiceExample()
    ensures var info := VersionInfo("9.0.0", "2.0.0");
      var first := ProcessAsWritten(AppVersion, None, info, Some("1.0.0"));
      first.notices == [AppUpdate("9.0.0"), ExtensionUpdate("2.0.0")] &&
      ProcessAsWritten(AppVersion, first.file, info, Some("1.0.0")).notices == [AppUpdate("9.0.0")]
  {
    var info := VersionInfo("9.0.0", "2.0.0");
    BothNewerExample();
    AppAnnouncedTwiceAsWritten(info, "1.0.0");
  }

  /** Both comparisons come out newer for app version 9.0.0 against the
      running 3.7.4, and extension version 2.0.0 against a connected 1.0.0. */
  lemma BothNewerExample()
    ensures NewerVersion("9.0.0", AppVersion) == Some(true)
    ensures ExtComparison(VersionInfo("9.0.0", "2.0.0"), Some("1.0.0")) == Some(true)
  {
    ThreeDigitVersion('9', '0', '0');
    ThreeDigitVersion('3', '7', '4');
    ThreeDigitVersion('2', '0', '0');
    ThreeDigitVersion('1', '0', '0');
    assert NewerParts([9, 0, 0], [3, 7, 4]);
    assert NewerParts([2, 0, 0], [1, 0, 0]);
  }

  function DigitOf(c: char): int {
    c as int - '0' as int
  }

  lemma ParseDigit(c: char)
    requires IsDigit(c)
    ensures ParseInt([c]) == Some(DigitOf(c))
  {
    assert DigitsValue([c]) == DigitsValue([c][..0]) * 10 + DigitOf(c);
  }

  /** A version of three one-digit components parses to those digits. */
  lemma ThreeDigitVersion(x: char, y: char, z: char)
    requires IsDigit(x) && IsDigit(y) && IsDigit(z)
    ensures VersionParts([x, '.', y, '.', z]) == Some([DigitOf(x), DigitOf(y), DigitOf(z)])
  {
    var s1, s2, s3, s4, s5 := [z], ['.', z], [y, '.', z], ['.', y, '.', z], [x, '.', y, '.', z];
    assert s1[1..] == [] && s2[1..] == s1 && s3[1..] == s2 && s4[1..] == s3 && s5[1..] == s4;
    assert [z] + "" == [z] && [y] + "" == [y] && [x] + "" == [x];
    assert Split(s1, '.') == [[z]];
    assert Split(s2, '.') == [[], [z]];
    assert Split(s3, '.') == [[y], [z]];
    assert Split(s4, '.') == [[], [y], [z]];
    assert Split(s5, '.') == [[x], [y], [z]];
    ParseDigit(x);
    ParseDigit(y);
    ParseDigit(z);
    var ps := [[x], [y], [z]];
    assert ps[..2] == [[x], [y]] && ps[..2][..1] == [[x]] && ps[..1][..0] == [];
    assert [[x]][..0] == [] && [[x], [y]][..1] == [[x]];
    assert ParseParts([]) == Some([]) && [] + [DigitOf(x)] == [DigitOf(x)];
    assert ParseParts([[x]]) == Some([DigitOf(x)]);
    assert [DigitOf(x)] + [DigitOf(y)] == [DigitOf(x), DigitOf(y)];
    assert ParseParts([[x], [y]]) == Some([DigitOf(x), DigitOf(y)]);
    assert [DigitOf(x), DigitOf(y)] + [DigitOf(z)] == [DigitOf(x), DigitOf(y), DigitOf(z)];
    assert ParseParts(ps) == Some([DigitOf(x), DigitOf(y), DigitOf(z)]);
  }

  // ---------------------------------------------------------------- the service

  class UpdateService {
    const launchedDirectly: bool
    /** The running app's version, Constants.AppVersion. */
    const appVersion: string
    const pid: int
    const mutex: NamedMutex
    /** `_updateMutex != null`. */
    var hasHandle: bool
    var isUpdateLeader: bool
    /** Both check timers are running. */
    var checksScheduled: bool
    var connectedExtensionVersion: Option<string>
    /** The notified-versions file; None while it is missing or unreadable. */
    var notifiedFile: Option<NotifiedVersions>
    /** The announcements made so far. */
    var notices: seq<Notice>

    /** The update leader owns the checker mutex. */
    predicate LeaderOwnsMutex()
      reads this, mutex
    {
      isUpdateLeader ==> mutex.owner == Some(pid)
    }

    constructor (launchedDirectly: bool, pid: int, mutex: NamedMutex, notifiedFile: Option<NotifiedVersions>)
      ensures this.launchedDirectly == launchedDirectly && this.pid == pid && this.mutex == mutex
      ensures appVersion == AppVersion
      ensures !hasHandle && !isUpdateLeader && !checksScheduled && connectedExtensionVersion == None
      ensures this.notifiedFile == notifiedFile && notices == []
    {
      this.launchedDirectly := launchedDirectly;
      appVersion := AppVersion;
      this.pid := pid;
      this.mutex := mutex;
      hasHandle, isUpdateLeader, checksScheduled := false, false, false;
      connectedExtensionVersion := None;
      this.notifiedFile := notifiedFile;
      notices := [];
    }

    /** Start as written: the mutex is created not owned, and its creator is
        leader without waiting for it. `openFails` is an exception from
        opening the mutex. Only a leader schedules the checks. */
    method StartAsWritten(openFails: bool)
      requires mutex.Valid()
      modifies this`hasHandle, this`isUpdateLeader, this`checksScheduled, mutex
      ensures mutex.Valid() && checksScheduled == isUpdateLeader
      ensures openFails ==> !isUpdateLeader && mutex.handles == old(mutex.handles)
      ensures !openFails ==> (isUpdateLeader <==> old(mutex.handles) == 0 || old(mutex.owner).None? || old(mutex.owner) == Some(pid))
      ensures !openFails && old(mutex.handles) == 0 ==> isUpdateLeader && mutex.owner == None
      ensures !openFails && old(mutex.handles) > 0 && isUpdateLeader ==> mutex.owner == Some(pid)
      ensures !isUpdateLeader ==> mutex.owner == old(mutex.owner)
    {
      if openFails {
        isUpdateLeader := false;
      } else {
        var created := mutex.Open(pid, false);
        hasHandle := true;
        if created {
          isUpdateLeader := true;
        } else {
          var acquired, wasAbandoned := mutex.WaitZero(pid);
          isUpdateLeader := acquired || wasAbandoned;
        }
      }
      checksScheduled := isUpdateLeader;
    }

    /** Start with the mutex requested as initially owned: whichever way this
        instance becomes leader, it owns the mutex. */
    method Start(openFails: bool)
      requires mutex.Valid()
      modifies this`hasHandle, this`isUpdateLeader, this`checksScheduled, mutex
      ensures mutex.Valid() && checksScheduled == isUpdateLeader && LeaderOwnsMutex()
      ensures openFails ==> !isUpdateLeader && mutex.handles == old(mutex.handles) && mutex.owner == old(mutex.owner)
      ensures !openFails ==> (isUpdateLeader <==> old(mutex.handles) == 0 || old(mutex.owner).None? || old(mutex.owner) == Some(pid))
      ensures !isUpdateLeader ==> mutex.owner == old(mutex.owner)
    {
      if openFails {
        isUpdateLeader := false;
      } else {
        var created := mutex.Open(pid, true);
        hasHandle := true;
        if created {
          isUpdateLeader := true;
        } else {
          var acquired, wasAbandoned := mutex.WaitZero(pid);
          isUpdateLeader := acquired || wasAbandoned;
        }
      }
      checksScheduled := isUpdateLeader;
    }

    method SetExtensionVersion(version: string)
      modifies this`connectedExtensionVersion
      ensures connectedExtensionVersion == Some(version)
    {
      connectedExtensionVersion := Some(version);
    }

    /** ProcessVersionInfo as written. */
    method ProcessVersionInfoAsWritten(info: VersionInfo)
      modifies this`notifiedFile, this`notices
      ensures var o := ProcessAsWritten(appVersion, old(notifiedFile), info, connectedExtensionVersion);
        notifiedFile == o.file && notices == old(notices) + o.notices
    {
      var notified := Load(notifiedFile);
      ghost var file0, notices0 := notifiedFile, notices;
      var appNewer := IsNewerVersion(info.appVersion, appVersion);
      ghost var o := Process(true, file0, info, connectedExtensionVersion, appNewer, ExtComparison(info, connectedExtensionVersion));
      assert ProcessAsWritten(appVersion, file0, info, connectedExtensionVersion) == o;
      if appNewer.None? {
        return;
      }
      if appNewer.value && notified.app != Some(info.appVersion) {
        notices := notices + [AppUpdate(info.appVersion)];
        notifiedFile := Some(NotifiedVersions(Some(info.appVersion), notified.ext));
      }
      if connectedExtensionVersion.Some? {
        var extNewer := IsNewerVersion(info.extVersion, connectedExtensionVersion.value);
        if extNewer.None? {
          return;
        }
        if extNewer.value && notified.ext != Some(info.extVersion) {
          notices := notices + [ExtensionUpdate(info.extVersion)];
          notifiedFile := Some(NotifiedVersions(notified.app, Some(info.extVersion)));
        }
      }
    }

    /** ProcessVersionInfo saving the extension version on top of what the
        app step recorded. */
    method ProcessVersionInfo(info: VersionInfo)
      modifies this`notifiedFile, this`notices
      ensures var o := ProcessCorrected(appVersion, old(notifiedFile), info, connectedExtensionVersion);
        notifiedFile == o.file && notices == old(notices) + o.notices
    {
      var notified := Load(notifiedFile);
      ghost var file0, notices0 := notifiedFile, notices;
      var appNewer := IsNewerVersion(info.appVersion, appVersion);
      ghost var o := Process(false, file0, info, connectedExtensionVersion, appNewer, ExtComparison(info, connectedExtensionVersion));
      assert ProcessCorrected(appVersion, file0, info, connectedExtensionVersion) == o;
      if appNewer.None? {
        return;
      }
      if appNewer.value && notified.app != Some(info.appVersion) {
        notices := notices + [AppUpdate(info.appVersion)];
        notified := NotifiedVersions(Some(info.appVersion), notified.ext);
        notifiedFile := Some(notified);
      }
      ghost var afterApp := AppStep(file0, info, appNewer.value);
      assert notifiedFile == afterApp.file && notices == notices0 + afterApp.notices;
      assert notified == Load(notifiedFile) && notified.ext == Load(file0).ext;
      if connectedExtensionVersion.Some? {
        var extNewer := IsNewerVersion(info.extVersion, connectedExtensionVersion.value);
        if extNewer.None? {
          return;
        }
        if extNewer.value && notified.ext != Some(info.extVersion) {
          notices := notices + [ExtensionUpdate(info.extVersion)];
          notifiedFile := Some(NotifiedVersions(notified.app, Some(info.extVersion)));
        }
      }
    }

    /** CheckForUpdates: only the leader checks; `fetched` is the record the
        fetch returned, None when the request or the parse failed or gave null. */
    method CheckForUpdates(fetched: Option<VersionInfo>)
      modifies this`notifiedFile, this`notices
      ensures !isUpdateLeader || fetched.None? ==> notifiedFile == old(notifiedFile) && notices == old(notices)
      ensures isUpdateLeader && fetched.Some? ==>
        var o := ProcessAsWritten(appVersion, old(notifiedFile), fetched.value, connectedExtensionVersion);
        notifiedFile == o.file && notices == old(notices) + o.notices
    {
      if !isUpdateLeader || fetched.None? {
        return;
      }
      ProcessVersionInfoAsWritten(fetched.value);
    }
  }

  /** As written, two instances starting one after the other on a fresh
      mutex both become update leaders and both schedule checks. */
  method TwoCheckersBothLeadAsWritten() returns (first: bool, second: bool)
    ensures first && second
  {
    var m := new NamedMutex();
    var a := new UpdateService(false, 1, m, None);
    var b := new UpdateService(false, 2, m, None);
    a.StartAsWritten(false);
    b.StartAsWritten(false);
    first, second := a.checksScheduled, b.checksScheduled;
  }

  /** With the corrected start, of two distinct instances at most one
      schedules checks, whatever state the mutex is in. */
  method TwoCheckersElect(m: NamedMutex, a: UpdateService, b: UpdateService) returns (first: bool, second: bool)
    requires a.mutex == m && b.mutex == m && a.pid != b.pid && a != b
    requires m.Valid() && a.LeaderOwnsMutex() && b.LeaderOwnsMutex()
    modifies m, a, b
    ensures !(first && second)
    ensures first ==> m.owner == Some(a.pid)
  {
    a.Start(false);
    b.Start(false);
    first, second := a.checksScheduled, b.checksScheduled;
  }
}
