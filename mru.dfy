/** The extension's most-recently-used tab list (mainsw.js) as values: the list
    operations the service worker applies in place, the wrap-around cursor, one
    legacy switch step, the window filter and the thumbnail cache update. The
    class in ServiceWorker performs these on its fields. */
module Mru {
  import opened Common

  // ---------------------------------------------------------------- list operations

  /** putExistingTabToTop: a present id is taken out and put first. */
  function MovedToFront(s: seq<int>, x: int): (r: seq<int>)
    ensures |r| == |s|
    ensures x in s ==> r[0] == x
    ensures x !in s ==> r == s
  {
    if x in s then [x] + RemoveAt(s, IndexOf(s, x)) else s
  }

  /** `splice(-1, 0, x)` inserts at index length - 1, or at 0 in an empty list. */
  function BackIndex(n: nat): (i: nat)
    ensures i <= n
  {
    if n == 0 then 0 else n - 1
  }

  /** addTabToMRUAtBack: an absent id is inserted before the last element. */
  function AddedAtBack(s: seq<int>, x: int): (r: seq<int>)
    ensures x in r
    ensures x in s ==> r == s
    ensures x !in s ==> |r| == |s| + 1 && (|s| > 0 ==> r[|r| - 1] == s[|s| - 1])
  {
    if x in s then s else InsertAt(s, BackIndex(|s|), x)
  }

  /** addTabToMRUAtFront: an absent id is put first. */
  function AddedAtFront(s: seq<int>, x: int): (r: seq<int>)
    ensures x in r && r[0] == (if x in s then s[0] else x)
    ensures x in s ==> r == s
    ensures x !in s ==> |r| == |s| + 1
  {
    if x in s then s else [x] + s
  }

  /** removeTabFromMRU: the first occurrence of the id is taken out. */
  function Removed(s: seq<int>, x: int): (r: seq<int>)
    ensures x in s ==> |r| == |s| - 1
    ensures x !in s ==> r == s
  {
    if x in s then RemoveAt(s, IndexOf(s, x)) else s
  }

  /** The start position Array.prototype.splice uses: a negative index counts
      from the end, and both ends are clamped. */
  function SpliceStart(len: nat, index: int): (r: nat)
    ensures r <= len
  {
    if index < 0 then (if len + index < 0 then 0 else len + index)
    else if index > len then len
    else index
  }

  /** removeItemAtIndexFromMRU: `if (index < mru.length) mru.splice(index, 1)`. */
  function RemovedAtIndex(s: seq<int>, index: int): (r: seq<int>)
    ensures index >= |s| ==> r == s
    ensures index < |s| && |s| > 0 ==> |r| == |s| - 1
  {
    if index < |s| && SpliceStart(|s|, index) < |s| then RemoveAt(s, SpliceStart(|s|, index)) else s
  }

  lemma RemoveAtMultiset(s: seq<int>, i: nat)
    requires i < |s|
    ensures multiset(RemoveAt(s, i)) + multiset{s[i]} == multiset(s)
  {
    assert s == s[..i] + [s[i]] + s[i + 1..];
  }

  lemma RemoveAtKeepsNoDup(s: seq<int>, i: nat)
    requires i < |s| && NoDup(s)
    ensures NoDup(RemoveAt(s, i))
    ensures forall y :: y in RemoveAt(s, i) <==> y in s && y != s[i]
  {
    var r := RemoveAt(s, i);
    forall a, b | 0 <= a < b < |r|
      ensures r[a] != r[b]
    {
      var a' := if a < i then a else a + 1;
      var b' := if b < i then b else b + 1;
      assert r[a] == s[a'] && r[b] == s[b'];
    }
    forall y
      ensures y in r <==> y in s && y != s[i]
    {
      if y in s && y != s[i] {
        var k :| 0 <= k < |s| && s[k] == y;
        assert k != i;
        assert r[if k < i then k else k - 1] == y;
      }
      if y in r {
        var k :| 0 <= k < |r| && r[k] == y;
        var k' := if k < i then k else k + 1;
        assert s[k'] == y && k' != i;
      }
    }
  }

  /** Moving a present id to the front keeps the length and the members, puts
      the id first, and leaves the other ids in their old relative order; an
      absent id changes nothing. */
  lemma MovedToFrontSpec(s: seq<int>, x: int)
    ensures x !in s ==> MovedToFront(s, x) == s
    ensures x in s ==> MovedToFront(s, x)[0] == x && |MovedToFront(s, x)| == |s|
    ensures x in s ==> MovedToFront(s, x)[1..] == Removed(s, x)
    ensures multiset(MovedToFront(s, x)) == multiset(s)
    ensures NoDup(s) ==> NoDup(MovedToFront(s, x))
  {
    if x in s {
      var i := IndexOf(s, x);
      RemoveAtMultiset(s, i);
      var r := MovedToFront(s, x);
      assert r == [x] + RemoveAt(s, i);
      assert r[1..] == RemoveAt(s, i);
      if NoDup(s) {
        RemoveAtKeepsNoDup(s, i);
        forall a, b | 0 <= a < b < |r|
          ensures r[a] != r[b]
        {
          if a == 0 {
            assert r[b] in RemoveAt(s, i);
          } else {
            assert r[a] == RemoveAt(s, i)[a - 1] && r[b] == RemoveAt(s, i)[b - 1];
          }
        }
      }
    }
  }

  /** The three list edits keep the list free of duplicates, insert only an
      absent id and remove only a present one. */
  lemma EditsKeepNoDup(s: seq<int>, x: int)
    requires NoDup(s)
    ensures NoDup(AddedAtBack(s, x)) && NoDup(AddedAtFront(s, x)) && NoDup(Removed(s, x))
    ensures forall y :: y in AddedAtBack(s, x) <==> y in s || y == x
    ensures forall y :: y in AddedAtFront(s, x) <==> y in s || y == x
    ensures forall y :: y in Removed(s, x) <==> y in s && y != x
    ensures x in s ==> AddedAtBack(s, x) == s && AddedAtFront(s, x) == s
    ensures x !in s ==> Removed(s, x) == s
  {
    if x in s {
      RemoveAtKeepsNoDup(s, IndexOf(s, x));
    } else {
      var i := BackIndex(|s|);
      var b := InsertAt(s, i, x);
      forall p, q | 0 <= p < q < |b|
        ensures b[p] != b[q]
      {
        if p == i {
          assert b[q] == s[q - 1];
        } else if q == i {
          assert b[p] == s[p];
        } else {
          assert b[p] == s[if p < i then p else p - 1] && b[q] == s[if q < i then q else q - 1];
        }
      }
      forall y
        ensures y in b <==> y in s || y == x
      {
        if y in s {
          var k :| 0 <= k < |s| && s[k] == y;
          assert b[if k < i then k else k + 1] == y;
        }
        if y in b {
          var k :| 0 <= k < |b| && b[k] == y;
          if k != i {
            assert s[if k < i then k else k - 1] == y;
          }
        }
      }
      var f := [x] + s;
      forall p, q | 0 <= p < q < |f|
        ensures f[p] != f[q]
      {
        if p > 0 {
          assert f[p] == s[p - 1] && f[q] == s[q - 1];
        } else {
          assert f[q] in s;
        }
      }
    }
  }

  /** `splice(-1, 0, x)` leaves the old last element last: the new id goes
      second to last, not to the back. */
  lemma AddedAtBackIsBeforeLast(s: seq<int>, x: int)
    requires x !in s && |s| > 0
    ensures var r := AddedAtBack(s, x);
      |r| == |s| + 1 && r[|s| - 1] == x && r[|s|] == s[|s| - 1]
  {
  }

  /** An index inside the list removes exactly that element; an index at or past
      the end removes nothing; a negative one counts from the end. */
  lemma RemovedAtIndexSpec(s: seq<int>, index: int)
    ensures 0 <= index < |s| ==> RemovedAtIndex(s, index) == s[..index] + s[index + 1..]
    ensures index >= |s| ==> RemovedAtIndex(s, index) == s
    ensures index < 0 && |s| > 0 ==>
      RemovedAtIndex(s, index) == RemoveAt(s, if |s| + index < 0 then 0 else |s| + index)
    ensures |RemovedAtIndex(s, index)| == if index < |s| && |s| > 0 then |s| - 1 else |s|
  {
  }

  // ---------------------------------------------------------------- cursor

  /** incrementSwitchCounter over a list of n tabs. */
  function Incremented(c: nat, n: nat): nat
    requires n > 0
  {
    (c + 1) % n
  }

  /** decrementSwitchCounter over a list of n tabs. */
  function Decremented(c: nat, n: nat): nat
    requires n > 0
  {
    if c == 0 then n - 1 else c - 1
  }

  /** Both steps keep an in-range cursor in range and undo each other. */
  lemma CursorStepsAreInverse(c: nat, n: nat)
    requires c < n
    ensures Incremented(c, n) < n && Decremented(c, n) < n
    ensures Decremented(Incremented(c, n), n) == c
    ensures Incremented(Decremented(c, n), n) == c
  {
    if c + 1 < n {
      assert Incremented(c, n) == c + 1;
    } else {
      assert Incremented(c, n) == 0;
    }
    if c == 0 {
      assert Incremented(n - 1, n) == 0;
    }
  }

  /** k forward steps. */
  function Advanced(c: nat, k: nat, n: nat): nat
    requires n > 0
    decreases k
  {
    if k == 0 then c else Incremented(Advanced(c, k - 1, n), n)
  }

  /** Forward steps that do not reach the end of the list just add. */
  lemma {:induction false} AdvancedBelowEnd(c: nat, k: nat, n: nat)
    requires c + k < n
    ensures Advanced(c, k, n) == c + k
    decreases k
  {
    if k > 0 {
      AdvancedBelowEnd(c, k - 1, n);
      SmallMod(c + k, n);
    }
  }

  lemma SmallMod(x: nat, n: nat)
    requires x < n
    ensures x % n == x
  {
  }

  /** a steps and then b more are a + b steps. */
  lemma {:induction false} AdvancedCompose(c: nat, a: nat, b: nat, n: nat)
    requires n > 0
    ensures Advanced(c, a + b, n) == Advanced(Advanced(c, a, n), b, n)
    decreases b
  {
    if b > 0 {
      AdvancedCompose(c, a, b - 1, n);
    }
  }

  /** n forward steps over n tabs return the cursor to where it started. */
  lemma FullCycleReturns(c: nat, n: nat)
    requires c < n
    ensures Advanced(c, n, n) == c
  {
    AdvancedBelowEnd(c, n - c - 1, n);
    assert n % n == 0;
    assert Advanced(c, n - c, n) == 0;
    AdvancedCompose(c, n - c, c, n);
    if c > 0 {
      AdvancedBelowEnd(0, c, n);
    }
  }

  // ---------------------------------------------------------------- legacy switch step

  /** What one doIntSwitch does: the list after dropping vanished tabs, the
      cursor, and the index of the tab it activated, if any. */
  datatype IntSwitchResult = IntSwitchResult(mru: seq<int>, cursor: nat, activated: Option<nat>)

  /** doIntSwitch, whose asynchronous recursion is unrolled: step the cursor;
      a live tab there is activated; a vanished one is removed, the cursor is
      reset to 0 if it fell off the end, and the step is retried. */
  function IntSwitch(mru: seq<int>, cursor: nat, backward: bool, alive: set<int>): (r: IntSwitchResult)
    ensures |r.mru| <= |mru|
    ensures cursor >= |mru| ==> r == IntSwitchResult(mru, cursor, None)
    ensures r.activated.Some? ==> r.activated.value == r.cursor
    decreases |mru|
  {
    if cursor >= |mru| then IntSwitchResult(mru, cursor, None)
    else
      var c := if backward then Decremented(cursor, |mru|) else Incremented(cursor, |mru|);
      if mru[c] in alive then IntSwitchResult(mru, c, Some(c))
      else
        var m := RemoveAt(mru, c);
        IntSwitch(m, if c >= |m| then 0 else c, backward, alive)
  }

  /** One turn of the switch loop over a vanished tab: it is dropped and the
      step goes on from the same index, or from 0 past the end. */
  lemma IntSwitchSkips(mru: seq<int>, cursor: nat, c: nat, backward: bool, alive: set<int>)
    requires cursor < |mru| && c == (if backward then Decremented(cursor, |mru|) else Incremented(cursor, |mru|))
    requires c < |mru| && mru[c] !in alive
    ensures IntSwitch(mru, cursor, backward, alive) ==
      IntSwitch(mru[..c] + mru[c + 1..], if c >= |mru| - 1 then 0 else c, backward, alive)
  {
  }

  /** One turn of the switch loop over a live tab: the step activates it. */
  lemma IntSwitchStops(mru: seq<int>, cursor: nat, c: nat, backward: bool, alive: set<int>)
    requires cursor < |mru| && c == (if backward then Decremented(cursor, |mru|) else Incremented(cursor, |mru|))
    requires c < |mru| && mru[c] in alive
    ensures IntSwitch(mru, cursor, backward, alive) == IntSwitchResult(mru, c, Some(c))
  {
  }

  /** A switch step removes only vanished tabs and keeps every live one. */
  lemma {:induction false} IntSwitchKeepsLiveTabs(mru: seq<int>, cursor: nat, backward: bool, alive: set<int>)
    ensures multiset(IntSwitch(mru, cursor, backward, alive).mru) <= multiset(mru)
    ensures forall x :: x in mru && x in alive ==> x in IntSwitch(mru, cursor, backward, alive).mru
    decreases |mru|
  {
    if cursor < |mru| {
      var c := if backward then Decremented(cursor, |mru|) else Incremented(cursor, |mru|);
      if mru[c] !in alive {
        var m := RemoveAt(mru, c);
        var next: nat := if c >= |m| then 0 else c;
        assert IntSwitch(mru, cursor, backward, alive) == IntSwitch(m, next, backward, alive);
        RemoveAtMultiset(mru, c);
        IntSwitchKeepsLiveTabs(m, next, backward, alive);
        forall x | x in mru && x in alive
          ensures x in m
        {
          assert x in multiset(mru) && x != mru[c];
          assert x in multiset(m);
        }
      }
    }
  }

  /** A switch step activates only a live tab, at an index of the resulting
      list, and leaves the cursor there. */
  lemma {:induction false} IntSwitchActivatesLiveTab(mru: seq<int>, cursor: nat, backward: bool, alive: set<int>)
    ensures var r := IntSwitch(mru, cursor, backward, alive);
      r.activated.Some? ==> r.activated.value < |r.mru| && r.mru[r.activated.value] in alive && r.cursor == r.activated.value
    decreases |mru|
  {
    if cursor < |mru| {
      var c := if backward then Decremented(cursor, |mru|) else Incremented(cursor, |mru|);
      if mru[c] !in alive {
        var m := RemoveAt(mru, c);
        IntSwitchActivatesLiveTab(m, if c >= |m| then 0 else c, backward, alive);
      }
    }
  }

  /** A switch step keeps the list free of duplicates. */
  lemma {:induction false} IntSwitchKeepsNoDup(mru: seq<int>, cursor: nat, backward: bool, alive: set<int>)
    requires NoDup(mru)
    ensures NoDup(IntSwitch(mru, cursor, backward, alive).mru)
    decreases |mru|
  {
    if cursor < |mru| {
      var c := if backward then Decremented(cursor, |mru|) else Incremented(cursor, |mru|);
      if mru[c] !in alive {
        var m := RemoveAt(mru, c);
        RemoveAtKeepsNoDup(mru, c);
        IntSwitchKeepsNoDup(m, if c >= |m| then 0 else c, backward, alive);
      }
    }
  }

  /** With the cursor in range and some live tab in the list, a switch step
      always activates one. */
  lemma {:induction false} IntSwitchFindsLiveTab(mru: seq<int>, cursor: nat, backward: bool, alive: set<int>)
    requires cursor < |mru|
    requires exists k :: 0 <= k < |mru| && mru[k] in alive
    ensures IntSwitch(mru, cursor, backward, alive).activated.Some?
    decreases |mru|
  {
    var c := if backward then Decremented(cursor, |mru|) else Incremented(cursor, |mru|);
    if mru[c] !in alive {
      var m := RemoveAt(mru, c);
      var k :| 0 <= k < |mru| && mru[k] in alive;
      assert k != c;
      assert m[if k < c then k else k - 1] == mru[k];
      IntSwitchFindsLiveTab(m, if c >= |m| then 0 else c, backward, alive);
    }
  }

  // ---------------------------------------------------------------- filters

  /** The elements satisfying keep, in order. */
  function Filter(s: seq<int>, keep: int -> bool): (r: seq<int>)
    ensures |r| <= |s|
  {
    if |s| == 0 then []
    else (if keep(s[0]) then [s[0]] else []) + Filter(s[1..], keep)
  }

  /** Filter keeps exactly the members that satisfy keep and takes each
      element at most as often as the list holds it. */
  lemma {:induction false} FilterMembers(s: seq<int>, keep: int -> bool)
    ensures forall x :: x in Filter(s, keep) <==> x in s && keep(x)
    ensures multiset(Filter(s, keep)) <= multiset(s)
  {
    if |s| > 0 {
      FilterMembers(s[1..], keep);
      assert s == [s[0]] + s[1..];
    }
  }

  /** The tail of a duplicate-free list is duplicate-free and lacks the head. */
  lemma NoDupTail(s: seq<int>)
    requires |s| > 0 && NoDup(s)
    ensures NoDup(s[1..]) && s[0] !in s[1..]
  {
    forall a, b | 0 <= a < b < |s[1..]|
      ensures s[1..][a] != s[1..][b]
    {
      assert s[1..][a] == s[a + 1] && s[1..][b] == s[b + 1];
    }
    forall k | 0 <= k < |s[1..]|
      ensures s[1..][k] != s[0]
    {
      assert s[1..][k] == s[k + 1];
    }
  }

  /** Filter introduces no duplicates. */
  lemma {:induction false} FilterNoDup(s: seq<int>, keep: int -> bool)
    requires NoDup(s)
    ensures NoDup(Filter(s, keep))
  {
    if |s| > 0 {
      NoDupTail(s);
      FilterNoDup(s[1..], keep);
      FilterMembers(s[1..], keep);
      var r := Filter(s, keep);
      var t := Filter(s[1..], keep);
      if keep(s[0]) {
        assert r == [s[0]] + t;
        assert s[0] !in t;
        forall a, b | 0 <= a < b < |r|
          ensures r[a] != r[b]
        {
          if a == 0 {
            assert r[b] == t[b - 1] && t[b - 1] in t;
          } else {
            assert r[a] == t[a - 1] && r[b] == t[b - 1];
          }
        }
      }
    }
  }

  /** Filtering a list extended by one element. */
  lemma {:induction false} FilterSnoc(s: seq<int>, x: int, keep: int -> bool)
    ensures Filter(s + [x], keep) == Filter(s, keep) + (if keep(x) then [x] else [])
    decreases |s|
  {
    if |s| == 0 {
      assert s + [x] == [x];
      assert [x][1..] == [];
    } else {
      var h := if keep(s[0]) then [s[0]] else [];
      assert (s + [x])[0] == s[0];
      assert (s + [x])[1..] == s[1..] + [x];
      assert Filter(s + [x], keep) == h + Filter(s[1..] + [x], keep);
      FilterSnoc(s[1..], x, keep);
      assert Filter(s, keep) == h + Filter(s[1..], keep);
    }
  }

  /** The tabs getFilteredMru keeps: those that still exist and are in window w.
      `windows` maps each existing tab to its window. */
  function InWindow(s: seq<int>, w: int, windows: map<int, int>): seq<int> {
    Filter(s, InWindowTest(w, windows))
  }

  function InWindowTest(w: int, windows: map<int, int>): int -> bool {
    x => x in windows && windows[x] == w
  }

  /** The tabs getTabDataForSwitcher reports: those that still exist. */
  function Existing(s: seq<int>, windows: map<int, int>): seq<int> {
    Filter(s, ExistsTest(windows))
  }

  function ExistsTest(windows: map<int, int>): int -> bool {
    x => x in windows
  }

  /** getFilteredMru's choice: None when the full list itself is used (not
      filtering, getCurrent failing, or no tab of the list in the current
      window), otherwise the tabs of the current window. */
  function WindowChoice(mru: seq<int>, currentWindowOnly: bool, currentWindow: Option<int>,
                        windows: map<int, int>): Option<seq<int>>
  {
    if !currentWindowOnly || currentWindow.None? then None
    else if |InWindow(mru, currentWindow.value, windows)| == 0 then None
    else Some(InWindow(mru, currentWindow.value, windows))
  }

  /** A filtered list is non-empty and holds exactly the list's tabs that exist
      in the current window, in MRU order. */
  lemma WindowChoiceSpec(mru: seq<int>, currentWindowOnly: bool, currentWindow: Option<int>, windows: map<int, int>)
    ensures WindowChoice(mru, currentWindowOnly, currentWindow, windows).None? <==>
      !currentWindowOnly || currentWindow.None? ||
      forall x :: x in mru ==> x !in windows || windows[x] != currentWindow.value
    ensures var c := WindowChoice(mru, currentWindowOnly, currentWindow, windows);
      c.Some? ==> (|c.value| > 0 && multiset(c.value) <= multiset(mru) &&
                   (forall x :: x in c.value <==> x in mru && x in windows && windows[x] == currentWindow.value) &&
                   (NoDup(mru) ==> NoDup(c.value)))
  {
    if currentWindowOnly && currentWindow.Some? {
      var w := currentWindow.value;
      FilterMembers(mru, InWindowTest(w, windows));
      if NoDup(mru) {
        FilterNoDup(mru, InWindowTest(w, windows));
      }
      var f := InWindow(mru, w, windows);
      assert forall x :: x in f <==> x in mru && x in windows && windows[x] == w;
      if |f| > 0 {
        assert f[0] in f;
        assert f[0] in mru && f[0] in windows && windows[f[0]] == w;
        assert WindowChoice(mru, currentWindowOnly, currentWindow, windows).Some?;
        var y := f[0];
        assert y in mru && !(y !in windows || windows[y] != currentWindow.value);
      } else {
        forall x | x in mru
          ensures x !in windows || windows[x] != w
        {
          assert x !in f;
        }
      }
    }
  }

  /** endSwitch's commit: the tab at the saved index of the full list moves to
      the front; an index past the end names no tab and changes nothing. */
  function Committed(mru: seq<int>, index: nat): seq<int> {
    if index < |mru| then MovedToFront(mru, mru[index]) else mru
  }

  /** The windows' tab lists laid end to end. */
  function Flatten(windows: seq<seq<int>>): seq<int> {
    if |windows| == 0 then [] else Flatten(windows[..|windows| - 1]) + windows[|windows| - 1]
  }

  lemma FlattenStep(windows: seq<seq<int>>, w: nat)
    requires w < |windows|
    ensures Flatten(windows[..w + 1]) == Flatten(windows[..w]) + windows[w]
  {
    assert windows[..w + 1][..w] == windows[..w];
  }

  // ---------------------------------------------------------------- thumbnail cache

  const MaxThumbnails: nat := 20

  /** The cache and its recency order agree: the order lists each cached tab
      once and holds at most 20 of them. */
  predicate ThumbnailsConsistent(thumbs: map<int, string>, order: seq<int>) {
    NoDup(order) && |order| <= MaxThumbnails && thumbs.Keys == (set x | x in order)
  }

  /** The recency order after a capture, before eviction. */
  function Touched(order: seq<int>, id: int): seq<int> {
    [id] + Removed(order, id)
  }

  /** The order after a capture: the touched order cut to 20 entries. */
  function OrderAfterCapture(order: seq<int>, id: int): seq<int> {
    var t := Touched(order, id);
    if |t| > MaxThumbnails then t[..MaxThumbnails] else t
  }

  /** The ids a capture evicts: those past the 20th. */
  function Evicted(order: seq<int>, id: int): set<int> {
    var t := Touched(order, id);
    if |t| > MaxThumbnails then Elems(t[MaxThumbnails..]) else {}
  }

  lemma TouchedSpec(order: seq<int>, id: int)
    requires NoDup(order)
    ensures var t := Touched(order, id);
      NoDup(t) && t[0] == id && (forall x :: x in t <==> x in order || x == id) &&
      |t| <= |order| + 1 && (id in order ==> |t| == |order|)
  {
    var t := Touched(order, id);
    var r := Removed(order, id);
    EditsKeepNoDup(order, id);
    forall a, b | 0 <= a < b < |t|
      ensures t[a] != t[b]
    {
      if a == 0 {
        assert t[b] == r[b - 1] && r[b - 1] in r;
      } else {
        assert t[a] == r[a - 1] && t[b] == r[b - 1];
      }
    }
  }

  /** Cutting a duplicate-free list at i splits its members between the two parts. */
  lemma CutSpec(t: seq<int>, i: nat)
    requires NoDup(t) && i <= |t|
    ensures NoDup(t[..i])
    ensures forall x :: x in t[..i] <==> x in t && x !in t[i..]
  {
    assert t == t[..i] + t[i..];
    forall a, b | 0 <= a < i && 0 <= b < |t| - i
      ensures t[..i][a] != t[i..][b]
    {
      assert t[..i][a] == t[a] && t[i..][b] == t[i + b];
    }
    forall a, b | 0 <= a < b < i
      ensures t[..i][a] != t[..i][b]
    {
      assert t[..i][a] == t[a] && t[..i][b] == t[b];
    }
  }

  /** Closing a tab drops its thumbnail and its place in the order together. */
  lemma RemovalKeepsCacheConsistent(thumbs: map<int, string>, order: seq<int>, id: int)
    requires ThumbnailsConsistent(thumbs, order)
    ensures ThumbnailsConsistent(thumbs - {id}, Removed(order, id))
    ensures id !in thumbs - {id} && id !in Removed(order, id)
  {
    var r := Removed(order, id);
    if id in order {
      RemoveAtKeepsNoDup(order, IndexOf(order, id));
    }
    assert (thumbs - {id}).Keys == thumbs.Keys - {id};
    assert (set x | x in r) == (set x | x in order) - {id};
    assert |r| <= |order|;
  }

  /** A capture puts the tab first with its new thumbnail, evicts from the back
      only, and keeps the cache and its order in agreement. */
  lemma CaptureKeepsCacheConsistent(thumbs: map<int, string>, order: seq<int>, id: int, data: string)
    requires ThumbnailsConsistent(thumbs, order)
    ensures var o := OrderAfterCapture(order, id);
      var m := thumbs[id := data] - Evicted(order, id);
      ThumbnailsConsistent(m, o) && o[0] == id && id in m && m[id] == data &&
      (forall x :: x in Evicted(order, id) ==> x !in m)
  {
    var t := Touched(order, id);
    TouchedSpec(order, id);
    assert (set x | x in t) == thumbs[id := data].Keys;
    if |t| > MaxThumbnails {
      CutKeepsCacheConsistent(thumbs[id := data], t);
    }
  }

  /** Evicting everything past the 20th entry keeps a duplicate-free order and
      its cache in agreement, and keeps the front entry. */
  lemma CutKeepsCacheConsistent(m: map<int, string>, t: seq<int>)
    requires NoDup(t) && |t| > MaxThumbnails && m.Keys == (set x | x in t)
    ensures ThumbnailsConsistent(m - Elems(t[MaxThumbnails..]), t[..MaxThumbnails])
    ensures t[..MaxThumbnails][0] == t[0]
  {
    CutSpec(t, MaxThumbnails);
    assert (set x | x in t[..MaxThumbnails]) == (set x | x in t) - Elems(t[MaxThumbnails..]);
  }

  // ---------------------------------------------------------------- browser identity

  /** detectBrowserBundleId: the first user-agent marker that matches, most
      specific first; anything else is taken for Google Chrome. */
  function BundleIdForUserAgent(ua: string): (r: string)
    ensures r == "com.microsoft.edgemac" <==> Contains(ua, "Edg/")
    ensures r == "com.brave.Browser" <==> !Contains(ua, "Edg/") && Contains(ua, "Brave")
    ensures r == "com.vivaldi.Vivaldi" <==> !Contains(ua, "Edg/") && !Contains(ua, "Brave") && Contains(ua, "Vivaldi")
    ensures r in {"com.operasoftware.Opera", "com.operasoftware.OperaGX"} <==>
              !Contains(ua, "Edg/") && !Contains(ua, "Brave") && !Contains(ua, "Vivaldi") &&
              (Contains(ua, "OPR/") || Contains(ua, "Opera"))
    ensures r == "com.operasoftware.OperaGX" <==>
              r in {"com.operasoftware.Opera", "com.operasoftware.OperaGX"} && Contains(ua, "OPGX")
    ensures r == "company.thebrowser.Browser" <==>
              !Contains(ua, "Edg/") && !Contains(ua, "Brave") && !Contains(ua, "Vivaldi") && !Contains(ua, "OPR/") &&
              !Contains(ua, "Opera") && Contains(ua, "Arc/")
    ensures r == "net.imput.helium" <==>
              !Contains(ua, "Edg/") && !Contains(ua, "Brave") && !Contains(ua, "Vivaldi") && !Contains(ua, "OPR/") &&
              !Contains(ua, "Opera") && !Contains(ua, "Arc/") && Contains(ua, "Helium")
    ensures r == "org.chromium.Chromium" <==>
              !Contains(ua, "Edg/") && !Contains(ua, "Brave") && !Contains(ua, "Vivaldi") && !Contains(ua, "OPR/") &&
              !Contains(ua, "Opera") && !Contains(ua, "Arc/") && !Contains(ua, "Helium") && Contains(ua, "Chromium")
    ensures r == "com.google.Chrome" <==>
              !Contains(ua, "Edg/") && !Contains(ua, "Brave") && !Contains(ua, "Vivaldi") && !Contains(ua, "OPR/") &&
              !Contains(ua, "Opera") && !Contains(ua, "Arc/") && !Contains(ua, "Helium") && !Contains(ua, "Chromium")
  {
    if Contains(ua, "Edg/") then "com.microsoft.edgemac"
    else if Contains(ua, "Brave") then "com.brave.Browser"
    else if Contains(ua, "Vivaldi") then "com.vivaldi.Vivaldi"
    else if Contains(ua, "OPR/") || Contains(ua, "Opera") then
      (if Contains(ua, "OPGX") then "com.operasoftware.OperaGX" else "com.operasoftware.Opera")
    else if Contains(ua, "Arc/") then "company.thebrowser.Browser"
    else if Contains(ua, "Helium") then "net.imput.helium"
    else if Contains(ua, "Chromium") then "org.chromium.Chromium"
    else "com.google.Chrome"
  }
}
