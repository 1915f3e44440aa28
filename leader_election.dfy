/** Leader election between the Windows helper's instances
    (native-host-windows/TabSwitcher/IPC/LeaderElection.cs): the instance that
    holds a machine-wide named mutex installs the keyboard hook. The mutex is
    modelled with the Win32 rules the election relies on. */
module LeaderElection {
  import opened Common

  const EventTapMutexName: string := "Global\\TabSwitcherEventTap"
  const UpdateCheckerMutexName: string := "Global\\TabSwitcherUpdateChecker"

  /** A named mutex as all processes see it: how many handles are open (it
      exists while one is), the process owning it, and whether its owner ended
      without releasing it. Ownership is per process here: which thread of an
      instance waits on or releases the mutex is not modelled. */
  class NamedMutex {
    var handles: nat
    var owner: Option<int>
    var abandoned: bool

    predicate Valid()
      reads this
    {
      (abandoned ==> owner.None?) && (handles == 0 ==> owner.None? && !abandoned)
    }

    constructor ()
      ensures Valid() && handles == 0 && owner == None && !abandoned
    {
      handles, owner, abandoned := 0, None, false;
    }

    /** `new Mutex(initiallyOwned, name, out createdNew)`: opens the mutex,
        creating it if no handle is open. Only the creator can get it owned. */
    method Open(pid: int, initiallyOwned: bool) returns (createdNew: bool)
      requires Valid()
      modifies this
      ensures Valid() && handles == old(handles) + 1
      ensures createdNew <==> old(handles) == 0
      ensures createdNew ==> owner == (if initiallyOwned then Some(pid) else None) && !abandoned
      ensures !createdNew ==> owner == old(owner) && abandoned == old(abandoned)
    {
      createdNew := handles == 0;
      if createdNew {
        owner := if initiallyOwned then Some(pid) else None;
        abandoned := false;
      }
      handles := handles + 1;
    }

    /** `WaitOne(0)`: take the mutex if nobody holds it; `wasAbandoned` is the
        AbandonedMutexException that still hands over ownership. */
    method WaitZero(pid: int) returns (acquired: bool, wasAbandoned: bool)
      requires Valid() && handles > 0
      modifies this
      ensures Valid() && handles == old(handles)
      ensures acquired <==> old(owner).None? || old(owner) == Some(pid)
      ensures wasAbandoned <==> old(abandoned)
      ensures acquired ==> owner == Some(pid) && !abandoned
      ensures !acquired ==> owner == old(owner) && abandoned == old(abandoned)
    {
      wasAbandoned := abandoned;
      acquired := owner.None? || owner == Some(pid);
      if acquired {
        owner := Some(pid);
        abandoned := false;
      }
    }

    /** `ReleaseMutex()`: only the owner may release; anyone else gets an exception (`ok` false). */
    method ReleaseBy(pid: int) returns (ok: bool)
      requires Valid()
      modifies this
      ensures Valid() && handles == old(handles) && abandoned == old(abandoned)
      ensures ok <==> old(owner) == Some(pid)
      ensures owner == if ok then None else old(owner)
    {
      ok := owner == Some(pid);
      if ok {
        owner := None;
      }
    }

    /** `Dispose()` on one handle; the mutex is gone with its last handle. */
    method Close()
      requires Valid() && handles > 0
      modifies this
      ensures Valid() && handles == old(handles) - 1
      ensures handles > 0 ==> owner == old(owner) && abandoned == old(abandoned)
    {
      handles := handles - 1;
      if handles == 0 {
        owner, abandoned := None, false;
      }
    }

    /** The owning process ends (crashes) while holding the mutex. */
    method OwnerEnds(pid: int)
      requires Valid()
      modifies this
      ensures Valid() && handles == old(handles)
      ensures old(owner) == Some(pid) ==> owner == None && abandoned
      ensures old(owner) != Some(pid) ==> owner == old(owner) && abandoned == old(abandoned)
    {
      if owner == Some(pid) {
        owner, abandoned := None, true;
      }
    }
  }

  /** The election object of one helper process. */
  class LeaderElection {
    const pid: int
    const mutex: NamedMutex
    /** `_mutex != null`: this instance holds a handle. */
    var hasHandle: bool
    var isLeader: bool

    /** A leader always holds a handle on the mutex. */
    predicate Valid()
      reads this, mutex
    {
      mutex.Valid() && (isLeader ==> hasHandle) && (hasHandle ==> mutex.handles > 0)
    }

    /** The intended invariant: a leader owns the mutex. */
    predicate LeaderOwnsMutex()
      reads this, mutex
    {
      isLeader ==> mutex.owner == Some(pid)
    }

    constructor (pid: int, mutex: NamedMutex)
      ensures this.pid == pid && this.mutex == mutex && !hasHandle && !isLeader
    {
      this.pid := pid;
      this.mutex := mutex;
      hasHandle := false;
      isLeader := false;
    }

    /** TryBecomeLeader as the source writes it: the mutex is created NOT
        owned, yet its creator declares itself leader. `openFails` is any
        other failure to open the mutex. */
    method TryBecomeLeaderAsWritten(openFails: bool) returns (leader: bool)
      requires Valid()
      modifies this, mutex
      ensures Valid()
      ensures openFails ==> !leader && isLeader == old(isLeader) && mutex.handles == old(mutex.handles)
      ensures !openFails ==> (leader <==> old(mutex.handles) == 0 || old(mutex.owner).None? || old(mutex.owner) == Some(pid))
      ensures !openFails && old(mutex.handles) == 0 ==> leader && mutex.owner == None
      ensures !openFails && old(mutex.handles) > 0 && leader ==> mutex.owner == Some(pid)
      ensures leader ==> isLeader
      ensures !leader ==> isLeader == old(isLeader) && mutex.owner == old(mutex.owner)
    {
      if openFails {
        return false;
      }
      var createdNew := mutex.Open(pid, false);
      hasHandle := true;
      if createdNew {
        isLeader := true;
        return true;
      }
      var acquired, wasAbandoned := mutex.WaitZero(pid);
      if wasAbandoned {
        isLeader := true;
        return true;
      }
      if acquired {
        isLeader := true;
        return true;
      }
      return false;
    }

    /** TryBecomeLeader with the mutex requested as initially owned, so that
        every way of winning the election leaves this process owning it. */
    method TryBecomeLeader(openFails: bool) returns (leader: bool)
      requires Valid() && LeaderOwnsMutex()
      modifies this, mutex
      ensures Valid() && LeaderOwnsMutex()
      ensures openFails ==> !leader && isLeader == old(isLeader) && mutex.handles == old(mutex.handles)
      ensures !openFails ==> (leader <==> old(mutex.handles) == 0 || old(mutex.owner).None? || old(mutex.owner) == Some(pid))
      ensures leader ==> isLeader && mutex.owner == Some(pid)
      ensures !leader ==> isLeader == old(isLeader) && mutex.owner == old(mutex.owner)
    {
      if openFails {
        return false;
      }
      var createdNew := mutex.Open(pid, true);
      hasHandle := true;
      if createdNew {
        isLeader := true;
        return true;
      }
      var acquired, wasAbandoned := mutex.WaitZero(pid);
      if wasAbandoned || acquired {
        isLeader := true;
        return true;
      }
      return false;
    }

    /** Release: a leader gives the mutex back (an exception from ReleaseMutex,
        raised when it does not own it, is swallowed) and stops being leader;
        a follower does nothing. */
    method Release()
      requires Valid()
      modifies this, mutex
      ensures Valid() && !isLeader && hasHandle == old(hasHandle)
      ensures mutex.handles == old(mutex.handles) && mutex.abandoned == old(mutex.abandoned)
      ensures mutex.owner == if old(isLeader) && old(mutex.owner) == Some(pid) then None else old(mutex.owner)
    {
      if isLeader && hasHandle {
        var _ := mutex.ReleaseBy(pid);
        isLeader := false;
      }
    }

    /** Dispose: Release first, then close the handle. */
    method Dispose()
      requires Valid()
      modifies this, mutex
      ensures Valid() && !isLeader && !hasHandle
      ensures mutex.handles == old(mutex.handles) - (if old(hasHandle) then 1 else 0)
      ensures old(isLeader) && old(mutex.owner) == Some(pid) ==> mutex.owner == None
      ensures !old(hasHandle) ==> mutex.owner == old(mutex.owner)
    {
      Release();
      if hasHandle {
        mutex.Close();
        hasHandle := false;
      }
    }
  }

  /** Two instances starting one after the other on a fresh mutex both become
      leader when the election is written as in the source. */
  method TwoInstancesBothLeadAsWritten() returns (first: bool, second: bool)
    ensures first && second
  {
    var m := new NamedMutex();
    var a := new LeaderElection(1, m);
    var b := new LeaderElection(2, m);
    first := a.TryBecomeLeaderAsWritten(false);
    second := b.TryBecomeLeaderAsWritten(false);
  }

  /** With the corrected election, of two distinct instances at most one wins,
      whatever state the mutex is in. */
  method TwoInstancesElect(m: NamedMutex, a: LeaderElection, b: LeaderElection) returns (first: bool, second: bool)
    requires a.mutex == m && b.mutex == m && a.pid != b.pid && a != b
    requires a.Valid() && b.Valid() && a.LeaderOwnsMutex() && b.LeaderOwnsMutex()
    modifies m, a, b
    ensures !(first && second)
    ensures first ==> a.isLeader && m.owner == Some(a.pid)
  {
    first := a.TryBecomeLeader(false);
    second := b.TryBecomeLeader(false);
  }

  /** Under the corrected election two distinct instances that keep the
      invariant are never leaders together. */
  lemma AtMostOneLeader(a: LeaderElection, b: LeaderElection)
    requires a.mutex == b.mutex && a.pid != b.pid
    requires a.LeaderOwnsMutex() && b.LeaderOwnsMutex()
    ensures !(a.isLeader && b.isLeader)
  {
  }
}
