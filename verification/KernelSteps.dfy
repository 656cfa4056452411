/** Guest steps: a host call or the end of a time slice, then the scheduler. */
module KernelSteps {
  import opened Words
  import opened KernelTypes
  import opened KernelCalls
  import opened KernelInvariant

  datatype Call =
    | CreateMutex(name: NameArg, cell: U32, attr: U32, initial: U32)
    | OpenMutex(name: NameArg, cell: U32, handle: U32)
    | CloseMutex(handle: U32)
    | RequestMutex(handle: U32, timeout: U32)
    | ReleaseMutex(handle: U32)
    | QueryMutex(handle: U32, stateCell: U32, ownerCell: U32, countCell: U32)
    | CreateEvent(name: NameArg, cell: U32, attr: U32, initial: U32)
    | OpenEvent(name: NameArg, cell: U32, handle: U32)
    | CloseEvent(handle: U32)
    | ResetEvent(handle: U32, cell: U32)
    | PostEvent(handle: U32)
    | WaitForEvent(handle: U32, timeout: U32)
    | QueryEvent(handle: U32, cell: U32)
    | CreateThread(ptid: U32, entry: U32, param: U32, flags: U32, stackSize: U32, stackBase: U32, exitStub: U32)
    | ExitThread
    | ExitProcess
    | JoinThread(ptid: U32, option: U32, target: U32)
    | SleepFor(ms: U32)
    | WaitForBridge(queue: bool, delay: nat)
    | OtherService(rc: nat)

  function Perform(k: Kernel, call: Call, now: nat): Reply
    requires WF(k) && Generations(k.mutexes)
  {
    match call
    case CreateMutex(name, cell, attr, initial) => MutexCreate(k, name, cell, attr, initial)
    case OpenMutex(name, cell, handle) => MutexOpen(k, name, cell, handle)
    case CloseMutex(h) => MutexClose(k, h)
    case RequestMutex(h, timeout) => MutexRequest(k, h, timeout, now)
    case ReleaseMutex(h) => MutexRelease(k, h)
    case QueryMutex(h, a, b, c) => MutexQuery(k, h, a, b, c)
    case CreateEvent(name, cell, attr, initial) => EventCreate(k, name, cell, attr, initial)
    case OpenEvent(name, cell, handle) => EventOpen(k, name, cell, handle)
    case CloseEvent(h) => EventClose(k, h)
    case ResetEvent(h, cell) => EventReset(k, h, cell)
    case PostEvent(h) => EventPost(k, h)
    case WaitForEvent(h, timeout) => EventWait(k, h, timeout, now)
    case QueryEvent(h, cell) => EventQuery(k, h, cell)
    case CreateThread(p, e, a, f, size, base, stub) => ThreadCreate(k, p, e, a, f, size, base, stub)
    case ExitThread => ThreadExit(k)
    case ExitProcess => ProcessExit(k)
    case JoinThread(p, option, target) => ThreadWait(k, p, option, target)
    case SleepFor(ms) => Sleep(k, ms, now)
    case WaitForBridge(queue, delay) => BridgeWait(k, queue, delay, now)
    case OtherService(rc) => Fails(k, rc)
  }

  lemma PerformKeeps(k: Kernel, call: Call, now: nat)
    requires Inv(k) && Executing(k) && k.nextTid > 0 && Generations(k.mutexes)
    ensures Inv(Perform(k, call, now).kernel)
  {
    hide Inv, MutexCreate, MutexOpen, MutexClose, MutexRequest, MutexRelease, EventCreate, EventOpen, EventClose, EventReset,
      EventPost, EventWait, ThreadCreate, ThreadExit, ThreadWait, Sleep, BridgeWait;
    InvWF(k);
    match call {
      case CreateMutex(name, cell, attr, initial) => CreateKeeps(k, name, cell, attr, initial);
      case OpenMutex(name, cell, handle) => OpenKeeps(k, name, cell, handle);
      case CloseMutex(h) => CloseKeeps(k, h);
      case RequestMutex(h, timeout) => RequestKeeps(k, h, timeout, now);
      case ReleaseMutex(h) => ReleaseKeeps(k, h);
      case CreateEvent(name, cell, attr, initial) => EventCreateKeeps(k, name, cell, attr, initial);
      case OpenEvent(name, cell, handle) => EventOpenKeeps(k, name, cell, handle);
      case CloseEvent(h) => EventCloseKeeps(k, h);
      case ResetEvent(h, cell) => EventResetKeeps(k, h, cell);
      case PostEvent(h) => EventPostKeeps(k, h);
      case WaitForEvent(h, timeout) => EventWaitKeeps(k, h, timeout, now);
      case CreateThread(p, e, a, f, size, base, stub) => ThreadCreateKeeps(k, p, e, a, f, size, base, stub);
      case ExitThread => ExitKeeps(k);
      case ExitProcess => SameCore(k, ProcessExit(k).kernel);
      case JoinThread(p, option, target) => ThreadWaitKeeps(k, p, option, target);
      case SleepFor(ms) => SleepKeeps(k, ms, now);
      case WaitForBridge(queue, delay) => BridgeWaitKeeps(k, queue, delay, now);
      case _ =>
    }
  }

  // ---- what a call may do to each thread ------------------------------------------------

  /** A thread other than the caller is unchanged, woken, created in a dead slot, or reaped. */
  predicate Moved(t: Thread, u: Thread, nextTid: nat) {
    u == t ||
    (Live(t) && t.state != Running && t.state != HostCall && u.tid == t.tid && u.state == Runnable &&
     (t.regsValid ==> u.regsValid)) ||
    (!Live(t) && (u.state == Runnable || u.state == Suspended) && u.regsValid && u.tid == nextTid) ||
    (t.state == Dead && u.state == Free)
  }

  /** The caller keeps its identity; if it now waits for a semaphore, it is behind everybody. */
  predicate CallerMoved(t: Thread, u: Thread, serial: nat) {
    u.tid == t.tid && u.regs == t.regs && u.regsValid == t.regsValid && (SemWait(u) ==> u.order > serial) && u.state != Free &&
    u.state != HostCall
  }

  ghost predicate Frame(k: Kernel, r: Kernel)
    requires WF(k)
  {
    WF(r) && r.current == k.current && r.cpu == k.cpu && r.modal == k.modal && k.serial <= r.serial && k.nextTid <= r.nextTid &&
    CallerMoved(k.threads[k.current], r.threads[k.current], k.serial) &&
    forall i :: 0 <= i < MAX_THREADS && i != k.current ==> Moved(k.threads[i], r.threads[i], k.nextTid)
  }

  lemma SweepFrame(k: Kernel, n: nat)
    requires WF(k) && Executing(k) && Generations(k.mutexes) && n <= MAX_MUTEXES
    ensures var r := OwnerExit(k, Cur(k).tid, n);
            r.current == k.current && r.cpu == k.cpu && r.modal == k.modal && r.serial == k.serial && r.nextTid == k.nextTid &&
            r.switchRequested == k.switchRequested && r.threadExited == k.threadExited && r.processExited == k.processExited &&
            r.events == k.events &&
            forall i :: 0 <= i < MAX_THREADS ==>
              r.threads[i] == k.threads[i] ||
              (k.threads[i].state == WaitMutex && r.threads[i].tid == k.threads[i].tid && r.threads[i].state == Runnable &&
               (k.threads[i].regsValid ==> r.threads[i].regsValid))
  {
    hide MutexHandle, FirstWaiter;
    if n > 0 {
      SweepFrame(k, n - 1);
    }
  }

  lemma ExitFrame(k: Kernel)
    requires WF(k) && Executing(k) && Generations(k.mutexes)
    ensures Frame(k, ThreadExit(k).kernel) && ThreadExit(k).kernel.threadExited
    ensures ThreadExit(k).kernel.threads[k.current].state == Dead && ThreadExit(k).kernel.switchRequested
  {
    hide OwnerExit, FirstWaiter;
    SweepFrame(k, MAX_MUTEXES);
  }

  /** A call that is not an exit: the caller lives on, and keeps running unless a switch was
      asked for. */
  ghost predicate Returns(k: Kernel, r: Kernel)
    requires WF(k)
  {
    Frame(k, r) && r.threadExited == k.threadExited &&
    Live(r.threads[k.current]) && (!r.switchRequested ==> r.threads[k.current].state == Running)
  }

  lemma CallerOnly(k: Kernel, r: Kernel)
    requires WF(k) && Executing(k) && WF(r)
    requires r.threads == k.threads[k.current := r.threads[k.current]]
    requires CallerMoved(Cur(k), r.threads[k.current], k.serial) && r.threads[k.current].state != Dead
    requires r.current == k.current && r.cpu == k.cpu && r.modal == k.modal && k.serial <= r.serial && r.nextTid == k.nextTid
    requires r.threadExited == k.threadExited
    requires r.switchRequested || r.threads[k.current].state == Running
    ensures Returns(k, r)
  {
  }

  lemma OneOther(k: Kernel, r: Kernel, i: nat)
    requires WF(k) && Executing(k) && WF(r) && i < MAX_THREADS && i != k.current
    requires r.threads == k.threads[i := r.threads[i]] && Moved(k.threads[i], r.threads[i], k.nextTid)
    requires r.current == k.current && r.cpu == k.cpu && r.modal == k.modal && k.serial <= r.serial && k.nextTid <= r.nextTid
    requires r.threadExited == k.threadExited
    ensures Returns(k, r)
  {
  }

  predicate TablesOnly(k: Kernel, r: Kernel) {
    WF(r) && r == k.(mutexes := r.mutexes, events := r.events)
  }

  lemma Unmoved(k: Kernel, r: Kernel)
    requires WF(k) && Executing(k) && TablesOnly(k, r)
    ensures Returns(k, r)
  {
  }

  lemma Blocked(k: Kernel, st: ThreadState, h: U32, timeout: nat, now: nat)
    requires WF(k) && Executing(k) && (st == WaitMutex || st == WaitEvent)
    ensures Returns(k, Block(k, st, h, timeout, now))
  {
    hide Returns;
    CallerOnly(k, Block(k, st, h, timeout, now));
  }

  lemma MutexTables(k: Kernel, call: Call, now: nat)
    requires WF(k) && Generations(k.mutexes)
    requires call.CreateMutex? || call.OpenMutex? || call.CloseMutex? || call.QueryMutex?
    ensures TablesOnly(k, Perform(k, call, now).kernel)
  {
    hide MutexNamed, FreeMutex, FirstWaiter, ResolveMutex, MutexHandle;
  }

  lemma EventTables(k: Kernel, call: Call, now: nat)
    requires WF(k) && Generations(k.mutexes)
    requires call.CreateEvent? || call.OpenEvent? || call.CloseEvent? || call.ResetEvent? || call.QueryEvent?
    ensures TablesOnly(k, Perform(k, call, now).kernel)
  {
    hide EventNamed, FreeEvent, FirstWaiter, ResolveEvent, EventHandle;
  }

  lemma RequestFrame(k: Kernel, h: U32, timeout: U32, now: nat)
    requires WF(k) && Executing(k)
    ensures Returns(k, MutexRequest(k, h, timeout, now).kernel)
  {
    hide Returns, ResolveMutex, Block;
    var r := MutexRequest(k, h, timeout, now).kernel;
    if r == Block(k, WaitMutex, h, timeout, now) {
      Blocked(k, WaitMutex, h, timeout, now);
    } else {
      Unmoved(k, r);
    }
  }

  lemma EventWaitFrame(k: Kernel, h: U32, timeout: U32, now: nat)
    requires WF(k) && Executing(k)
    ensures Returns(k, EventWait(k, h, timeout, now).kernel)
  {
    hide Returns, ResolveEvent, Block;
    var r := EventWait(k, h, timeout, now).kernel;
    if r == Block(k, WaitEvent, h, timeout, now) {
      Blocked(k, WaitEvent, h, timeout, now);
    } else {
      Unmoved(k, r);
    }
  }

  lemma WokenMoved(t: Thread, u: Thread, nextTid: nat)
    requires t.state == WaitMutex && (u == Ready(t, NO_ERROR) || u == Ready(t, SEM_OWNER_DIED))
    ensures Moved(t, u, nextTid)
  {
  }

  lemma ReleaseFrame(k: Kernel, h: U32)
    requires WF(k) && Executing(k)
    ensures Returns(k, MutexRelease(k, h).kernel)
  {
    hide ResolveMutex, Returns, Handoff;
    var s := ResolveMutex(k.mutexes, h);
    var r := MutexRelease(k, h).kernel;
    if s >= 0 && k.mutexes[s].owner == Cur(k).tid && k.mutexes[s].count == 1 {
      var free := SetMutex(k, s, k.mutexes[s].(owner := 0, count := 0));
      Unmoved(k, free);
      HandoffFrame(k, free, s, h);
    } else {
      Unmoved(k, r);
    }
  }

  lemma HandoffFrame(k: Kernel, free: Kernel, s: nat, h: U32)
    requires WF(k) && Executing(k) && s < MAX_MUTEXES && TablesOnly(k, free)
    ensures Returns(k, Handoff(free, s, h))
  {
    hide Returns, Moved;
    var r := Handoff(free, s, h);
    var b := FirstWaiter(k.threads, WaitMutex, h);
    if b < 0 {
      Unmoved(k, r);
    } else {
      WokenMoved(k.threads[b], r.threads[b], k.nextTid);
      OneOther(k, r, b);
    }
  }

  lemma PostFrame(k: Kernel, h: U32)
    requires WF(k) && Executing(k)
    ensures Returns(k, EventPost(k, h).kernel)
  {
    hide ResolveEvent;
  }

  lemma CreateThreadFrame(k: Kernel, call: Call, now: nat)
    requires WF(k) && Executing(k) && Generations(k.mutexes) && call.CreateThread?
    ensures Returns(k, Perform(k, call, now).kernel)
  {
    hide Returns, StartImage, PageUp, Wrap;
    var r := Perform(k, call, now).kernel;
    if r.threads == k.threads {
      assert k.threads == k.threads[k.current := Cur(k)];
      CallerOnly(k, r);
    } else {
      OneOther(k, r, SpareThread(k.threads));
    }
  }

  lemma JoinBlocked(k: Kernel, ptid: U32, option: U32, target: nat)
    requires WF(k) && Executing(k)
    ensures Returns(k, JoinBlock(k, ptid, option, target).kernel)
  {
    hide Returns;
    var r := JoinBlock(k, ptid, option, target).kernel;
    if option == 1 {
      Unmoved(k, r);
    } else {
      CallerOnly(k, r);
    }
  }

  lemma JoinFrame(k: Kernel, ptid: U32, option: U32, target: U32)
    requires WF(k) && Executing(k)
    ensures Returns(k, ThreadWait(k, ptid, option, target).kernel)
  {
    hide Returns, JoinBlock;
    var r := ThreadWait(k, ptid, option, target).kernel;
    var d := if target == 0 then FindDead(k.threads) else FindThread(k.threads, target);
    if d >= 0 && k.threads[d].state == Dead && GuestRange(ptid, 4) && option <= 1 {
      OneOther(k, r, d);
    } else if r == k {
      Unmoved(k, r);
    } else {
      JoinBlocked(k, ptid, option, target);
    }
  }

  lemma ParkingFrame(k: Kernel, call: Call, now: nat)
    requires WF(k) && Executing(k) && Generations(k.mutexes)
    requires call.SleepFor? || call.WaitForBridge? || call.OtherService? || call.ExitProcess?
    ensures Returns(k, Perform(k, call, now).kernel)
  {
    hide Returns;
    assert k.threads == k.threads[k.current := Cur(k)];
    CallerOnly(k, Perform(k, call, now).kernel);
  }

  lemma PerformFrame(k: Kernel, call: Call, now: nat)
    requires WF(k) && Executing(k) && Generations(k.mutexes) && !call.ExitThread?
    ensures Returns(k, Perform(k, call, now).kernel)
  {
    hide Returns, MutexCreate, MutexOpen, MutexClose, MutexRequest, MutexRelease, MutexQuery, EventCreate, EventOpen, EventClose,
      EventReset, EventPost, EventWait, EventQuery, ThreadCreate, ThreadWait, Sleep, BridgeWait;
    match call {
      case CreateThread(_, _, _, _, _, _, _) => CreateThreadFrame(k, call, now);
      case JoinThread(p, option, target) => JoinFrame(k, p, option, target);
      case ReleaseMutex(h) => ReleaseFrame(k, h);
      case PostEvent(h) => PostFrame(k, h);
      case SleepFor(_) => ParkingFrame(k, call, now);
      case WaitForBridge(_, _) => ParkingFrame(k, call, now);
      case OtherService(_) => ParkingFrame(k, call, now);
      case ExitProcess => ParkingFrame(k, call, now);
      case RequestMutex(h, timeout) => RequestFrame(k, h, timeout, now);
      case WaitForEvent(h, timeout) => EventWaitFrame(k, h, timeout, now);
      case ExitThread =>
      case _ =>
        if call.CreateMutex? || call.OpenMutex? || call.CloseMutex? || call.QueryMutex? {
          MutexTables(k, call, now);
        } else {
          EventTables(k, call, now);
        }
        Unmoved(k, Perform(k, call, now).kernel);
    }
  }
}
