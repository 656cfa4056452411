/** Who gets a mutex next, how a wait ends, and who is told that an owner died. */
module KernelMutexOrder {
  import opened Words
  import opened KernelTypes
  import opened KernelCalls
  import opened KernelInvariant
  import opened KernelSteps
  import opened KernelRuns

  // ---- the first waiter ------------------------------------------------------------------

  lemma {:induction false} FirstWaiterFrame(ts: seq<Thread>, us: seq<Thread>, st: ThreadState, h: U32)
    requires |ts| == |us|
    requires forall i :: 0 <= i < |ts| ==>
               (Waits(ts[i], st, h) <==> Waits(us[i], st, h)) && (Waits(ts[i], st, h) ==> ts[i].order == us[i].order)
    ensures FirstWaiter(ts, st, h) == FirstWaiter(us, st, h)
  {
    if ts != [] {
      var last := |ts| - 1;
      FirstWaiterFrame(ts[..last], us[..last], st, h);
    }
  }

  /** The slot whose mutex thread `t` waits for. */
  function Wanted(k: Kernel, t: Thread): (s: int)
    requires WF(k)
    ensures -1 <= s < MAX_MUTEXES
  {
    if t.state == WaitMutex then ResolveMutex(k.mutexes, t.waitEvent) else -1
  }

  lemma WantedMeans(k: Kernel, t: Thread, s: nat)
    requires Inv(k) && s < MAX_MUTEXES
    ensures Wanted(k, t) == s <==>
            t.state == WaitMutex && k.mutexes[s].used && t.waitEvent == MutexHandle(s, k.mutexes[s].generation)
  {
    hide ResolveMutex, ResolveEvent, MutexHandle, LiveTid;
    assert MutexOk(k.threads, k.mutexes[s]);
    ResolveMutexIff(k.mutexes, t.waitEvent, s);
  }

  /** The first in line for slot `s`, or -1. */
  function Heir(k: Kernel, s: nat): (b: int)
    requires WF(k) && s < MAX_MUTEXES && k.mutexes[s].generation <= GENERATION_MAX
    ensures -1 <= b < MAX_THREADS
  {
    FirstWaiter(k.threads, WaitMutex, MutexHandle(s, k.mutexes[s].generation))
  }

  lemma HeirMeans(k: Kernel, s: nat)
    requires Inv(k) && s < MAX_MUTEXES && k.mutexes[s].used
    ensures k.mutexes[s].generation <= GENERATION_MAX
    ensures var b := Heir(k, s);
            (b >= 0 ==> Wanted(k, k.threads[b]) == s) &&
            forall i :: 0 <= i < MAX_THREADS && Wanted(k, k.threads[i]) == s ==> b >= 0 && k.threads[b].order <= k.threads[i].order
  {
    hide ResolveMutex, ResolveEvent, MutexHandle, LiveTid, Wanted;
    assert MutexOk(k.threads, k.mutexes[s]);
    forall i | 0 <= i < MAX_THREADS
      ensures Wanted(k, k.threads[i]) == s <==> Waits(k.threads[i], WaitMutex, MutexHandle(s, k.mutexes[s].generation))
    {
      WantedMeans(k, k.threads[i], s);
    }
  }

  // ---- one call ----------------------------------------------------------------------------

  /** What the owner's giving up leaves in slot `s`. */
  function Inherited(k: Kernel, s: nat, abandoned: bool): Mutex
    requires WF(k) && s < MAX_MUTEXES && k.mutexes[s].generation <= GENERATION_MAX
  {
    var m, b := k.mutexes[s], Heir(k, s);
    if b >= 0 then m.(owner := k.threads[b].tid, count := 1, abandoned := false)
    else m.(owner := 0, count := 0, abandoned := abandoned)
  }

  lemma HandoffIs(k: Kernel, s: nat, free: Mutex)
    requires WF(k) && s < MAX_MUTEXES && k.mutexes[s].generation <= GENERATION_MAX
    requires free == k.mutexes[s].(owner := 0, count := 0, abandoned := free.abandoned)
    ensures var r := Handoff(SetMutex(k, s, free), s, MutexHandle(s, k.mutexes[s].generation));
            var b := Heir(k, s);
            r.mutexes == k.mutexes[s := Inherited(k, s, free.abandoned)] &&
            r.threads == (if b < 0 then k.threads
                          else k.threads[b := Ready(k.threads[b], if free.abandoned then SEM_OWNER_DIED else NO_ERROR)])
  {
    hide FirstWaiter, MutexHandle;
  }

  /** Thread `i` inherits a mutex from the exiting thread `tid` in one of the first `n` slots. */
  predicate Inherits(k: Kernel, tid: nat, i: nat, n: nat)
    requires WF(k) && i < MAX_THREADS && n <= MAX_MUTEXES && Generations(k.mutexes)
  {
    var s := Wanted(k, k.threads[i]);
    0 <= s < n && k.mutexes[s].owner == tid && i == Heir(k, s)
  }

  /** The sweep of an exiting thread, slot by slot. */
  ghost predicate SweepIs(k: Kernel, r: Kernel, tid: nat, n: nat)
    requires WF(k) && WF(r) && n <= MAX_MUTEXES && Generations(k.mutexes)
  {
    (forall s :: 0 <= s < MAX_MUTEXES ==>
       r.mutexes[s] == if s < n && k.mutexes[s].used && k.mutexes[s].owner == tid then Inherited(k, s, true) else k.mutexes[s]) &&
    (forall i :: 0 <= i < MAX_THREADS ==>
       r.threads[i] == if Inherits(k, tid, i, n) then Ready(k.threads[i], SEM_OWNER_DIED) else k.threads[i])
  }

  lemma {:induction false} SweepMeans(k: Kernel, n: nat)
    requires Inv(k) && Executing(k) && n <= MAX_MUTEXES && Generations(k.mutexes)
    ensures SweepIs(k, OwnerExit(k, Cur(k).tid, n), Cur(k).tid, n)
  {
    hide Inv, OwnerExitAt, Inherits, Inherited;
    InvWF(k);
    if n > 0 {
      SweepMeans(k, n - 1);
      SweepNext(k, OwnerExit(k, Cur(k).tid, n - 1), Cur(k).tid, n - 1);
    } else {
      NoneInherit(k, Cur(k).tid);
    }
  }

  lemma NoneInherit(k: Kernel, tid: nat)
    requires WF(k) && Generations(k.mutexes)
    ensures forall i :: 0 <= i < MAX_THREADS ==> !Inherits(k, tid, i, 0)
  {
  }

  /** Earlier slots of the sweep do not disturb the queue of slot `n`. */
  lemma QueueKept(k: Kernel, r: Kernel, tid: nat, n: nat)
    requires Inv(k) && WF(r) && n < MAX_MUTEXES && Generations(k.mutexes) && SweepIs(k, r, tid, n) && k.mutexes[n].used
    ensures r.mutexes[n] == k.mutexes[n] && Heir(r, n) == Heir(k, n)
    ensures Heir(k, n) >= 0 ==> r.threads[Heir(k, n)] == k.threads[Heir(k, n)]
  {
    hide ResolveMutex, ResolveEvent, MutexHandle, LiveTid, FirstWaiter, Wanted;
    var h := MutexHandle(n, k.mutexes[n].generation);
    forall i | 0 <= i < MAX_THREADS
      ensures (Waits(k.threads[i], WaitMutex, h) <==> Waits(r.threads[i], WaitMutex, h))
      ensures Waits(k.threads[i], WaitMutex, h) ==> r.threads[i] == k.threads[i]
    {
      WantedMeans(k, k.threads[i], n);
      WaitersOnly(k, k.threads[i]);
    }
    FirstWaiterFrame(k.threads, r.threads, WaitMutex, h);
  }

  lemma WaitersOnly(k: Kernel, t: Thread)
    requires WF(k)
    ensures Wanted(k, t) >= 0 ==> t.state == WaitMutex
  {
  }

  lemma SweepNext(k: Kernel, r: Kernel, tid: nat, n: nat)
    requires Inv(k) && WF(r) && n < MAX_MUTEXES && Generations(k.mutexes) && Generations(r.mutexes) && SweepIs(k, r, tid, n)
    ensures SweepIs(k, OwnerExitAt(r, tid, n), tid, n + 1)
  {
    hide ResolveMutex, ResolveEvent, MutexHandle, LiveTid, FirstWaiter, Inv, Handoff, Wanted, Heir;
    InvWF(k);
    var q := OwnerExitAt(r, tid, n);
    if k.mutexes[n].used && k.mutexes[n].owner == tid {
      QueueKept(k, r, tid, n);
      HandoffIs(r, n, Abandon(r.mutexes[n]));
      HeirMeans(k, n);
      forall i | 0 <= i < MAX_THREADS
        ensures Inherits(k, tid, i, n + 1) <==> Inherits(k, tid, i, n) || i == Heir(k, n)
      {
      }
    } else {
      forall i | 0 <= i < MAX_THREADS
        ensures Inherits(k, tid, i, n + 1) <==> Inherits(k, tid, i, n)
      {
        if !k.mutexes[n].used {
          UnusedWanted(k, k.threads[i], n);
        }
      }
    }
  }

  lemma UnusedWanted(k: Kernel, t: Thread, n: nat)
    requires Inv(k) && n < MAX_MUTEXES && !k.mutexes[n].used
    ensures Wanted(k, t) != n
  {
    hide ResolveMutex, ResolveEvent;
    WantedMeans(k, t, n);
  }

  /** A mutex without an owner can only go to the caller; an owned one stays with its owner,
      or goes from the caller to the first in line. */
  ghost predicate OwnerEffect(k: Kernel, r: Kernel, s: nat)
    requires WF(k) && WF(r) && s < MAX_MUTEXES && k.mutexes[s].generation <= GENERATION_MAX
  {
    var m, n := k.mutexes[s], r.mutexes[s];
    if m.owner == 0 then n.owner == 0 || n.owner == Cur(k).tid
    else
      n.used && n.generation == m.generation &&
      (n.owner == m.owner || (m.owner == Cur(k).tid && n.owner == Inherited(k, s, false).owner))
  }

  /** Thread `i` was first in line for the caller's mutex and now owns it. */
  ghost predicate Gains(k: Kernel, call: Call, r: Kernel, i: nat)
    requires WF(k) && WF(r) && i < MAX_THREADS && Generations(k.mutexes)
  {
    var t := k.threads[i];
    var s := Wanted(k, t);
    s >= 0 && k.mutexes[s].owner == Cur(k).tid && i == Heir(k, s) &&
    r.mutexes[s].owner == t.tid && r.mutexes[s].count == 1 && !r.mutexes[s].abandoned &&
    ((call.ExitThread? && r.threads[i] == Ready(t, SEM_OWNER_DIED)) ||
     (call.ReleaseMutex? && ResolveMutex(k.mutexes, call.handle) == s && r.threads[i] == Ready(t, NO_ERROR)))
  }

  lemma ReleaseIs(k: Kernel, h: U32)
    requires Inv(k) && Executing(k) && Generations(k.mutexes)
    ensures var s := ResolveMutex(k.mutexes, h);
            var r := MutexRelease(k, h).kernel;
            s >= 0 && k.mutexes[s].owner == Cur(k).tid && k.mutexes[s].count == 1 ==>
              var b := Heir(k, s);
              k.mutexes[s].used && !k.mutexes[s].abandoned &&
              r.mutexes == k.mutexes[s := Inherited(k, s, false)] &&
              r.threads == (if b < 0 then k.threads else k.threads[b := Ready(k.threads[b], NO_ERROR)])
  {
    hide ResolveMutex, ResolveEvent, MutexHandle, FirstWaiter, Handoff, LiveTid, Inherited, Heir;
    var s := ResolveMutex(k.mutexes, h);
    if s >= 0 {
      assert MutexOk(k.threads, k.mutexes[s]);
      ResolveMutexIff(k.mutexes, h, s);
      HandoffIs(k, s, k.mutexes[s].(owner := 0, count := 0));
    }
  }

  lemma ExitIsSweep(k: Kernel)
    requires Inv(k) && Executing(k) && Generations(k.mutexes)
    ensures var r := ThreadExit(k).kernel;
            (forall s :: 0 <= s < MAX_MUTEXES ==>
               r.mutexes[s] == if k.mutexes[s].used && k.mutexes[s].owner == Cur(k).tid then Inherited(k, s, true) else k.mutexes[s]) &&
            (forall i :: 0 <= i < MAX_THREADS && k.threads[i].state == WaitMutex ==>
               r.threads[i] == if Inherits(k, Cur(k).tid, i, MAX_MUTEXES) then Ready(k.threads[i], SEM_OWNER_DIED) else k.threads[i])
  {
    hide Inv, OwnerExit, Inherits, Inherited;
    InvWF(k);
    SweepMeans(k, MAX_MUTEXES);
    SweepFrame(k, MAX_MUTEXES);
    var o := OwnerExit(k, Cur(k).tid, MAX_MUTEXES);
    var dead := o.threads[o.current := o.threads[o.current].(state := Dead)];
    forall i | 0 <= i < MAX_THREADS && k.threads[i].state == WaitMutex
      ensures ThreadExit(k).kernel.threads[i] == o.threads[i]
    {
      assert dead[i] == o.threads[i] && !Joins(dead[i], Cur(k).tid);
    }
  }

  // ---- every call -----------------------------------------------------------------------------

  lemma OtherCalls(k: Kernel, call: Call, now: nat)
    requires WF(k) && Generations(k.mutexes) && Executing(k)
    requires !call.CreateMutex? && !call.OpenMutex? && !call.CloseMutex? && !call.RequestMutex? && !call.ReleaseMutex? && !call.ExitThread?
    ensures Perform(k, call, now).kernel.mutexes == k.mutexes
  {
    if call.CreateThread? || call.JoinThread? || call.SleepFor? || call.WaitForBridge? || call.OtherService? || call.QueryMutex? ||
       call.ExitProcess? {
      ThreadCalls(k, call, now);
    } else {
      EventCalls(k, call, now);
    }
  }

  lemma ThreadCalls(k: Kernel, call: Call, now: nat)
    requires WF(k) && Generations(k.mutexes)
    requires call.CreateThread? || call.JoinThread? || call.SleepFor? || call.WaitForBridge? || call.OtherService? || call.QueryMutex? ||
             call.ExitProcess?
    ensures Perform(k, call, now).kernel.mutexes == k.mutexes
  {
    hide ResolveMutex, StartImage, PageUp, Wrap, SpareThread, FindThread, FindDead;
  }

  lemma EventCalls(k: Kernel, call: Call, now: nat)
    requires WF(k) && Generations(k.mutexes)
    requires call.CreateEvent? || call.OpenEvent? || call.CloseEvent? || call.ResetEvent? || call.PostEvent? || call.WaitForEvent? ||
             call.QueryEvent?
    ensures Perform(k, call, now).kernel.mutexes == k.mutexes
  {
    hide EventNamed, FreeEvent, FirstWaiter, ResolveEvent, EventHandle, WakeEvent;
  }

  lemma CallOwners(k: Kernel, call: Call, now: nat, s: nat)
    requires Inv(k) && Executing(k) && Generations(k.mutexes) && s < MAX_MUTEXES
    ensures WF(Perform(k, call, now).kernel) && OwnerEffect(k, Perform(k, call, now).kernel, s)
  {
    hide Inv, ResolveMutex, Perform, MutexCreate, MutexOpen, MutexClose, MutexRequest, MutexRelease, ThreadExit, Heir, Frame;
    InvWF(k);
    SlotFacts(k, s);
    CallWF(k, call, now);
    match call {
      case CreateMutex(name, cell, attr, initial) => CreateOwners(k, call, now, s);
      case OpenMutex(name, cell, handle) => OpenCloseOwners(k, call, now, s);
      case CloseMutex(h) => OpenCloseOwners(k, call, now, s);
      case RequestMutex(h, timeout) => RequestOwners(k, call, now, s);
      case ReleaseMutex(h) => ReleaseOwners(k, call, now, s);
      case ExitThread => ExitOwners(k, call, now, s);
      case _ => OtherCalls(k, call, now);
    }
  }

  lemma CallWF(k: Kernel, call: Call, now: nat)
    requires Inv(k) && Executing(k) && Generations(k.mutexes)
    ensures WF(Perform(k, call, now).kernel)
  {
    hide Inv, Perform, ThreadExit;
    InvWF(k);
    if call.ExitThread? {
      ExitFrame(k);
      ExitIs(k, call, now);
    } else {
      PerformFrame(k, call, now);
    }
  }

  lemma SlotFacts(k: Kernel, s: nat)
    requires Inv(k) && s < MAX_MUTEXES
    ensures MutexOk(k.threads, k.mutexes[s]) && k.mutexes[s].generation <= GENERATION_MAX
    ensures !k.mutexes[s].used ==> k.mutexes[s].owner == 0 && !k.mutexes[s].abandoned
  {
    hide LiveTid;
    assert MutexOk(k.threads, k.mutexes[s]);
  }

  lemma CreateOwners(k: Kernel, call: Call, now: nat, s: nat)
    requires Inv(k) && Generations(k.mutexes) && s < MAX_MUTEXES && call.CreateMutex? && WF(Perform(k, call, now).kernel)
    ensures OwnerEffect(k, Perform(k, call, now).kernel, s)
  {
    hide Inv, MutexNamed, MutexHandle, Inherited;
    InvWF(k);
    SlotFacts(k, s);
  }

  lemma OpenCloseOwners(k: Kernel, call: Call, now: nat, s: nat)
    requires Inv(k) && Generations(k.mutexes) && s < MAX_MUTEXES && (call.OpenMutex? || call.CloseMutex?)
    requires WF(Perform(k, call, now).kernel)
    ensures OwnerEffect(k, Perform(k, call, now).kernel, s)
  {
    hide Inv, MutexNamed, MutexHandle, Inherited, ResolveMutex, FirstWaiter;
    InvWF(k);
    SlotFacts(k, s);
  }

  lemma RequestOwners(k: Kernel, call: Call, now: nat, s: nat)
    requires Inv(k) && Generations(k.mutexes) && s < MAX_MUTEXES && call.RequestMutex? && WF(Perform(k, call, now).kernel)
    ensures OwnerEffect(k, Perform(k, call, now).kernel, s)
  {
    hide Inv, MutexHandle, Inherited, ResolveMutex, FirstWaiter;
    InvWF(k);
    SlotFacts(k, s);
  }

  lemma ReleaseOwners(k: Kernel, call: Call, now: nat, s: nat)
    requires Inv(k) && Executing(k) && Generations(k.mutexes) && s < MAX_MUTEXES && call.ReleaseMutex?
    requires WF(Perform(k, call, now).kernel)
    ensures OwnerEffect(k, Perform(k, call, now).kernel, s)
  {
    hide Inv, MutexHandle, ResolveMutex, FirstWaiter, Heir, Handoff;
    InvWF(k);
    SlotFacts(k, s);
    ReleaseIs(k, call.handle);
  }

  lemma ExitOwners(k: Kernel, call: Call, now: nat, s: nat)
    requires Inv(k) && Executing(k) && Generations(k.mutexes) && s < MAX_MUTEXES && call.ExitThread?
    requires WF(Perform(k, call, now).kernel)
    ensures OwnerEffect(k, Perform(k, call, now).kernel, s)
  {
    hide Inv, MutexHandle, ResolveMutex, FirstWaiter, Heir, ThreadExit, Inherits;
    InvWF(k);
    SlotFacts(k, s);
    ExitIs(k, call, now);
    ExitIsSweep(k);
    CallerTid(k);
  }

  lemma CallerTid(k: Kernel)
    requires Inv(k) && Executing(k)
    ensures Cur(k).tid > 0
  {
  }

  /** A call changes a mutex waiter only by making it the owner. */
  lemma CallWaiter(k: Kernel, call: Call, now: nat, i: nat)
    requires Inv(k) && Executing(k) && Generations(k.mutexes) && i < MAX_THREADS && k.threads[i].state == WaitMutex
    ensures WF(Perform(k, call, now).kernel)
    ensures var r := Perform(k, call, now).kernel; r.threads[i] == k.threads[i] || Gains(k, call, r, i)
  {
    hide Inv, ResolveMutex, Heir, Inherits, MutexRelease, ThreadExit, Perform, Gains, Frame, FirstWaiter, Generations;
    InvWF(k);
    CallWF(k, call, now);
    if call.ExitThread? {
      ExitIs(k, call, now);
      ExitGains(k, call, i);
    } else if call.ReleaseMutex? {
      ReleaseGains(k, call, now, i);
    } else {
      Unwoken(k, call, now, i);
    }
  }

  lemma ExitGains(k: Kernel, call: Call, i: nat)
    requires Inv(k) && Executing(k) && Generations(k.mutexes) && i < MAX_THREADS && k.threads[i].state == WaitMutex
    requires call.ExitThread? && WF(ThreadExit(k).kernel)
    ensures var r := ThreadExit(k).kernel; r.threads[i] == k.threads[i] || Gains(k, call, r, i)
  {
    hide Inv, ResolveMutex, Heir, ThreadExit, Wanted, Generations;
    InvWF(k);
    ExitIsSweep(k);
    var s := Wanted(k, k.threads[i]);
    if s >= 0 {
      WantedMeans(k, k.threads[i], s);
    }
  }

  lemma ReleaseGains(k: Kernel, call: Call, now: nat, i: nat)
    requires Inv(k) && Executing(k) && Generations(k.mutexes) && i < MAX_THREADS && k.threads[i].state == WaitMutex
    requires call.ReleaseMutex? && WF(Perform(k, call, now).kernel)
    ensures var r := Perform(k, call, now).kernel; r.threads[i] == k.threads[i] || Gains(k, call, r, i)
  {
    hide Inv, ResolveMutex, Heir, Wanted, Handoff;
    InvWF(k);
    ReleaseIs(k, call.handle);
    var s := ResolveMutex(k.mutexes, call.handle);
    if s >= 0 && k.mutexes[s].used {
      HeirMeans(k, s);
    }
  }

  lemma Unwoken(k: Kernel, call: Call, now: nat, i: nat)
    requires WF(k) && Executing(k) && Generations(k.mutexes) && i < MAX_THREADS && k.threads[i].state == WaitMutex
    requires !call.ReleaseMutex? && !call.ExitThread? && WF(Perform(k, call, now).kernel)
    ensures Perform(k, call, now).kernel.threads[i] == k.threads[i]
  {
    if call.CreateMutex? || call.OpenMutex? || call.CloseMutex? || call.QueryMutex? {
      hide Perform;
      MutexTables(k, call, now);
    } else if call.CreateEvent? || call.OpenEvent? || call.CloseEvent? || call.ResetEvent? || call.QueryEvent? {
      hide Perform;
      EventTables(k, call, now);
    } else if call.CreateThread? || call.JoinThread? {
      UnwokenByThreads(k, call, now, i);
    } else {
      UnwokenByWaits(k, call, now, i);
    }
  }

  lemma UnwokenByWaits(k: Kernel, call: Call, now: nat, i: nat)
    requires WF(k) && Executing(k) && Generations(k.mutexes) && i < MAX_THREADS && k.threads[i].state == WaitMutex
    requires call.RequestMutex? || call.WaitForEvent? || call.PostEvent? || call.SleepFor? || call.WaitForBridge? ||
             call.OtherService? || call.ExitProcess?
    ensures WF(Perform(k, call, now).kernel) && Perform(k, call, now).kernel.threads[i] == k.threads[i]
  {
    hide ResolveEvent, ResolveMutex;
  }

  lemma UnwokenByThreads(k: Kernel, call: Call, now: nat, i: nat)
    requires WF(k) && Executing(k) && Generations(k.mutexes) && i < MAX_THREADS && k.threads[i].state == WaitMutex
    requires call.CreateThread? || call.JoinThread?
    ensures WF(Perform(k, call, now).kernel) && Perform(k, call, now).kernel.threads[i] == k.threads[i]
  {
    hide StartImage, PageUp, Wrap;
  }
}
