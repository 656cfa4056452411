/** No wakeup is lost, in any state the guest can reach. */
module KernelWakeups {
  import opened Words
  import opened KernelTypes
  import opened KernelCalls
  import opened KernelInvariant
  import opened KernelSteps
  import opened KernelHistories
  import opened KernelMutexOrder

  /** Nobody sleeps through something that has already happened. */
  ghost predicate NobodyForgotten(k: Kernel)
    requires WF(k)
  {
    forall i :: 0 <= i < MAX_THREADS ==>
      var t := k.threads[i];
      (t.state == WaitEvent ==>
         exists s :: 0 <= s < MAX_EVENT_SEMS && k.events[s].used && k.events[s].posts == 0 &&
                     t.waitEvent == EventHandle(s, k.events[s].generation)) &&
      (t.state == WaitMutex ==>
         exists s :: 0 <= s < MAX_MUTEXES && k.mutexes[s].used && t.waitEvent == MutexHandle(s, k.mutexes[s].generation) &&
                     k.mutexes[s].owner != t.tid && LiveTid(k.threads, k.mutexes[s].owner)) &&
      (t.state == WaitThread && t.waitTid != 0 ==> t.waitTid != t.tid && LiveTid(k.threads, t.waitTid)) &&
      (t.state == WaitThread && t.waitTid == 0 ==> forall j :: 0 <= j < MAX_THREADS ==> k.threads[j].state != Dead)
  }

  lemma EventWaiterMeans(k: Kernel, i: nat)
    requires Inv(k) && i < MAX_THREADS && k.threads[i].state == WaitEvent
    ensures exists s :: 0 <= s < MAX_EVENT_SEMS && k.events[s].used && k.events[s].posts == 0 &&
                        k.threads[i].waitEvent == EventHandle(s, k.events[s].generation)
  {
    hide ResolveMutex, ResolveEvent, LiveTid, EventHandle;
    assert EventWaitOk(k.events, k.threads[i]);
    var s := ResolveEvent(k.events, k.threads[i].waitEvent);
    ResolveEventIff(k.events, k.threads[i].waitEvent, s);
    assert k.events[s].used;
  }

  lemma MutexWaiterMeans(k: Kernel, i: nat)
    requires Inv(k) && i < MAX_THREADS && k.threads[i].state == WaitMutex
    ensures exists s :: 0 <= s < MAX_MUTEXES && k.mutexes[s].used && k.threads[i].waitEvent == MutexHandle(s, k.mutexes[s].generation) &&
                        k.mutexes[s].owner != k.threads[i].tid && LiveTid(k.threads, k.mutexes[s].owner)
  {
    hide ResolveMutex, ResolveEvent, LiveTid, MutexHandle;
    assert MutexWaitOk(k.mutexes, k.threads[i]);
    var s := ResolveMutex(k.mutexes, k.threads[i].waitEvent);
    SlotFacts(k, s);
    ResolveMutexIff(k.mutexes, k.threads[i].waitEvent, s);
    assert k.mutexes[s].used;
  }

  lemma JoinerMeans(k: Kernel, i: nat)
    requires Inv(k) && i < MAX_THREADS
    ensures JoinOk(k.threads, k.threads[i])
  {
  }

  lemma InvForgetsNobody(k: Kernel)
    requires Inv(k)
    ensures WF(k) && NobodyForgotten(k)
  {
    hide Inv, LiveTid, EventHandle, MutexHandle;
    InvWF(k);
    forall i | 0 <= i < MAX_THREADS
      ensures JoinOk(k.threads, k.threads[i])
      ensures k.threads[i].state == WaitEvent ==>
                exists s :: 0 <= s < MAX_EVENT_SEMS && k.events[s].used && k.events[s].posts == 0 &&
                            k.threads[i].waitEvent == EventHandle(s, k.events[s].generation)
      ensures k.threads[i].state == WaitMutex ==>
                exists s :: 0 <= s < MAX_MUTEXES && k.mutexes[s].used &&
                            k.threads[i].waitEvent == MutexHandle(s, k.mutexes[s].generation) &&
                            k.mutexes[s].owner != k.threads[i].tid && LiveTid(k.threads, k.mutexes[s].owner)
    {
      JoinerMeans(k, i);
      if k.threads[i].state == WaitEvent {
        EventWaiterMeans(k, i);
      } else if k.threads[i].state == WaitMutex {
        MutexWaiterMeans(k, i);
      }
    }
  }

  /** In every reachable state, inside a modal yield or not, an event waiter's event is unposted, a
      mutex waiter's mutex has another, live owner, and a joiner's target is still alive. */
  lemma NoLostWakeups(cpu: Image, moves: seq<Move>)
    ensures Sound(Born(cpu))
    ensures var k := At(History(Born(cpu), moves)); NobodyForgotten(k)
  {
    hide Inv, Sound, Born, History;
    BornSound(cpu);
    InvForgetsNobody(At(History(Born(cpu), moves)));
  }

  /** A post reaches every waiter of the event, each with a success code. */
  lemma PostReachesAll(k: Kernel, h: U32, i: nat)
    requires WF(k) && i < MAX_THREADS && ResolveEvent(k.events, h) >= 0 && Waits(k.threads[i], WaitEvent, h)
    ensures var u := EventPost(k, h).kernel.threads[i];
            u.state == Runnable && u.tid == k.threads[i].tid && (k.threads[i].regsValid ==> u.regs.eax == NO_ERROR)
  {
    hide ResolveEvent;
    assert WakeEvent(k.threads, h)[i] == WakePosted(k.threads[i], h);
  }

  /** An exit reaches every thread that joins it, and stores the exited thread's identity
      where each of them asked. */
  lemma ExitReachesJoiners(k: Kernel, i: nat)
    requires Inv(k) && Executing(k) && Generations(k.mutexes) && i < MAX_THREADS && Joins(k.threads[i], Cur(k).tid)
    ensures var r := ThreadExit(k);
            r.kernel.threads[i].state == Runnable && r.kernel.threads[i].tid == k.threads[i].tid &&
            (Writable(k.threads[i].waitPtid) ==> Store(k.threads[i].waitPtid, Cur(k).tid) in r.stores)
  {
    hide Inv, OwnerExit, JoinStores;
    InvWF(k);
    var tid := Cur(k).tid;
    SweepFrame(k, MAX_MUTEXES);
    SweepMeans(k, MAX_MUTEXES);
    var o := OwnerExit(k, tid, MAX_MUTEXES);
    assert !Inherits(k, tid, i, MAX_MUTEXES);
    var dead := o.threads[o.current := o.threads[o.current].(state := Dead)];
    assert dead[i] == k.threads[i];
    if Writable(k.threads[i].waitPtid) {
      StoredFor(dead, tid, i);
    }
  }

  lemma {:induction false} StoredFor(ts: seq<Thread>, tid: nat, i: nat)
    requires i < |ts| && Joins(ts[i], tid) && Writable(ts[i].waitPtid)
    ensures Store(ts[i].waitPtid, tid) in JoinStores(ts, tid)
  {
    if i < |ts| - 1 {
      StoredFor(ts[..|ts| - 1], tid, i);
    }
  }
}
