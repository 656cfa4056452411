/** What every kernel call keeps. */
module KernelInvariant {
  import opened Words
  import opened KernelTypes
  import opened KernelCalls

  ghost predicate LiveTid(ts: seq<Thread>, tid: nat) {
    exists i :: 0 <= i < |ts| && Live(ts[i]) && ts[i].tid == tid
  }

  ghost predicate TidsOk(ts: seq<Thread>, nextTid: nat) {
    (forall i :: 0 <= i < |ts| && ts[i].state != Free ==> 0 < ts[i].tid < nextTid) &&
    (forall i, j :: 0 <= i < j < |ts| && ts[i].state != Free && ts[j].state != Free ==> ts[i].tid != ts[j].tid)
  }

  /** A mutex is owned exactly when it is counted, its owner is alive, and an abandoned one
      has no owner. */
  ghost predicate MutexOk(ts: seq<Thread>, m: Mutex) {
    (m.owner != 0 <==> m.count > 0) && (m.owner != 0 ==> m.used && LiveTid(ts, m.owner)) &&
    (m.abandoned ==> m.used && m.owner == 0) && m.generation <= GENERATION_MAX && (m.used ==> m.generation > 0)
  }

  /** Whoever waits for a mutex waits for somebody else: the handle still resolves, and to an
      owned mutex. */
  ghost predicate MutexWaitOk(ms: seq<Mutex>, t: Thread)
    requires |ms| == MAX_MUTEXES
  {
    t.state == WaitMutex ==>
      var s := ResolveMutex(ms, t.waitEvent);
      s >= 0 && ms[s].owner != 0 && ms[s].owner != t.tid
  }

  /** Whoever waits for an event waits for one that exists and is not posted. */
  ghost predicate EventWaitOk(es: seq<Event>, t: Thread)
    requires |es| == MAX_EVENT_SEMS
  {
    t.state == WaitEvent ==>
      var s := ResolveEvent(es, t.waitEvent);
      s >= 0 && es[s].posts == 0
  }

  /** Whoever joins a thread joins another, live one; whoever joins any thread found none dead. */
  ghost predicate JoinOk(ts: seq<Thread>, t: Thread) {
    t.state == WaitThread ==>
      if t.waitTid == 0 then forall j :: 0 <= j < |ts| ==> ts[j].state != Dead
      else t.waitTid != t.tid && LiveTid(ts, t.waitTid)
  }

  predicate SemWait(t: Thread) {
    t.state == WaitEvent || t.state == WaitMutex
  }

  /** Blocking order is total among semaphore waiters. */
  ghost predicate OrdersOk(ts: seq<Thread>, serial: nat) {
    (forall i :: 0 <= i < |ts| && SemWait(ts[i]) ==> 0 < ts[i].order <= serial) &&
    (forall i, j :: 0 <= i < j < |ts| && SemWait(ts[i]) && SemWait(ts[j]) ==> ts[i].order != ts[j].order)
  }

  ghost predicate MutexesOk(ts: seq<Thread>, ms: seq<Mutex>) {
    forall s :: 0 <= s < |ms| ==> MutexOk(ts, ms[s])
  }

  ghost predicate EventsOk(es: seq<Event>) {
    forall s :: 0 <= s < |es| ==> es[s].generation <= GENERATION_MAX && (es[s].used ==> es[s].generation > 0)
  }

  ghost predicate WaitsOk(k: Kernel)
    requires WF(k)
  {
    forall i :: 0 <= i < MAX_THREADS ==>
      MutexWaitOk(k.mutexes, k.threads[i]) && EventWaitOk(k.events, k.threads[i]) && JoinOk(k.threads, k.threads[i])
  }

  ghost predicate Inv(k: Kernel) {
    WF(k) && TidsOk(k.threads, k.nextTid) && OrdersOk(k.threads, k.serial) &&
    MutexesOk(k.threads, k.mutexes) && EventsOk(k.events) && WaitsOk(k)
  }

  // ---- how the parts change -----------------------------------------------------------

  lemma ResolveFrame(ms: seq<Mutex>, s: nat, m: Mutex, h: U32)
    requires |ms| == MAX_MUTEXES && s < MAX_MUTEXES
    requires m.used == ms[s].used && m.generation == ms[s].generation
    ensures ResolveMutex(ms[s := m], h) == ResolveMutex(ms, h)
  {
  }

  lemma ResolveOther(ms: seq<Mutex>, s: nat, m: Mutex, h: U32)
    requires |ms| == MAX_MUTEXES && s < MAX_MUTEXES
    ensures ResolveMutex(ms, h) >= 0 && ResolveMutex(ms, h) != s ==> ResolveMutex(ms[s := m], h) == ResolveMutex(ms, h)
    ensures !ms[s].used ==> ResolveMutex(ms, h) != s
  {
  }

  lemma ResolveEventFrame(es: seq<Event>, s: nat, e: Event, h: U32)
    requires |es| == MAX_EVENT_SEMS && s < MAX_EVENT_SEMS
    requires e.used == es[s].used && e.generation == es[s].generation
    ensures ResolveEvent(es[s := e], h) == ResolveEvent(es, h)
  {
  }

  lemma ResolveEventOther(es: seq<Event>, s: nat, e: Event, h: U32)
    requires |es| == MAX_EVENT_SEMS && s < MAX_EVENT_SEMS
    ensures ResolveEvent(es, h) >= 0 && ResolveEvent(es, h) != s ==> ResolveEvent(es[s := e], h) == ResolveEvent(es, h)
    ensures !es[s].used ==> ResolveEvent(es, h) != s
  {
  }

  /** Waking threads breaks nothing. */
  lemma Waking(k: Kernel, ts: seq<Thread>)
    requires Inv(k) && |ts| == MAX_THREADS
    requires forall i :: 0 <= i < MAX_THREADS ==>
               ts[i] == k.threads[i] || (Live(k.threads[i]) && ts[i].tid == k.threads[i].tid && ts[i].state == Runnable)
    ensures Inv(k.(threads := ts))
  {
    hide ResolveMutex, ResolveEvent;
    forall tid | LiveTid(k.threads, tid) ensures LiveTid(ts, tid) {
      var i :| 0 <= i < MAX_THREADS && Live(k.threads[i]) && k.threads[i].tid == tid;
      assert Live(ts[i]);
    }
  }

  /** One live thread changes; if it waits now, it waits soundly and behind everybody else. */
  lemma OneThread(k: Kernel, c: nat, t: Thread, serial: nat)
    requires Inv(k) && c < MAX_THREADS && Live(k.threads[c]) && Live(t) && t.tid == k.threads[c].tid
    requires MutexWaitOk(k.mutexes, t) && EventWaitOk(k.events, t) && JoinOk(k.threads, t)
    requires serial >= k.serial && (SemWait(t) ==> k.serial < t.order <= serial)
    ensures Inv(k.(threads := k.threads[c := t], serial := serial))
  {
    hide ResolveMutex, ResolveEvent, MutexesOk, OrdersOk;
    var ts := k.threads[c := t];
    forall tid | LiveTid(k.threads, tid) ensures LiveTid(ts, tid) {
      var i :| 0 <= i < MAX_THREADS && Live(k.threads[i]) && k.threads[i].tid == tid;
      assert Live(ts[i]);
    }
    MutexesSurvive(k.threads, ts, k.mutexes);
    OrdersStep(k.threads, k.serial, c, t, serial);
    forall i | 0 <= i < MAX_THREADS ensures JoinOk(ts, ts[i]) {
      assert JoinOk(k.threads, k.threads[i]);
    }
  }

  lemma OrdersStep(ts: seq<Thread>, serial: nat, c: nat, t: Thread, newSerial: nat)
    requires OrdersOk(ts, serial) && c < |ts| && newSerial >= serial
    requires SemWait(t) ==> serial < t.order <= newSerial
    ensures OrdersOk(ts[c := t], newSerial)
  {
  }

  lemma MutexesSurvive(ts: seq<Thread>, us: seq<Thread>, ms: seq<Mutex>)
    requires MutexesOk(ts, ms)
    requires forall tid :: LiveTid(ts, tid) ==> LiveTid(us, tid)
    ensures MutexesOk(us, ms)
  {
    hide LiveTid;
  }

  lemma OneMutex(k: Kernel, s: nat, m: Mutex)
    requires Inv(k) && s < MAX_MUTEXES && MutexOk(k.threads, m)
    requires forall i :: 0 <= i < MAX_THREADS ==> MutexWaitOk(k.mutexes[s := m], k.threads[i])
    ensures Inv(SetMutex(k, s, m))
  {
    hide ResolveMutex, ResolveEvent;
  }

  lemma OneEvent(k: Kernel, s: nat, e: Event)
    requires Inv(k) && s < MAX_EVENT_SEMS && e.generation <= GENERATION_MAX && (e.used ==> e.generation > 0)
    requires forall i :: 0 <= i < MAX_THREADS ==> EventWaitOk(k.events[s := e], k.threads[i])
    ensures Inv(SetEvent(k, s, e))
  {
    hide ResolveMutex, ResolveEvent;
  }

  // ---- mutex calls ------------------------------------------------------------------------

  predicate Executing(k: Kernel)
    requires WF(k)
  {
    k.threads[k.current].state == Running
  }

  /** A mutex that stays owned, or that nobody waits for, may change hands. */
  lemma SameHandle(k: Kernel, s: nat, m: Mutex)
    requires Inv(k) && s < MAX_MUTEXES && MutexOk(k.threads, m)
    requires m.used == k.mutexes[s].used && m.generation == k.mutexes[s].generation
    requires m.owner == k.mutexes[s].owner || k.mutexes[s].owner == 0
    ensures Inv(SetMutex(k, s, m))
  {
    hide ResolveMutex, ResolveEvent, MutexOk;
    forall i | 0 <= i < MAX_THREADS ensures MutexWaitOk(k.mutexes[s := m], k.threads[i]) {
      var t := k.threads[i];
      ResolveFrame(k.mutexes, s, m, t.waitEvent);
      assert MutexWaitOk(k.mutexes, t);
    }
    OneMutex(k, s, m);
  }

  lemma CurrentLives(k: Kernel)
    requires WF(k) && Executing(k)
    ensures LiveTid(k.threads, Cur(k).tid)
  {
    assert Live(k.threads[k.current]);
  }

  lemma CreateKeeps(k: Kernel, name: NameArg, cell: U32, attr: U32, initial: U32)
    requires Inv(k) && Executing(k)
    ensures Inv(MutexCreate(k, name, cell, attr, initial).kernel)
  {
    hide ResolveMutex, ResolveEvent, MutexNamed, MutexOk;
    var r := MutexCreate(k, name, cell, attr, initial);
    if r.rc == NO_ERROR {
      var s := FreeMutex(k.mutexes);
      assert MutexOk(k.threads, k.mutexes[s]);
      var m := r.kernel.mutexes[s];
      CurrentLives(k);
      NewMutexOk(k, m, Cur(k).tid);
      forall i | 0 <= i < MAX_THREADS ensures MutexWaitOk(k.mutexes[s := m], k.threads[i]) {
        ResolveOther(k.mutexes, s, m, k.threads[i].waitEvent);
        assert MutexWaitOk(k.mutexes, k.threads[i]);
      }
      OneMutex(k, s, m);
    }
  }

  lemma NewMutexOk(k: Kernel, m: Mutex, tid: nat)
    requires Inv(k) && LiveTid(k.threads, tid) && tid > 0
    requires m.used && !m.abandoned && 0 < m.generation <= GENERATION_MAX
    requires (m.owner == tid && m.count == 1) || (m.owner == 0 && m.count == 0)
    ensures MutexOk(k.threads, m)
  {
  }

  lemma OpenKeeps(k: Kernel, name: NameArg, cell: U32, handle: U32)
    requires Inv(k)
    ensures Inv(MutexOpen(k, name, cell, handle).kernel)
  {
    hide ResolveEvent, MutexNamed, MutexOk;
    var r := MutexOpen(k, name, cell, handle);
    if r.rc == NO_ERROR {
      var n := MutexNamed(k.mutexes, Text(name));
      var s := if n >= 0 then n else ResolveMutex(k.mutexes, handle);
      RefsOk(k.threads, k.mutexes[s], Next32(k.mutexes[s].refs));
      SameHandle(k, s, r.kernel.mutexes[s]);
    }
  }

  lemma RefsOk(ts: seq<Thread>, m: Mutex, refs: U32)
    requires MutexOk(ts, m)
    ensures MutexOk(ts, m.(refs := refs))
  {
  }

  lemma CloseKeeps(k: Kernel, h: U32)
    requires Inv(k)
    ensures Inv(MutexClose(k, h).kernel)
  {
    hide ResolveEvent, ResolveMutex, MutexOk;
    var s := ResolveMutex(k.mutexes, h);
    if s >= 0 && k.mutexes[s].refs > 1 {
      RefsOk(k.threads, k.mutexes[s], k.mutexes[s].refs - 1);
      SameHandle(k, s, k.mutexes[s].(refs := k.mutexes[s].refs - 1));
    } else if s >= 0 && MutexClose(k, h).rc == NO_ERROR {
      var m := Mutex(false, 0, 0, 0, 0, false, "");
      assert MutexOk(k.threads, m) by { ClosedOk(k.threads); }
      assert MutexOk(k.threads, k.mutexes[s]);
      UsedGeneration(k.threads, k.mutexes[s]);
      forall i | 0 <= i < MAX_THREADS ensures MutexWaitOk(k.mutexes[s := m], k.threads[i]) {
        var t := k.threads[i];
        ResolveOther(k.mutexes, s, m, t.waitEvent);
        ResolveMutexIff(k.mutexes, t.waitEvent, s);
        ResolveMutexIff(k.mutexes, h, s);
        assert MutexWaitOk(k.mutexes, t);
      }
      OneMutex(k, s, m);
    }
  }

  lemma ClosedOk(ts: seq<Thread>)
    ensures MutexOk(ts, Mutex(false, 0, 0, 0, 0, false, ""))
  {
  }

  lemma UsedGeneration(ts: seq<Thread>, m: Mutex)
    requires MutexOk(ts, m)
    ensures m.used ==> 0 < m.generation <= GENERATION_MAX
  {
  }

  lemma RequestKeeps(k: Kernel, h: U32, timeout: U32, now: nat)
    requires Inv(k) && Executing(k)
    ensures Inv(MutexRequest(k, h, timeout, now).kernel)
  {
    hide ResolveEvent, ResolveMutex;
    var s := ResolveMutex(k.mutexes, h);
    if s >= 0 {
      var m, me := k.mutexes[s], Cur(k).tid;
      var r := MutexRequest(k, h, timeout, now);
      CurrentLives(k);
      assert MutexOk(k.threads, m);
      if m.owner == me && m.count < 0xffffffff {
        SameHandle(k, s, m.(count := m.count + 1));
      } else if m.owner == 0 {
        assert m.used by { ResolvedUsed(k.mutexes, h); }
        SameHandle(k, s, m.(owner := me, count := 1, abandoned := false));
      } else if m.owner != me && timeout != 0 {
        OneThread(k, k.current, r.kernel.threads[k.current], k.serial + 1);
      }
    }
  }

  lemma ResolvedUsed(ms: seq<Mutex>, h: U32)
    requires |ms| == MAX_MUTEXES
    ensures ResolveMutex(ms, h) >= 0 ==> ms[ResolveMutex(ms, h)].used
  {
  }

  /** An owner gives a mutex up: the first waiter gets it, or it becomes free. */
  lemma HandoffKeeps(k: Kernel, s: nat, abandoned: bool)
    requires Inv(k) && s < MAX_MUTEXES && k.mutexes[s].used
    ensures var m := k.mutexes[s];
            var free := m.(owner := 0, count := 0, abandoned := abandoned);
            m.generation <= GENERATION_MAX && Inv(Handoff(SetMutex(k, s, free), s, MutexHandle(s, m.generation)))
  {
    hide ResolveEvent, ResolveMutex, MutexOk, MutexHandle;
    var m := k.mutexes[s];
    assert MutexOk(k.threads, m);
    UsedGeneration(k.threads, m);
    var free := m.(owner := 0, count := 0, abandoned := abandoned);
    var h := MutexHandle(s, m.generation);
    var b := FirstWaiter(k.threads, WaitMutex, h);
    if b < 0 {
      FreeOk(k.threads, m, free);
      forall i | 0 <= i < MAX_THREADS ensures MutexWaitOk(k.mutexes[s := free], k.threads[i]) {
        var t := k.threads[i];
        ResolveFrame(k.mutexes, s, free, t.waitEvent);
        ResolveMutexIff(k.mutexes, t.waitEvent, s);
        assert MutexWaitOk(k.mutexes, t);
      }
      OneMutex(k, s, free);
    } else {
      HandoffToWaiter(k, s, free, h, b);
    }
  }

  lemma HandoffToWaiter(k: Kernel, s: nat, free: Mutex, h: U32, b: nat)
    requires Inv(k) && s < MAX_MUTEXES && k.mutexes[s].used && b == FirstWaiter(k.threads, WaitMutex, h)
    requires free == k.mutexes[s].(owner := 0, count := 0, abandoned := free.abandoned)
    ensures Inv(Handoff(SetMutex(k, s, free), s, h))
  {
    hide ResolveEvent, ResolveMutex, MutexOk, MutexHandle, MutexesOk, EventsOk, TidsOk, OrdersOk;
    var rc := if free.abandoned then SEM_OWNER_DIED else NO_ERROR;
    var woken := k.(threads := k.threads[b := Ready(k.threads[b], rc)]);
    Waking(k, woken.threads);
    HandedOver(k, woken, s, b);
    var mine := k.mutexes[s].(owner := k.threads[b].tid, count := 1, abandoned := false);
    assert k.mutexes[s := free][s := mine] == k.mutexes[s := mine];
    assert Handoff(SetMutex(k, s, free), s, h) == SetMutex(woken, s, mine);
  }

  lemma FreeOk(ts: seq<Thread>, m: Mutex, free: Mutex)
    requires MutexOk(ts, m) && m.used && free.used && free.generation == m.generation && free.owner == 0 && free.count == 0
    ensures MutexOk(ts, free)
  {
  }

  lemma HandedOver(k: Kernel, woken: Kernel, s: nat, b: nat)
    requires Inv(k) && Inv(woken) && s < MAX_MUTEXES && b < MAX_THREADS && k.mutexes[s].used
    requires k.threads[b].state == WaitMutex
    requires woken.threads[b].state == Runnable && woken.threads[b].tid == k.threads[b].tid
    requires woken == k.(threads := k.threads[b := woken.threads[b]])
    ensures Inv(SetMutex(woken, s, k.mutexes[s].(owner := k.threads[b].tid, count := 1, abandoned := false)))
  {
    hide ResolveEvent, ResolveMutex, MutexOk;
    var m := k.mutexes[s].(owner := k.threads[b].tid, count := 1, abandoned := false);
    assert MutexOk(k.threads, k.mutexes[s]);
    UsedGeneration(k.threads, k.mutexes[s]);
    assert LiveTid(woken.threads, m.owner) by { assert Live(woken.threads[b]); }
    NewMutexOk(woken, m, m.owner);
    forall i | 0 <= i < MAX_THREADS ensures MutexWaitOk(woken.mutexes[s := m], woken.threads[i]) {
      ResolveFrame(woken.mutexes, s, m, woken.threads[i].waitEvent);
      assert MutexWaitOk(woken.mutexes, woken.threads[i]);
    }
    OneMutex(woken, s, m);
  }

  lemma ReleaseKeeps(k: Kernel, h: U32)
    requires Inv(k) && Executing(k)
    ensures Inv(MutexRelease(k, h).kernel)
  {
    hide ResolveEvent, ResolveMutex, Handoff, MutexHandle;
    var s := ResolveMutex(k.mutexes, h);
    if s >= 0 {
      var m := k.mutexes[s];
      assert MutexOk(k.threads, m);
      ResolveMutexIff(k.mutexes, h, s);
      if m.owner == Cur(k).tid && m.count > 1 {
        SameHandle(k, s, m.(count := m.count - 1));
      } else if m.owner == Cur(k).tid {
        HandoffKeeps(k, s, m.abandoned);
        assert m.(owner := 0, count := 0) == m.(owner := 0, count := 0, abandoned := m.abandoned);
      }
    }
  }

  // ---- event calls ----------------------------------------------------------------------------

  lemma EventCreateKeeps(k: Kernel, name: NameArg, cell: U32, attr: U32, posted: U32)
    requires Inv(k)
    ensures Inv(EventCreate(k, name, cell, attr, posted).kernel)
  {
    hide ResolveMutex, ResolveEvent, EventNamed, MutexOk;
    var r := EventCreate(k, name, cell, attr, posted);
    if r.rc == NO_ERROR {
      var s := FreeEvent(k.events);
      var e := r.kernel.events[s];
      forall i | 0 <= i < MAX_THREADS ensures EventWaitOk(k.events[s := e], k.threads[i]) {
        ResolveEventOther(k.events, s, e, k.threads[i].waitEvent);
        assert EventWaitOk(k.events, k.threads[i]);
      }
      OneEvent(k, s, e);
    }
  }

  lemma SameEvent(k: Kernel, s: nat, e: Event)
    requires Inv(k) && s < MAX_EVENT_SEMS && e.used == k.events[s].used && e.generation == k.events[s].generation
    requires e.posts == 0 || e.posts == k.events[s].posts
    ensures Inv(SetEvent(k, s, e))
  {
    hide ResolveMutex, ResolveEvent, MutexOk;
    forall i | 0 <= i < MAX_THREADS ensures EventWaitOk(k.events[s := e], k.threads[i]) {
      ResolveEventFrame(k.events, s, e, k.threads[i].waitEvent);
      assert EventWaitOk(k.events, k.threads[i]);
    }
    OneEvent(k, s, e);
  }

  lemma EventOpenKeeps(k: Kernel, name: NameArg, cell: U32, handle: U32)
    requires Inv(k)
    ensures Inv(EventOpen(k, name, cell, handle).kernel)
  {
    hide ResolveMutex, ResolveEvent, EventNamed, MutexOk, Inv;
    InvWF(k);
    var r := EventOpen(k, name, cell, handle);
    if r.rc == NO_ERROR {
      var n := EventNamed(k.events, Text(name));
      var s := if n >= 0 then n else ResolveEvent(k.events, handle);
      SameEvent(k, s, r.kernel.events[s]);
    }
  }

  lemma InvWF(k: Kernel)
    requires Inv(k)
    ensures WF(k)
  {
  }

  lemma EventCloseKeeps(k: Kernel, h: U32)
    requires Inv(k)
    ensures Inv(EventClose(k, h).kernel)
  {
    hide ResolveMutex, ResolveEvent, MutexOk;
    var s := ResolveEvent(k.events, h);
    if s >= 0 && k.events[s].refs > 1 {
      SameEvent(k, s, k.events[s].(refs := k.events[s].refs - 1));
    } else if s >= 0 && EventClose(k, h).rc == NO_ERROR {
      var e := Event(false, 0, 0, 0, "");
      forall i | 0 <= i < MAX_THREADS ensures EventWaitOk(k.events[s := e], k.threads[i]) {
        var t := k.threads[i];
        ResolveEventOther(k.events, s, e, t.waitEvent);
        ResolveEventIff(k.events, t.waitEvent, s);
        ResolveEventIff(k.events, h, s);
        assert EventWaitOk(k.events, t);
      }
      OneEvent(k, s, e);
    }
  }

  /** Posting wakes every waiter of that event and no other thread. */
  lemma EventPostKeeps(k: Kernel, h: U32)
    requires Inv(k)
    ensures Inv(EventPost(k, h).kernel)
  {
    hide ResolveMutex, ResolveEvent, MutexOk;
    var s := ResolveEvent(k.events, h);
    if s >= 0 {
      var ts := WakeEvent(k.threads, h);
      var woken := k.(threads := ts);
      Waking(k, ts);
      var e := k.events[s].(posts := Next32(k.events[s].posts));
      forall i | 0 <= i < MAX_THREADS ensures EventWaitOk(k.events[s := e], ts[i]) {
        ResolveEventFrame(k.events, s, e, ts[i].waitEvent);
        ResolveEventIff(k.events, ts[i].waitEvent, s);
        ResolveEventIff(k.events, h, s);
        assert EventWaitOk(woken.events, woken.threads[i]);
      }
      OneEvent(woken, s, e);
      assert EventPost(k, h).kernel == SetEvent(woken, s, e);
    }
  }

  lemma EventWaitKeeps(k: Kernel, h: U32, timeout: U32, now: nat)
    requires Inv(k) && Executing(k)
    ensures Inv(EventWait(k, h, timeout, now).kernel)
  {
    hide ResolveMutex, ResolveEvent, MutexOk;
    var r := EventWait(k, h, timeout, now);
    if r.kernel != k {
      OneThread(k, k.current, r.kernel.threads[k.current], k.serial + 1);
    }
  }

  lemma EventResetKeeps(k: Kernel, h: U32, cell: U32)
    requires Inv(k)
    ensures Inv(EventReset(k, h, cell).kernel)
  {
    hide ResolveMutex, ResolveEvent, MutexOk;
    var s := ResolveEvent(k.events, h);
    if Writable(cell) && s >= 0 {
      SameEvent(k, s, k.events[s].(posts := 0));
    }
  }

  // ---- threads -----------------------------------------------------------------------------------

  lemma ThreadCreateKeeps(k: Kernel, ptid: U32, entry: U32, param: U32, flags: U32, stackSize: U32, stackBase: U32, exitStub: U32)
    requires Inv(k) && k.nextTid > 0
    ensures Inv(ThreadCreate(k, ptid, entry, param, flags, stackSize, stackBase, exitStub).kernel)
  {
    hide ResolveMutex, ResolveEvent, Wrap, PageUp, StartImage;
    var r := ThreadCreate(k, ptid, entry, param, flags, stackSize, stackBase, exitStub);
    if r.rc == NO_ERROR {
      var s := SpareThread(k.threads);
      NewThread(k, s, r.kernel.threads[s]);
    }
  }

  lemma NewThread(k: Kernel, s: nat, t: Thread)
    requires Inv(k) && s < MAX_THREADS && !Live(k.threads[s]) && k.nextTid > 0
    requires t.tid == k.nextTid && (t.state == Runnable || t.state == Suspended)
    ensures Inv(k.(threads := k.threads[s := t], nextTid := k.nextTid + 1))
  {
    hide ResolveMutex, ResolveEvent, MutexesOk, TidsOk;
    var ts := k.threads[s := t];
    NewTid(k.threads, k.nextTid, s, t);
    forall tid | LiveTid(k.threads, tid) ensures LiveTid(ts, tid) {
      var i :| 0 <= i < MAX_THREADS && Live(k.threads[i]) && k.threads[i].tid == tid;
      assert Live(ts[i]);
    }
    MutexesSurvive(k.threads, ts, k.mutexes);
    forall i | 0 <= i < MAX_THREADS ensures JoinOk(ts, ts[i]) {
      assert JoinOk(k.threads, k.threads[i]);
    }
  }

  lemma NewTid(ts: seq<Thread>, nextTid: nat, s: nat, t: Thread)
    requires TidsOk(ts, nextTid) && s < |ts| && t.tid == nextTid && nextTid > 0
    ensures TidsOk(ts[s := t], nextTid + 1)
  {
  }

  lemma ReapKeeps(k: Kernel, s: nat, ptid: U32)
    requires Inv(k) && s < MAX_THREADS && k.threads[s].state == Dead
    ensures Inv(Reap(k, s, ptid).kernel)
  {
    hide ResolveMutex, ResolveEvent, MutexesOk;
    var ts := Reap(k, s, ptid).kernel.threads;
    forall tid | LiveTid(k.threads, tid) ensures LiveTid(ts, tid) {
      var i :| 0 <= i < MAX_THREADS && Live(k.threads[i]) && k.threads[i].tid == tid;
      assert Live(ts[i]);
    }
    MutexesSurvive(k.threads, ts, k.mutexes);
    assert forall i :: 0 <= i < MAX_THREADS && i != s ==> ts[i] == k.threads[i];
  }

  lemma ThreadWaitKeeps(k: Kernel, ptid: U32, option: U32, target: U32)
    requires Inv(k) && Executing(k)
    ensures Inv(ThreadWait(k, ptid, option, target).kernel)
  {
    hide ResolveMutex, ResolveEvent, Reap, MutexOk;
    var r := ThreadWait(k, ptid, option, target);
    if GuestRange(ptid, 4) && option <= 1 {
      var d := FindDead(k.threads);
      var s := FindThread(k.threads, target);
      if target == 0 && d >= 0 {
        ReapKeeps(k, d, ptid);
      } else if target != 0 && s >= 0 && s != k.current && k.threads[s].state == Dead {
        ReapKeeps(k, s, ptid);
      } else if r.kernel != k {
        var t := r.kernel.threads[k.current];
        if target != 0 {
          assert Live(k.threads[s]);
        }
        OneThread(k, k.current, t, k.serial);
      }
    }
  }

  lemma SleepKeeps(k: Kernel, ms: U32, now: nat)
    requires Inv(k) && Executing(k)
    ensures Inv(Sleep(k, ms, now).kernel)
  {
    hide ResolveMutex, ResolveEvent, MutexOk;
    if ms != 0 {
      OneThread(k, k.current, Sleep(k, ms, now).kernel.threads[k.current], k.serial);
    }
  }

  lemma BridgeWaitKeeps(k: Kernel, queue: bool, delay: nat, now: nat)
    requires Inv(k) && Executing(k)
    ensures Inv(BridgeWait(k, queue, delay, now).kernel)
  {
    hide ResolveMutex, ResolveEvent, MutexOk;
    OneThread(k, k.current, BridgeWait(k, queue, delay, now).kernel.threads[k.current], k.serial);
  }

  // ---- exit -----------------------------------------------------------------------------------------

  lemma InvGenerations(k: Kernel)
    requires Inv(k)
    ensures Generations(k.mutexes)
  {
    forall s | 0 <= s < |k.mutexes| ensures k.mutexes[s].generation <= GENERATION_MAX {
      assert MutexOk(k.threads, k.mutexes[s]);
    }
  }

  /** After the sweep over `n` slots the invariant still holds, the exiting thread is as it
      was, and it owns none of those slots. */
  lemma {:induction false} OwnerExitKeeps(k: Kernel, n: nat)
    requires Inv(k) && Executing(k) && n <= MAX_MUTEXES && Generations(k.mutexes)
    ensures var r := OwnerExit(k, Cur(k).tid, n);
            Inv(r) && r.current == k.current && r.nextTid == k.nextTid && r.threads[k.current] == Cur(k) &&
            forall s :: 0 <= s < n ==> r.mutexes[s].owner != Cur(k).tid
  {
    hide Inv, Handoff, MutexHandle;
    InvWF(k);
    if n > 0 {
      OwnerExitKeeps(k, n - 1);
      OwnerExitStep(OwnerExit(k, Cur(k).tid, n - 1), n - 1);
    }
  }

  lemma OwnerExitStep(k: Kernel, slot: nat)
    requires Inv(k) && Executing(k) && slot < MAX_MUTEXES && k.mutexes[slot].generation <= GENERATION_MAX
    ensures var r := OwnerExitAt(k, Cur(k).tid, slot);
            Inv(r) && r.current == k.current && r.nextTid == k.nextTid && r.threads[k.current] == Cur(k) &&
            r.mutexes[slot].owner != Cur(k).tid &&
            (forall s :: 0 <= s < MAX_MUTEXES && s != slot ==> r.mutexes[s] == k.mutexes[s])
  {
    hide ResolveMutex, ResolveEvent, MutexOk, MutexHandle;
    var m, tid := k.mutexes[slot], Cur(k).tid;
    assert MutexOk(k.threads, m);
    assert tid > 0;
    if m.used && m.owner == tid {
      HandoffKeeps(k, slot, true);
      assert Abandon(m) == m.(owner := 0, count := 0, abandoned := true);
    } else {
      UnusedOwner(k.threads, m);
    }
  }

  lemma UnusedOwner(ts: seq<Thread>, m: Mutex)
    requires MutexOk(ts, m)
    ensures !m.used ==> m.owner == 0
  {
  }

  /** No mutex is owned by a dead thread, and nobody joins one. */
  lemma ExitKeeps(k: Kernel)
    requires Inv(k) && Executing(k) && Generations(k.mutexes)
    ensures Inv(ThreadExit(k).kernel)
  {
    hide Inv, OwnerExit, WakeJoiners, Generations;
    InvWF(k);
    OwnerExitKeeps(k, MAX_MUTEXES);
    Dying(OwnerExit(k, Cur(k).tid, MAX_MUTEXES), k.current);
    var r := ThreadExit(k).kernel;
    SameCore(Died(OwnerExit(k, Cur(k).tid, MAX_MUTEXES), k.current), r);
  }

  function Died(k: Kernel, c: nat): (r: Kernel)
    requires WF(k) && c < MAX_THREADS
    ensures WF(r)
  {
    k.(threads := WakeJoiners(k.threads[c := k.threads[c].(state := Dead)], k.threads[c].tid))
  }

  lemma Dying(k: Kernel, c: nat)
    requires Inv(k) && c < MAX_THREADS && k.threads[c].state == Running
    requires forall s :: 0 <= s < MAX_MUTEXES ==> k.mutexes[s].owner != k.threads[c].tid
    ensures Inv(Died(k, c))
  {
    hide ResolveMutex, ResolveEvent, TidsOk, OrdersOk, MutexesOk, JoinOk, LiveTid, WakeJoined, WakeJoiners;
    var tid := k.threads[c].tid;
    var ts := Died(k, c).threads;
    DiedThreads(k, c);
    forall i | 0 <= i < MAX_THREADS ensures JoinOk(ts, ts[i]) {
      DiedJoins(k, c, i);
    }
    forall s | 0 <= s < MAX_MUTEXES ensures MutexOk(ts, k.mutexes[s]) {
      assert MutexesOk(k.threads, k.mutexes);
      DiedMutex(k, c, s);
    }
    assert MutexesOk(ts, k.mutexes) by { AllMutexes(ts, k.mutexes); }
    forall i | 0 <= i < MAX_THREADS ensures MutexWaitOk(k.mutexes, ts[i]) && EventWaitOk(k.events, ts[i]) {
      DiedThread(k, c, i);
      assert MutexWaitOk(k.mutexes, k.threads[i]) && EventWaitOk(k.events, k.threads[i]);
    }
  }

  lemma AllMutexes(ts: seq<Thread>, ms: seq<Mutex>)
    requires forall s :: 0 <= s < |ms| ==> MutexOk(ts, ms[s])
    ensures MutexesOk(ts, ms)
  {
  }

  lemma DiedThread(k: Kernel, c: nat, i: nat)
    requires WF(k) && c < MAX_THREADS && i < MAX_THREADS && k.threads[c].state == Running
    ensures var t := Died(k, c).threads[i];
            t.tid == k.threads[i].tid && t.order == k.threads[i].order && t.waitEvent == k.threads[i].waitEvent &&
            (if i == c then t.state == Dead
             else if Joins(k.threads[i], k.threads[c].tid) then t.state == Runnable
             else t == k.threads[i])
  {
  }

  lemma DiedThreads(k: Kernel, c: nat)
    requires WF(k) && c < MAX_THREADS && k.threads[c].state == Running
    requires TidsOk(k.threads, k.nextTid) && OrdersOk(k.threads, k.serial)
    ensures TidsOk(Died(k, c).threads, k.nextTid) && OrdersOk(Died(k, c).threads, k.serial)
    ensures forall o :: LiveTid(k.threads, o) && o != k.threads[c].tid ==> LiveTid(Died(k, c).threads, o)
  {
    hide Joins, WakeJoiners, WakeJoined;
    var ts := Died(k, c).threads;
    forall i | 0 <= i < MAX_THREADS
      ensures ts[i].tid == k.threads[i].tid && ts[i].order == k.threads[i].order
      ensures (ts[i].state == Free <==> k.threads[i].state == Free) && (SemWait(ts[i]) ==> SemWait(k.threads[i]))
      ensures i != c && Live(k.threads[i]) ==> Live(ts[i])
    {
      DiedThread(k, c, i);
      DiedKind(k.threads[i], k.threads[c].tid);
    }
    forall o | LiveTid(k.threads, o) && o != k.threads[c].tid ensures LiveTid(ts, o) {
      var i :| 0 <= i < MAX_THREADS && Live(k.threads[i]) && k.threads[i].tid == o;
      assert Live(ts[i]);
    }
  }

  lemma DiedKind(t: Thread, tid: nat)
    ensures Joins(t, tid) ==> t.state == WaitThread
  {
  }

  lemma DiedMutex(k: Kernel, c: nat, s: nat)
    requires WF(k) && c < MAX_THREADS && s < MAX_MUTEXES && MutexesOk(k.threads, k.mutexes)
    requires k.mutexes[s].owner != k.threads[c].tid
    requires forall o :: LiveTid(k.threads, o) && o != k.threads[c].tid ==> LiveTid(Died(k, c).threads, o)
    ensures MutexOk(Died(k, c).threads, k.mutexes[s])
  {
    hide LiveTid, Died;
    assert MutexOk(k.threads, k.mutexes[s]);
  }

  lemma DiedJoins(k: Kernel, c: nat, i: nat)
    requires WF(k) && c < MAX_THREADS && i < MAX_THREADS && k.threads[c].state == Running
    requires JoinOk(k.threads, k.threads[i])
    requires forall o :: LiveTid(k.threads, o) && o != k.threads[c].tid ==> LiveTid(Died(k, c).threads, o)
    ensures JoinOk(Died(k, c).threads, Died(k, c).threads[i])
  {
    hide LiveTid, Died;
    DiedThread(k, c, i);
  }

  /** The invariant speaks about the tables and counters only. */
  lemma SameCore(a: Kernel, b: Kernel)
    requires Inv(a) && b.threads == a.threads && b.events == a.events && b.mutexes == a.mutexes
    requires b.serial == a.serial && b.nextTid == a.nextTid && b.current < MAX_THREADS
    ensures Inv(b)
  {
  }
}
