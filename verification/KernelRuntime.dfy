/** The kernel as it runs: fixed tables that every call scans and rewrites in place. */
module KernelRuntime {
  import opened Letters
  import opened Words
  import opened KernelTypes
  import opened KernelCalls
  import opened KernelInvariant
  import opened KernelSteps
  import opened KernelRuns
  import opened KernelScheduling

  /** The host's monotonic clock. */
  class Clock {
    var now: nat

    /** Time may pass before every reading. */
    method Read() returns (t: nat)
      modifies this
      ensures t == now >= old(now)
    {
      var passed: int :| passed >= 0;
      now := now + passed;
      t := now;
    }

    /** Returns no earlier than asked. */
    method SleepUntil(t: nat)
      modifies this
      ensures now >= t && now >= old(now)
    {
      var late: int :| late >= 0;
      now := (if now > t then now else t) + late;
    }
  }

  class Runtime {
    const threads: array<Thread>
    const events: array<Event>
    const mutexes: array<Mutex>
    var serial: nat
    var nextTid: nat
    var current: nat
    var cpu: Image
    var switchRequested: bool
    var threadExited: bool
    var processExited: bool
    var modal: bool

    ghost function State(): Kernel
      reads this, threads, events, mutexes
    {
      Kernel(threads[..], events[..], mutexes[..], serial, nextTid, current, cpu, switchRequested, threadExited, processExited, modal)
    }

    ghost predicate Valid()
      reads this, threads, events, mutexes
    {
      WF(State())
    }

    constructor (start: Image)
      ensures Valid() && State() == Boot(start) && fresh(threads) && fresh(events) && fresh(mutexes)
    {
      var idle := Thread(0, Free, 0, 0, 0, 0, 0, start, false, 0);
      threads := new Thread[32](i => if i == 0 then idle.(tid := 1, state := Running, regsValid := true) else idle);
      events := new Event[64](i => Event(false, 0, 0, 0, ""));
      mutexes := new Mutex[64](i => Mutex(false, 0, 0, 0, 0, false, ""));
      serial, nextTid, current, cpu := 0, 2, 0, start;
      switchRequested, threadExited, processExited, modal := false, false, false, false;
      new;
      assert threads[..] == Boot(start).threads;
      assert events[..] == Boot(start).events;
      assert mutexes[..] == Boot(start).mutexes;
    }

    // ---- semaphores ----------------------------------------------------------------------

    method MutexFromHandle(h: U32) returns (slot: int)
      requires Valid()
      ensures slot == ResolveMutex(mutexes[..], h)
    {
      var raw := h % 256;
      if h / 0x40000000 != 1 || raw == 0 || raw > 64 {
        return -1;
      }
      var m := mutexes[raw - 1];
      if !m.used || m.generation != h / 256 % 0x400000 {
        return -1;
      }
      return raw - 1;
    }

    method EventFromHandle(h: U32) returns (slot: int)
      requires Valid()
      ensures slot == ResolveEvent(events[..], h)
    {
      var raw := h % 256;
      if raw == 0 || raw > 64 {
        return -1;
      }
      var e := events[raw - 1];
      if h / 256 == 0 || !e.used || e.generation != h / 256 {
        return -1;
      }
      return raw - 1;
    }

    method SyncFirstWaiter(st: ThreadState, h: U32) returns (best: int)
      requires Valid()
      ensures best == FirstWaiter(threads[..], st, h)
    {
      best := -1;
      var i := 0;
      while i < 32
        invariant 0 <= i <= 32 && best == FirstWaiter(threads[..i], st, h)
      {
        assert threads[..i + 1][..i] == threads[..i];
        var t := threads[i];
        if t.state == st && t.waitEvent == h && (best < 0 || t.order < threads[best].order) {
          best := i;
        }
        i := i + 1;
      }
      assert threads[..32] == threads[..];
    }

    method SyncReady(i: nat, rc: nat)
      requires Valid() && i < 32
      modifies threads
      ensures State() == old(State()).(threads := old(threads[..])[i := Ready(old(threads[i]), rc)])
    {
      var t := threads[i];
      if t.regsValid {
        t := t.(regs := t.regs.(eax := rc));
      }
      threads[i] := t.(waitEvent := 0, deadline := 0, order := 0, state := Runnable);
    }

    method SyncBlock(st: ThreadState, h: U32, timeout: nat, now: nat)
      requires Valid()
      modifies this, threads
      ensures State() == Block(old(State()), st, h, timeout, now)
    {
      var t := threads[current];
      serial := serial + 1;
      threads[current] :=
        t.(state := st, waitEvent := h, deadline := if timeout == INDEFINITE_WAIT then 0 else now + timeout, order := serial);
      switchRequested := true;
    }

    method WakeEventWaiters(h: U32)
      requires Valid()
      modifies threads
      ensures State() == old(State()).(threads := WakeEvent(old(threads[..]), h))
    {
      var i := 0;
      while i < 32
        invariant 0 <= i <= 32 && Valid()
        invariant forall j :: 0 <= j < i ==> threads[j] == WakePosted(old(threads[j]), h)
        invariant forall j :: i <= j < 32 ==> threads[j] == old(threads[j])
      {
        if threads[i].state == WaitEvent && threads[i].waitEvent == h {
          SyncReady(i, NO_ERROR);
        }
        i := i + 1;
      }
      assert threads[..] == WakeEvent(old(threads[..]), h);
    }

    method HandOff(slot: nat, h: U32)
      requires Valid() && slot < 64
      modifies threads, mutexes
      ensures State() == Handoff(old(State()), slot, h)
    {
      var b := SyncFirstWaiter(WaitMutex, h);
      if b < 0 {
        return;
      }
      var m := mutexes[slot];
      mutexes[slot] := m.(owner := threads[b].tid, count := 1, abandoned := false);
      SyncReady(b, if m.abandoned then SEM_OWNER_DIED else NO_ERROR);
    }

    method MutexOwnerExit(tid: nat)
      requires Valid() && Generations(mutexes[..])
      modifies threads, mutexes
      ensures State() == OwnerExit(old(State()), tid, 64)
    {
      var i := 0;
      while i < 64
        invariant 0 <= i <= 64 && Valid() && State() == OwnerExit(old(State()), tid, i)
      {
        var m := mutexes[i];
        assert State().mutexes[i] == m;
        if m.used && m.owner == tid {
          mutexes[i] := m.(owner := 0, count := 0, abandoned := true);
          HandOff(i, MutexHandle(i, m.generation));
        }
        i := i + 1;
      }
    }

    // ---- mutex calls ------------------------------------------------------------------------

    method CreateMutexSem(name: NameArg, cell: U32, attr: U32, initial: U32) returns (rc: nat, stores: seq<Store>)
      requires Valid()
      modifies mutexes
      ensures Reply(State(), rc, stores) == MutexCreate(old(State()), name, cell, attr, initial)
    {
      if !Writable(cell) || name.BadName? || attr > 1 || initial > 1 {
        return INVALID_PARAMETER, [];
      }
      var found, slot := ScanMutexes(Text(name));
      if found >= 0 {
        return DUPLICATE_NAME, [];
      }
      if slot < 0 {
        return TOO_MANY_OPENS, [];
      }
      var g := mutexes[slot].generation + 1;
      mutexes[slot] :=
        Mutex(true, g, 1, if initial != 0 then threads[current].tid else 0, if initial != 0 then 1 else 0, false, Text(name));
      return NO_ERROR, [Store(cell, MutexHandle(slot, g))];
    }

    /** One pass finds both the first used slot with the name and the first free slot. */
    method ScanMutexes(name: string) returns (found: int, free: int)
      requires Valid()
      ensures found == MutexNamed(mutexes[..], name)
      ensures found < 0 ==> free == FreeMutex(mutexes[..])
    {
      found, free := -1, -1;
      var i := 0;
      while i < 64
        invariant 0 <= i <= 64 && found == -1 == MutexNamed(mutexes[..i], name) && free == FreeMutex(mutexes[..i])
      {
        assert mutexes[..i + 1][..i] == mutexes[..i];
        var m := mutexes[i];
        if !m.used {
          if free == -1 && m.generation < GENERATION_MAX {
            free := i;
          }
        } else if name != "" && SameName(name, m.name) {
          found := i;
          NamedStays(i + 1, name);
          return;
        }
        i := i + 1;
      }
      assert mutexes[..64] == mutexes[..];
    }

    lemma {:induction false} NamedStays(i: nat, name: string)
      requires Valid() && i <= 64 && MutexNamed(mutexes[..i], name) >= 0
      ensures MutexNamed(mutexes[..], name) == MutexNamed(mutexes[..i], name)
      decreases 64 - i
    {
      if i < 64 {
        assert mutexes[..i + 1][..i] == mutexes[..i];
        NamedStays(i + 1, name);
      } else {
        assert mutexes[..64] == mutexes[..];
      }
    }

    method OpenMutexSem(name: NameArg, cell: U32, handle: U32) returns (rc: nat, stores: seq<Store>)
      requires Valid()
      modifies mutexes
      ensures Reply(State(), rc, stores) == MutexOpen(old(State()), name, cell, handle)
    {
      if !Writable(cell) || name.BadName? {
        return INVALID_PARAMETER, [];
      }
      var slot, free := ScanMutexes(Text(name));
      if slot >= 0 {
        mutexes[slot] := mutexes[slot].(refs := Next32(mutexes[slot].refs));
        return NO_ERROR, [Store(cell, MutexHandle(slot, mutexes[slot].generation))];
      }
      if name.Name? {
        return SEM_NOT_FOUND, [];
      }
      slot := MutexFromHandle(handle);
      if slot < 0 {
        return INVALID_HANDLE, [];
      }
      mutexes[slot] := mutexes[slot].(refs := Next32(mutexes[slot].refs));
      return NO_ERROR, [];
    }

    method CloseMutexSem(h: U32) returns (rc: nat, stores: seq<Store>)
      requires Valid()
      modifies mutexes
      ensures Reply(State(), rc, stores) == MutexClose(old(State()), h)
    {
      stores := [];
      var slot := MutexFromHandle(h);
      if slot < 0 {
        return INVALID_HANDLE, [];
      }
      var m := mutexes[slot];
      if m.refs > 1 {
        mutexes[slot] := m.(refs := m.refs - 1);
        return NO_ERROR, [];
      }
      var waiter := SyncFirstWaiter(WaitMutex, h);
      if m.owner != 0 || waiter >= 0 {
        return SEM_BUSY, [];
      }
      mutexes[slot] := Mutex(false, 0, 0, 0, 0, false, "");
      return NO_ERROR, [];
    }

    method RequestMutexSem(h: U32, timeout: U32, now: nat) returns (rc: nat, stores: seq<Store>)
      requires Valid()
      modifies this, threads, mutexes
      ensures Reply(State(), rc, stores) == MutexRequest(old(State()), h, timeout, now)
    {
      stores := [];
      var slot := MutexFromHandle(h);
      if slot < 0 {
        return INVALID_HANDLE, [];
      }
      var m := mutexes[slot];
      var me := threads[current].tid;
      if m.owner == me {
        if m.count == 0xffffffff {
          return TOO_MANY_SEM_REQUESTS, [];
        }
        mutexes[slot] := m.(count := m.count + 1);
        return NO_ERROR, [];
      }
      if m.owner == 0 {
        mutexes[slot] := m.(owner := me, count := 1, abandoned := false);
        return if m.abandoned then SEM_OWNER_DIED else NO_ERROR, [];
      }
      if timeout == 0 {
        return SEM_TIMEOUT, [];
      }
      SyncBlock(WaitMutex, h, timeout, now);
      return NO_ERROR, [];
    }

    method ReleaseMutexSem(h: U32) returns (rc: nat, stores: seq<Store>)
      requires Valid()
      modifies threads, mutexes
      ensures Reply(State(), rc, stores) == MutexRelease(old(State()), h)
    {
      stores := [];
      var slot := MutexFromHandle(h);
      if slot < 0 {
        return INVALID_HANDLE, [];
      }
      var m := mutexes[slot];
      if m.owner != threads[current].tid {
        return NOT_OWNER, [];
      }
      mutexes[slot] := m.(count := Prev32(m.count));
      if mutexes[slot].count == 0 {
        mutexes[slot] := mutexes[slot].(owner := 0);
        assert mutexes[..] == old(mutexes[..])[slot := m.(owner := 0, count := 0)];
        HandOff(slot, h);
      }
      return NO_ERROR, [];
    }

    method QueryMutexSem(h: U32, stateCell: U32, ownerCell: U32, countCell: U32) returns (rc: nat, stores: seq<Store>)
      requires Valid()
      ensures Reply(State(), rc, stores) == MutexQuery(State(), h, stateCell, ownerCell, countCell)
    {
      var slot := MutexFromHandle(h);
      if slot < 0 {
        return INVALID_HANDLE, [];
      }
      if !Writable(stateCell) || !Writable(ownerCell) || !Writable(countCell) {
        return INVALID_PARAMETER, [];
      }
      var m := mutexes[slot];
      return NO_ERROR, [Store(stateCell, if m.owner != 0 then 1 else 0), Store(ownerCell, m.owner), Store(countCell, m.count)];
    }

    // ---- event calls ------------------------------------------------------------------------------

    method ScanEvents(name: string) returns (found: int, free: int)
      requires Valid()
      ensures found == EventNamed(events[..], name)
      ensures found < 0 ==> free == FreeEvent(events[..])
    {
      found, free := -1, -1;
      var i := 0;
      while i < 64
        invariant 0 <= i <= 64 && found == -1 == EventNamed(events[..i], name) && free == FreeEvent(events[..i])
      {
        assert events[..i + 1][..i] == events[..i];
        var e := events[i];
        if !e.used {
          if free == -1 && e.generation < GENERATION_MAX {
            free := i;
          }
        } else if name != "" && SameName(name, e.name) {
          found := i;
          EventNamedStays(i + 1, name);
          return;
        }
        i := i + 1;
      }
      assert events[..64] == events[..];
    }

    lemma {:induction false} EventNamedStays(i: nat, name: string)
      requires Valid() && i <= 64 && EventNamed(events[..i], name) >= 0
      ensures EventNamed(events[..], name) == EventNamed(events[..i], name)
      decreases 64 - i
    {
      if i < 64 {
        assert events[..i + 1][..i] == events[..i];
        EventNamedStays(i + 1, name);
      } else {
        assert events[..64] == events[..];
      }
    }

    method CreateEventSem(name: NameArg, cell: U32, attr: U32, posted: U32) returns (rc: nat, stores: seq<Store>)
      requires Valid()
      modifies events
      ensures Reply(State(), rc, stores) == EventCreate(old(State()), name, cell, attr, posted)
    {
      if !Writable(cell) || name.BadName? || attr > 1 {
        return INVALID_PARAMETER, [];
      }
      var found, slot := ScanEvents(Text(name));
      if found >= 0 {
        return DUPLICATE_NAME, [];
      }
      if slot < 0 {
        return TOO_MANY_OPENS, [];
      }
      var g := events[slot].generation + 1;
      events[slot] := Event(true, g, 1, if posted != 0 then 1 else 0, Text(name));
      return NO_ERROR, [Store(cell, EventHandle(slot, g))];
    }

    method OpenEventSem(name: NameArg, cell: U32, handle: U32) returns (rc: nat, stores: seq<Store>)
      requires Valid()
      modifies events
      ensures Reply(State(), rc, stores) == EventOpen(old(State()), name, cell, handle)
    {
      if !Writable(cell) || name.BadName? {
        return INVALID_PARAMETER, [];
      }
      var slot, free := ScanEvents(Text(name));
      if slot >= 0 {
        events[slot] := events[slot].(refs := Next32(events[slot].refs));
        return NO_ERROR, [Store(cell, EventHandle(slot, events[slot].generation))];
      }
      if name.Name? {
        return SEM_NOT_FOUND, [];
      }
      slot := EventFromHandle(handle);
      if slot < 0 {
        return INVALID_HANDLE, [];
      }
      events[slot] := events[slot].(refs := Next32(events[slot].refs));
      return NO_ERROR, [];
    }

    method CloseEventSem(h: U32) returns (rc: nat, stores: seq<Store>)
      requires Valid()
      modifies events
      ensures Reply(State(), rc, stores) == EventClose(old(State()), h)
    {
      stores := [];
      var slot := EventFromHandle(h);
      if slot < 0 {
        return INVALID_HANDLE, [];
      }
      var e := events[slot];
      if e.refs > 1 {
        events[slot] := e.(refs := e.refs - 1);
        return NO_ERROR, [];
      }
      var waiter := SyncFirstWaiter(WaitEvent, h);
      if waiter >= 0 {
        return SEM_BUSY, [];
      }
      events[slot] := Event(false, 0, 0, 0, "");
      return NO_ERROR, [];
    }

    method ResetEventSem(h: U32, cell: U32) returns (rc: nat, stores: seq<Store>)
      requires Valid()
      modifies events
      ensures Reply(State(), rc, stores) == EventReset(old(State()), h, cell)
    {
      if !Writable(cell) {
        return INVALID_PARAMETER, [];
      }
      var slot := EventFromHandle(h);
      if slot < 0 {
        return INVALID_HANDLE, [];
      }
      var count := events[slot].posts;
      stores := [Store(cell, count)];
      if count == 0 {
        assert old(events[..]) == old(events[..])[slot := old(events[..])[slot].(posts := 0)];
        return ALREADY_RESET, stores;
      }
      events[slot] := events[slot].(posts := 0);
      return NO_ERROR, stores;
    }

    method PostEventSem(h: U32) returns (rc: nat, stores: seq<Store>)
      requires Valid()
      modifies threads, events
      ensures Reply(State(), rc, stores) == EventPost(old(State()), h)
    {
      stores := [];
      var slot := EventFromHandle(h);
      if slot < 0 {
        return INVALID_HANDLE, [];
      }
      var count := events[slot].posts;
      events[slot] := events[slot].(posts := Next32(count));
      WakeEventWaiters(h);
      return if count != 0 then ALREADY_POSTED else NO_ERROR, [];
    }

    method WaitEventSem(h: U32, timeout: U32, now: nat) returns (rc: nat, stores: seq<Store>)
      requires Valid()
      modifies this, threads
      ensures Reply(State(), rc, stores) == EventWait(old(State()), h, timeout, now)
    {
      stores := [];
      var slot := EventFromHandle(h);
      if slot < 0 {
        return INVALID_HANDLE, [];
      }
      if events[slot].posts != 0 {
        return NO_ERROR, [];
      }
      if timeout == 0 {
        return SEM_TIMEOUT, [];
      }
      SyncBlock(WaitEvent, h, timeout, now);
      return NO_ERROR, [];
    }

    method QueryEventSem(h: U32, cell: U32) returns (rc: nat, stores: seq<Store>)
      requires Valid()
      ensures Reply(State(), rc, stores) == EventQuery(State(), h, cell)
    {
      if !Writable(cell) {
        return INVALID_PARAMETER, [];
      }
      var slot := EventFromHandle(h);
      if slot < 0 {
        return INVALID_HANDLE, [];
      }
      return NO_ERROR, [Store(cell, events[slot].posts)];
    }

    // ---- threads --------------------------------------------------------------------------------------

    /** The first slot in use by thread `tid`. */
    method FindThreadSlot(tid: nat) returns (slot: int)
      requires Valid()
      ensures slot == FindThread(threads[..], tid)
    {
      slot := -1;
      var i := 0;
      while i < 32 && slot < 0
        invariant 0 <= i <= 32 && slot == FindThread(threads[..i], tid)
      {
        assert threads[..i + 1][..i] == threads[..i];
        if threads[i].state != Free && threads[i].tid == tid {
          slot := i;
        }
        i := i + 1;
      }
      FoundStays(i, tid);
    }

    lemma {:induction false} FoundStays(i: nat, tid: nat)
      requires Valid() && i <= 32 && (i == 32 || FindThread(threads[..i], tid) >= 0)
      ensures FindThread(threads[..], tid) == FindThread(threads[..i], tid)
      decreases 32 - i
    {
      if i < 32 {
        assert threads[..i + 1][..i] == threads[..i];
        FoundStays(i + 1, tid);
      } else {
        assert threads[..32] == threads[..];
      }
    }

    method FindDeadSlot() returns (slot: int)
      requires Valid()
      ensures slot == FindDead(threads[..])
    {
      slot := -1;
      var i := 0;
      while i < 32 && slot < 0
        invariant 0 <= i <= 32 && slot == FindDead(threads[..i])
      {
        assert threads[..i + 1][..i] == threads[..i];
        if threads[i].state == Dead {
          slot := i;
        }
        i := i + 1;
      }
      DeadStays(i);
    }

    lemma {:induction false} DeadStays(i: nat)
      requires Valid() && i <= 32 && (i == 32 || FindDead(threads[..i]) >= 0)
      ensures FindDead(threads[..]) == FindDead(threads[..i])
      decreases 32 - i
    {
      if i < 32 {
        assert threads[..i + 1][..i] == threads[..i];
        DeadStays(i + 1);
      } else {
        assert threads[..32] == threads[..];
      }
    }

    method FindSpareSlot() returns (slot: int)
      requires Valid()
      ensures slot == SpareThread(threads[..])
    {
      slot := -1;
      var i := 0;
      while i < 32 && slot < 0
        invariant 0 <= i <= 32 && slot == SpareThread(threads[..i])
      {
        assert threads[..i + 1][..i] == threads[..i];
        if threads[i].callbackDepth == 0 && (threads[i].state == Free || threads[i].state == Dead) {
          slot := i;
        }
        i := i + 1;
      }
      SpareStays(i);
    }

    lemma {:induction false} SpareStays(i: nat)
      requires Valid() && i <= 32 && (i == 32 || SpareThread(threads[..i]) >= 0)
      ensures SpareThread(threads[..]) == SpareThread(threads[..i])
      decreases 32 - i
    {
      if i < 32 {
        assert threads[..i + 1][..i] == threads[..i];
        SpareStays(i + 1);
      } else {
        assert threads[..32] == threads[..];
      }
    }

    method CreateGuestThread(ptid: U32, entry: U32, param: U32, flags: U32, stackSize: U32, stackBase: U32, exitStub: U32)
      returns (rc: nat, stores: seq<Store>)
      requires Valid()
      modifies this, threads
      ensures Reply(State(), rc, stores) == ThreadCreate(old(State()), ptid, entry, param, flags, stackSize, stackBase, exitStub)
    {
      if !Writable(ptid) || entry == 0 || stackSize == 0 || !GuestRange(entry, 1) || flags > 1 {
        return INVALID_PARAMETER, [];
      }
      var slot := FindSpareSlot();
      if slot < 0 || stackBase == 0 {
        return NOT_ENOUGH_MEMORY, [];
      }
      var top := Wrap(stackBase + PageUp(stackSize)) / 16 * 16;
      stores := [Store(Wrap(top - 4), param), Store(Wrap(top - 8), exitStub)];
      var tid := nextTid;
      nextTid := nextTid + 1;
      threads[slot] := Thread(tid, if flags == 1 then Suspended else Runnable, 0, 0, 0, 0, 0,
                              StartImage(cpu, entry, Wrap(top - 8)), true, 0);
      return NO_ERROR, stores + [Store(ptid, tid)];
    }

    method WakeThread(i: nat, tid: nat) returns (stores: seq<Store>)
      requires Valid() && i < 32
      modifies threads
      ensures threads[..] == old(threads[..])[i := WakeJoined(old(threads[i]), tid)]
      ensures stores == if Joins(old(threads[i]), tid) && Writable(old(threads[i]).waitPtid)
                        then [Store(old(threads[i]).waitPtid, tid)] else []
    {
      stores := [];
      var t := threads[i];
      if t.state != WaitThread || (t.waitTid != 0 && t.waitTid != tid) {
        return;
      }
      if Writable(t.waitPtid) {
        stores := [Store(t.waitPtid, tid)];
      }
      if t.regsValid {
        t := t.(regs := t.regs.(eax := NO_ERROR));
      }
      threads[i] := t.(waitTid := 0, waitPtid := 0, state := Runnable);
    }

    method WakeThreadWaiters(tid: nat) returns (stores: seq<Store>)
      requires Valid()
      modifies threads
      ensures State() == old(State()).(threads := WakeJoiners(old(threads[..]), tid))
      ensures stores == JoinStores(old(threads[..]), tid)
    {
      hide WakeJoined;
      stores := [];
      var i := 0;
      while i < 32
        invariant 0 <= i <= 32 && Valid() && stores == JoinStores(old(threads[..])[..i], tid)
        invariant forall j :: 0 <= j < i ==> threads[j] == WakeJoined(old(threads[j]), tid)
        invariant forall j :: i <= j < 32 ==> threads[j] == old(threads[j])
      {
        assert old(threads[..])[..i + 1][..i] == old(threads[..])[..i];
        ghost var before := threads[..];
        var store := WakeThread(i, tid);
        assert forall j :: 0 <= j < 32 && j != i ==> threads[j] == before[j];
        stores := stores + store;
        i := i + 1;
      }
      assert old(threads[..])[..32] == old(threads[..]);
      assert threads[..] == WakeJoiners(old(threads[..]), tid);
    }

    method FinishGuestThread() returns (rc: nat, stores: seq<Store>)
      requires Valid() && Generations(mutexes[..])
      modifies this, threads, mutexes
      ensures Reply(State(), rc, stores) == ThreadExit(old(State()))
    {
      hide OwnerExit, WakeJoiners, WakeJoined, JoinStores;
      var tid := threads[current].tid;
      ghost var was := State();
      MutexOwnerExit(tid);
      assert State() == OwnerExit(was, tid, 64);
      ghost var swept := State();
      threads[current] := threads[current].(state := Dead);
      ghost var dead := threads[..];
      assert dead == swept.threads[swept.current := swept.threads[swept.current].(state := Dead)];
      stores := WakeThreadWaiters(tid);
      threadExited := true;
      switchRequested := true;
      var i := 0;
      while i < 32 && (threads[i].state == Free || threads[i].state == Dead)
        invariant 0 <= i <= 32 && forall j :: 0 <= j < i ==> !Live(threads[j])
      {
        i := i + 1;
      }
      if i == 32 {
        processExited := true;
      }
      rc := NO_ERROR;
    }

    method GuestWaitThread(ptid: U32, option: U32, target: U32) returns (rc: nat, stores: seq<Store>)
      requires Valid()
      modifies this, threads
      ensures Reply(State(), rc, stores) == ThreadWait(old(State()), ptid, option, target)
    {
      stores := [];
      if !GuestRange(ptid, 4) || option > 1 {
        return INVALID_PARAMETER, [];
      }
      var slot;
      if target == 0 {
        slot := FindDeadSlot();
      } else {
        slot := FindThreadSlot(target);
        if slot < 0 && target < nextTid {
          return NO_ERROR, [];
        }
        if slot < 0 || slot == current {
          return INVALID_THREADID, [];
        }
      }
      if slot >= 0 && threads[slot].state == Dead {
        stores := [Store(ptid, threads[slot].tid)];
        threads[slot] := threads[slot].(state := Free);
        return NO_ERROR, stores;
      }
      if option == 1 {
        return THREAD_NOT_TERMINATED, [];
      }
      threads[current] := threads[current].(waitTid := target, waitPtid := ptid, state := WaitThread);
      switchRequested := true;
      return NO_ERROR, [];
    }

    method GuestSleep(ms: U32, now: nat) returns (rc: nat, stores: seq<Store>)
      requires Valid()
      modifies this, threads
      ensures Reply(State(), rc, stores) == Sleep(old(State()), ms, now)
    {
      if ms != 0 {
        threads[current] := threads[current].(deadline := now + ms, state := Asleep);
      }
      switchRequested := true;
      return NO_ERROR, [];
    }

    /** `DosExit` with EXIT_PROCESS. */
    method ExitGuestProcess() returns (rc: nat, stores: seq<Store>)
      modifies this`processExited
      ensures Reply(State(), rc, stores) == ProcessExit(old(State()))
    {
      processExited := true;
      return NO_ERROR, [];
    }

    method ParkForBridge(queue: bool, delay: nat, now: nat) returns (rc: nat, stores: seq<Store>)
      requires Valid()
      modifies this, threads
      ensures Reply(State(), rc, stores) == BridgeWait(old(State()), queue, delay, now)
    {
      threads[current] := threads[current].(deadline := now + delay, state := if queue then WaitQueue else WaitPm);
      switchRequested := true;
      return NO_ERROR, [];
    }

    // ---- the scheduler ------------------------------------------------------------------------------------

    method ExpireThread(i: nat, now: nat)
      requires Valid() && i < 32
      modifies threads
      ensures threads[..] == old(threads[..])[i := Expire(old(threads[i]), now)]
    {
      var t := threads[i];
      if t.deadline == 0 || t.deadline > now {
        return;
      }
      if t.state == Asleep || t.state == WaitPm || t.state == WaitQueue {
        SyncReady(i, NO_ERROR);
      } else if t.state == WaitEvent || t.state == WaitMutex {
        SyncReady(i, SEM_TIMEOUT);
      }
    }

    method WakeExpiredWaiters(clock: Clock) returns (now: nat)
      requires Valid()
      modifies threads, clock
      ensures now == clock.now >= old(clock.now)
      ensures State() == Woken(old(State()), now)
    {
      hide Expire;
      now := clock.Read();
      var i := 0;
      while i < 32
        invariant 0 <= i <= 32 && Valid() && clock.now == now
        invariant forall j :: 0 <= j < i ==> threads[j] == Expire(old(threads[j]), now)
        invariant forall j :: i <= j < 32 ==> threads[j] == old(threads[j])
      {
        ghost var before := threads[..];
        ExpireThread(i, now);
        assert forall j :: 0 <= j < 32 && j != i ==> threads[j] == before[j];
        i := i + 1;
      }
      assert threads[..] == WakeExpired(old(threads[..]), now);
    }

    method NextRunnableThread() returns (slot: int)
      requires Valid()
      ensures slot == NextRunnable(State())
    {
      var n := 1;
      while n <= 32
        invariant 1 <= n <= 33 && NextFrom(threads[..], current, n) == NextRunnable(State())
      {
        var i := (current + n) % 32;
        if threads[i].state == Runnable {
          return i;
        }
        n := n + 1;
      }
      return -1;
    }

    /** The earliest deadline of a timed wait, or 0. */
    method EarliestDeadline() returns (earliest: nat)
      requires Valid()
      ensures earliest == 0 ==> forall i :: 0 <= i < 32 ==> !Timed(threads[i])
      ensures earliest != 0 ==> exists i :: 0 <= i < 32 && Timed(threads[i]) && threads[i].deadline == earliest
    {
      earliest := 0;
      var i := 0;
      while i < 32
        invariant 0 <= i <= 32
        invariant earliest == 0 ==> forall j :: 0 <= j < i ==> !Timed(threads[j])
        invariant earliest != 0 ==> exists j :: 0 <= j < i && Timed(threads[j]) && threads[j].deadline == earliest
      {
        var t := threads[i];
        if Timed(t) && (earliest == 0 || t.deadline < earliest) {
          earliest := t.deadline;
        }
        i := i + 1;
      }
    }

    /** A timed wait is over at clock reading `now`. */
    ghost predicate Due(now: nat)
      requires Valid()
      reads this, threads, events, mutexes
    {
      exists i :: 0 <= i < 32 && Timed(threads[i]) && threads[i].deadline <= now
    }

    /** Status 0: a thread was dispatched; 1: nobody can ever run again; 2: nobody can run now,
        inside a modal pump. `at` is the last clock reading. */
    method ScheduleNextThread(clock: Clock) returns (status: nat, ghost at: nat)
      requires Valid()
      modifies this, threads, clock
      ensures Valid() && old(clock.now) <= at <= clock.now
      ensures var q := Woken(old(State()), at);
              if NextRunnable(q) >= 0 then status == 0 && State() == Dispatch(q, NextRunnable(q))
              else State() == q && status == (if old(modal) then 2 else 1) &&
                   (status == 1 ==> forall i :: 0 <= i < 32 ==> !Timed(threads[i]))
    {
      hide NextFrom, WakeExpired;
      at := 0;
      WokenNever(State());
      var next := -1;
      while true
        invariant Valid() && old(clock.now) <= clock.now && at <= clock.now
        invariant State() == Woken(old(State()), at)
        invariant modal == old(modal)
        decreases if Due(clock.now) then 0 else 1
      {
        ghost var before := State();
        ghost var due := Due(clock.now);
        at := WakeExpiredWaiters(clock);
        WokenAgain(old(State()), before, at);
        next := NextRunnableThread();
        if next >= 0 {
          break;
        }
        NotDue(before, at);
        if modal {
          return 2, at;
        }
        var earliest := EarliestDeadline();
        if earliest == 0 {
          return 1, at;
        }
        var now := clock.Read();
        if earliest > now {
          clock.SleepUntil(earliest);
        }
        assert Due(clock.now);
      }
      current := next;
      threads[next] := threads[next].(state := Running);
      cpu := threads[next].regs;
      return 0, at;
    }

    method SwitchAfterHypercall(clock: Clock) returns (status: nat, ghost at: nat)
      requires Valid()
      modifies this, threads, clock
      ensures Valid() && old(clock.now) <= at <= clock.now
      ensures Switch(old(State()), at) == (if status == 0 then Continue(State()) else if old(modal) then Idle(State()) else Stopped(State()))
      ensures status <= 2 && (status == 2 ==> old(modal))
      ensures status == 1 ==> !old(modal) && forall i :: 0 <= i < 32 ==> !Timed(threads[i])
    {
      ghost var was := State();
      if !threadExited {
        var t := threads[current];
        threads[current] := t.(regs := cpu.(ip := cpu.nextIp), regsValid := true,
                               state := if t.state == Running then Runnable else t.state);
      }
      switchRequested := false;
      threadExited := false;
      assert State() == Park(was);
      status, at := ScheduleNextThread(clock);
    }

    // ---- the modal yield ----------------------------------------------------------------------------------

    /** Called by a native modal loop at an idle point: sets its thread aside and starts another. */
    method EnterModal(clock: Clock) returns (entered: bool, ghost at: nat)
      requires Valid()
      modifies this, threads, clock
      ensures Valid() && at <= clock.now
      ensures if old(processExited || modal || threads[current].state != Running) then !entered && State() == old(State())
              else entered == Enter(old(State()), at).Continue? && State() == Enter(old(State()), at).kernel
    {
      hide NextFrom, Expire, NextRunnable;
      if processExited || modal || threads[current].state != Running {
        return false, 0;
      }
      ExpireRunning(threads[current]);
      at := WakeExpiredWaiters(clock);
      ghost var w := State();
      assert w.threads[current] == Expire(old(threads[current]), at);
      threads[current] := threads[current].(state := HostCall);
      assert State() == w.(threads := w.threads[w.current := w.threads[w.current].(state := HostCall)]);
      var next := NextRunnableThread();
      if next < 0 {
        threads[current] := threads[current].(state := Running);
        assert threads[..] == w.threads;
        return false, at;
      }
      StartModal(next);
      return true, at;
    }

    method StartModal(next: nat)
      requires Valid() && next < 32
      modifies this, threads
      ensures State() == Dispatch(old(State()), next).(modal := true, switchRequested := false, threadExited := false)
    {
      current := next;
      threads[next] := threads[next].(state := Running);
      modal := true;
      switchRequested := false;
      threadExited := false;
      cpu := threads[next].regs;
    }

    method ModalPauseCurrent()
      requires Valid()
      modifies threads
      ensures threads[..] == if old(threads[current]).state != Running then old(threads[..])
                             else old(threads[..])[current := old(threads[current]).(
                                    regs := cpu.(ip := cpu.nextIp), regsValid := true, state := Runnable)]
    {
      var t := threads[current];
      if t.state != Running {
        return;
      }
      threads[current] := t.(regs := cpu.(ip := cpu.nextIp), regsValid := true, state := Runnable);
    }

    /** Gives the owner saved in `owner` its processor state and pending flags back. */
    method LeaveModal(owner: Kernel)
      requires Valid() && WF(owner)
      modifies this, threads
      ensures State() == Leave(old(State()), owner)
    {
      ModalPauseCurrent();
      threads[owner.current] := threads[owner.current].(state := Running);
      current := owner.current;
      cpu := owner.cpu;
      switchRequested := owner.switchRequested;
      threadExited := owner.threadExited;
      modal := false;
    }

    // ---- the run loop -----------------------------------------------------------------------------------------

    /** Dispatch by ordinal. */
    method Serve(call: Call, now: nat) returns (rc: nat, stores: seq<Store>)
      requires Valid() && Generations(mutexes[..])
      modifies this, threads, events, mutexes
      ensures Reply(State(), rc, stores) == Perform(old(State()), call, now)
    {
      hide MutexCreate, MutexOpen, MutexClose, MutexRequest, MutexRelease, MutexQuery, EventCreate, EventOpen, EventClose, EventReset,
        EventPost, EventWait, EventQuery, ThreadCreate, ThreadExit, ThreadWait, Sleep, BridgeWait;
      match call {
        case CreateMutex(name, cell, attr, initial) => rc, stores := CreateMutexSem(name, cell, attr, initial);
        case OpenMutex(name, cell, handle) => rc, stores := OpenMutexSem(name, cell, handle);
        case CloseMutex(h) => rc, stores := CloseMutexSem(h);
        case RequestMutex(h, timeout) => rc, stores := RequestMutexSem(h, timeout, now);
        case ReleaseMutex(h) => rc, stores := ReleaseMutexSem(h);
        case QueryMutex(h, a, b, c) => rc, stores := QueryMutexSem(h, a, b, c);
        case CreateEvent(name, cell, attr, initial) => rc, stores := CreateEventSem(name, cell, attr, initial);
        case OpenEvent(name, cell, handle) => rc, stores := OpenEventSem(name, cell, handle);
        case CloseEvent(h) => rc, stores := CloseEventSem(h);
        case ResetEvent(h, cell) => rc, stores := ResetEventSem(h, cell);
        case PostEvent(h) => rc, stores := PostEventSem(h);
        case WaitForEvent(h, timeout) => rc, stores := WaitEventSem(h, timeout, now);
        case QueryEvent(h, cell) => rc, stores := QueryEventSem(h, cell);
        case CreateThread(p, e, a, f, size, base, stub) => rc, stores := CreateGuestThread(p, e, a, f, size, base, stub);
        case ExitThread => rc, stores := FinishGuestThread();
        case ExitProcess => rc, stores := ExitGuestProcess();
        case JoinThread(p, option, target) => rc, stores := GuestWaitThread(p, option, target);
        case SleepFor(ms) => rc, stores := GuestSleep(ms, now);
        case WaitForBridge(queue, delay) => rc, stores := ParkForBridge(queue, delay, now);
        case OtherService(code) => rc, stores := code, [];
      }
    }

    /** One host call of `run_guest_until`. Status 3: the process has exited; otherwise the
        scheduler's. */
    method HostCallStep(call: Call, clock: Clock) returns (status: nat, ghost step: Step)
      requires Valid() && Running1(State())
      modifies this, threads, events, mutexes, clock
      ensures Valid() && step.HostService? && step.call == call && old(clock.now) <= step.now <= clock.now
      ensures After(old(State()), step) ==
              (if status == 0 then Continue(State()) else if status == 2 then Idle(State()) else Stopped(State()))
    {
      hide Inv, OthersParked, Perform, Switch, Generations;
      ghost var was := State();
      InvGenerations(was);
      var now := clock.Read();
      step := HostService(call, now, 0);
      var rc, stores := Serve(call, now);
      if processExited {
        assert State() == Served(was, call, now);
        ServedLeaves(was, call, now);
        return 3, step;
      }
      if call.WaitForBridge? {
        cpu := cpu.(ip := Wrap(cpu.nextIp - 7), nextIp := Wrap(cpu.nextIp - 7));
      } else if !threadExited {
        cpu := cpu.(eax := rc);
      }
      assert State() == Served(was, call, now);
      ServedLeaves(was, call, now);
      InvWF(State());
      if !switchRequested {
        return 0, step;
      }
      ghost var at;
      status, at := SwitchAfterHypercall(clock);
      step := HostService(call, now, at);
    }
  }

  predicate Timed(t: Thread) {
    (t.state == Asleep || t.state == WaitPm || t.state == WaitQueue || t.state == WaitEvent || t.state == WaitMutex) && t.deadline != 0
  }

  lemma ExpireRunning(t: Thread)
    ensures t.state == Running ==> forall now :: Expire(t, now) == t
  {
  }

  lemma WokenNever(k: Kernel)
    requires WF(k)
    ensures Woken(k, 0) == k
  {
    assert WakeExpired(k.threads, 0) == k.threads;
  }

  lemma WokenAgain(k: Kernel, q: Kernel, now: nat)
    requires WF(k) && WF(q)
    requires exists at :: 0 <= at <= now && q == Woken(k, at)
    ensures Woken(q, now) == Woken(k, now)
  {
    assert WakeExpired(q.threads, now) == WakeExpired(k.threads, now);
  }

  /** If nobody is runnable after the sweep, no timed wait was over before it. */
  lemma NotDue(q: Kernel, now: nat)
    requires WF(q) && NextRunnable(Woken(q, now)) < 0
    ensures forall i :: 0 <= i < MAX_THREADS && Timed(q.threads[i]) ==> q.threads[i].deadline > now
  {
    forall i | 0 <= i < MAX_THREADS && Timed(q.threads[i]) && q.threads[i].deadline <= now ensures false {
      assert Woken(q, now).threads[i].state == Runnable;
      DecisionCloser(Woken(q, now).threads, q.current, i);
    }
  }
}
