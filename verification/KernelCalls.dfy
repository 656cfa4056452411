/** Every kernel call as a function from one state to the next. */
module KernelCalls {
  import opened Letters
  import opened Words
  import opened KernelTypes

  // ---- waiting and waking ----------------------------------------------------------

  predicate Waits(t: Thread, st: ThreadState, h: U32) {
    t.state == st && t.waitEvent == h
  }

  /** The waiter that blocked first: least order, then least slot. */
  function FirstWaiter(ts: seq<Thread>, st: ThreadState, h: U32): (b: int)
    ensures -1 <= b < |ts|
    ensures b >= 0 ==> Waits(ts[b], st, h) && forall i :: 0 <= i < |ts| && Waits(ts[i], st, h) ==> ts[b].order <= ts[i].order
    ensures b < 0 ==> forall i :: 0 <= i < |ts| ==> !Waits(ts[i], st, h)
  {
    if ts == [] then -1
    else
      var last := |ts| - 1;
      var b := FirstWaiter(ts[..last], st, h);
      if Waits(ts[last], st, h) && (b < 0 || ts[last].order < ts[b].order) then last else b
  }

  function WithResult(t: Thread, rc: nat): Thread {
    if t.regsValid then t.(regs := t.regs.(eax := rc)) else t
  }

  function Ready(t: Thread, rc: nat): Thread {
    WithResult(t, rc).(waitEvent := 0, deadline := 0, order := 0, state := Runnable)
  }

  function Block(k: Kernel, st: ThreadState, h: U32, timeout: nat, now: nat): Kernel
    requires WF(k)
  {
    var t := k.threads[k.current].(
      state := st, waitEvent := h, deadline := if timeout == INDEFINITE_WAIT then 0 else now + timeout,
      order := k.serial + 1);
    k.(threads := k.threads[k.current := t], serial := k.serial + 1, switchRequested := true)
  }

  function WakePosted(t: Thread, h: U32): Thread {
    if Waits(t, WaitEvent, h) then Ready(t, NO_ERROR) else t
  }

  function WakeEvent(ts: seq<Thread>, h: U32): (r: seq<Thread>)
    ensures |r| == |ts| && forall i :: 0 <= i < |ts| ==> r[i] == WakePosted(ts[i], h)
  {
    seq(|ts|, i requires 0 <= i < |ts| => WakePosted(ts[i], h))
  }

  // ---- mutex ownership ---------------------------------------------------------------

  /** The first waiter becomes the owner directly; an abandoned mutex tells it so. */
  function Handoff(k: Kernel, slot: nat, h: U32): (r: Kernel)
    requires WF(k) && slot < MAX_MUTEXES
    ensures WF(r)
  {
    var b := FirstWaiter(k.threads, WaitMutex, h);
    if b < 0 then k
    else
      var m := k.mutexes[slot];
      var t := k.threads[b];
      k.(threads := k.threads[b := Ready(t, if m.abandoned then SEM_OWNER_DIED else NO_ERROR)],
         mutexes := k.mutexes[slot := m.(owner := t.tid, count := 1, abandoned := false)])
  }

  function Abandon(m: Mutex): Mutex {
    m.(owner := 0, count := 0, abandoned := true)
  }

  /** One slot of the sweep that runs when thread `tid` exits. */
  function OwnerExitAt(k: Kernel, tid: nat, slot: nat): (r: Kernel)
    requires WF(k) && slot < MAX_MUTEXES && k.mutexes[slot].generation <= GENERATION_MAX
    ensures WF(r)
  {
    var m := k.mutexes[slot];
    if !m.used || m.owner != tid then k
    else Handoff(k.(mutexes := k.mutexes[slot := Abandon(m)]), slot, MutexHandle(slot, m.generation))
  }

  predicate Generations(ms: seq<Mutex>) {
    forall s :: 0 <= s < |ms| ==> ms[s].generation <= GENERATION_MAX
  }

  /** The sweep over the first `n` slots. */
  function OwnerExit(k: Kernel, tid: nat, n: nat): (r: Kernel)
    requires WF(k) && n <= MAX_MUTEXES && Generations(k.mutexes)
    ensures WF(r) && Generations(r.mutexes)
  {
    if n == 0 then k else OwnerExitAt(OwnerExit(k, tid, n - 1), tid, n - 1)
  }

  // ---- names ---------------------------------------------------------------------------

  datatype NameArg = NoName | BadName | Name(text: string)

  function Text(n: NameArg): string {
    if n.Name? then n.text else ""
  }

  /** The first used slot below `n` with this (nonempty) name, or -1. */
  function MutexNamed(ms: seq<Mutex>, name: string): (s: int)
    ensures -1 <= s < |ms| && (s >= 0 ==> ms[s].used)
  {
    if ms == [] || name == "" then -1
    else
      var s := MutexNamed(ms[..|ms| - 1], name);
      var m := ms[|ms| - 1];
      if s >= 0 then s else if m.used && SameName(name, m.name) then |ms| - 1 else -1
  }

  function FreeMutex(ms: seq<Mutex>): (s: int)
    ensures -1 <= s < |ms| && (s >= 0 ==> !ms[s].used && ms[s].generation < GENERATION_MAX)
  {
    if ms == [] then -1
    else
      var s := FreeMutex(ms[..|ms| - 1]);
      var m := ms[|ms| - 1];
      if s >= 0 then s else if !m.used && m.generation < GENERATION_MAX then |ms| - 1 else -1
  }

  function EventNamed(es: seq<Event>, name: string): (s: int)
    ensures -1 <= s < |es| && (s >= 0 ==> es[s].used)
  {
    if es == [] || name == "" then -1
    else
      var s := EventNamed(es[..|es| - 1], name);
      var e := es[|es| - 1];
      if s >= 0 then s else if e.used && SameName(name, e.name) then |es| - 1 else -1
  }

  function FreeEvent(es: seq<Event>): (s: int)
    ensures -1 <= s < |es| && (s >= 0 ==> !es[s].used && es[s].generation < GENERATION_MAX)
  {
    if es == [] then -1
    else
      var s := FreeEvent(es[..|es| - 1]);
      var e := es[|es| - 1];
      if s >= 0 then s else if !e.used && e.generation < GENERATION_MAX then |es| - 1 else -1
  }

  // ---- mutex calls -------------------------------------------------------------------------

  function Cur(k: Kernel): Thread
    requires WF(k)
  {
    k.threads[k.current]
  }

  function Fails(k: Kernel, rc: nat): Reply {
    Reply(k, rc, [])
  }

  function SetMutex(k: Kernel, slot: nat, m: Mutex): Kernel
    requires WF(k) && slot < MAX_MUTEXES
  {
    k.(mutexes := k.mutexes[slot := m])
  }

  function SetEvent(k: Kernel, slot: nat, e: Event): Kernel
    requires WF(k) && slot < MAX_EVENT_SEMS
  {
    k.(events := k.events[slot := e])
  }

  /** Ordinal 331. `initial` is nonzero when the caller starts as the owner. */
  function MutexCreate(k: Kernel, name: NameArg, cell: U32, attr: U32, initial: U32): Reply
    requires WF(k)
  {
    if !Writable(cell) || name.BadName? || attr > 1 || initial > 1 then Fails(k, INVALID_PARAMETER)
    else if MutexNamed(k.mutexes, Text(name)) >= 0 then Fails(k, DUPLICATE_NAME)
    else
      var s := FreeMutex(k.mutexes);
      if s < 0 then Fails(k, TOO_MANY_OPENS)
      else
        var g := k.mutexes[s].generation + 1;
        var m := Mutex(true, g, 1, if initial != 0 then Cur(k).tid else 0, if initial != 0 then 1 else 0, false, Text(name));
        Reply(SetMutex(k, s, m), NO_ERROR, [Store(cell, MutexHandle(s, g))])
  }

  /** Ordinal 332: by name, or by the handle already in `cell`. */
  function MutexOpen(k: Kernel, name: NameArg, cell: U32, handle: U32): Reply
    requires WF(k)
  {
    if !Writable(cell) || name.BadName? then Fails(k, INVALID_PARAMETER)
    else
      var s := MutexNamed(k.mutexes, Text(name));
      if s >= 0 then
        var m := k.mutexes[s];
        Reply(SetMutex(k, s, m.(refs := Next32(m.refs))), NO_ERROR, [Store(cell, MutexHandle(s, m.generation))])
      else if name.Name? then Fails(k, SEM_NOT_FOUND)
      else
        var r := ResolveMutex(k.mutexes, handle);
        if r < 0 then Fails(k, INVALID_HANDLE)
        else Reply(SetMutex(k, r, k.mutexes[r].(refs := Next32(k.mutexes[r].refs))), NO_ERROR, [])
  }

  /** Ordinal 333. */
  function MutexClose(k: Kernel, h: U32): Reply
    requires WF(k)
  {
    var s := ResolveMutex(k.mutexes, h);
    if s < 0 then Fails(k, INVALID_HANDLE)
    else
      var m := k.mutexes[s];
      if m.refs > 1 then Reply(SetMutex(k, s, m.(refs := m.refs - 1)), NO_ERROR, [])
      else if m.owner != 0 || FirstWaiter(k.threads, WaitMutex, h) >= 0 then Fails(k, SEM_BUSY)
      else Reply(SetMutex(k, s, Mutex(false, 0, 0, 0, 0, false, "")), NO_ERROR, [])
  }

  /** Ordinal 334: recursive, immediate, polled or blocking. */
  function MutexRequest(k: Kernel, h: U32, timeout: U32, now: nat): Reply
    requires WF(k)
  {
    var s := ResolveMutex(k.mutexes, h);
    if s < 0 then Fails(k, INVALID_HANDLE)
    else
      var m, me := k.mutexes[s], Cur(k).tid;
      if m.owner == me then
        if m.count == 0xffffffff then Fails(k, TOO_MANY_SEM_REQUESTS)
        else Reply(SetMutex(k, s, m.(count := m.count + 1)), NO_ERROR, [])
      else if m.owner == 0 then
        Reply(SetMutex(k, s, m.(owner := me, count := 1, abandoned := false)),
              if m.abandoned then SEM_OWNER_DIED else NO_ERROR, [])
      else if timeout == 0 then Fails(k, SEM_TIMEOUT)
      else Reply(Block(k, WaitMutex, h, timeout, now), NO_ERROR, [])
  }

  /** Ordinal 335. */
  function MutexRelease(k: Kernel, h: U32): Reply
    requires WF(k)
  {
    var s := ResolveMutex(k.mutexes, h);
    if s < 0 then Fails(k, INVALID_HANDLE)
    else
      var m := k.mutexes[s];
      if m.owner != Cur(k).tid then Fails(k, NOT_OWNER)
      else if m.count != 1 then Reply(SetMutex(k, s, m.(count := Prev32(m.count))), NO_ERROR, [])
      else Reply(Handoff(SetMutex(k, s, m.(owner := 0, count := 0)), s, h), NO_ERROR, [])
  }

  /** Ordinal 336. */
  function MutexQuery(k: Kernel, h: U32, state: U32, owner: U32, count: U32): Reply
    requires WF(k)
  {
    var s := ResolveMutex(k.mutexes, h);
    if s < 0 then Fails(k, INVALID_HANDLE)
    else if !Writable(state) || !Writable(owner) || !Writable(count) then Fails(k, INVALID_PARAMETER)
    else
      var m := k.mutexes[s];
      Reply(k, NO_ERROR, [Store(state, if m.owner != 0 then 1 else 0), Store(owner, m.owner), Store(count, m.count)])
  }

  // ---- event calls -----------------------------------------------------------------------------

  /** Ordinal 324. */
  function EventCreate(k: Kernel, name: NameArg, cell: U32, attr: U32, posted: U32): Reply
    requires WF(k)
  {
    if !Writable(cell) || name.BadName? || attr > 1 then Fails(k, INVALID_PARAMETER)
    else if EventNamed(k.events, Text(name)) >= 0 then Fails(k, DUPLICATE_NAME)
    else
      var s := FreeEvent(k.events);
      if s < 0 then Fails(k, TOO_MANY_OPENS)
      else
        var g := k.events[s].generation + 1;
        Reply(SetEvent(k, s, Event(true, g, 1, if posted != 0 then 1 else 0, Text(name))), NO_ERROR,
              [Store(cell, EventHandle(s, g))])
  }

  /** Ordinal 325. */
  function EventOpen(k: Kernel, name: NameArg, cell: U32, handle: U32): Reply
    requires WF(k)
  {
    if !Writable(cell) || name.BadName? then Fails(k, INVALID_PARAMETER)
    else
      var s := EventNamed(k.events, Text(name));
      if s >= 0 then
        var e := k.events[s];
        Reply(SetEvent(k, s, e.(refs := Next32(e.refs))), NO_ERROR, [Store(cell, EventHandle(s, e.generation))])
      else if name.Name? then Fails(k, SEM_NOT_FOUND)
      else
        var r := ResolveEvent(k.events, handle);
        if r < 0 then Fails(k, INVALID_HANDLE)
        else Reply(SetEvent(k, r, k.events[r].(refs := Next32(k.events[r].refs))), NO_ERROR, [])
  }

  /** Ordinal 326. */
  function EventClose(k: Kernel, h: U32): Reply
    requires WF(k)
  {
    var s := ResolveEvent(k.events, h);
    if s < 0 then Fails(k, INVALID_HANDLE)
    else
      var e := k.events[s];
      if e.refs > 1 then Reply(SetEvent(k, s, e.(refs := e.refs - 1)), NO_ERROR, [])
      else if FirstWaiter(k.threads, WaitEvent, h) >= 0 then Fails(k, SEM_BUSY)
      else Reply(SetEvent(k, s, Event(false, 0, 0, 0, "")), NO_ERROR, [])
  }

  /** Ordinal 327. */
  function EventReset(k: Kernel, h: U32, cell: U32): Reply
    requires WF(k)
  {
    var s := ResolveEvent(k.events, h);
    if !Writable(cell) then Fails(k, INVALID_PARAMETER)
    else if s < 0 then Fails(k, INVALID_HANDLE)
    else
      var e := k.events[s];
      Reply(SetEvent(k, s, e.(posts := 0)), if e.posts == 0 then ALREADY_RESET else NO_ERROR, [Store(cell, e.posts)])
  }

  /** Ordinal 328: every waiter wakes; the post count wraps at 32 bits. */
  function EventPost(k: Kernel, h: U32): Reply
    requires WF(k)
  {
    var s := ResolveEvent(k.events, h);
    if s < 0 then Fails(k, INVALID_HANDLE)
    else
      var e := k.events[s];
      Reply(SetEvent(k, s, e.(posts := Next32(e.posts))).(threads := WakeEvent(k.threads, h)),
            if e.posts != 0 then ALREADY_POSTED else NO_ERROR, [])
  }

  /** Ordinal 329. */
  function EventWait(k: Kernel, h: U32, timeout: U32, now: nat): Reply
    requires WF(k)
  {
    var s := ResolveEvent(k.events, h);
    if s < 0 then Fails(k, INVALID_HANDLE)
    else if k.events[s].posts != 0 then Fails(k, NO_ERROR)
    else if timeout == 0 then Fails(k, SEM_TIMEOUT)
    else Reply(Block(k, WaitEvent, h, timeout, now), NO_ERROR, [])
  }

  /** Ordinal 330. */
  function EventQuery(k: Kernel, h: U32, cell: U32): Reply
    requires WF(k)
  {
    var s := ResolveEvent(k.events, h);
    if !Writable(cell) then Fails(k, INVALID_PARAMETER)
    else if s < 0 then Fails(k, INVALID_HANDLE)
    else Reply(k, NO_ERROR, [Store(cell, k.events[s].posts)])
  }

  // ---- threads ---------------------------------------------------------------------------------------

  /** The first slot that `ThreadCreate` may overwrite, or -1. */
  function SpareThread(ts: seq<Thread>): (s: int)
    ensures -1 <= s < |ts| && (s >= 0 ==> !Live(ts[s]))
  {
    if ts == [] then -1
    else
      var s := SpareThread(ts[..|ts| - 1]);
      var t := ts[|ts| - 1];
      if s >= 0 then s else if t.callbackDepth == 0 && !Live(t) then |ts| - 1 else -1
  }

  function PageUp(bytes: U32): U32 {
    Wrap(bytes + 0xfff) / 0x1000 * 0x1000
  }

  /** The register image a new thread starts with: cleared registers, and the entry point. */
  function StartImage(cpu: Image, entry: U32, esp: U32): Image {
    cpu.(eax := 0, esp := esp, others := [0, 0, 0, 0, 0, 0], flags := 2, ip := entry, nextIp := entry)
  }

  /** Ordinal 311. `stackBase` is what the guest allocator returned, 0 for no memory; the new
      stack holds the parameter above the return address of the exit stub. */
  function ThreadCreate(k: Kernel, ptid: U32, entry: U32, param: U32, flags: U32, stackSize: U32, stackBase: U32,
                        exitStub: U32): Reply
    requires WF(k)
  {
    if !Writable(ptid) || entry == 0 || stackSize == 0 || !GuestRange(entry, 1) || flags > 1 then Fails(k, INVALID_PARAMETER)
    else
      var s := SpareThread(k.threads);
      if s < 0 || stackBase == 0 then Fails(k, NOT_ENOUGH_MEMORY)
      else
        var top := Wrap(stackBase + PageUp(stackSize)) / 16 * 16;
        var t := Thread(k.nextTid, if flags == 1 then Suspended else Runnable, 0, 0, 0, 0, 0,
                        StartImage(k.cpu, entry, Wrap(top - 8)), true, 0);
        Reply(k.(threads := k.threads[s := t], nextTid := k.nextTid + 1), NO_ERROR,
              [Store(Wrap(top - 4), param), Store(Wrap(top - 8), exitStub), Store(ptid, k.nextTid)])
  }

  predicate Joins(t: Thread, tid: nat) {
    t.state == WaitThread && (t.waitTid == 0 || t.waitTid == tid)
  }

  function WakeJoined(t: Thread, tid: nat): Thread {
    if Joins(t, tid) then WithResult(t, NO_ERROR).(waitTid := 0, waitPtid := 0, state := Runnable) else t
  }

  function WakeJoiners(ts: seq<Thread>, tid: nat): (r: seq<Thread>)
    ensures |r| == |ts| && forall i :: 0 <= i < |ts| ==> r[i] == WakeJoined(ts[i], tid)
  {
    seq(|ts|, i requires 0 <= i < |ts| => WakeJoined(ts[i], tid))
  }

  function JoinStores(ts: seq<Thread>, tid: nat): seq<Store> {
    if ts == [] then []
    else
      var t := ts[|ts| - 1];
      JoinStores(ts[..|ts| - 1], tid) + (if Joins(t, tid) && Writable(t.waitPtid) then [Store(t.waitPtid, tid)] else [])
  }

  predicate AllGone(ts: seq<Thread>) {
    forall i :: 0 <= i < |ts| ==> !Live(ts[i])
  }

  /** `DosExit(EXIT_THREAD)`: give up mutexes, die, wake joiners. */
  function ThreadExit(k: Kernel): Reply
    requires WF(k) && Generations(k.mutexes)
  {
    var tid := Cur(k).tid;
    var r := OwnerExit(k, tid, MAX_MUTEXES);
    var dead := r.threads[r.current := r.threads[r.current].(state := Dead)];
    var ts := WakeJoiners(dead, tid);
    Reply(r.(threads := ts, threadExited := true, switchRequested := true,
             processExited := r.processExited || AllGone(ts)),
          NO_ERROR, JoinStores(dead, tid))
  }

  function FindThread(ts: seq<Thread>, tid: nat): (s: int)
    ensures -1 <= s < |ts|
    ensures s >= 0 ==> ts[s].state != Free && ts[s].tid == tid
    ensures s < 0 ==> forall i :: 0 <= i < |ts| ==> ts[i].state == Free || ts[i].tid != tid
  {
    if ts == [] then -1
    else
      var s := FindThread(ts[..|ts| - 1], tid);
      var t := ts[|ts| - 1];
      if s >= 0 then s else if t.state != Free && t.tid == tid then |ts| - 1 else -1
  }

  function FindDead(ts: seq<Thread>): (s: int)
    ensures -1 <= s < |ts|
    ensures s >= 0 ==> ts[s].state == Dead
    ensures s < 0 ==> forall i :: 0 <= i < |ts| ==> ts[i].state != Dead
  {
    if ts == [] then -1
    else
      var s := FindDead(ts[..|ts| - 1]);
      if s >= 0 then s else if ts[|ts| - 1].state == Dead then |ts| - 1 else -1
  }

  function Reap(k: Kernel, slot: nat, ptid: U32): Reply
    requires WF(k) && slot < MAX_THREADS
  {
    Reply(k.(threads := k.threads[slot := k.threads[slot].(state := Free)]), NO_ERROR, [Store(ptid, k.threads[slot].tid)])
  }

  function JoinBlock(k: Kernel, ptid: U32, option: U32, target: nat): Reply
    requires WF(k)
  {
    if option == 1 then Fails(k, THREAD_NOT_TERMINATED)
    else
      Reply(k.(threads := k.threads[k.current := Cur(k).(waitTid := target, waitPtid := ptid, state := WaitThread)],
               switchRequested := true), NO_ERROR, [])
  }

  /** Ordinal 349: wait for thread `target`, or for any thread when it is 0. */
  function ThreadWait(k: Kernel, ptid: U32, option: U32, target: U32): Reply
    requires WF(k)
  {
    if !GuestRange(ptid, 4) || option > 1 then Fails(k, INVALID_PARAMETER)
    else if target == 0 then
      var d := FindDead(k.threads);
      if d >= 0 then Reap(k, d, ptid) else JoinBlock(k, ptid, option, 0)
    else
      var s := FindThread(k.threads, target);
      if s < 0 && target < k.nextTid then Fails(k, NO_ERROR)
      else if s < 0 || s == k.current then Fails(k, INVALID_THREADID)
      else if k.threads[s].state == Dead then Reap(k, s, ptid)
      else JoinBlock(k, ptid, option, target)
  }

  /** Ordinals 32 and 229. */
  function Sleep(k: Kernel, ms: U32, now: nat): Reply
    requires WF(k)
  {
    var ts := if ms == 0 then k.threads else k.threads[k.current := Cur(k).(deadline := now + ms, state := Asleep)];
    Reply(k.(threads := ts, switchRequested := true), NO_ERROR, [])
  }

  /** Ordinal 234 with EXIT_PROCESS: nothing runs any more. */
  function ProcessExit(k: Kernel): Reply {
    Reply(k.(processExited := true), NO_ERROR, [])
  }

  /** A bridge that has nothing to deliver yet parks the caller and repeats the call later. */
  function BridgeWait(k: Kernel, queue: bool, delay: nat, now: nat): Reply
    requires WF(k)
  {
    Reply(k.(threads := k.threads[k.current := Cur(k).(deadline := now + delay, state := if queue then WaitQueue else WaitPm)],
             switchRequested := true), NO_ERROR, [])
  }

  // ---- the scheduler -------------------------------------------------------------------------------------

  predicate Expired(t: Thread, now: nat) {
    0 < t.deadline <= now
  }

  function Expire(t: Thread, now: nat): Thread {
    if !Expired(t, now) then t
    else if t.state == Asleep || t.state == WaitPm || t.state == WaitQueue then Ready(t, NO_ERROR)
    else if t.state == WaitEvent || t.state == WaitMutex then Ready(t, SEM_TIMEOUT)
    else t
  }

  function WakeExpired(ts: seq<Thread>, now: nat): (r: seq<Thread>)
    ensures |r| == |ts| && forall i :: 0 <= i < |ts| ==> r[i] == Expire(ts[i], now)
  {
    seq(|ts|, i requires 0 <= i < |ts| => Expire(ts[i], now))
  }

  /** The slot `n` places after `start`, around the table. */
  function Around(start: nat, n: nat): nat {
    (start + n) % MAX_THREADS
  }

  /** The first runnable slot at least `n` places after `start`, or -1. */
  function NextFrom(ts: seq<Thread>, start: nat, n: nat): (s: int)
    requires |ts| == MAX_THREADS && n <= MAX_THREADS + 1
    ensures -1 <= s < MAX_THREADS
    ensures s >= 0 ==> ts[s].state == Runnable
    decreases MAX_THREADS + 1 - n
  {
    if n > MAX_THREADS then -1
    else if ts[Around(start, n)].state == Runnable then Around(start, n)
    else NextFrom(ts, start, n + 1)
  }

  function NextRunnable(k: Kernel): (s: int)
    requires WF(k)
    ensures -1 <= s < MAX_THREADS
    ensures s >= 0 ==> k.threads[s].state == Runnable
  {
    NextFrom(k.threads, k.current, 1)
  }

  /** Thread `s` gets the processor. */
  function Dispatch(k: Kernel, s: nat): (r: Kernel)
    requires WF(k) && s < MAX_THREADS
    ensures WF(r)
  {
    k.(current := s, threads := k.threads[s := k.threads[s].(state := Running)], cpu := k.threads[s].regs)
  }

  /** What `switch_after_hypercall` does before it looks for the next thread. */
  function Park(k: Kernel): (r: Kernel)
    requires WF(k)
    ensures WF(r)
  {
    var t := Cur(k);
    var ts :=
      if k.threadExited then k.threads
      else
        k.threads[k.current := t.(regs := k.cpu.(ip := k.cpu.nextIp), regsValid := true,
                                  state := if t.state == Running then Runnable else t.state)];
    k.(threads := ts, switchRequested := false, threadExited := false)
  }
}
