/** Mutex ordering over whole histories. */
module KernelMutexRuns {
  import opened KernelTypes
  import opened KernelCalls
  import opened KernelInvariant
  import opened KernelSteps
  import opened KernelRuns
  import opened KernelScheduling
  import opened KernelHistories
  import opened KernelMutexOrder

  // ---- one step ------------------------------------------------------------------------------

  /** The scheduler moves no mutex, and changes a waiter only by timing it out. */
  lemma SwitchWaiters(k: Kernel, wake: nat, i: nat)
    requires WF(k) && i < MAX_THREADS
    ensures var r := Switch(k, wake).kernel;
            r.mutexes == k.mutexes && r.serial == k.serial &&
            (r.threads[i].state == WaitMutex ==>
               k.threads[i].state == WaitMutex && r.threads[i].waitEvent == k.threads[i].waitEvent &&
               r.threads[i].order == k.threads[i].order && r.threads[i].tid == k.threads[i].tid) &&
            (i != k.current && k.threads[i].state == WaitMutex ==>
               r.threads[i] == k.threads[i] || TimedOut(k.threads[i], r.threads[i], wake)) &&
            (i != k.current && k.threads[i].state == Runnable ==>
               r.threads[i] == k.threads[i] || r.threads[i] == k.threads[i].(state := Running))
  {
    hide NextFrom;
  }

  /** The wait reached its deadline, and its result says so. */
  predicate TimedOut(t: Thread, u: Thread, wake: nat) {
    Expired(t, wake) && u.tid == t.tid && (u.state == Runnable || u.state == Running) &&
    (t.regsValid ==> u.regs.eax == SEM_TIMEOUT)
  }

  function ServiceAt(step: Step): nat {
    match step case Compute(_) => 0 case HostService(_, _, wake) => wake case Preempt(wake) => wake
  }

  lemma ServedTables(k: Kernel, call: Call, now: nat)
    requires WF(k) && Generations(k.mutexes)
    ensures var r := Perform(k, call, now).kernel;
            Served(k, call, now).threads == r.threads && Served(k, call, now).mutexes == r.mutexes &&
            Served(k, call, now).serial == r.serial && Served(k, call, now).current == r.current &&
            (WF(r) ==> WF(Served(k, call, now)))
  {
    hide Perform;
  }

  /** Slots and their owners over a whole step. */
  lemma StepOwners(k: Kernel, step: Step, s: nat)
    requires Running1(k) && s < MAX_MUTEXES
    ensures k.mutexes[s].generation <= GENERATION_MAX && OwnerEffect(k, After(k, step).kernel, s)
  {
    hide Inv, OthersParked, Switch, Served, Perform, OwnerEffect;
    InvWF(k);
    SlotFacts(k, s);
    match step {
      case Compute(cpu) =>
        NoOwnerEffect(k, k.(cpu := cpu), s);
      case Preempt(wake) =>
        SwitchWaiters(k, wake, 0);
        NoOwnerEffect(k, Switch(k, wake).kernel, s);
      case HostService(call, now, wake) =>
        InvGenerations(k);
        CallOwners(k, call, now, s);
        ServedTables(k, call, now);
        SameOwnerEffect(k, Perform(k, call, now).kernel, Served(k, call, now), s);
        SwitchWaiters(Served(k, call, now), wake, 0);
        SameOwnerEffect(k, Served(k, call, now), Switch(Served(k, call, now), wake).kernel, s);
    }
  }

  lemma NoOwnerEffect(k: Kernel, r: Kernel, s: nat)
    requires Inv(k) && WF(r) && s < MAX_MUTEXES && r.mutexes == k.mutexes && k.mutexes[s].generation <= GENERATION_MAX
    ensures OwnerEffect(k, r, s)
  {
    hide Inv, Inherited;
    InvWF(k);
    SlotFacts(k, s);
  }

  lemma SameOwnerEffect(k: Kernel, r: Kernel, q: Kernel, s: nat)
    requires WF(k) && WF(r) && WF(q) && s < MAX_MUTEXES && q.mutexes == r.mutexes && k.mutexes[s].generation <= GENERATION_MAX
    requires OwnerEffect(k, r, s)
    ensures OwnerEffect(k, q, s)
  {
    hide Inherited;
  }

  /** A thread that waits for a mutex after a step waited for it before, or blocked in it. */
  lemma StepQueue(k: Kernel, step: Step, i: nat)
    requires Running1(k) && i < MAX_THREADS && After(k, step).kernel.threads[i].state == WaitMutex
    ensures var t, u := k.threads[i], After(k, step).kernel.threads[i];
            (i != k.current && t.state == WaitMutex && u.waitEvent == t.waitEvent && u.order == t.order && u.tid == t.tid) ||
            u.order > k.serial
  {
    hide Inv, OthersParked, Switch, Served, Perform, ThreadExit;
    InvWF(k);
    match step {
      case Compute(cpu) =>
      case Preempt(wake) =>
        SwitchWaiters(k, wake, i);
      case HostService(call, now, wake) =>
        InvGenerations(k);
        ServedTables(k, call, now);
        CallWF(k, call, now);
        CallFrame(k, call, now);
        SwitchWaiters(Served(k, call, now), wake, i);
    }
  }

  lemma CallFrame(k: Kernel, call: Call, now: nat)
    requires Inv(k) && Executing(k) && Generations(k.mutexes)
    ensures Frame(k, Perform(k, call, now).kernel)
  {
    hide Inv, Frame, Perform, ThreadExit;
    InvWF(k);
    if call.ExitThread? {
      ExitFrame(k);
      ExitIs(k, call, now);
    } else {
      PerformFrame(k, call, now);
    }
  }

  // ---- how a wait ends ---------------------------------------------------------------------------

  /** Thread `i` owns the mutex it waited for, and its result is the call's. */
  ghost predicate Granted(k: Kernel, step: Step, r: Kernel, i: nat)
    requires WF(k) && WF(r) && i < MAX_THREADS && Generations(k.mutexes)
  {
    var t, u := k.threads[i], r.threads[i];
    var s := Wanted(k, t);
    s >= 0 && step.HostService? && k.mutexes[s].owner == Cur(k).tid && i == Heir(k, s) &&
    r.mutexes[s].owner == t.tid && u.tid == t.tid && (u.state == Runnable || u.state == Running) &&
    ((step.call.ExitThread? && u.regs.eax == SEM_OWNER_DIED) ||
     (step.call.ReleaseMutex? && ResolveMutex(k.mutexes, step.call.handle) == s && u.regs.eax == NO_ERROR))
  }

  /** In one step a mutex wait goes on, ends with the mutex for the first in line, or times out. */
  lemma StepWaitEnds(k: Kernel, step: Step, i: nat)
    requires Running1(k) && i < MAX_THREADS && k.threads[i].state == WaitMutex
    ensures Generations(k.mutexes)
    ensures var r := After(k, step).kernel;
            r.threads[i] == k.threads[i] || Granted(k, step, r, i) || TimedOut(k.threads[i], r.threads[i], ServiceAt(step))
  {
    hide Inv, Switch, Served, Perform, Gains, Granted, TimedOut, Generations, Frame;
    InvWF(k);
    InvGenerations(k);
    match step {
      case Compute(cpu) =>
      case Preempt(wake) =>
        SwitchWaiters(k, wake, i);
      case HostService(call, now, wake) =>
        ServedTables(k, call, now);
        CallWaiter(k, call, now, i);
        CallFrame(k, call, now);
        CurrentKept(k, Perform(k, call, now).kernel);
        var r := Served(k, call, now);
        SwitchWaiters(r, wake, i);
        if r.threads[i] != k.threads[i] {
          GainsReady(k, call, Perform(k, call, now).kernel, i);
          Gaining(k, call, Perform(k, call, now).kernel, After(k, step).kernel, step, i);
        }
    }
  }

  lemma CurrentKept(k: Kernel, r: Kernel)
    requires WF(k) && Frame(k, r)
    ensures r.current == k.current
  {
  }

  lemma GainsReady(k: Kernel, call: Call, p: Kernel, i: nat)
    requires WF(k) && WF(p) && i < MAX_THREADS && Generations(k.mutexes) && Gains(k, call, p, i)
    ensures p.threads[i].state == Runnable
  {
    hide Heir, ResolveMutex;
  }

  lemma Gaining(k: Kernel, call: Call, p: Kernel, r: Kernel, step: Step, i: nat)
    requires WF(k) && WF(p) && WF(r) && i < MAX_THREADS && Generations(k.mutexes) && OthersParked(k)
    requires step.HostService? && step.call == call && Gains(k, call, p, i) && r.mutexes == p.mutexes
    requires r.threads[i] == p.threads[i] || r.threads[i] == p.threads[i].(state := Running)
    ensures Granted(k, step, r, i)
  {
    hide Heir, ResolveMutex;
    assert k.threads[i].state == WaitMutex;
  }

  // ---- who is ahead ----------------------------------------------------------------------------------

  /** The owner of slot `s`, and everybody who waits for it and blocked before `order`. */
  ghost function Ahead(k: Kernel, s: nat, order: nat): set<nat>
    requires WF(k) && s < MAX_MUTEXES
  {
    {k.mutexes[s].owner} +
    (set i | 0 <= i < MAX_THREADS && Wanted(k, k.threads[i]) == s && k.threads[i].order < order :: k.threads[i].tid)
  }

  /** While a wait goes on, nobody joins those ahead of it; and an owner that gives the mutex
      up leaves them. */
  lemma StepOrder(k: Kernel, step: Step, i: nat, s: nat)
    requires Running1(k) && i < MAX_THREADS && s < MAX_MUTEXES && Wanted(k, k.threads[i]) == s
    requires After(k, step).kernel.threads[i] == k.threads[i]
    ensures var r, o := After(k, step).kernel, k.threads[i].order;
            Wanted(r, r.threads[i]) == s && Ahead(r, s, o) <= Ahead(k, s, o) &&
            (r.mutexes[s].owner != k.mutexes[s].owner ==> k.mutexes[s].owner !in Ahead(r, s, o))
  {
    hide Running1, Inv, After, ResolveMutex, ResolveEvent, MutexHandle, Heir, OwnerEffect, Wanted;
    Facts(k);
    var r, o := After(k, step).kernel, k.threads[i].order;
    StepKeeps(k, step);
    StepOwners(k, step, s);
    WaiterFacts(k, i, s);
    NewOwner(k, r, i, s);
    forall j | 0 <= j < MAX_THREADS && Wanted(r, r.threads[j]) == s && r.threads[j].order < o
      ensures j != k.current && Wanted(k, k.threads[j]) == s && k.threads[j].order < o && k.threads[j].tid == r.threads[j].tid
    {
      WaitersOnly(r, r.threads[j]);
      StepQueue(k, step, j);
      SameWanted(k, r, s, j);
    }
    OldOwnerGone(k, r, i, s);
  }

  lemma Facts(k: Kernel)
    requires Running1(k)
    ensures Inv(k) && WF(k) && Executing(k) && OthersParked(k)
  {
  }

  lemma WaiterFacts(k: Kernel, i: nat, s: nat)
    requires Inv(k) && i < MAX_THREADS && s < MAX_MUTEXES && Wanted(k, k.threads[i]) == s
    ensures k.threads[i].state == WaitMutex && k.mutexes[s].owner != 0 && k.mutexes[s].used && k.threads[i].order <= k.serial
    ensures k.mutexes[s].owner != k.threads[i].tid && k.mutexes[s].generation <= GENERATION_MAX
    ensures k.threads[i].waitEvent == MutexHandle(s, k.mutexes[s].generation)
  {
    hide ResolveMutex, ResolveEvent, MutexHandle, LiveTid;
    SlotFacts(k, s);
    WantedMeans(k, k.threads[i], s);
    assert MutexWaitOk(k.mutexes, k.threads[i]);
  }

  lemma SameWanted(k: Kernel, r: Kernel, s: nat, j: nat)
    requires Inv(k) && Inv(r) && s < MAX_MUTEXES && j < MAX_THREADS && Wanted(r, r.threads[j]) == s
    requires k.mutexes[s].used && r.mutexes[s].generation == k.mutexes[s].generation
    requires k.threads[j].state == WaitMutex && r.threads[j].waitEvent == k.threads[j].waitEvent
    ensures Wanted(k, k.threads[j]) == s
  {
    hide Inv, MutexHandle, Wanted;
    InvWF(k);
    InvWF(r);
    WantedMeans(r, r.threads[j], s);
    WantedMeans(k, k.threads[j], s);
  }

  /** The owner after the step was the owner, or was ahead of the waiter. */
  lemma NewOwner(k: Kernel, r: Kernel, i: nat, s: nat)
    requires Inv(k) && Inv(r) && Executing(k) && i < MAX_THREADS && s < MAX_MUTEXES && Wanted(k, k.threads[i]) == s
    requires r.threads[i] == k.threads[i] && k.mutexes[s].generation <= GENERATION_MAX && OwnerEffect(k, r, s)
    ensures r.mutexes[s].used && r.mutexes[s].generation == k.mutexes[s].generation && Wanted(r, r.threads[i]) == s
    ensures r.mutexes[s].owner in Ahead(k, s, k.threads[i].order)
    ensures r.mutexes[s].owner != k.mutexes[s].owner ==> k.mutexes[s].owner == Cur(k).tid
  {
    hide Inv, MutexHandle, Heir, Wanted;
    InvWF(k);
    InvWF(r);
    WaiterFacts(k, i, s);
    WantedMeans(r, r.threads[i], s);
    WantedMeans(k, k.threads[i], s);
    WaiterFacts(r, i, s);
    if r.mutexes[s].owner != k.mutexes[s].owner {
      HeirMeans(k, s);
      HeirEarlier(k, i, Heir(k, s), s);
    }
  }

  lemma HeirEarlier(k: Kernel, i: nat, b: nat, s: nat)
    requires Inv(k) && i < MAX_THREADS && b < MAX_THREADS && s < MAX_MUTEXES
    requires Wanted(k, k.threads[i]) == s && Wanted(k, k.threads[b]) == s && k.threads[b].order <= k.threads[i].order
    ensures b != i ==> k.threads[b].order < k.threads[i].order
  {
    WaitersOnly(k, k.threads[i]);
    WaitersOnly(k, k.threads[b]);
  }

  lemma OldOwnerGone(k: Kernel, r: Kernel, i: nat, s: nat)
    requires Inv(k) && WF(r) && Executing(k) && i < MAX_THREADS && s < MAX_MUTEXES
    requires r.mutexes[s].owner != k.mutexes[s].owner ==> k.mutexes[s].owner == Cur(k).tid
    requires forall j :: 0 <= j < MAX_THREADS && Wanted(r, r.threads[j]) == s && r.threads[j].order < k.threads[i].order ==>
               j != k.current && Wanted(k, k.threads[j]) == s && k.threads[j].tid == r.threads[j].tid
    ensures r.mutexes[s].owner != k.mutexes[s].owner ==> k.mutexes[s].owner !in Ahead(r, s, k.threads[i].order)
  {
    hide Inv, Wanted;
    InvWF(k);
    forall j | 0 <= j < MAX_THREADS && j != k.current && Wanted(k, k.threads[j]) == s ensures k.threads[j].tid != Cur(k).tid {
      WaitersOnly(k, k.threads[j]);
      OtherTid(k, j);
    }
  }

  lemma OtherTid(k: Kernel, j: nat)
    requires Inv(k) && Executing(k) && j < MAX_THREADS && j != k.current && k.threads[j].state != Free
    ensures k.threads[j].tid != Cur(k).tid
  {
  }

  // ---- modal yields ---------------------------------------------------------------------------------------

  /** Setting the owner of a modal loop aside moves no mutex, and changes a waiter only by timing it out. */
  lemma EnterWaiters(k: Kernel, now: nat, i: nat)
    requires Running1(k) && i < MAX_THREADS
    ensures var r := Enter(k, now).kernel;
            r.mutexes == k.mutexes && (r.threads[i].state == WaitMutex ==> r.threads[i] == k.threads[i]) &&
            (k.threads[i].state == WaitMutex ==> r.threads[i] == k.threads[i] || TimedOut(k.threads[i], r.threads[i], now))
  {
    hide Inv, NextFrom;
  }

  /** Resuming it changes no waiter at all. */
  lemma ResumeWaiters(w: World, i: nat)
    requires WF(w.kernel) && w.owner.Some? && WF(w.owner.value) && i < MAX_THREADS
    requires w.kernel.threads[w.owner.value.current].state == HostCall
    ensures var r := Resumed(w).kernel;
            r.mutexes == w.kernel.mutexes &&
            (r.threads[i].state == WaitMutex || w.kernel.threads[i].state == WaitMutex ==> r.threads[i] == w.kernel.threads[i])
  {
  }

  lemma OwnerAside(w: World)
    requires Sound(w) && w.owner.Some?
    ensures WF(w.owner.value) && w.kernel.threads[w.owner.value.current].state == HostCall
  {
    hide Running1;
    SoundFacts(w);
  }

  /** A step that leaves a modal pump idle is followed by the owner's return. */
  lemma GuestWaiters(w: World, step: Step, i: nat)
    requires Sound(w) && i < MAX_THREADS
    ensures var q, r := After(w.kernel, step).kernel, At(Next(w, Guest(step)));
            r.mutexes == q.mutexes &&
            (r.threads[i].state == WaitMutex || q.threads[i].state == WaitMutex ==> r.threads[i] == q.threads[i]) &&
            (!After(w.kernel, step).Idle? ==> r == q)
  {
    hide Running1, After, Resumed;
    SoundFacts(w);
    if After(w.kernel, step).Idle? {
      IdleModal(w.kernel, step);
      OwnerAside(w);
      StepLeavesAside(w.kernel, step, w.owner.value.current);
      ResumeWaiters(w.(kernel := After(w.kernel, step).kernel), i);
    }
  }

  /** Moves other than steps leave mutexes and waits alone, except that a wait may time out. */
  lemma YieldWaiters(w: World, move: Move, i: nat)
    requires Sound(w) && i < MAX_THREADS && !move.Guest?
    ensures var k, r := w.kernel, At(Next(w, move));
            r.mutexes == k.mutexes && (r.threads[i].state == WaitMutex ==> r.threads[i] == k.threads[i]) &&
            (k.threads[i].state == WaitMutex ==> r.threads[i] == k.threads[i] || TimedOut(k.threads[i], r.threads[i], Clock(move)))
  {
    hide Running1, Enter, Leave, TimedOut;
    SoundFacts(w);
    if move.Yield? {
      if w.owner.None? {
        EnterWaiters(w.kernel, move.now, i);
      }
    } else if w.owner.Some? {
      OwnerAside(w);
      ResumeWaiters(w, i);
    }
  }

  function Clock(move: Move): nat {
    match move case Guest(step) => ServiceAt(step) case Yield(now) => now case Resume => 0
  }

  /** When a modal pump is left idle, nobody's wait has just ended. */
  lemma IdleWaits(k: Kernel, step: Step, i: nat)
    requires Running1(k) && i < MAX_THREADS && k.threads[i].state == WaitMutex && After(k, step).Idle?
    ensures After(k, step).kernel.threads[i] == k.threads[i]
  {
    hide Running1, After, Inv, Heir, ResolveMutex, Wanted;
    Facts(k);
    InvGenerations(k);
    IdleModal(k, step);
    IdleParks(k, step, i);
    StepWaitEnds(k, step, i);
  }

  lemma IdleParks(k: Kernel, step: Step, i: nat)
    requires Running1(k) && i < MAX_THREADS && After(k, step).Idle?
    ensures var t := After(k, step).kernel.threads[i]; t.state != Runnable && t.state != Running
  {
    hide Inv, OthersParked, Switch, Served;
    InvWF(k);
    StepKeeps(k, step);
    match step {
      case Preempt(wake) =>
        SwitchParks(k, wake, i);
      case HostService(call, now, wake) =>
        InvGenerations(k);
        ServedLeaves(k, call, now);
        InvWF(Served(k, call, now));
        SwitchParks(Served(k, call, now), wake, i);
      case Compute(_) =>
    }
  }

  lemma SwitchParks(k: Kernel, wake: nat, i: nat)
    requires WF(k) && i < MAX_THREADS && Switch(k, wake).Idle?
    ensures Switch(k, wake).kernel.threads[i].state != Runnable
  {
    hide WakeExpired, NextFrom, Distance;
    var q := Woken(Park(k), wake);
    if q.threads[i].state == Runnable {
      DecisionCloser(q.threads, q.current, i);
    }
  }

  /** A mutex wait goes on, ends with the mutex for the first in line, or times out. */
  lemma WaitEnds(w: World, move: Move, i: nat)
    requires Sound(w) && i < MAX_THREADS && w.kernel.threads[i].state == WaitMutex
    ensures Generations(w.kernel.mutexes)
    ensures var k, r := w.kernel, At(Next(w, move));
            r.threads[i] == k.threads[i] || TimedOut(k.threads[i], r.threads[i], Clock(move)) ||
            (move.Guest? && Granted(k, move.step, r, i))
  {
    hide Running1, After, Next, TimedOut, Granted, Executing;
    SoundFacts(w);
    InvGenerations(w.kernel);
    match move {
      case Guest(step) =>
        StepWaitEnds(w.kernel, step, i);
        GuestWaiters(w, step, i);
        if After(w.kernel, step).Idle? {
          IdleWaits(w.kernel, step, i);
        }
      case _ =>
        YieldWaiters(w, move, i);
    }
  }

  /** While a wait goes on, nobody joins those ahead of it; and an owner that gives the mutex
      up leaves them. */
  lemma MoveOrder(w: World, move: Move, i: nat, s: nat)
    requires Sound(w) && i < MAX_THREADS && s < MAX_MUTEXES && Wanted(w.kernel, w.kernel.threads[i]) == s
    requires At(Next(w, move)).threads[i] == w.kernel.threads[i]
    ensures var k, r, o := w.kernel, At(Next(w, move)), w.kernel.threads[i].order;
            Wanted(r, r.threads[i]) == s && Ahead(r, s, o) <= Ahead(k, s, o) &&
            (r.mutexes[s].owner != k.mutexes[s].owner ==> k.mutexes[s].owner !in Ahead(r, s, o))
  {
    hide Running1, After, Next, Wanted, Ahead, Executing, OthersParked, Inv;
    SoundFacts(w);
    WaitersOnly(w.kernel, w.kernel.threads[i]);
    if move.Guest? {
      GuestWaiters(w, move.step, i);
      var q := After(w.kernel, move.step).kernel;
      StepOrder(w.kernel, move.step, i, s);
      forall j | 0 <= j < MAX_THREADS && At(Next(w, move)).threads[j].state == WaitMutex
        ensures At(Next(w, move)).threads[j] == q.threads[j]
      {
        GuestWaiters(w, move.step, j);
      }
      QuietOrder(q, At(Next(w, move)), i, s);
    } else {
      YieldWaiters(w, move, i);
      forall j | 0 <= j < MAX_THREADS && At(Next(w, move)).threads[j].state == WaitMutex
        ensures At(Next(w, move)).threads[j] == w.kernel.threads[j]
      {
        YieldWaiters(w, move, j);
      }
      QuietOrder(w.kernel, At(Next(w, move)), i, s);
    }
  }

  lemma QuietOrder(k: Kernel, r: Kernel, i: nat, s: nat)
    requires WF(k) && WF(r) && r.mutexes == k.mutexes && i < MAX_THREADS && s < MAX_MUTEXES && Wanted(k, k.threads[i]) == s
    requires r.threads[i] == k.threads[i]
    requires forall j :: 0 <= j < MAX_THREADS && r.threads[j].state == WaitMutex ==> r.threads[j] == k.threads[j]
    ensures Wanted(r, r.threads[i]) == s && Ahead(r, s, k.threads[i].order) <= Ahead(k, s, k.threads[i].order)
  {
    hide ResolveMutex;
  }

  // ---- whole histories ----------------------------------------------------------------------------------------

  /** Thread slot `i` keeps waiting, undisturbed, through all the moves. */
  ghost predicate StillWaits(w: World, moves: seq<Move>, i: nat)
    requires Sound(w) && i < MAX_THREADS
    decreases |moves|
  {
    moves != [] ==>
      var r := Next(w, moves[0]);
      NextKeeps(w, moves[0]);
      r.Goes? && r.world.kernel.threads[i] == w.kernel.threads[i] && StillWaits(r.world, moves[1..], i)
  }

  /** How often slot `s` changes hands. */
  ghost function Transfers(w: World, moves: seq<Move>, s: nat): nat
    requires Sound(w) && s < MAX_MUTEXES
    decreases |moves|
  {
    if moves == [] then 0
    else
      var r := Next(w, moves[0]);
      NextKeeps(w, moves[0]);
      (if At(r).mutexes[s].owner != w.kernel.mutexes[s].owner then 1 else 0) +
      (if r.Goes? then Transfers(r.world, moves[1..], s) else 0)
  }

  /** No overtaking: as long as a thread waits for a mutex, through modal yields and all, every
      owner is somebody who was ahead of it from the start, and each of them owns it at most once. */
  lemma {:induction false} NoOvertaking(w: World, moves: seq<Move>, i: nat, s: nat)
    requires Sound(w) && i < MAX_THREADS && s < MAX_MUTEXES && Wanted(w.kernel, w.kernel.threads[i]) == s
    requires StillWaits(w, moves, i)
    ensures var k, r, o := w.kernel, At(History(w, moves)), w.kernel.threads[i].order;
            r.mutexes[s].owner in Ahead(k, s, o) && Ahead(r, s, o) <= Ahead(k, s, o) &&
            Transfers(w, moves, s) + |Ahead(r, s, o)| <= |Ahead(k, s, o)|
    decreases |moves|
  {
    hide Sound, Next, Wanted, Inv;
    SoundFacts(w);
    if moves != [] {
      var o := w.kernel.threads[i].order;
      MoveOrder(w, moves[0], i, s);
      NextKeeps(w, moves[0]);
      var q := Next(w, moves[0]).world;
      NoOvertaking(q, moves[1..], i, s);
      Subsets(Ahead(q.kernel, s, o), Ahead(w.kernel, s, o), w.kernel.mutexes[s].owner);
    }
  }

  lemma {:induction false} Subsets(a: set<nat>, b: set<nat>, x: nat)
    requires a <= b && x in b
    ensures |a| <= |b| && (x !in a ==> |a| < |b|)
  {
    Cardinal(a, b);
    if x !in a {
      Cardinal(a, b - {x});
    }
  }

  lemma {:induction false} Cardinal(a: set<nat>, b: set<nat>)
    requires a <= b
    ensures |a| <= |b|
  {
    if a != {} {
      var x :| x in a;
      Cardinal(a - {x}, b - {x});
    }
  }

  /** First come, first served: of two waiters for one mutex, the one that blocked later never
      owns it while the other still waits. */
  lemma FirstComeFirstServed(w: World, moves: seq<Move>, i: nat, j: nat, s: nat)
    requires Sound(w) && i < MAX_THREADS && j < MAX_THREADS && s < MAX_MUTEXES
    requires Wanted(w.kernel, w.kernel.threads[i]) == s && Wanted(w.kernel, w.kernel.threads[j]) == s
    requires w.kernel.threads[i].order < w.kernel.threads[j].order && StillWaits(w, moves, i)
    ensures At(History(w, moves)).mutexes[s].owner != w.kernel.threads[j].tid
  {
    hide Sound, Running1, History, StillWaits, Wanted, Inv;
    SoundFacts(w);
    var k := w.kernel;
    NoOvertaking(w, moves, i, s);
    WaiterFacts(k, j, s);
    forall x | 0 <= x < MAX_THREADS && Wanted(k, k.threads[x]) == s && k.threads[x].order < k.threads[i].order
      ensures k.threads[x].tid != k.threads[j].tid
    {
      WaitersOnly(k, k.threads[x]);
      DistinctTids(k, x, j);
    }
  }

  lemma DistinctTids(k: Kernel, x: nat, j: nat)
    requires Inv(k) && x < MAX_THREADS && j < MAX_THREADS && x != j && k.threads[x].state != Free && k.threads[j].state != Free
    ensures k.threads[x].tid != k.threads[j].tid
  {
  }
}
