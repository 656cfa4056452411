/** Every death of a mutex owner is reported once, or is still pending, or was closed away. */
module KernelOwnerDeath {
  import opened Words
  import opened KernelTypes
  import opened KernelCalls
  import opened KernelInvariant
  import opened KernelSteps
  import opened KernelRuns
  import opened KernelHistories
  import opened KernelMutexOrder
  import opened KernelMutexRuns

  /** The owner of slot `s` exits. */
  predicate Dies(k: Kernel, call: Call, s: nat)
    requires WF(k) && s < MAX_MUTEXES
  {
    call.ExitThread? && k.mutexes[s].owner == Cur(k).tid
  }

  /** Somebody acquires slot `s` and is told that its owner died. */
  predicate Told(k: Kernel, call: Call, s: nat)
    requires WF(k) && s < MAX_MUTEXES && k.mutexes[s].generation <= GENERATION_MAX
  {
    (call.RequestMutex? && ResolveMutex(k.mutexes, call.handle) == s && k.mutexes[s].owner == 0 && k.mutexes[s].abandoned) ||
    (Dies(k, call, s) && Heir(k, s) >= 0)
  }

  /** The last handle of an abandoned mutex is closed. */
  predicate Dropped(k: Kernel, call: Call, s: nat)
    requires WF(k) && s < MAX_MUTEXES
  {
    call.CloseMutex? && ResolveMutex(k.mutexes, call.handle) == s && k.mutexes[s].abandoned && k.mutexes[s].refs <= 1
  }

  function One(b: bool): nat {
    if b then 1 else 0
  }

  ghost predicate Balanced(k: Kernel, call: Call, r: Kernel, s: nat)
    requires WF(k) && WF(r) && s < MAX_MUTEXES && k.mutexes[s].generation <= GENERATION_MAX
  {
    One(r.mutexes[s].abandoned) + One(Told(k, call, s)) + One(Dropped(k, call, s)) ==
    One(k.mutexes[s].abandoned) + One(Dies(k, call, s))
  }

  lemma CallBalance(k: Kernel, call: Call, now: nat, s: nat)
    requires Inv(k) && Executing(k) && Generations(k.mutexes) && s < MAX_MUTEXES
    ensures WF(Perform(k, call, now).kernel) && Balanced(k, call, Perform(k, call, now).kernel, s)
  {
    hide Inv, ResolveMutex, Perform, Heir, Frame, Balanced;
    InvWF(k);
    SlotFacts(k, s);
    CallWF(k, call, now);
    match call {
      case CreateMutex(name, cell, attr, initial) => CreateBalance(k, call, now, s);
      case OpenMutex(name, cell, handle) => OpenBalance(k, call, now, s);
      case CloseMutex(h) => CloseBalance(k, call, now, s);
      case RequestMutex(h, timeout) => RequestBalance(k, call, now, s);
      case ReleaseMutex(h) => ReleaseBalance(k, call, now, s);
      case ExitThread => ExitBalance(k, call, now, s);
      case _ =>
        OtherCalls(k, call, now);
        QuietBalance(k, call, Perform(k, call, now).kernel, s);
    }
  }

  lemma QuietBalance(k: Kernel, call: Call, r: Kernel, s: nat)
    requires WF(k) && WF(r) && s < MAX_MUTEXES && k.mutexes[s].generation <= GENERATION_MAX && r.mutexes == k.mutexes
    requires !call.RequestMutex? && !call.CloseMutex? && !call.ExitThread?
    ensures Balanced(k, call, r, s)
  {
  }

  lemma CreateBalance(k: Kernel, call: Call, now: nat, s: nat)
    requires Inv(k) && Generations(k.mutexes) && s < MAX_MUTEXES && call.CreateMutex? && WF(Perform(k, call, now).kernel)
    ensures k.mutexes[s].generation <= GENERATION_MAX && Balanced(k, call, Perform(k, call, now).kernel, s)
  {
    hide Inv, MutexNamed, MutexHandle;
    InvWF(k);
    SlotFacts(k, s);
  }

  lemma OpenBalance(k: Kernel, call: Call, now: nat, s: nat)
    requires Inv(k) && Generations(k.mutexes) && s < MAX_MUTEXES && call.OpenMutex? && WF(Perform(k, call, now).kernel)
    ensures k.mutexes[s].generation <= GENERATION_MAX && Balanced(k, call, Perform(k, call, now).kernel, s)
  {
    hide Inv, MutexNamed, MutexHandle, ResolveMutex;
    InvWF(k);
    SlotFacts(k, s);
  }

  lemma CloseBalance(k: Kernel, call: Call, now: nat, s: nat)
    requires Inv(k) && Generations(k.mutexes) && s < MAX_MUTEXES && call.CloseMutex? && WF(Perform(k, call, now).kernel)
    ensures k.mutexes[s].generation <= GENERATION_MAX && Balanced(k, call, Perform(k, call, now).kernel, s)
  {
    hide Inv, MutexHandle, ResolveMutex;
    InvWF(k);
    SlotFacts(k, s);
    if ResolveMutex(k.mutexes, call.handle) == s && k.mutexes[s].owner == 0 {
      NobodyWaits(k, call.handle, s);
    }
  }

  /** Nobody waits for a mutex without an owner. */
  lemma NobodyWaits(k: Kernel, h: U32, s: nat)
    requires Inv(k) && s < MAX_MUTEXES && ResolveMutex(k.mutexes, h) == s && k.mutexes[s].owner == 0
    ensures FirstWaiter(k.threads, WaitMutex, h) < 0
  {
    hide ResolveMutex, ResolveEvent;
    forall i | 0 <= i < MAX_THREADS ensures !Waits(k.threads[i], WaitMutex, h) {
      assert MutexWaitOk(k.mutexes, k.threads[i]);
    }
  }

  lemma RequestBalance(k: Kernel, call: Call, now: nat, s: nat)
    requires Inv(k) && Executing(k) && Generations(k.mutexes) && s < MAX_MUTEXES && call.RequestMutex?
    requires WF(Perform(k, call, now).kernel)
    ensures k.mutexes[s].generation <= GENERATION_MAX && Balanced(k, call, Perform(k, call, now).kernel, s)
  {
    hide Inv, MutexHandle, ResolveMutex;
    InvWF(k);
    SlotFacts(k, s);
    CallerTid(k);
  }

  lemma ReleaseBalance(k: Kernel, call: Call, now: nat, s: nat)
    requires Inv(k) && Executing(k) && Generations(k.mutexes) && s < MAX_MUTEXES && call.ReleaseMutex?
    requires WF(Perform(k, call, now).kernel)
    ensures k.mutexes[s].generation <= GENERATION_MAX && Balanced(k, call, Perform(k, call, now).kernel, s)
  {
    hide Inv, MutexHandle, ResolveMutex, FirstWaiter, Heir, Handoff;
    InvWF(k);
    SlotFacts(k, s);
    ReleaseIs(k, call.handle);
  }

  lemma ExitBalance(k: Kernel, call: Call, now: nat, s: nat)
    requires Inv(k) && Executing(k) && Generations(k.mutexes) && s < MAX_MUTEXES && call.ExitThread?
    requires WF(Perform(k, call, now).kernel)
    ensures k.mutexes[s].generation <= GENERATION_MAX && Balanced(k, call, Perform(k, call, now).kernel, s)
  {
    hide Inv, MutexHandle, ResolveMutex, FirstWaiter, Heir, ThreadExit, Inherits;
    InvWF(k);
    SlotFacts(k, s);
    ExitIs(k, call, now);
    ExitIsSweep(k);
    CallerTid(k);
  }

  /** Being told is not silent: a direct request returns the code, and a waiter finds it in its
      result register; both own the mutex now. */
  lemma ToldMeans(k: Kernel, call: Call, now: nat, s: nat)
    requires Inv(k) && Executing(k) && Generations(k.mutexes) && s < MAX_MUTEXES && Told(k, call, s)
    ensures var reply := Perform(k, call, now);
            WF(reply.kernel) &&
            if call.RequestMutex? then reply.rc == SEM_OWNER_DIED && reply.kernel.mutexes[s].owner == Cur(k).tid
            else
              var b := Heir(k, s);
              b >= 0 && reply.kernel.mutexes[s].owner == k.threads[b].tid &&
              reply.kernel.threads[b] == Ready(k.threads[b], SEM_OWNER_DIED)
  {
    hide Inv, MutexHandle, ResolveMutex, FirstWaiter, Heir, ThreadExit, Wanted;
    InvWF(k);
    SlotFacts(k, s);
    CallWF(k, call, now);
    CallerTid(k);
    if call.ExitThread? {
      ExitIs(k, call, now);
      ExitIsSweep(k);
      HeirMeans(k, s);
      WaitersOnly(k, k.threads[Heir(k, s)]);
    }
  }

  /** Only an abandoned mutex makes a request return that code. */
  lemma OnlyTold(k: Kernel, h: U32, timeout: U32, now: nat)
    requires WF(k) && MutexRequest(k, h, timeout, now).rc == SEM_OWNER_DIED
    ensures var s := ResolveMutex(k.mutexes, h);
            s >= 0 && (k.mutexes[s].generation <= GENERATION_MAX ==> Told(k, RequestMutex(h, timeout), s))
  {
    hide ResolveMutex;
  }

  // ---- whole histories ------------------------------------------------------------------------

  datatype Tally = Tally(deaths: nat, told: nat, dropped: nat)

  ghost function Tallied(w: World, moves: seq<Move>, s: nat): Tally
    requires Sound(w) && s < MAX_MUTEXES
    decreases |moves|
  {
    if moves == [] then Tally(0, 0, 0)
    else
      NextKeeps(w, moves[0]);
      SlotOf(w.kernel, s);
      var r := Next(w, moves[0]);
      var rest := if r.Goes? then Tallied(r.world, moves[1..], s) else Tally(0, 0, 0);
      if !Calls(moves[0]) then rest
      else
        var k, call := w.kernel, moves[0].step.call;
        Tally(rest.deaths + One(Dies(k, call, s)), rest.told + One(Told(k, call, s)), rest.dropped + One(Dropped(k, call, s)))
  }

  predicate Calls(move: Move) {
    move.Guest? && move.step.HostService?
  }

  lemma SlotOf(k: Kernel, s: nat)
    requires Running1(k) && s < MAX_MUTEXES
    ensures k.mutexes[s].generation <= GENERATION_MAX
  {
    hide Inv;
    SlotFacts(k, s);
  }

  lemma StepBalance(k: Kernel, step: Step, s: nat)
    requires Running1(k) && s < MAX_MUTEXES
    ensures k.mutexes[s].generation <= GENERATION_MAX
    ensures var a := After(k, step).kernel.mutexes[s].abandoned;
            if step.HostService? then
              One(a) + One(Told(k, step.call, s)) + One(Dropped(k, step.call, s)) == One(k.mutexes[s].abandoned) + One(Dies(k, step.call, s))
            else a == k.mutexes[s].abandoned
  {
    hide Inv, Switch, Served, Perform, Told, Dropped, Dies;
    InvWF(k);
    SlotOf(k, s);
    match step {
      case Compute(cpu) =>
      case Preempt(wake) =>
        SwitchWaiters(k, wake, 0);
      case HostService(call, now, wake) =>
        InvGenerations(k);
        CallBalance(k, call, now, s);
        ServedTables(k, call, now);
        SwitchWaiters(Served(k, call, now), wake, 0);
    }
  }

  lemma MoveBalance(w: World, move: Move, s: nat)
    requires Sound(w) && s < MAX_MUTEXES
    ensures w.kernel.mutexes[s].generation <= GENERATION_MAX
    ensures var k, a := w.kernel, At(Next(w, move)).mutexes[s].abandoned;
            if Calls(move) then
              var call := move.step.call;
              One(a) + One(Told(k, call, s)) + One(Dropped(k, call, s)) == One(k.mutexes[s].abandoned) + One(Dies(k, call, s))
            else a == k.mutexes[s].abandoned
  {
    hide Running1, After, Next, Told, Dropped, Dies;
    SoundFacts(w);
    SlotOf(w.kernel, s);
    if move.Guest? {
      StepBalance(w.kernel, move.step, s);
      GuestWaiters(w, move.step, 0);
    } else {
      YieldWaiters(w, move, 0);
    }
  }

  /** Over any history, each death of an owner is told to exactly one acquirer, or the mutex was
      closed with the news, or the mutex is still abandoned. */
  lemma {:induction false} DeathsAccounted(w: World, moves: seq<Move>, s: nat)
    requires Sound(w) && s < MAX_MUTEXES
    ensures var t := Tallied(w, moves, s);
            One(At(History(w, moves)).mutexes[s].abandoned) + t.told + t.dropped == One(w.kernel.mutexes[s].abandoned) + t.deaths
    decreases |moves|
  {
    hide Sound, Next, Told, Dropped, Dies;
    SoundFacts(w);
    if moves != [] {
      NextKeeps(w, moves[0]);
      MoveBalance(w, moves[0], s);
      var r := Next(w, moves[0]);
      if r.Goes? {
        DeathsAccounted(r.world, moves[1..], s);
      }
    }
  }
}
