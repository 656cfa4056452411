/** Steps of the guest, and runs of them: a host call or the end of a slice, then the scheduler. */
module KernelRuns {
  import opened Words
  import opened KernelTypes
  import opened KernelCalls
  import opened KernelInvariant
  import opened KernelSteps

  /** Other guest code runs; a host call is made at clock reading `now`, and the scheduler, if
      it is asked, finds a thread at reading `wake`; or the time slice ends. */
  datatype Step =
    | Compute(cpu: Image)
    | HostService(call: Call, now: nat, wake: nat)
    | Preempt(wake: nat)

  /** The guest goes on; a modal pump has nothing to run; or the run has ended. */
  datatype Outcome = Continue(kernel: Kernel) | Idle(kernel: Kernel) | Stopped(kernel: Kernel)

  function Woken(k: Kernel, now: nat): (r: Kernel)
    requires WF(k)
    ensures WF(r)
  {
    k.(threads := WakeExpired(k.threads, now))
  }

  function Switch(k: Kernel, wake: nat): (r: Outcome)
    requires WF(k)
    ensures WF(r.kernel)
  {
    var q := Woken(Park(k), wake);
    var n := NextRunnable(q);
    if n >= 0 then Continue(Dispatch(q, n)) else if q.modal then Idle(q) else Stopped(q)
  }

  /** The call's result goes to the caller's result register, if there is still a caller; a parked
      bridge call is made again. */
  function Answered(k: Kernel, call: Call, rc: nat): Kernel {
    if k.processExited then k
    else if call.WaitForBridge? then k.(cpu := k.cpu.(ip := Wrap(k.cpu.nextIp - 7), nextIp := Wrap(k.cpu.nextIp - 7)))
    else if k.threadExited then k
    else k.(cpu := k.cpu.(eax := rc))
  }

  function Served(k: Kernel, call: Call, now: nat): (r: Kernel)
    requires WF(k) && Generations(k.mutexes)
  {
    var reply := Perform(k, call, now);
    Answered(reply.kernel, call, reply.rc)
  }

  /** A state in which the guest executes: one thread runs, it is the current one, and every
      other live thread can be resumed. */
  ghost predicate Running1(k: Kernel) {
    Inv(k) && Executing(k) && OthersParked(k) && k.nextTid > 0 && !k.switchRequested && !k.threadExited && !k.processExited
  }

  ghost predicate OthersParked(k: Kernel)
    requires WF(k)
  {
    forall i :: 0 <= i < MAX_THREADS ==>
      (i != k.current ==> k.threads[i].state != Running) && (Live(k.threads[i]) ==> k.threads[i].regsValid)
  }

  ghost function After(k: Kernel, step: Step): (r: Outcome)
    requires Running1(k)
    ensures WF(r.kernel)
  {
    match step
    case Compute(cpu) => Continue(k.(cpu := cpu))
    case Preempt(wake) => Switch(k, wake)
    case HostService(call, now, wake) =>
      InvGenerations(k);
      var r := Served(k, call, now);
      PerformKeeps(k, call, now);
      if r.processExited then Stopped(r) else if r.switchRequested then Switch(r, wake) else Continue(r)
  }

  // ---- safety ----------------------------------------------------------------------------

  /** Between the caller's service and the scheduler. */
  ghost predicate Leaving(k: Kernel) {
    Inv(k) && OthersParked(k) && k.nextTid > 0 && !k.processExited &&
    (if k.threadExited then k.threads[k.current].state == Dead else Live(k.threads[k.current]))
  }

  lemma FrameParks(k: Kernel, r: Kernel)
    requires WF(k) && Executing(k) && OthersParked(k) && Frame(k, r)
    ensures OthersParked(r)
  {
    forall i | 0 <= i < MAX_THREADS
      ensures (i != k.current ==> r.threads[i].state != Running) && (Live(r.threads[i]) ==> r.threads[i].regsValid)
    {
      assert i != k.current ==> Moved(k.threads[i], r.threads[i], k.nextTid);
    }
  }

  lemma ServedLeaves(k: Kernel, call: Call, now: nat)
    requires Running1(k) && Generations(k.mutexes)
    ensures var r := Served(k, call, now);
            Inv(r) && (!r.processExited ==> Leaving(r)) && (!r.switchRequested && !r.processExited ==> Running1(r)) &&
            r.current == k.current && r.modal == k.modal
  {
    hide Inv, Perform, Frame, OthersParked, ThreadExit;
    InvWF(k);
    PerformKeeps(k, call, now);
    var r := Perform(k, call, now).kernel;
    if call.ExitThread? {
      ExitFrame(k);
      assert r == ThreadExit(k).kernel by { ExitIs(k, call, now); }
    } else {
      PerformFrame(k, call, now);
    }
    FrameParks(k, r);
    FrameFacts(k, r);
    var s := Served(k, call, now);
    SameCore(r, s);
    SameParked(r, s);
  }

  lemma ExitIs(k: Kernel, call: Call, now: nat)
    requires WF(k) && Generations(k.mutexes) && call.ExitThread?
    ensures Perform(k, call, now) == ThreadExit(k)
  {
  }

  lemma FrameFacts(k: Kernel, r: Kernel)
    requires WF(k) && Frame(k, r)
    ensures WF(r) && r.current == k.current && r.modal == k.modal && k.nextTid <= r.nextTid && r.cpu == k.cpu && k.serial <= r.serial
  {
  }

  lemma SameParked(a: Kernel, b: Kernel)
    requires WF(a) && OthersParked(a) && WF(b) && b.threads == a.threads && b.current == a.current
    ensures OthersParked(b)
  {
  }

  ghost predicate AllParked(k: Kernel)
    requires WF(k)
  {
    forall i :: 0 <= i < MAX_THREADS ==> k.threads[i].state != Running && (Live(k.threads[i]) ==> k.threads[i].regsValid)
  }

  /** Saving the caller's registers changes no wait. */
  lemma SavingKeeps(k: Kernel, c: nat, regs: Image)
    requires Inv(k) && c < MAX_THREADS
    ensures Inv(k.(threads := k.threads[c := k.threads[c].(regs := regs, regsValid := true)]))
  {
    hide ResolveMutex, ResolveEvent, MutexesOk;
    var ts := k.threads[c := k.threads[c].(regs := regs, regsValid := true)];
    forall tid | LiveTid(k.threads, tid) ensures LiveTid(ts, tid) {
      var i :| 0 <= i < MAX_THREADS && Live(k.threads[i]) && k.threads[i].tid == tid;
      assert Live(ts[i]);
    }
    MutexesSurvive(k.threads, ts, k.mutexes);
    forall i | 0 <= i < MAX_THREADS
      ensures MutexWaitOk(k.mutexes, ts[i]) && EventWaitOk(k.events, ts[i]) && JoinOk(ts, ts[i])
    {
      assert MutexWaitOk(k.mutexes, k.threads[i]) && EventWaitOk(k.events, k.threads[i]) && JoinOk(k.threads, k.threads[i]);
    }
  }

  lemma ParkKeeps(k: Kernel)
    requires Leaving(k)
    ensures Inv(Park(k)) && AllParked(Park(k))
  {
    hide Inv, MutexWaitOk, EventWaitOk, JoinOk;
    InvWF(k);
    var c, p := k.current, Park(k);
    if k.threadExited {
      SameCore(k, p);
    } else {
      SavingKeeps(k, c, k.cpu.(ip := k.cpu.nextIp));
      var saved := k.(threads := k.threads[c := k.threads[c].(regs := k.cpu.(ip := k.cpu.nextIp), regsValid := true)]);
      assert forall i :: 0 <= i < MAX_THREADS ==>
        p.threads[i] == saved.threads[i] ||
        (Live(saved.threads[i]) && p.threads[i].tid == saved.threads[i].tid && p.threads[i].state == Runnable);
      Waking(saved, p.threads);
      SameCore(saved.(threads := p.threads), p);
    }
  }

  lemma WokenKeeps(k: Kernel, now: nat)
    requires Inv(k) && AllParked(k)
    ensures Inv(Woken(k, now)) && AllParked(Woken(k, now))
  {
    hide Inv;
    InvWF(k);
    Waking(k, Woken(k, now).threads);
  }

  lemma DispatchKeeps(k: Kernel, s: nat)
    requires Inv(k) && AllParked(k) && s < MAX_THREADS && k.threads[s].state == Runnable
    ensures Inv(Dispatch(k, s)) && Executing(Dispatch(k, s)) && OthersParked(Dispatch(k, s))
  {
    hide Inv;
    InvWF(k);
    var d := Dispatch(k, s);
    OneThread(k, s, d.threads[s], k.serial);
    SameCore(k.(threads := d.threads, serial := k.serial), d);
  }

  lemma SwitchKeeps(k: Kernel, wake: nat)
    requires Leaving(k)
    ensures var r := Switch(k, wake); Inv(r.kernel) && (if r.Continue? then Running1(r.kernel) else AllParked(r.kernel))
    ensures Switch(k, wake).kernel.modal == k.modal
  {
    hide Inv, WakeExpired, NextRunnable, AllParked, OthersParked;
    InvWF(k);
    ParkKeeps(k);
    WokenKeeps(Park(k), wake);
    var q := Woken(Park(k), wake);
    var n := NextRunnable(q);
    if n >= 0 {
      DispatchKeeps(q, n);
    }
  }

  /** One step keeps the kernel sound; when the guest goes on, exactly one thread runs. */
  lemma StepKeeps(k: Kernel, step: Step)
    requires Running1(k)
    ensures var r := After(k, step);
            Inv(r.kernel) && r.kernel.modal == k.modal && (r.Continue? ==> Running1(r.kernel)) &&
            (r.Idle? ==> AllParked(r.kernel))
  {
    hide Inv, OthersParked, AllParked, Switch, Served;
    InvWF(k);
    match step {
      case Compute(cpu) =>
        ComputeKeeps(k, cpu);
      case Preempt(wake) =>
        SwitchKeeps(k, wake);
      case HostService(call, now, wake) =>
        InvGenerations(k);
        ServedLeaves(k, call, now);
        var r := Served(k, call, now);
        if !r.processExited && r.switchRequested {
          SwitchKeeps(r, wake);
        }
    }
  }

  lemma ComputeKeeps(k: Kernel, cpu: Image)
    requires Running1(k)
    ensures Running1(k.(cpu := cpu))
  {
    hide Inv, OthersParked;
    InvWF(k);
    SameCore(k, k.(cpu := cpu));
    SameParked(k, k.(cpu := cpu));
  }

  // ---- runs --------------------------------------------------------------------------------

  ghost function Run(k: Kernel, steps: seq<Step>): (r: Outcome)
    requires Running1(k)
    ensures WF(r.kernel) && (r.Continue? ==> Running1(r.kernel))
    decreases |steps|
  {
    if steps == [] then Continue(k)
    else
      StepKeeps(k, steps[0]);
      var r := After(k, steps[0]);
      if r.Continue? then Run(r.kernel, steps[1..]) else r
  }

  /** The state in which the first thread starts. */
  function Boot(cpu: Image): Kernel {
    var idle := Thread(0, Free, 0, 0, 0, 0, 0, cpu, false, 0);
    Kernel([idle.(tid := 1, state := Running, regsValid := true)] + seq(31, i => idle),
           seq(MAX_EVENT_SEMS, i => Event(false, 0, 0, 0, "")), seq(MAX_MUTEXES, i => Mutex(false, 0, 0, 0, 0, false, "")),
           0, 2, 0, cpu, false, false, false, false)
  }

  lemma BootRuns(cpu: Image)
    ensures Running1(Boot(cpu))
  {
    hide ResolveMutex, ResolveEvent;
    var k := Boot(cpu);
    assert forall i :: 0 < i < MAX_THREADS ==> k.threads[i].state == Free;
  }
}
