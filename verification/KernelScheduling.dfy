/** Fairness of the round-robin scheduler, and the modal yield. */
module KernelScheduling {
  import opened KernelTypes
  import opened KernelCalls
  import opened KernelInvariant
  import opened KernelSteps
  import opened KernelRuns

  // ---- fairness -----------------------------------------------------------------------

  /** How many places after `from` slot `i` is looked at. */
  function Distance(from: nat, i: nat): (d: int)
    requires from < MAX_THREADS && i < MAX_THREADS
    ensures 1 <= d <= MAX_THREADS && Around(from, d) == i
  {
    if i > from then i - from else i + MAX_THREADS - from
  }

  lemma {:induction false} NextFromMeans(ts: seq<Thread>, start: nat, n: nat, i: nat)
    requires |ts| == MAX_THREADS && start < MAX_THREADS && i < MAX_THREADS && ts[i].state == Runnable
    requires 1 <= n <= Distance(start, i)
    ensures var s := NextFrom(ts, start, n);
            s >= 0 && exists m :: n <= m <= Distance(start, i) && s == Around(start, m)
    decreases MAX_THREADS + 1 - n
  {
    if ts[Around(start, n)].state != Runnable {
      assert n != Distance(start, i);
      NextFromMeans(ts, start, n + 1, i);
    } else {
      assert NextFrom(ts, start, n) == Around(start, n);
    }
  }

  lemma AroundDistance(from: nat, i: nat, m: nat)
    requires from < MAX_THREADS && i < MAX_THREADS && 1 <= m < Distance(from, i)
    ensures Around(from, m) != i && Distance(Around(from, m), i) == Distance(from, i) - m
  {
  }

  /** Every decision either picks a given runnable thread or comes closer to it. */
  lemma DecisionCloser(ts: seq<Thread>, current: nat, i: nat)
    requires |ts| == MAX_THREADS && current < MAX_THREADS && i < MAX_THREADS && ts[i].state == Runnable
    ensures var s := NextFrom(ts, current, 1);
            s >= 0 && (s == i || Distance(s, i) < Distance(current, i))
  {
    hide Distance, Around, NextFrom;
    NextFromMeans(ts, current, 1, i);
    var s := NextFrom(ts, current, 1);
    var m :| 1 <= m <= Distance(current, i) && s == Around(current, m);
    if m < Distance(current, i) {
      AroundDistance(current, i, m);
    }
  }

  /** The step ends in a scheduling decision. */
  ghost predicate Decides(k: Kernel, step: Step)
    requires Running1(k)
  {
    match step
    case Compute(_) => false
    case Preempt(_) => true
    case HostService(call, now, _) =>
      InvGenerations(k);
      Served(k, call, now).switchRequested
  }

  ghost function Decisions(k: Kernel, steps: seq<Step>): nat
    requires Running1(k)
    decreases |steps|
  {
    if steps == [] then 0
    else
      StepKeeps(k, steps[0]);
      var r := After(k, steps[0]);
      (if Decides(k, steps[0]) then 1 else 0) + (if r.Continue? then Decisions(r.kernel, steps[1..]) else 0)
  }

  /** Thread slot `i` is runnable before, between and after the steps of a run that goes on. */
  ghost predicate StaysRunnable(k: Kernel, steps: seq<Step>, i: nat)
    requires Running1(k) && i < MAX_THREADS
    decreases |steps|
  {
    StepsKeep();
    k.threads[i].state == Runnable &&
    (steps != [] ==> After(k, steps[0]).Continue? && StaysRunnable(After(k, steps[0]).kernel, steps[1..], i))
  }

  lemma StepsKeep()
    ensures forall k, step :: Running1(k) && After(k, step).Continue? ==> Running1(After(k, step).kernel)
  {
    hide Running1, After;
    forall k, step | Running1(k) && After(k, step).Continue? ensures Running1(After(k, step).kernel) {
      StepKeeps(k, step);
    }
  }

  lemma SwitchCloser(k: Kernel, wake: nat, i: nat)
    requires WF(k) && i < MAX_THREADS && i != k.current && k.threads[i].state == Runnable
    ensures var r := Switch(k, wake);
            r.Continue? && (r.kernel.current == i || Distance(r.kernel.current, i) < Distance(k.current, i))
  {
    hide Distance, NextFrom;
    var q := Woken(Park(k), wake);
    assert q.threads[i].state == Runnable;
    DecisionCloser(q.threads, q.current, i);
  }

  lemma ServedRunnable(k: Kernel, call: Call, now: nat, i: nat)
    requires Running1(k) && Generations(k.mutexes) && i < MAX_THREADS && k.threads[i].state == Runnable
    ensures var r := Served(k, call, now);
            WF(r) && r.threads[i].state == Runnable && r.current == k.current && i != k.current
  {
    hide Inv, Perform, ThreadExit;
    InvWF(k);
    if call.ExitThread? {
      ExitFrame(k);
      ExitIs(k, call, now);
    } else {
      PerformFrame(k, call, now);
    }
    assert Moved(k.threads[i], Perform(k, call, now).kernel.threads[i], k.nextTid);
  }

  lemma StepCloser(k: Kernel, step: Step, i: nat)
    requires Running1(k) && i < MAX_THREADS && k.threads[i].state == Runnable && After(k, step).Continue?
    ensures var r := After(k, step).kernel;
            if Decides(k, step) then r.current == i || Distance(r.current, i) < Distance(k.current, i)
            else r.current == k.current
  {
    hide Inv, OthersParked, Distance, Switch, Served;
    InvWF(k);
    match step {
      case Compute(cpu) =>
      case Preempt(wake) =>
        SwitchCloser(k, wake, i);
      case HostService(call, now, wake) =>
        InvGenerations(k);
        ServedRunnable(k, call, now, i);
        if Served(k, call, now).switchRequested {
          SwitchCloser(Served(k, call, now), wake, i);
        }
    }
  }

  /** Fairness: a thread that stays runnable is passed over by fewer decisions than its
      distance, so by at most 31. */
  lemma {:induction false} FairRun(k: Kernel, steps: seq<Step>, i: nat)
    requires Running1(k) && i < MAX_THREADS && StaysRunnable(k, steps, i)
    ensures Decisions(k, steps) < Distance(k.current, i) <= MAX_THREADS
    decreases |steps|
  {
    hide Running1, After, Decides, Distance;
    if steps != [] {
      StepKeeps(k, steps[0]);
      var r := After(k, steps[0]);
      StepCloser(k, steps[0], i);
      FairRun(r.kernel, steps[1..], i);
      NotCurrent(r.kernel, i);
    }
  }

  lemma NotCurrent(k: Kernel, i: nat)
    requires Running1(k) && i < MAX_THREADS && k.threads[i].state == Runnable
    ensures k.current != i
  {
  }

  // ---- the modal yield ---------------------------------------------------------------------

  /** The owner of a native modal loop is set aside and another thread runs; or there is none, and it
      goes on. */
  function Enter(k: Kernel, now: nat): (r: Outcome)
    requires WF(k)
    ensures WF(r.kernel)
  {
    var w := Woken(k, now);
    var aside := w.(threads := w.threads[w.current := w.threads[w.current].(state := HostCall)]);
    var n := NextRunnable(aside);
    if n < 0 then Idle(w)
    else Continue(Dispatch(aside, n).(modal := true, switchRequested := false, threadExited := false))
  }

  /** Whoever runs is paused, and the owner `k` gets everything back. */
  function Leave(r: Kernel, k: Kernel): Kernel
    requires WF(r) && WF(k)
  {
    var t := r.threads[r.current];
    var ts := if t.state != Running then r.threads
              else r.threads[r.current := t.(regs := r.cpu.(ip := r.cpu.nextIp), regsValid := true, state := Runnable)];
    r.(threads := ts[k.current := ts[k.current].(state := Running)], current := k.current, cpu := k.cpu,
       switchRequested := k.switchRequested, threadExited := k.threadExited, modal := false)
  }

  lemma SwitchLeavesAside(k: Kernel, wake: nat, i: nat)
    requires WF(k) && i < MAX_THREADS && i != k.current && k.threads[i].state == HostCall
    ensures Switch(k, wake).kernel.threads[i] == k.threads[i]
  {
    hide NextFrom;
  }

  lemma ServedLeavesAside(k: Kernel, call: Call, now: nat, i: nat)
    requires Running1(k) && Generations(k.mutexes) && i < MAX_THREADS && k.threads[i].state == HostCall
    ensures var r := Served(k, call, now);
            WF(r) && r.threads[i] == k.threads[i] && r.current == k.current && i != k.current
  {
    hide Inv, Perform, ThreadExit;
    InvWF(k);
    if call.ExitThread? {
      ExitFrame(k);
      ExitIs(k, call, now);
    } else {
      PerformFrame(k, call, now);
    }
    assert Moved(k.threads[i], Perform(k, call, now).kernel.threads[i], k.nextTid);
  }

  lemma StepLeavesAside(k: Kernel, step: Step, i: nat)
    requires Running1(k) && i < MAX_THREADS && k.threads[i].state == HostCall
    ensures After(k, step).kernel.threads[i] == k.threads[i]
  {
    hide Inv, OthersParked, Switch, Served;
    InvWF(k);
    match step {
      case Compute(cpu) =>
      case Preempt(wake) =>
        SwitchLeavesAside(k, wake, i);
      case HostService(call, now, wake) =>
        InvGenerations(k);
        ServedLeavesAside(k, call, now, i);
        SwitchLeavesAside(Served(k, call, now), wake, i);
    }
  }

  /** Nothing that runs during a modal yield touches the thread that yielded. */
  lemma {:induction false} RunLeavesAside(k: Kernel, steps: seq<Step>, i: nat)
    requires Running1(k) && i < MAX_THREADS && k.threads[i].state == HostCall
    ensures Run(k, steps).kernel.threads[i] == k.threads[i]
    decreases |steps|
  {
    hide Running1, After;
    if steps != [] {
      StepLeavesAside(k, steps[0], i);
      StepKeeps(k, steps[0]);
      var r := After(k, steps[0]);
      if r.Continue? {
        RunLeavesAside(r.kernel, steps[1..], i);
      }
    }
  }

  lemma EnterRuns(k: Kernel, now: nat)
    requires Running1(k) && !k.modal && Enter(k, now).Continue?
    ensures var e := Enter(k, now).kernel;
            Running1(e) && e.modal && e.threads[k.current] == k.threads[k.current].(state := HostCall) &&
            e.nextTid == k.nextTid
  {
    hide Inv, NextRunnable, WakeExpired;
    InvWF(k);
    var w := Woken(k, now);
    WokenFrame(k, now);
    var t := w.threads[w.current].(state := HostCall);
    var aside := w.(threads := w.threads[w.current := t]);
    OneThread(w, w.current, t, w.serial);
    SameCore(w.(threads := aside.threads, serial := w.serial), aside);
    var n := NextRunnable(aside);
    OneThread(aside, n, aside.threads[n].(state := Running), aside.serial);
    var e := Enter(k, now).kernel;
    SameCore(aside.(threads := e.threads, serial := aside.serial), e);
  }

  lemma WokenFrame(k: Kernel, now: nat)
    requires Inv(k) && Executing(k) && OthersParked(k)
    ensures Inv(Woken(k, now)) && Executing(Woken(k, now)) && OthersParked(Woken(k, now))
    ensures Woken(k, now).threads[k.current] == k.threads[k.current]
  {
    hide Inv;
    InvWF(k);
    Waking(k, Woken(k, now).threads);
  }

  ghost predicate Restored(x: Kernel, k: Kernel)
    requires WF(k)
  {
    Running1(x) && x.current == k.current && x.cpu == k.cpu && x.threads[k.current] == k.threads[k.current] &&
    x.switchRequested == k.switchRequested && x.threadExited == k.threadExited && x.modal == k.modal
  }

  /** However long other threads run inside a modal yield, the owner comes back exactly as it
      was: same thread record, same processor state, same pending flags, and it alone runs. */
  lemma ModalYield(k: Kernel, now: nat, steps: seq<Step>)
    requires Running1(k) && !k.modal && Enter(k, now).Continue?
    ensures Running1(Enter(k, now).kernel)
    ensures var r := Run(Enter(k, now).kernel, steps);
            !r.Stopped? ==> Restored(Leave(r.kernel, k), k)
  {
    hide Inv, Enter, OthersParked;
    InvWF(k);
    EnterRuns(k, now);
    var e := Enter(k, now).kernel;
    RunLeavesAside(e, steps, k.current);
    var r := Run(e, steps);
    if !r.Stopped? {
      RunEnds(e, steps);
      LeaveRuns(r.kernel, k);
    }
  }

  /** A run that ends in a modal pump leaves either one running thread or none. */
  ghost predicate Ended(k: Kernel) {
    Inv(k) && k.nextTid > 0 && !k.processExited && (Executing(k) ==> OthersParked(k)) && (!Executing(k) ==> AllParked(k))
  }

  lemma {:induction false} RunEnds(k: Kernel, steps: seq<Step>)
    requires Running1(k)
    ensures !Run(k, steps).Stopped? ==> Ended(Run(k, steps).kernel)
    decreases |steps|
  {
    hide Inv, Running1, OthersParked, AllParked, After, Ended;
    if steps == [] {
      RunningEnded(k);
    } else {
      StepKeeps(k, steps[0]);
      var r := After(k, steps[0]);
      if r.Continue? {
        RunEnds(r.kernel, steps[1..]);
      } else if r.Idle? {
        IdleEnded(k, steps[0]);
      }
    }
  }

  lemma RunningEnded(k: Kernel)
    requires Running1(k)
    ensures Ended(k)
  {
  }

  lemma IdleEnded(k: Kernel, step: Step)
    requires Running1(k) && After(k, step).Idle?
    ensures Ended(After(k, step).kernel)
  {
    hide Inv, OthersParked, WakeExpired, NextRunnable, Served;
    InvWF(k);
    StepKeeps(k, step);
    match step {
      case Preempt(wake) =>
        NotRunning(After(k, step).kernel);
      case HostService(call, now, wake) =>
        InvGenerations(k);
        ServedLeaves(k, call, now);
        NotRunning(After(k, step).kernel);
      case Compute(_) =>
    }
  }

  lemma NotRunning(k: Kernel)
    requires WF(k) && AllParked(k)
    ensures !Executing(k)
  {
  }

  lemma LeaveRuns(r: Kernel, k: Kernel)
    requires Ended(r) && Running1(k) && !k.modal
    requires r.threads[k.current] == k.threads[k.current].(state := HostCall)
    ensures var x := Leave(r, k);
            Restored(x, k)
  {
    hide Inv;
    InvWF(k);
    InvWF(r);
    var t := r.threads[r.current];
    var x := Leave(r, k);
    var paused := r;
    if t.state == Running {
      SavingKeeps(r, r.current, r.cpu.(ip := r.cpu.nextIp));
      var saved := r.(threads := r.threads[r.current := t.(regs := r.cpu.(ip := r.cpu.nextIp), regsValid := true)]);
      paused := r.(threads := r.threads[r.current := t.(regs := r.cpu.(ip := r.cpu.nextIp), regsValid := true, state := Runnable)]);
      Waking(saved, paused.threads);
      SameCore(saved.(threads := paused.threads), paused);
    }
    var mine := paused.threads[k.current].(state := Running);
    OneThread(paused, k.current, mine, paused.serial);
    SameCore(paused.(threads := paused.threads[k.current := mine], serial := paused.serial), x);
  }
}
