/** Whole histories of the guest: steps, and modal yields around them. */
module KernelHistories {
  import opened Options
  import opened KernelTypes
  import opened KernelCalls
  import opened KernelInvariant
  import opened KernelRuns
  import opened KernelScheduling

  /** The kernel, and inside a modal yield the state in which its owner was set aside. */
  datatype World = World(kernel: Kernel, owner: Option<Kernel>)

  /** A step of the guest; or a native modal loop yields at clock reading `now`; or the slice of
      the modal pump is used up and the owner resumes. */
  datatype Move = Guest(step: Step) | Yield(now: nat) | Resume

  datatype Stage = Goes(world: World) | Ends(last: Kernel)

  function At(s: Stage): Kernel {
    if s.Goes? then s.world.kernel else s.last
  }

  /** One thread runs; inside a modal yield the owner's record is as it left it, but set aside. */
  ghost predicate Sound(w: World) {
    Running1(w.kernel) && (w.kernel.modal <==> w.owner.Some?) &&
    (w.owner.Some? ==>
       var k := w.owner.value;
       Running1(k) && !k.modal && w.kernel.threads[k.current] == k.threads[k.current].(state := HostCall))
  }

  /** The owner of the modal yield, if there is one, gets everything back. */
  function Resumed(w: World): World
    requires WF(w.kernel) && (w.owner.Some? ==> WF(w.owner.value))
  {
    if w.owner.Some? then World(Leave(w.kernel, w.owner.value), None) else w
  }

  /** A pump without a runnable thread resumes its owner at once; a yield inside a modal yield, or
      one that finds nobody to run, returns at once. */
  ghost function Next(w: World, move: Move): (r: Stage)
    requires Sound(w)
    ensures WF(At(r))
  {
    match move
    case Guest(step) =>
      (match After(w.kernel, step)
       case Continue(k) => Goes(w.(kernel := k))
       case Idle(k) => Goes(Resumed(w.(kernel := k)))
       case Stopped(k) => Ends(k))
    case Yield(now) =>
      if w.owner.Some? then Goes(w)
      else
        var e := Enter(w.kernel, now);
        Goes(World(e.kernel, if e.Continue? then Some(w.kernel) else None))
    case Resume => Goes(Resumed(w))
  }

  // ---- one move -----------------------------------------------------------------------------

  lemma SoundFacts(w: World)
    requires Sound(w)
    ensures Running1(w.kernel) && Inv(w.kernel) && WF(w.kernel) && Executing(w.kernel) && OthersParked(w.kernel)
    ensures w.owner.Some? ==> Running1(w.owner.value) && WF(w.owner.value) && !w.owner.value.modal
  {
    hide Inv, OthersParked;
    InvWF(w.kernel);
    if w.owner.Some? {
      InvWF(w.owner.value);
    }
  }

  /** Only a modal pump is ever idle. */
  lemma IdleModal(k: Kernel, step: Step)
    requires Running1(k) && After(k, step).Idle?
    ensures k.modal && Ended(After(k, step).kernel) && !Executing(After(k, step).kernel)
  {
    hide Inv, OthersParked, Ended, Switch, Served;
    InvWF(k);
    IdleEnded(k, step);
    StepKeeps(k, step);
    match step {
      case Preempt(wake) =>
        SwitchIdle(k, wake);
      case HostService(call, now, wake) =>
        InvGenerations(k);
        ServedLeaves(k, call, now);
        InvWF(Served(k, call, now));
        SwitchIdle(Served(k, call, now), wake);
      case Compute(_) =>
    }
    NotRunning(After(k, step).kernel);
  }

  lemma SwitchIdle(k: Kernel, wake: nat)
    requires WF(k) && Switch(k, wake).Idle?
    ensures k.modal
  {
    hide NextRunnable, WakeExpired;
  }

  /** A yield that finds nobody leaves the world as it was but for the waits that are over. */
  lemma NobodyToRun(k: Kernel, now: nat)
    requires Running1(k) && !k.modal && !Enter(k, now).Continue?
    ensures Running1(Enter(k, now).kernel) && !Enter(k, now).kernel.modal
  {
    hide Inv, OthersParked, NextRunnable, WakeExpired;
    InvWF(k);
    WokenFrame(k, now);
  }

  lemma ResumedSound(w: World)
    requires WF(w.kernel) && Ended(w.kernel) && w.owner.Some? && Running1(w.owner.value) && !w.owner.value.modal
    requires var k := w.owner.value; WF(k) && w.kernel.threads[k.current] == k.threads[k.current].(state := HostCall)
    ensures Sound(Resumed(w)) && Restored(Resumed(w).kernel, w.owner.value)
  {
    hide Running1, Ended, Leave;
    LeaveRuns(w.kernel, w.owner.value);
    RestoredRuns(Resumed(w).kernel, w.owner.value);
  }

  lemma RestoredRuns(x: Kernel, k: Kernel)
    requires WF(k) && Restored(x, k)
    ensures Running1(x) && x.modal == k.modal
  {
  }

  /** Every move keeps the kernel sound. */
  lemma NextKeeps(w: World, move: Move)
    requires Sound(w)
    ensures Inv(At(Next(w, move))) && (Next(w, move).Goes? ==> Sound(Next(w, move).world))
  {
    hide Running1, Inv, Executing, OthersParked, After, Enter, Ended, Leave;
    SoundFacts(w);
    var k := w.kernel;
    match move {
      case Guest(step) =>
        StepKeeps(k, step);
        if w.owner.Some? {
          StepLeavesAside(k, step, w.owner.value.current);
        }
        if After(k, step).Idle? {
          IdleModal(k, step);
          ResumedSound(w.(kernel := After(k, step).kernel));
          SoundFacts(Resumed(w.(kernel := After(k, step).kernel)));
        }
      case Yield(now) =>
        if w.owner.None? {
          if Enter(k, now).Continue? {
            EnterRuns(k, now);
          } else {
            NobodyToRun(k, now);
          }
          SoundFacts(Next(w, move).world);
        }
      case Resume =>
        if w.owner.Some? {
          RunningEnded(k);
          ResumedSound(w);
          SoundFacts(Resumed(w));
        }
    }
  }

  // ---- histories ------------------------------------------------------------------------------

  ghost function History(w: World, moves: seq<Move>): (r: Stage)
    requires Sound(w)
    ensures WF(At(r)) && Inv(At(r)) && (r.Goes? ==> Sound(r.world))
    decreases |moves|
  {
    SoundFacts(w);
    if moves == [] then Goes(w)
    else
      NextKeeps(w, moves[0]);
      var r := Next(w, moves[0]);
      if r.Goes? then History(r.world, moves[1..]) else r
  }

  /** The world in which the first thread starts. */
  function Born(cpu: Image): World {
    World(Boot(cpu), None)
  }

  lemma BornSound(cpu: Image)
    ensures Sound(Born(cpu))
  {
    hide Running1;
    BootRuns(cpu);
  }

  /** Scheduler safety: however long the guest runs, inside modal yields and between them, every
      invariant of the kernel holds and exactly one thread is running, the current one; and inside
      a modal yield the owner can be resumed at any time exactly as it was. */
  lemma SafeRun(cpu: Image, moves: seq<Move>)
    ensures Sound(Born(cpu))
    ensures var r := History(Born(cpu), moves);
            Inv(At(r)) &&
            (r.Goes? ==>
               var k := r.world.kernel;
               (forall i :: 0 <= i < MAX_THREADS ==> (k.threads[i].state == Running <==> i == k.current)) &&
               (k.modal ==> WF(r.world.owner.value) && Restored(Leave(k, r.world.owner.value), r.world.owner.value)))
  {
    hide Inv, Boot, Ended, Leave, Restored;
    BornSound(cpu);
    var r := History(Born(cpu), moves);
    if r.Goes? {
      SoundFacts(r.world);
      if r.world.owner.Some? {
        RunningEnded(r.world.kernel);
        ResumedSound(r.world);
      }
    }
  }

  // ---- the round robin and modal yields -------------------------------------------------------------

  /** `n` times: the modal loop yields, the thread that is picked runs without asking for a switch,
      the slice is used up. */
  function Rounds(n: nat, now: nat, cpu: Image): seq<Move> {
    if n == 0 then [] else [Yield(now), Guest(Compute(cpu)), Resume] + Rounds(n - 1, now, cpu)
  }

  /** The thread that a yield picks. */
  function Picked(k: Kernel): (i: int)
    requires WF(k)
    ensures -1 <= i < MAX_THREADS
  {
    NextRunnable(k.(threads := k.threads[k.current := k.threads[k.current].(state := HostCall)]))
  }

  lemma {:induction false} NextSame(a: seq<Thread>, b: seq<Thread>, start: nat, n: nat)
    requires |a| == MAX_THREADS && |b| == MAX_THREADS && start < MAX_THREADS && 1 <= n <= MAX_THREADS + 1
    requires forall i :: 0 <= i < MAX_THREADS ==> a[i].state == b[i].state
    ensures NextFrom(a, start, n) == NextFrom(b, start, n)
    decreases MAX_THREADS + 1 - n
  {
    if n <= MAX_THREADS {
      NextSame(a, b, start, n + 1);
    }
  }

  /** Same threads but for the registers of one that is runnable. */
  ghost predicate Again(k: Kernel, x: Kernel, first: nat)
    requires WF(k) && first < MAX_THREADS
  {
    WF(x) && x.current == k.current && x.threads[first].state == k.threads[first].state == Runnable &&
    forall i :: 0 <= i < MAX_THREADS && i != first ==> x.threads[i] == k.threads[i]
  }

  lemma OneRound(k: Kernel, now: nat, cpu: Image)
    requires Running1(k) && !k.modal && Woken(k, now) == k && Picked(k) >= 0
    ensures Enter(k, now).Continue?
    ensures var x := Leave(Enter(k, now).kernel.(cpu := cpu), k);
            Again(k, x, Picked(k)) && Woken(x, now) == x && Picked(x) == Picked(k)
  {
    hide Inv, NextFrom;
    InvWF(k);
    var x := Leave(Enter(k, now).kernel.(cpu := cpu), k);
    var a := k.threads[k.current := k.threads[k.current].(state := HostCall)];
    assert a[Picked(k)].state == Runnable;
    assert WakeExpired(k.threads, now) == k.threads;
    forall i | 0 <= i < MAX_THREADS ensures WakeExpired(x.threads, now)[i] == x.threads[i] {
      assert WakeExpired(k.threads, now)[i] == k.threads[i];
    }
    assert WakeExpired(x.threads, now) == x.threads;
    NextSame(a, x.threads[k.current := x.threads[k.current].(state := HostCall)], k.current, 1);
  }

  lemma RoundWorlds(k: Kernel, now: nat, cpu: Image) returns (w1: World, w2: World, x: World)
    requires Running1(k) && !k.modal && Enter(k, now).Continue?
    ensures x == World(Leave(Enter(k, now).kernel.(cpu := cpu), k), None)
    ensures Sound(World(k, None)) && Sound(w1) && Sound(w2)
    ensures Next(World(k, None), Yield(now)) == Goes(w1) && Next(w1, Guest(Compute(cpu))) == Goes(w2) && Next(w2, Resume) == Goes(x)
  {
    hide Running1, Enter, Leave;
    Unyielded(k);
    w1 := World(Enter(k, now).kernel, Some(k));
    w2 := World(Enter(k, now).kernel.(cpu := cpu), Some(k));
    x := World(Leave(w2.kernel, k), None);
    NextKeeps(World(k, None), Yield(now));
    NextKeeps(w1, Guest(Compute(cpu)));
  }

  lemma RoundMoves(k: Kernel, now: nat, cpu: Image, rest: seq<Move>)
    requires Running1(k) && !k.modal && Enter(k, now).Continue?
    ensures var x := World(Leave(Enter(k, now).kernel.(cpu := cpu), k), None);
            Sound(World(k, None)) && Sound(x) &&
            History(World(k, None), [Yield(now), Guest(Compute(cpu)), Resume] + rest) == History(x, rest)
  {
    hide Running1, Enter, Leave, Sound, Next, History;
    var w1, w2, x := RoundWorlds(k, now, cpu);
    var moves := [Yield(now), Guest(Compute(cpu)), Resume] + rest;
    assert moves[1..] == [Guest(Compute(cpu)), Resume] + rest && moves[1..][1..] == [Resume] + rest && moves[1..][1..][1..] == rest;
    FirstMove(World(k, None), moves);
    FirstMove(w1, moves[1..]);
    FirstMove(w2, moves[1..][1..]);
  }

  lemma FirstMove(w: World, moves: seq<Move>)
    requires Sound(w) && moves != [] && Next(w, moves[0]).Goes?
    ensures Sound(Next(w, moves[0]).world) && History(w, moves) == History(Next(w, moves[0]).world, moves[1..])
  {
    hide Sound, Next;
    NextKeeps(w, moves[0]);
  }

  lemma AgainStill(k: Kernel, x: Kernel, y: Kernel, first: nat)
    requires WF(k) && first < MAX_THREADS && Again(k, x, first) && Again(x, y, first)
    ensures Again(k, y, first)
  {
  }

  /** The round robin is fair between the ends of modal yields (`FairRun`), not across them: it
      starts behind the owner again at each yield, so a loop that yields any number of times runs
      the same thread, if that asks for no switch, and no other. */
  lemma {:induction false} YieldsStartOver(k: Kernel, now: nat, cpu: Image, n: nat)
    requires Running1(k) && !k.modal && Woken(k, now) == k && Picked(k) >= 0
    ensures Sound(World(k, None))
    ensures var r := History(World(k, None), Rounds(n, now, cpu));
            r.Goes? && r.world.owner.None? && Again(k, r.world.kernel, Picked(k)) && Picked(r.world.kernel) == Picked(k)
    decreases n
  {
    hide Running1, Enter, Leave, Picked, Woken, History, Sound, Again;
    Unyielded(k);
    if n > 0 {
      var rest := Rounds(n - 1, now, cpu);
      var x := Leave(Enter(k, now).kernel.(cpu := cpu), k);
      OneRound(k, now, cpu);
      RoundMoves(k, now, cpu, rest);
      Undisturbed(x);
      YieldsStartOver(x, now, cpu, n - 1);
      AgainStill(k, x, History(World(x, None), rest).world.kernel, Picked(k));
    } else {
      PickedHere(k);
      NoMoves(World(k, None));
    }
  }

  lemma NoMoves(w: World)
    requires Sound(w)
    ensures History(w, []) == Goes(w)
  {
  }

  lemma Undisturbed(k: Kernel)
    requires Sound(World(k, None))
    ensures Running1(k) && !k.modal
  {
  }

  lemma PickedHere(k: Kernel)
    requires WF(k) && Picked(k) >= 0
    ensures Again(k, k, Picked(k))
  {
    hide NextFrom;
  }

  lemma Unyielded(k: Kernel)
    requires Running1(k) && !k.modal
    ensures WF(k) && Sound(World(k, None))
  {
  }
}
