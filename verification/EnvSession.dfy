/** SETLOCAL and ENDLOCAL, batch files, and the OS/2 path mirror. */
module EnvSession {
  import opened Letters
  import opened Options
  import opened EnvBlock
  import opened EnvStore

  // ---- the mirror -----------------------------------------------------------------------

  predicate Fits(es: seq<Entry>) {
    |Flat(es)| <= ENV_MAX
  }

  /** A set either succeeds or changes nothing. */
  function Set1(es: seq<Entry>, name: string, value: CString): (r: (seq<Entry>, nat))
    ensures Fits(es) ==> Fits(r.0)
  {
    if !ValidName(name) then (es, INVALID_PARAMETER)
    else if Fits(SetEntries(es, name, value)) then (SetEntries(es, name, value), NO_ERROR)
    else (es, NOT_ENOUGH_MEMORY)
  }

  /** `set_guest_environment`: PATH and OS2PATH mirror each other. */
  function SetGuest(es: seq<Entry>, name: string, value: CString): (r: (seq<Entry>, nat))
    ensures Fits(es) ==> Fits(r.0)
  {
    var (e1, rc) := Set1(es, name, value);
    if rc != NO_ERROR then (e1, rc)
    else if SameName(name, "OS2PATH") then Set1(e1, "PATH", value)
    else if SameName(name, "PATH") then Set1(e1, "OS2PATH", value)
    else (e1, rc)
  }

  predicate Synced(es: seq<Entry>) {
    Get(es, "PATH") == Get(es, "OS2PATH")
  }

  lemma PathNames()
    ensures ValidName("PATH") && ValidName("OS2PATH") && !SameName("PATH", "OS2PATH") && !SameName("OS2PATH", "PATH")
  {
  }

  lemma NotBoth(name: string)
    ensures !(SameName(name, "PATH") && SameName(name, "OS2PATH"))
  {
    assert |"PATH"| == 4 && |"OS2PATH"| == 7;
  }

  /** What a successful set leaves in both variables. */
  lemma Mirrored(es: seq<Entry>, name: string, value: CString)
    requires SetGuest(es, name, value).1 == NO_ERROR && (SameName(name, "PATH") || SameName(name, "OS2PATH"))
    ensures var v: Option<string> := if value == "" then None else Some(value);
            Get(SetGuest(es, name, value).0, "PATH") == v && Get(SetGuest(es, name, value).0, "OS2PATH") == v
  {
    hide Get, SetEntries, SameName, ValidName, Fits;
    PathNames();
    NotBoth(name);
    var e1 := SetEntries(es, name, value);
    var other := if SameName(name, "OS2PATH") then "PATH" else "OS2PATH";
    var mine := if SameName(name, "OS2PATH") then "OS2PATH" else "PATH";
    GetAfterSet(es, name, value, mine);
    GetAfterSet(e1, other, value, mine);
    GetAfterSet(e1, other, value, other);
    SameSelf(other);
  }

  lemma SameSelf(a: string)
    ensures SameName(a, a)
  {
  }

  /** The mirror keeps the two equal through every successful set of any variable. */
  lemma SetKeepsSynced(es: seq<Entry>, name: string, value: CString)
    requires Synced(es) && SetGuest(es, name, value).1 == NO_ERROR
    ensures Synced(SetGuest(es, name, value).0)
  {
    hide Get, SetEntries, SameName, ValidName, Fits;
    PathNames();
    if SameName(name, "PATH") || SameName(name, "OS2PATH") {
      Mirrored(es, name, value);
    } else {
      GetAfterSet(es, name, value, "PATH");
      GetAfterSet(es, name, value, "OS2PATH");
    }
  }

  function OtherPath(name: string): string {
    if SameName(name, "OS2PATH") then "PATH" else "OS2PATH"
  }

  /** The set of one of the two fits the block, the set of the other does not fit any more, and
      the value is new. */
  predicate Splits(es: seq<Entry>, name: string, value: CString) {
    (SameName(name, "PATH") || SameName(name, "OS2PATH")) && ValidName(name) && ValidName(OtherPath(name)) &&
    Fits(SetEntries(es, name, value)) && !Fits(SetEntries(SetEntries(es, name, value), OtherPath(name), value)) &&
    Get(es, "PATH") != Option<string>.Some(value)
  }

  /** A set leaves PATH and OS2PATH equal unless it splits them, successful or not. */
  lemma SyncedUnlessSplit(es: seq<Entry>, name: string, value: CString)
    requires Synced(es)
    ensures Synced(SetGuest(es, name, value).0) <==> !Splits(es, name, value)
  {
    hide Get, SetEntries, SameName, ValidName, Fits;
    PathNames();
    NotBoth(name);
    if SetGuest(es, name, value).1 == NO_ERROR {
      SetKeepsSynced(es, name, value);
    } else if Set1(es, name, value).1 == NO_ERROR {
      GetAfterSet(es, name, value, "PATH");
      GetAfterSet(es, name, value, "OS2PATH");
      if value == "" {
        DeletionFits(SetEntries(es, name, value), OtherPath(name));
      }
    }
  }

  lemma DeletionFits(es: seq<Entry>, name: string)
    requires ValidName(name) && Fits(es)
    ensures Fits(SetEntries(es, name, ""))
  {
    KeptLength(es, name);
    assert SetEntries(es, name, "") == Kept(es, name);
    if Kept(es, name) != [] {
      assert es != [];
    }
  }

  /** An environment with room for one more short variable. */
  const FULL: seq<Entry> := ["X=" + Filler(32757)]

  function Filler(n: nat): (s: CString)
    ensures |s| == n
  {
    seq(n, _ => 'a')
  }

  /** There PATH is set and OS2PATH is not. */
  lemma PathsSplit()
    ensures Synced(FULL) && SetGuest(FULL, "PATH", "C").1 == NOT_ENOUGH_MEMORY
    ensures Get(SetGuest(FULL, "PATH", "C").0, "PATH") == Option<string>.Some("C")
    ensures Get(SetGuest(FULL, "PATH", "C").0, "OS2PATH") == None
  {
    hide Strings, Filler;
    PathNames();
    OnlyX("PATH");
    OnlyX("OS2PATH");
    assert "PATH" + "=" + "C" == "PATH=C" && "OS2PATH" + "=" + "C" == "OS2PATH=C";
    var one := SetEntries(FULL, "PATH", "C");
    assert one == FULL + ["PATH=C"];
    KeptPath();
    var two := SetEntries(one, "OS2PATH", "C");
    assert two == one + ["OS2PATH=C"];
    SizeOf(FULL, "PATH=C");
    SizeOf(one, "OS2PATH=C");
    SizeOf([], FULL[0]);
    assert [] + FULL == FULL;
    EmptyStrings();
    GetAfterSet(FULL, "PATH", "C", "PATH");
    GetAfterSet(FULL, "PATH", "C", "OS2PATH");
    SameSelf("PATH");
  }

  lemma EmptyStrings()
    ensures Strings([]) == ""
  {
  }

  lemma SizeOf(es: seq<Entry>, e: Entry)
    ensures |Strings(es + [e])| == |Strings(es)| + |e| + 1 && |Flat(es + [e])| == |Strings(es + [e])| + 1
  {
    StringsConcat(es, [e]);
    OneString(e);
  }

  lemma OnlyX(name: string)
    requires name != "" && Upper(name[0]) != 'X'
    ensures Kept(FULL, name) == FULL && Get(FULL, name) == None
  {
    hide Filler;
    OtherName(name);
    assert FULL[1..] == [] && Kept(FULL[1..], name) == [];
  }

  lemma OtherName(name: string)
    requires name != "" && Upper(name[0]) != 'X'
    ensures !Defines(FULL[0], name)
  {
    hide Filler;
    assert FULL[0][0] == 'X';
    if Defines(FULL[0], name) {
      SameStart(FULL[0], name);
    }
  }

  lemma SameStart(entry: string, name: string)
    requires Defines(entry, name) && name != ""
    ensures Upper(entry[0]) == Upper(name[0])
  {
    assert entry[..|name|][0] == entry[0];
  }

  lemma KeptPath()
    ensures Kept(FULL + ["PATH=C"], "OS2PATH") == FULL + ["PATH=C"]
  {
    hide Filler;
    OnlyX("OS2PATH");
    var es := FULL + ["PATH=C"];
    assert es[0] == FULL[0] && es[1..] == ["PATH=C"];
    assert !Defines(es[0], "OS2PATH") by { OtherName("OS2PATH"); }
    assert ["PATH=C"][1..] == [] && !Defines("PATH=C", "OS2PATH");
  }

  // ---- sessions ----------------------------------------------------------------------------

  /** The environment and the SETLOCAL snapshots, innermost first. */
  datatype Session = Session(env: seq<Entry>, frames: seq<seq<Entry>>)

  /** What a command line or a batch file does to them. A batch runs its commands and then
      drops every snapshot it left open. */
  datatype Op = SetVar(name: string, value: CString) | SetLocal | EndLocal | Batch(ops: seq<Op>)

  /** Restoring snapshots until no more than `depth` are left. */
  function Unwind(s: Session, depth: nat): (r: Session)
    ensures |r.frames| == (if |s.frames| > depth then depth else |s.frames|)
    decreases |s.frames|
  {
    if |s.frames| <= depth then s else Unwind(Session(s.frames[0], s.frames[1..]), depth)
  }

  function Step(s: Session, op: Op): Session
    decreases op, 0
  {
    match op
    case SetVar(name, value) => s.(env := SetGuest(s.env, name, value).0)
    case SetLocal => Session(s.env, [s.env] + s.frames)
    case EndLocal => if s.frames == [] then s else Session(s.frames[0], s.frames[1..])
    case Batch(ops) => Unwind(Steps(s, ops), |s.frames|)
  }

  function Steps(s: Session, ops: seq<Op>): Session
    decreases ops, 1
  {
    if ops == [] then s else Steps(Step(s, ops[0]), ops[1..])
  }

  /** The snapshots that lie below `depth`, counted from the outermost. */
  function Outer(s: Session, depth: nat): seq<seq<Entry>>
    requires depth <= |s.frames|
  {
    s.frames[|s.frames| - depth..]
  }

  /** The run never closes more snapshots than it opened above `depth`. */
  predicate StaysAbove(s: Session, ops: seq<Op>, depth: nat)
    decreases ops, 2
  {
    |s.frames| >= depth &&
    (ops != [] ==>
       (ops[0].EndLocal? ==> |s.frames| > depth) &&
       (ops[0].Batch? ==> StaysAbove(s, ops[0].ops, depth)) &&
       StaysAbove(Step(s, ops[0]), ops[1..], depth))
  }

  lemma {:induction false} UnwindKeeps(s: Session, to: nat, depth: nat)
    requires depth <= to && depth <= |s.frames|
    ensures depth <= |Unwind(s, to).frames| && Outer(Unwind(s, to), depth) == Outer(s, depth)
    decreases |s.frames|
  {
    if |s.frames| > to {
      UnwindKeeps(Session(s.frames[0], s.frames[1..]), to, depth);
    }
  }

  lemma StepOuter(s: Session, op: Op, depth: nat)
    requires |s.frames| >= depth && !op.Batch? && (op.EndLocal? ==> |s.frames| > depth)
    ensures |Step(s, op).frames| >= depth && Outer(Step(s, op), depth) == Outer(s, depth)
  {
    hide SetGuest;
  }

  lemma NextStays(s: Session, ops: seq<Op>, depth: nat)
    requires StaysAbove(s, ops, depth) && ops != []
    ensures |s.frames| >= depth && (ops[0].EndLocal? ==> |s.frames| > depth) && StaysAbove(Step(s, ops[0]), ops[1..], depth)
    ensures ops[0].Batch? ==> StaysAbove(s, ops[0].ops, depth)
  {
    hide Step;
  }

  lemma BatchStep(s: Session, ops: seq<Op>)
    ensures Step(s, Batch(ops)) == Unwind(Steps(s, ops), |s.frames|)
  {
    hide Steps, Unwind;
  }

  /** Snapshots below the run's depth are never touched. */
  lemma {:induction false} OuterKept(s: Session, ops: seq<Op>, depth: nat)
    requires StaysAbove(s, ops, depth)
    ensures |Steps(s, ops).frames| >= depth && Outer(Steps(s, ops), depth) == Outer(s, depth)
    decreases ops, 3
  {
    hide Step, Unwind, Outer;
    if ops != [] {
      NextStays(s, ops, depth);
      hide StaysAbove;
      if ops[0].Batch? {
        BatchStep(s, ops[0].ops);
        OuterKept(s, ops[0].ops, depth);
        UnwindKeeps(Steps(s, ops[0].ops), |s.frames|, depth);
      } else {
        StepOuter(s, ops[0], depth);
      }
      OuterKept(Step(s, ops[0]), ops[1..], depth);
    }
  }

  /** ENDLOCAL restores the environment of its SETLOCAL, entry for entry, and with it the block
      byte for byte, whatever ran between, and leaves the outer snapshots as they were. */
  lemma EndLocalRestores(s: Session, ops: seq<Op>)
    requires var inner := Step(s, SetLocal);
             StaysAbove(inner, ops, |inner.frames|) && |Steps(inner, ops).frames| == |inner.frames|
    ensures Step(Steps(Step(s, SetLocal), ops), EndLocal) == s
  {
    var inner := Step(s, SetLocal);
    OuterKept(inner, ops, |inner.frames|);
    var last := Steps(inner, ops);
    assert Outer(last, |inner.frames|) == last.frames && Outer(inner, |inner.frames|) == inner.frames;
    assert last.frames[1..] == s.frames;
  }

  /** Unwinding restores the outermost of the snapshots it drops. */
  lemma {:induction false} UnwindRestores(s: Session, depth: nat)
    requires |s.frames| > depth
    ensures var k := |s.frames| - depth; Unwind(s, depth) == Session(s.frames[k - 1], s.frames[k..])
    decreases |s.frames|
  {
    var next := Session(s.frames[0], s.frames[1..]);
    if |next.frames| > depth {
      UnwindRestores(next, depth);
    }
  }

  /** A batch never leaves the stack deeper; one that closes only what it opened also leaves
      the outer snapshots as they were; and if it leaves snapshots open, the environment goes
      back to the outermost of those. */
  lemma BatchDepth(s: Session, ops: seq<Op>)
    ensures |Step(s, Batch(ops)).frames| <= |s.frames|
    ensures StaysAbove(s, ops, |s.frames|) ==> Step(s, Batch(ops)).frames == s.frames
    ensures var last, extra := Steps(s, ops), |Steps(s, ops).frames| - |s.frames|;
            Step(s, Batch(ops)).env == if extra > 0 then last.frames[extra - 1] else last.env
  {
    if |Steps(s, ops).frames| > |s.frames| {
      UnwindRestores(Steps(s, ops), |s.frames|);
    }
    if StaysAbove(s, ops, |s.frames|) {
      OuterKept(s, ops, |s.frames|);
      UnwindKeeps(Steps(s, ops), |s.frames|, |s.frames|);
      var r := Step(s, Batch(ops));
      assert Outer(r, |s.frames|) == r.frames && Outer(s, |s.frames|) == s.frames;
    }
  }

  // ---- whole runs --------------------------------------------------------------------------------

  predicate SessionSynced(s: Session) {
    Synced(s.env) && forall i :: 0 <= i < |s.frames| ==> Synced(s.frames[i])
  }

  predicate SessionFits(s: Session) {
    Fits(s.env) && forall i :: 0 <= i < |s.frames| ==> Fits(s.frames[i])
  }

  /** Every set in the run succeeds. */
  predicate AllSucceed(s: Session, ops: seq<Op>)
    decreases ops, 2
  {
    ops != [] ==>
      (ops[0].SetVar? ==> SetGuest(s.env, ops[0].name, ops[0].value).1 == NO_ERROR) &&
      (ops[0].Batch? ==> AllSucceed(s, ops[0].ops)) &&
      AllSucceed(Step(s, ops[0]), ops[1..])
  }

  lemma {:induction false} UnwindSynced(s: Session, depth: nat)
    ensures SessionSynced(s) ==> SessionSynced(Unwind(s, depth))
    ensures SessionFits(s) ==> SessionFits(Unwind(s, depth))
    decreases |s.frames|
  {
    hide Synced, Fits;
    if |s.frames| > depth {
      UnwindSynced(Session(s.frames[0], s.frames[1..]), depth);
    }
  }

  /** In a run where every set succeeds, PATH equals OS2PATH at every point, through nested
      batches and snapshots. */
  lemma {:induction false} RunSynced(s: Session, ops: seq<Op>)
    requires SessionSynced(s) && AllSucceed(s, ops)
    ensures SessionSynced(Steps(s, ops))
    decreases ops, 3
  {
    hide Synced, SetGuest, Unwind;
    if ops != [] {
      var op := ops[0];
      match op {
        case SetVar(name, value) => SetKeepsSynced(s.env, name, value);
        case Batch(inner) =>
          RunSynced(s, inner);
          UnwindSynced(Steps(s, inner), |s.frames|);
        case _ =>
      }
      RunSynced(Step(s, op), ops[1..]);
    }
  }

  /** No run, failing or not, makes the environment or a snapshot larger than a block. */
  lemma {:induction false} RunFits(s: Session, ops: seq<Op>)
    requires SessionFits(s)
    ensures SessionFits(Steps(s, ops))
    decreases ops, 3
  {
    hide Fits, SetGuest, Unwind;
    if ops != [] {
      match ops[0] {
        case SetVar(_, _) =>
        case Batch(inner) =>
          RunFits(s, inner);
          UnwindSynced(Steps(s, inner), |s.frames|);
        case _ =>
      }
      RunFits(Step(s, ops[0]), ops[1..]);
    }
  }

  // ---- the shell's stack -----------------------------------------------------------------------------

  lemma {:induction false} ValueHasNoNul(es: seq<Entry>, name: string)
    ensures Get(es, name).Some? ==> '\0' !in Get(es, name).value
  {
    if es != [] && !Defines(es[0], name) {
      ValueHasNoNul(es[1..], name);
    }
  }

  // ---- the search path a session starts from ---------------------------------------------------------

  predicate HasPath(es: seq<Entry>) {
    Get(es, "OS2PATH").Some? && Get(es, "OS2PATH").value != ""
  }

  /** The value of OS2PATH, or the current directory where there is none. */
  function SeedPath(es: seq<Entry>): CString {
    ValueHasNoNul(es, "OS2PATH");
    if HasPath(es) then Get(es, "OS2PATH").value else "."
  }

  /** The environment once OS2PATH is defined. */
  function WithOs2Path(es: seq<Entry>): seq<Entry> {
    if HasPath(es) then es else SetEntries(es, "OS2PATH", SeedPath(es))
  }

  /** And once PATH has its value. */
  function Seeded(es: seq<Entry>): seq<Entry> {
    SetEntries(WithOs2Path(es), "PATH", SeedPath(es))
  }

  lemma {:induction false} GetSame(es: seq<Entry>, a: string, b: string)
    requires SameName(a, b)
    ensures Get(es, a) == Get(es, b)
  {
    if es != [] {
      SameDefines(es[0], a, b);
      GetSame(es[1..], a, b);
    }
  }

  /** Seeding gives PATH and OS2PATH one value and changes nothing else; before PATH is set, only a
      missing OS2PATH has been defined. */
  lemma SeededMeans(es: seq<Entry>, name: string)
    requires ValidName(name)
    ensures Get(Seeded(es), name) ==
            if SameName("PATH", name) || SameName("OS2PATH", name) then Some(SeedPath(es)) else Get(es, name)
    ensures Get(WithOs2Path(es), name) == if SameName("OS2PATH", name) then Some(SeedPath(es)) else Get(es, name)
  {
    hide Get, SetEntries, SameName, ValidName;
    PathNames();
    if !HasPath(es) {
      GetAfterSet(es, "OS2PATH", SeedPath(es), name);
    } else if SameName("OS2PATH", name) {
      GetSame(es, "OS2PATH", name);
    }
    GetAfterSet(WithOs2Path(es), "PATH", SeedPath(es), name);
  }

  lemma {:induction false} ValueFits(es: seq<Entry>, name: string)
    ensures Get(es, name).Some? ==> |Get(es, name).value| + 1 < |Flat(es)|
  {
    if es != [] {
      ValueFits(es[1..], name);
    }
  }

  class ShellEnv {
    const store: Store
    /** Snapshot blocks, innermost first, and the entries each holds. */
    var stack: seq<string>
    ghost var held: seq<seq<Entry>>

    ghost predicate Valid()
      reads this, store, store.block
    {
      store.Valid() && |stack| == |held| && Fits(store.Contents()) &&
      forall i :: 0 <= i < |stack| ==> stack[i] == Flat(held[i]) && Fits(held[i])
    }

    ghost function State(): Session
      reads this, store
    {
      Session(store.Contents(), held)
    }

    constructor ()
      ensures Valid() && State() == Session([], []) && fresh(store) && fresh(store.block) && fresh(store.scratch)
    {
      store := new Store();
      stack, held := [], [];
    }

    method Push()
      requires Valid()
      modifies this, store, store.block
      ensures Valid() && State() == Step(old(State()), SetLocal)
    {
      store.EnsureReady();
      var copy := new char[store.bytes];
      var rc, actual := store.EnvExport(copy, store.bytes);
      assert copy[..] == Flat(store.Contents());
      stack := [copy[..]] + stack;
      held := [store.Contents()] + held;
    }

    method Pop() returns (popped: bool)
      requires Valid()
      modifies this, store, store.block
      ensures Valid() && popped == (old(stack) != []) && State() == Step(old(State()), EndLocal)
    {
      if stack == [] {
        return false;
      }
      var rc := store.EnvImport(stack[0], held[0]);
      stack, held := stack[1..], held[1..];
      return true;
    }

    method UnwindTo(depth: nat)
      requires Valid()
      modifies this, store, store.block
      ensures Valid() && State() == Unwind(old(State()), depth)
    {
      while |stack| > depth
        invariant Valid() && Unwind(State(), depth) == Unwind(old(State()), depth)
        decreases |stack|
      {
        var popped := Pop();
      }
    }

    method SetGuestEnvironment(name: string, value: CString) returns (rc: nat)
      requires Valid()
      modifies store, store.block, store.scratch
      ensures Valid() && State() == Step(old(State()), SetVar(name, value))
      ensures rc == SetGuest(old(store.Contents()), name, value).1
    {
      PathNames();
      rc := store.EnvSet(name, value);
      if rc != NO_ERROR {
        return;
      }
      if SameName(name, "OS2PATH") {
        rc := store.EnvSet("PATH", value);
      } else if SameName(name, "PATH") {
        rc := store.EnvSet("OS2PATH", value);
      }
    }

    /** `run_batch_file` around the commands of a batch. */
    method RunBatch(ops: seq<Op>)
      requires Valid()
      modifies this, store, store.block, store.scratch
      ensures Valid() && State() == Step(old(State()), Batch(ops))
      decreases ops, 3
    {
      var depth := |stack|;
      RunCommands(ops);
      UnwindTo(depth);
    }

    method RunCommands(ops: seq<Op>)
      requires Valid()
      modifies this, store, store.block, store.scratch
      ensures Valid() && State() == Steps(old(State()), ops)
      decreases ops, 2
    {
      if ops == [] {
        return;
      }
      var op := ops[0];
      match op {
        case SetVar(name, value) =>
          var rc := SetGuestEnvironment(name, value);
        case SetLocal =>
          Push();
        case EndLocal =>
          var popped := Pop();
        case Batch(inner) =>
          RunBatch(inner);
      }
      RunCommands(ops[1..]);
    }

    method ReadOs2Path() returns (found: bool, path: CString)
      requires Valid()
      modifies store, store.block
      ensures Valid() && store.Contents() == old(store.Contents())
      ensures found == HasPath(store.Contents()) && path == SeedPath(store.Contents())
    {
      hide Strings, Fits, Get;
      PathNames();
      var seed := new char[ENV_MAX](_ => '\0');
      var rc := store.EnvGet("OS2PATH", seed, ENV_MAX);
      ghost var es := store.Contents();
      ValueHasNoNul(es, "OS2PATH");
      ValueFits(es, "OS2PATH");
      if rc != NO_ERROR || seed[0] == '\0' {
        return false, ".";
      }
      path := Value(seed, Get(es, "OS2PATH").value);
      return true, path;
    }

    /** `CmdEnvStoreApplyOs2Path`: OS2PATH, or `.` where there is none, becomes PATH as well. It
        fails exactly when one of the definitions does not fit, with what was set before. */
    method ApplyOs2Path() returns (ok: bool)
      requires Valid()
      modifies store, store.block, store.scratch
      ensures Valid()
      ensures var es := old(store.Contents());
              ok == (Fits(WithOs2Path(es)) && Fits(Seeded(es))) &&
              store.Contents() == if ok then Seeded(es) else if Fits(WithOs2Path(es)) then WithOs2Path(es) else es
    {
      hide Get, SetEntries, HasPath, SeedPath, ValidName;
      PathNames();
      ghost var es := store.Contents();
      var found, path := ReadOs2Path();
      if !found {
        var rc := store.EnvSet("OS2PATH", path);
        if rc != NO_ERROR {
          return false;
        }
      }
      assert store.Contents() == WithOs2Path(es);
      var rc := store.EnvSet("PATH", path);
      return rc == NO_ERROR;
    }

    /** The string that a buffer holds. */
    method Value(seed: array<char>, ghost v: string) returns (s: CString)
      requires v + "\0" <= seed[..] && '\0' !in v
      ensures s == v
    {
      assert forall i :: 0 <= i < |v| ==> seed[..][i] == v[i] && v[i] in v;
      assert seed[..][|v|] == '\0';
      var n := 0;
      while seed[n] != '\0'
        invariant 0 <= n <= |v|
        decreases |v| - n
      {
        n := n + 1;
      }
      assert seed[..n] == v;
      s := seed[..n];
    }
  }
}
