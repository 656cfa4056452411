/** The lifecycle order over any history, and at process exit. */
module ModuleHistory {
  import opened Options
  import opened ModuleGraph
  import opened ModuleRefs
  import opened ModuleConservation
  import opened ModuleLifecycle

  lemma NoEdges(ms: seq<Module>, out: multiset<Name>, c: Name)
    requires Counted(ms, out) && Lookup(ms, c).Some? && Lookup(ms, c).value.refs == 0
    ensures Edges(ms, c) == 0
  {
    assert RefsOf(ms, c) == Edges(ms, c) + out[c];
  }

  // ---- release -------------------------------------------------------------------------

  lemma {:induction false} ReleaseHist(w: World, t: Table, n: Name, out: multiset<Name>)
    requires Good(w) && Shaped(w, t.modules) && n in w && Hist(t) && Serving(t)
    requires Counted(t.modules, out + multiset{n}) && NoneDyingBelow(w, t.modules, w[n].rank + 1)
    ensures Hist(Release(w, t, n)) && Serving(Release(w, t, n))
    decreases w[n].rank + 1, 1
  {
    hide Counted, Lookup, Edges, Kids, Unique, Shaped, Good, Hist, Serving, Terminate, ReleaseSlots;
    RefsPositive(t.modules, out + multiset{n}, n);
    LookedUp(t.modules, n);
    var i := Find(t.modules, n);
    var refs := t.modules[i].refs - 1;
    if refs != 0 {
      CountStep(t, i, refs);
      CountServing(t, i, refs);
    } else {
      LastReference(w, t, i, out);
      var dying := Dying(w, t, i);
      DyingCounts(w, t, i, out);
      SlotsHist(w, dying, n, 0, out);
      SlotsCount(w, dying, n, 0, out);
      GoneHist(w, dying, ReleaseSlots(w, dying, n, 0), n, out);
    }
  }

  lemma CountServing(t: Table, i: nat, refs: nat)
    requires Serving(t) && i < |t.modules|
    ensures Serving(Update(t, i, t.modules[i].(refs := refs)))
  {
  }

  /** The last reference goes: the module ends, and nobody holds it. */
  lemma LastReference(w: World, t: Table, i: nat, out: multiset<Name>)
    requires Shaped(w, t.modules) && i < |t.modules| && t.modules[i].refs == 1 && t.modules[i].name in w
    requires Counted(t.modules, out + multiset{t.modules[i].name}) && Hist(t) && Serving(t)
    requires NoneDyingBelow(w, t.modules, w[t.modules[i].name].rank + 1)
    ensures Hist(Dying(w, t, i)) && Serving(Dying(w, t, i))
  {
    hide Counted, Lookup, Edges, Kids, Shaped, Hist, Serving;
    var n := t.modules[i].name;
    CountedUnique(t.modules, out + multiset{n});
    FoundIs(t.modules, i);
    OnlyHeld(t.modules, out, n);
    NotTermed(t, i);
    DieStep(t, i, 0);
    MortalIs(w, t, i);
  }

  lemma OnlyHeld(ms: seq<Module>, out: multiset<Name>, n: Name)
    requires Counted(ms, out + multiset{n}) && Lookup(ms, n).Some? && Lookup(ms, n).value.refs == 1
    ensures Edges(ms, n) == 0
  {
    hide Lookup, Edges;
    assert RefsOf(ms, n) == Edges(ms, n) + (out + multiset{n})[n];
  }

  lemma NotTermed(t: Table, i: nat)
    requires Serving(t) && i < |t.modules| && !t.modules[i].dying
    ensures !t.modules[i].termed
  {
  }

  lemma MortalIs(w: World, t: Table, i: nat)
    requires Shaped(w, t.modules) && i < |t.modules| && t.modules[i].refs == 1 && !t.modules[i].termed
    ensures Dying(w, t, i) == Mortal(t, i, 0)
  {
    var m := t.modules[i];
    var x := m.(refs := 0, dying := true);
    assert t.modules[i := x][i := x.(termed := true)] == t.modules[i := x.(termed := true)];
  }

  lemma GoneHist(w: World, d: Table, s: Table, n: Name, out: multiset<Name>)
    requires n in w && Counted(s.modules, out) && Cleared(d.modules, s.modules, n) && Hist(s) && Serving(s)
    requires Lookup(d.modules, n).value.refs == 0 && Lookup(d.modules, n).value.dying
    ensures Hist(Remove(s, n)) && Serving(Remove(s, n))
  {
    hide Counted, Lookup, Edges, Unique, Hist, Serving;
    LookedUp(s.modules, n);
    NoEdges(s.modules, out, n);
    RemoveStep(s, Find(s.modules, n));
  }

  lemma {:induction false} SlotsHist(w: World, t: Table, n: Name, k: nat, out: multiset<Name>)
    requires Good(w) && Shaped(w, t.modules) && n in w && Counted(t.modules, out) && NoneDyingBelow(w, t.modules, w[n].rank)
    requires Lookup(t.modules, n).Some? && Lookup(t.modules, n).value.dying && Clear(Lookup(t.modules, n).value.slots, k)
    requires Hist(t) && Serving(t)
    ensures Hist(ReleaseSlots(w, t, n, k)) && Serving(ReleaseSlots(w, t, n, k))
    decreases w[n].rank + 1, 0, |w[n].imports| - k
  {
    hide Counted, Lookup, Edges, Kids, Unique, Shaped, Good, Release, Hist, Serving;
    LookedUp(t.modules, n);
    var i := Find(t.modules, n);
    SlotsShaped(w, t.modules, i);
    if k < |t.modules[i].slots| {
      match t.modules[i].slots[k] {
        case None =>
          SlotsHist(w, t, n, k + 1, out);
        case Some(c) =>
          SlotGone(w, t, n, k, c, out);
          SlotGoneHist(w, t, n, k, c, out);
          SlotsHist(w, AfterSlot(w, t, n, k, c), n, k + 1, out);
      }
    }
  }

  lemma SlotGoneHist(w: World, t: Table, n: Name, k: nat, c: Name, out: multiset<Name>)
    requires Good(w) && Shaped(w, t.modules) && n in w && Counted(t.modules, out) && NoneDyingBelow(w, t.modules, w[n].rank)
    requires Lookup(t.modules, n).Some? && Find(t.modules, n) >= 0 && Clear(Lookup(t.modules, n).value.slots, k)
    requires k < |t.modules[Find(t.modules, n)].slots| && t.modules[Find(t.modules, n)].slots[k] == Some(c)
    requires Lookup(t.modules, n).value.dying && Hist(t) && Serving(t)
    ensures Hist(AfterSlot(w, t, n, k, c)) && Serving(AfterSlot(w, t, n, k, c))
    decreases w[n].rank + 1, 0, |w[n].imports| - k, 0
  {
    hide Counted, Lookup, Edges, Kids, Unique, Shaped, Good, Release, Hist, Serving;
    LookedUp(t.modules, n);
    CountedUnique(t.modules, out);
    var i := Find(t.modules, n);
    ClearStep(t, i, k);
    ClearSlot(w, t, i, k, c, out);
    var cleared := SetSlot(t, i, k, None);
    RefsPositive(cleared.modules, out + multiset{c}, c);
    Present(w, cleared.modules, c);
    ChildBelow(w, t.modules, i, k, c);
    Weaker(w, cleared.modules, w[n].rank, w[c].rank + 1);
    ReleaseHist(w, cleared, c, out);
  }

  // ---- load ------------------------------------------------------------------------------

  lemma {:induction false} LoadHist(w: World, t: Table, n: Name, out: multiset<Name>)
    requires Good(w) && Shaped(w, t.modules) && Counted(t.modules, out) && NoneDying(t.modules) && Hist(t) && Serving(t)
    ensures var r := Load(w, t, n); !r.Fatal? ==> Hist(r.table) && Serving(r.table)
    decreases if n in w then w[n].rank + 1 else 0, 2
  {
    hide Counted, Lookup, Edges, Kids, Unique, Shaped, Good, LoadUses, Start, Hist, Serving;
    var i := Find(t.modules, n);
    if i >= 0 {
      CountStep(t, i, t.modules[i].refs + 1);
      CountServing(t, i, t.modules[i].refs + 1);
    } else if |t.modules| < MAX_GUEST_MODULES && n in w {
      Absent(t.modules, n);
      AppendStep(w, t, n);
      AppendCounts(w, t, n, out);
      var appended := t.(modules := t.modules + [Fresh(w, t, n)], nextHandle := t.nextHandle + 1);
      UsesCount(w, appended, n, 0, out + multiset{n});
      UsesHist(w, appended, n, 0, out + multiset{n});
      var r := LoadUses(w, appended, n, 0);
      if r.Loaded? {
        StartHist(w, r.table, n, out);
      }
    }
  }

  lemma Absent(ms: seq<Module>, n: Name)
    requires Find(ms, n) < 0
    ensures Lookup(ms, n) == None
  {
  }

  lemma {:induction false} UsesHist(w: World, t: Table, n: Name, u: nat, out: multiset<Name>)
    requires Good(w) && Shaped(w, t.modules) && n in w && Counted(t.modules, out) && NoneDying(t.modules)
    requires Lookup(t.modules, n).Some? && !Lookup(t.modules, n).value.inited && Hist(t) && Serving(t)
    ensures var r := LoadUses(w, t, n, u);
            r.Loaded? ==>
              Hist(r.table) && Serving(r.table) && Lookup(r.table.modules, n).Some? && !Lookup(r.table.modules, n).value.inited
    decreases w[n].rank + 1, 1, |w[n].uses| - u
  {
    hide Counted, Lookup, Edges, Kids, Unique, Shaped, Good, Load, Link, Hist, Serving;
    LookedUp(t.modules, n);
    var i := Find(t.modules, n);
    if u < |w[n].uses| {
      UseOk(w, t.modules, i, u);
      var k := w[n].uses[u];
      if t.modules[i].slots[k].Some? {
        UsesHist(w, t, n, u + 1, out);
      } else {
        var c := w[n].imports[k];
        ImportBelow(w, n, k);
        LoadCounts(w, t, c, out);
        LoadHist(w, t, c, out);
        var r := Load(w, t, c);
        if r.Loaded? {
          LinkCounts(w, t, r.table, n, k, c, out);
          LinkHist(w, t, r.table, n, k, c, out);
          UsesHist(w, Link(r.table, n, k, c), n, u + 1, out);
        }
      }
    }
  }

  lemma LinkHist(w: World, t: Table, got: Table, n: Name, k: nat, c: Name, out: multiset<Name>)
    requires n in w && c in w && w[c].rank < w[n].rank && Hist(got) && Serving(got)
    requires Lookup(t.modules, n).Some? && k < |Lookup(t.modules, n).value.slots| && Lookup(t.modules, n).value.slots[k] == None
    requires !Lookup(t.modules, n).value.inited
    requires NoneDying(got.modules) && Lookup(got.modules, c).Some? && SameAbove(w, t.modules, got.modules, w[c].rank)
    ensures var r := Link(got, n, k, c);
            Hist(r) && Serving(r) && Lookup(r.modules, n).Some? && !Lookup(r.modules, n).value.inited
  {
    hide Lookup, Unique, Hist, Serving;
    assert Lookup(got.modules, n) == Lookup(t.modules, n);
    LookedUp(got.modules, n);
    LookedUp(got.modules, c);
    var i := Find(got.modules, n);
    LinkStep(got, n, k, c);
    HistUnique(got);
    TableIs(got, i, got.modules[i].(slots := got.modules[i].slots[k := Some(c)]));
  }

  lemma HistUnique(t: Table)
    requires Hist(t)
    ensures Unique(t.modules)
  {
  }

  lemma StartHist(w: World, t: Table, n: Name, out: multiset<Name>)
    requires Good(w) && Shaped(w, t.modules) && n in w && Counted(t.modules, out + multiset{n}) && NoneDying(t.modules)
    requires Lookup(t.modules, n).Some? && Lookup(t.modules, n).value.refs == 1 && !Lookup(t.modules, n).value.inited
    requires Hist(t) && Serving(t)
    ensures var r := Start(w, t, n); !r.Fatal? ==> Hist(r.table) && Serving(r.table)
    decreases w[n].rank + 1, 1, 0
  {
    hide Counted, Lookup, Edges, Kids, Unique, Shaped, Good, ReleaseSlots, Hist, Serving;
    LookedUp(t.modules, n);
    var i := Find(t.modules, n);
    var m := t.modules[i];
    OnlyHeld(t.modules, out, n);
    if w[n].hasEntry && w[n].initSucceeds {
      InitStep(t, i);
    } else if w[n].hasEntry {
      var d := Update(t, i, m.(dying := true));
      NotTermed(t, i);
      DieStep(t, i, 1);
      MortalUnborn(t, i);
      SameCounts(t, i, m.(dying := true), out + multiset{n});
      HistUnique(t);
      TableIs(t, i, m.(dying := true));
      StillShaped(w, t.modules, i, m.(dying := true));
      SlotsCount(w, d, n, 0, out + multiset{n});
      SlotsHist(w, d, n, 0, out + multiset{n});
      GoneUnborn(w, d, ReleaseSlots(w, d, n, 0), n, out);
    }
  }

  lemma MortalUnborn(t: Table, i: nat)
    requires i < |t.modules| && !t.modules[i].inited && !t.modules[i].termed && t.modules[i].refs == 1
    ensures Mortal(t, i, 1) == Update(t, i, t.modules[i].(dying := true))
  {
  }

  lemma GoneUnborn(w: World, d: Table, s: Table, n: Name, out: multiset<Name>)
    requires n in w && Counted(s.modules, out + multiset{n}) && Cleared(d.modules, s.modules, n) && Hist(s) && Serving(s)
    requires Lookup(d.modules, n).value.refs == 1 && Lookup(d.modules, n).value.dying
    ensures Hist(Remove(s, n)) && Serving(Remove(s, n))
  {
    hide Counted, Lookup, Edges, Unique, Hist, Serving;
    LookedUp(s.modules, n);
    OnlyHeld(s.modules, out, n);
    RemoveStep(s, Find(s.modules, n));
  }

  // ---- any history ----------------------------------------------------------------------------

  ghost predicate Sound(w: World, h: Host) {
    Shaped(w, h.table.modules) && Exact(h) && Hist(h.table) && Serving(h.table)
  }

  lemma CallSound(w: World, h: Host, op: Op)
    requires Good(w) && Sound(w, h)
    ensures var r := Call(w, h, op); r.Some? ==> Sound(w, r.value)
  {
    hide Counted, Lookup, Shaped, Good, Load, Release, Hist, Serving, NoneDying, Needed, Trial;
    CallCounts(w, h, op);
    match op {
      case LoadOp(n, failing) =>
        LoadHist(Trial(w, failing), h.table, n, h.out);
      case FreeOp(n) =>
        if h.out[n] > 0 {
          RefsPositive(h.table.modules, h.out, n);
          Present(w, h.table.modules, n);
          assert h.out - multiset{n} + multiset{n} == h.out;
          NoneAtAll(w, h.table.modules, w[n].rank + 1);
          ReleaseHist(w, h.table, n, h.out - multiset{n});
        }
    }
  }

  lemma NoneAtAll(w: World, ms: seq<Module>, rank: nat)
    requires NoneDying(ms)
    ensures NoneDyingBelow(w, ms, rank)
  {
  }

  lemma {:induction false} CallsSound(w: World, h: Host, ops: seq<Op>)
    requires Good(w) && Sound(w, h)
    ensures var r := Calls(w, h, ops); r.Some? ==> Sound(w, r.value)
    decreases |ops|
  {
    hide Sound, Good, Call;
    SoundShaped(w, h);
    if ops != [] {
      CallSound(w, h, ops[0]);
      var r := Call(w, h, ops[0]);
      if r.Some? {
        CallsSound(w, r.value, ops[1..]);
      }
    }
  }

  lemma SoundShaped(w: World, h: Host)
    requires Sound(w, h)
    ensures Shaped(w, h.table.modules)
  {
  }

  // ---- process exit ---------------------------------------------------------------------------------

  predicate Waiting(m: Module) {
    m.inited && !m.termed
  }

  /** `OS2HostModuleTerminateAll` picks the module initialised last among those still to end. */
  function Latest1(ms: seq<Module>): (i: int)
    ensures -1 <= i < |ms|
    ensures i >= 0 ==> Waiting(ms[i]) && forall j :: 0 <= j < |ms| && Waiting(ms[j]) ==> ms[j].order <= ms[i].order
    ensures i < 0 ==> forall j :: 0 <= j < |ms| ==> !Waiting(ms[j])
  {
    if ms == [] then -1
    else
      var last := |ms| - 1;
      var i := Latest1(ms[..last]);
      if Waiting(ms[last]) && (i < 0 || ms[last].order >= ms[i].order) then last else i
  }

  function Awaited(ms: seq<Module>): nat {
    if ms == [] then 0 else Awaited(ms[..|ms| - 1]) + if Waiting(ms[|ms| - 1]) then 1 else 0
  }

  lemma {:induction false} FewerAwaited(ms: seq<Module>, i: nat, m: Module)
    requires i < |ms| && Waiting(ms[i]) && !Waiting(m)
    ensures Awaited(ms[i := m]) < Awaited(ms)
  {
    hide Waiting;
    var last := |ms| - 1;
    if i < last {
      assert ms[i := m][..last] == ms[..last][i := m];
      FewerAwaited(ms[..last], i, m);
    } else {
      assert ms[i := m][..last] == ms[..last];
    }
  }

  function EndOne(t: Table, i: nat): Table
    requires i < |t.modules|
  {
    Note(Update(t, i, t.modules[i].(termed := true)), Ended(t.modules[i].handle))
  }

  function TerminateAll(t: Table): (r: Table)
    decreases Awaited(t.modules)
  {
    var i := Latest1(t.modules);
    if i < 0 then t
    else
      FewerAwaited(t.modules, i, t.modules[i].(termed := true));
      TerminateAll(EndOne(t, i))
  }

  /** The module initialised last ends after everybody that holds it. */
  lemma EndStep(t: Table)
    requires Hist(t) && Latest1(t.modules) >= 0
    ensures Hist(EndOne(t, Latest1(t.modules)))
  {
    hide Lookup, Unique, Latest1, Tracked, LinksOk, HoldsAt;
    var i := Latest1(t.modules);
    var h := t.modules[i].handle;
    var m := t.modules[i].(termed := true);
    var u := EndOne(t, i);
    LookupUpdate(t.modules, i, m);
    FoundIs(t.modules, i);
    assert FlagOk(t, t.modules[i]);
    forall a | 0 <= a < |u.modules| ensures FlagOk(u, u.modules[a]) {
      assert FlagOk(t, t.modules[a]);
    }
    forall a, b | 0 <= a < |u.modules| && 0 <= b < |u.modules[a].slots| && u.modules[a].slots[b].Some?
      ensures EdgeOk(u, u.modules[a], u.modules[a].slots[b].value)
    {
      assert EdgeOk(t, t.modules[a], t.modules[a].slots[b].value);
    }
    HoldersEnded(t, i);
    LoggedEnd(t.log, h);
    forall p, d | Linked(p, d) in u.log ensures Linked(p, d) in t.log && (Finished(t, p) ==> Finished(u, p)) {
    }
    LinksKept(t, u, i, m);
    TrackedKept(t, u);
  }

  /** An initialised holder was initialised after what it holds. */
  lemma HolderLater(t: Table, i: nat, a: nat, b: nat)
    requires Hist(t) && i < |t.modules| && a < |t.modules| && b < |t.modules[a].slots|
    requires t.modules[a].slots[b] == Some(t.modules[i].name) && t.modules[i].inited
    ensures t.modules[a].inited ==> t.modules[i].order < t.modules[a].order
    ensures Inited(t.modules[a].handle) in t.log && Ended(t.modules[a].handle) !in t.log ==> Waiting(t.modules[a])
  {
    assert EdgeOk(t, t.modules[a], t.modules[i].name) && FlagOk(t, t.modules[a]);
    FoundIs(t.modules, i);
  }

  lemma HoldersEnded(t: Table, i: nat)
    requires Hist(t) && i < |t.modules| && Waiting(t.modules[i])
    requires forall j :: 0 <= j < |t.modules| && Waiting(t.modules[j]) ==> t.modules[j].order <= t.modules[i].order
    ensures forall p :: Linked(p, t.modules[i].handle) in t.log && Inited(p) in t.log ==> Ended(p) in t.log
  {
    hide Lookup, Unique;
    var h := t.modules[i].handle;
    forall p | Linked(p, h) in t.log && Inited(p) in t.log ensures Ended(p) in t.log {
      if !Finished(t, p) {
        var a, b :| HoldsAt(t.modules, a, b, p, h);
        HeldByName(t, i, a, b, p);
        HolderLater(t, i, a, b);
      }
    }
  }

  lemma {:induction false} ExitOrdered(t: Table)
    requires Hist(t)
    ensures Hist(TerminateAll(t)) && forall i :: 0 <= i < |TerminateAll(t).modules| ==> !Waiting(TerminateAll(t).modules[i])
    decreases Awaited(t.modules)
  {
    hide Hist;
    var i := Latest1(t.modules);
    if i >= 0 {
      FewerAwaited(t.modules, i, t.modules[i].(termed := true));
      EndStep(t);
      ExitOrdered(EndOne(t, i));
    }
  }

  /** Lifecycle order: over any loads, failed initialisations and matched frees, and through
      process exit after them, no module ends twice, every module that was ever initialised has
      ended at the end, and a module ends only after every initialised module that imported it. */
  lemma LifecycleOrder(w: World, ops: seq<Op>)
    requires Good(w)
    ensures Shaped(w, EMPTY.table.modules)
    ensures var r := Calls(w, EMPTY, ops);
            r.Some? ==>
              Ordered(r.value.table.log) && Once(r.value.table.log) &&
              var last := TerminateAll(r.value.table);
              Ordered(last.log) && Once(last.log) && forall h :: Inited(h) in last.log ==> Ended(h) in last.log
  {
    hide TerminateAll, Calls, Awaited, Waiting, Hist;
    EmptySound(w);
    CallsSound(w, EMPTY, ops);
    var r := Calls(w, EMPTY, ops);
    if r.Some? {
      ExitOrdered(r.value.table);
      HistSays(r.value.table);
      AllEnded(TerminateAll(r.value.table));
    }
  }

  lemma HistSays(t: Table)
    requires Hist(t)
    ensures Ordered(t.log) && Once(t.log)
  {
  }

  /** When no module of the table waits for its end, every module ever initialised has ended. */
  lemma AllEnded(t: Table)
    requires Hist(t) && forall i :: 0 <= i < |t.modules| ==> !Waiting(t.modules[i])
    ensures Ordered(t.log) && Once(t.log) && forall h :: Inited(h) in t.log ==> Ended(h) in t.log
  {
    hide Lookup, Unique, LinksOk, Ordered, Once;
    forall h | Inited(h) in t.log ensures Ended(h) in t.log {
      if Ended(h) !in t.log {
        var i :| HandleAt(t.modules, i, h);
        FlagsSay(t, i);
      }
    }
  }

  lemma FlagsSay(t: Table, i: nat)
    requires Hist(t) && i < |t.modules|
    ensures Inited(t.modules[i].handle) in t.log && !Waiting(t.modules[i]) ==> Ended(t.modules[i].handle) in t.log
  {
    assert FlagOk(t, t.modules[i]);
  }

  lemma EmptySound(w: World)
    ensures Sound(w, EMPTY)
  {
    assert EMPTY.table.modules == [] && EMPTY.table.log == [];
  }
}
