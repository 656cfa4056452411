/** The order of TERM calls: each module ends at most once, and before everything it imports. */
module ModuleLifecycle {
  import opened Options
  import opened ModuleGraph
  import opened ModuleRefs

  function Latest(e: Event): nat {
    match e
    case Linked(p, c) => if p > c then p else c
    case Inited(h) => h
    case Ended(h) => h
  }

  ghost predicate HandlesOk(t: Table) {
    (forall i :: 0 <= i < |t.modules| ==> t.modules[i].handle < t.nextHandle) &&
    (forall i, j :: 0 <= i < j < |t.modules| ==> t.modules[i].handle != t.modules[j].handle) &&
    (forall e :: e in t.log ==> Latest(e) < t.nextHandle)
  }

  /** The log says what the flags say; a module that is going away has ended, unless it was
      never initialised. */
  ghost predicate FlagOk(t: Table, m: Module) {
    (m.inited <==> Inited(m.handle) in t.log) && (m.termed <==> Ended(m.handle) in t.log) && (m.termed ==> m.inited) &&
    (m.dying && m.inited ==> m.termed) && (m.inited ==> m.order < t.nextOrder)
  }

  /** What a slot holds is loaded, was linked, and was initialised before its holder. */
  ghost predicate EdgeOk(t: Table, m: Module, c: Name) {
    Lookup(t.modules, c).Some? &&
    var x := Lookup(t.modules, c).value;
    !x.dying && Linked(m.handle, x.handle) in t.log && (m.inited && x.inited ==> x.order < m.order)
  }

  ghost predicate ModulesOk(t: Table) {
    forall i :: 0 <= i < |t.modules| ==>
      FlagOk(t, t.modules[i]) &&
      forall k :: 0 <= k < |t.modules[i].slots| && t.modules[i].slots[k].Some? ==> EdgeOk(t, t.modules[i], t.modules[i].slots[k].value)
  }

  ghost predicate HoldsAt(ms: seq<Module>, i: int, k: int, p: nat, c: nat) {
    0 <= i < |ms| && ms[i].handle == p && 0 <= k < |ms[i].slots| && ms[i].slots[k].Some? &&
    Lookup(ms, ms[i].slots[k].value).Some? && Lookup(ms, ms[i].slots[k].value).value.handle == c
  }

  /** A module that has ended, or that never was initialised and never will be. */
  ghost predicate Finished(t: Table, p: nat) {
    Ended(p) in t.log ||
    (Inited(p) !in t.log && forall i :: 0 <= i < |t.modules| && t.modules[i].handle == p ==> t.modules[i].dying)
  }

  /** A link lasts until its holder is finished. */
  ghost predicate LinksOk(t: Table) {
    forall p, c :: Linked(p, c) in t.log ==> Finished(t, p) || exists i, k :: HoldsAt(t.modules, i, k, p, c)
  }

  /** Whoever ends does so after every initialised module that was linked to it. */
  ghost predicate Ordered(log: seq<Event>) {
    forall j, p, c :: 0 <= j < |log| && log[j] == Ended(c) && Linked(p, c) in log && Inited(p) in log ==> Ended(p) in log[..j]
  }

  ghost predicate Once(log: seq<Event>) {
    forall i, j :: 0 <= i < j < |log| && log[i].Ended? ==> log[i] != log[j]
  }

  /** An initialised module that has not ended is still in the table. */
  ghost predicate Tracked(t: Table) {
    forall h :: Inited(h) in t.log && Ended(h) !in t.log ==> exists i :: HandleAt(t.modules, i, h)
  }

  predicate HandleAt(ms: seq<Module>, i: int, h: nat) {
    0 <= i < |ms| && ms[i].handle == h
  }

  ghost predicate Hist(t: Table) {
    Unique(t.modules) && HandlesOk(t) && ModulesOk(t) && LinksOk(t) && Tracked(t) && Ordered(t.log) && Once(t.log)
  }

  /** Until the process exits only modules that are going away have ended. */
  ghost predicate Serving(t: Table) {
    forall i :: 0 <= i < |t.modules| && t.modules[i].termed ==> t.modules[i].dying
  }

  // ---- nobody holds a module without references ------------------------------------------

  lemma {:induction false} KidsPositive(slots: seq<Option<Name>>, k: nat, c: Name)
    requires k < |slots| && slots[k] == Some(c)
    ensures Kids(slots, c) > 0
  {
    if k < |slots| - 1 {
      KidsPositive(slots[..|slots| - 1], k, c);
    }
  }

  lemma {:induction false} EdgesPositive(ms: seq<Module>, i: nat, k: nat, c: Name)
    requires i < |ms| && k < |ms[i].slots| && ms[i].slots[k] == Some(c)
    ensures Edges(ms, c) > 0
  {
    hide Kids;
    if i < |ms| - 1 {
      EdgesPositive(ms[..|ms| - 1], i, k, c);
    } else {
      KidsPositive(ms[i].slots, k, c);
    }
  }

  lemma Unheld(ms: seq<Module>, c: Name)
    requires Edges(ms, c) == 0
    ensures forall i, k :: 0 <= i < |ms| && 0 <= k < |ms[i].slots| ==> ms[i].slots[k] != Some(c)
  {
    hide Edges;
    forall i, k | 0 <= i < |ms| && 0 <= k < |ms[i].slots| ensures ms[i].slots[k] != Some(c) {
      if ms[i].slots[k] == Some(c) {
        EdgesPositive(ms, i, k, c);
      }
    }
  }

  /** No module leaves, and whoever is initialised is in the table. */
  lemma TrackedKept(t: Table, u: Table)
    requires Tracked(t) && t.log <= u.log && |t.modules| <= |u.modules|
    requires forall i :: 0 <= i < |t.modules| ==> u.modules[i].handle == t.modules[i].handle
    requires forall h :: Inited(h) in u.log && Inited(h) !in t.log ==> exists i :: HandleAt(u.modules, i, h)
    ensures Tracked(u)
  {
    forall h | Inited(h) in u.log && Ended(h) !in u.log ensures exists i :: HandleAt(u.modules, i, h) {
      if Inited(h) in t.log {
        assert Ended(h) !in t.log;
        var i :| HandleAt(t.modules, i, h);
        assert HandleAt(u.modules, i, h);
      }
    }
  }

  /** Links last while slots stay and finished modules stay finished. */
  lemma LinksKept(t: Table, u: Table, i: nat, m: Module)
    requires LinksOk(t) && Unique(t.modules) && i < |t.modules| && u.modules == t.modules[i := m]
    requires m.name == t.modules[i].name && m.handle == t.modules[i].handle && m.slots == t.modules[i].slots
    requires forall p, d :: Linked(p, d) in u.log ==> Linked(p, d) in t.log && (Finished(t, p) ==> Finished(u, p))
    ensures LinksOk(u)
  {
    hide Lookup, Unique, Finished;
    LookupUpdate(t.modules, i, m);
    FoundIs(t.modules, i);
    forall p, d | Linked(p, d) in u.log ensures Finished(u, p) || exists a, b :: HoldsAt(u.modules, a, b, p, d) {
      if !Finished(t, p) {
        var a, b :| HoldsAt(t.modules, a, b, p, d);
        assert HoldsAt(u.modules, a, b, p, d);
      }
    }
  }

  // ---- single steps --------------------------------------------------------------------------

  /** Only the count of a module changes. */
  lemma CountStep(t: Table, i: nat, refs: nat)
    requires Hist(t) && i < |t.modules|
    ensures Hist(Update(t, i, t.modules[i].(refs := refs)))
  {
    hide Tracked, Lookup, Unique, FlagOk;
    var m := t.modules[i].(refs := refs);
    var u := Update(t, i, m);
    LookupUpdate(t.modules, i, m);
    FoundIs(t.modules, i);
    SameFlags(t, u);
    forall a, k | 0 <= a < |u.modules| && 0 <= k < |u.modules[a].slots| && u.modules[a].slots[k].Some?
      ensures EdgeOk(u, u.modules[a], u.modules[a].slots[k].value)
    {
      assert EdgeOk(t, t.modules[a], t.modules[a].slots[k].value);
    }
    forall p, c | Linked(p, c) in u.log ensures Finished(u, p) || exists a, k :: HoldsAt(u.modules, a, k, p, c) {
      if !Finished(t, p) {
        var a, k :| HoldsAt(t.modules, a, k, p, c);
        assert HoldsAt(u.modules, a, k, p, c);
      } else {
        assert Finished(u, p);
      }
    }
    TrackedKept(t, u);
  }

  /** Modules that agree in everything the flags speak of, under the same log. */
  lemma SameFlags(t: Table, u: Table)
    requires |u.modules| == |t.modules| && u.log == t.log && u.nextOrder == t.nextOrder
    requires forall i :: 0 <= i < |t.modules| ==> FlagOk(t, t.modules[i])
    requires forall i :: 0 <= i < |t.modules| ==>
               u.modules[i] == t.modules[i].(refs := u.modules[i].refs, slots := u.modules[i].slots)
    ensures forall i :: 0 <= i < |u.modules| ==> FlagOk(u, u.modules[i])
  {
    forall i | 0 <= i < |u.modules| ensures FlagOk(u, u.modules[i]) {
      assert FlagOk(t, t.modules[i]);
    }
  }

  lemma HandleIs(t: Table, a: nat, i: nat)
    requires HandlesOk(t) && a < |t.modules| && i < |t.modules| && t.modules[a].handle == t.modules[i].handle
    ensures a == i
  {
  }

  lemma NamedSo(ms: seq<Module>, c: Name)
    ensures Lookup(ms, c).Some? ==> Lookup(ms, c).value.name == c && exists j :: 0 <= j < |ms| && ms[j] == Lookup(ms, c).value
  {
  }

  /** A new module starts without a past. */
  lemma AppendStep(w: World, t: Table, n: Name)
    requires Hist(t) && Serving(t) && n in w && Lookup(t.modules, n) == None
    ensures var u := t.(modules := t.modules + [Fresh(w, t, n)], nextHandle := t.nextHandle + 1); Hist(u) && Serving(u)
  {
    hide Tracked, Lookup, Unique;
    var m := Fresh(w, t, n);
    var u := t.(modules := t.modules + [m], nextHandle := t.nextHandle + 1);
    LookupAppend(t.modules, m);
    assert Latest(Inited(m.handle)) == t.nextHandle && Latest(Ended(m.handle)) == t.nextHandle;
    forall a | 0 <= a < |u.modules| ensures FlagOk(u, u.modules[a]) {
      if a < |t.modules| {
        assert FlagOk(t, t.modules[a]);
      }
    }
    forall a, k | 0 <= a < |u.modules| && 0 <= k < |u.modules[a].slots| && u.modules[a].slots[k].Some?
      ensures EdgeOk(u, u.modules[a], u.modules[a].slots[k].value)
    {
      assert EdgeOk(t, t.modules[a], t.modules[a].slots[k].value);
    }
    forall p, c | Linked(p, c) in u.log ensures Finished(u, p) || exists a, k :: HoldsAt(u.modules, a, k, p, c) {
      assert Latest(Linked(p, c)) < t.nextHandle;
      if !Finished(t, p) {
        var a, k :| HoldsAt(t.modules, a, k, p, c);
        assert HoldsAt(u.modules, a, k, p, c);
      }
    }
    TrackedKept(t, u);
  }

  /** A module that is still loading takes hold of an import. */
  lemma LinkStep(t: Table, n: Name, k: nat, c: Name)
    requires Hist(t) && Serving(t) && Find(t.modules, n) >= 0 && Find(t.modules, c) >= 0 && n != c
    requires var m := t.modules[Find(t.modules, n)];
             !m.inited && !m.dying && k < |m.slots| && m.slots[k] == None && !t.modules[Find(t.modules, c)].dying
    ensures Hist(Link(t, n, k, c)) && Serving(Link(t, n, k, c))
  {
    hide Tracked, Lookup, Unique, Finished;
    var i, j := Find(t.modules, n), Find(t.modules, c);
    var m := t.modules[i].(slots := t.modules[i].slots[k := Some(c)]);
    var u := Link(t, n, k, c);
    assert u.modules == t.modules[i := m];
    LookupUpdate(t.modules, i, m);
    FoundIs(t.modules, i);
    FoundIs(t.modules, j);
    var e := Linked(t.modules[i].handle, t.modules[j].handle);
    assert u.log == t.log + [e];
    assert FlagOk(t, t.modules[i]) && FlagOk(t, t.modules[j]);
    LoggedLink(t.log, e);
    forall a | 0 <= a < |u.modules| ensures FlagOk(u, u.modules[a]) {
      assert FlagOk(t, t.modules[a]);
    }
    forall a, b | 0 <= a < |u.modules| && 0 <= b < |u.modules[a].slots| && u.modules[a].slots[b].Some?
      ensures EdgeOk(u, u.modules[a], u.modules[a].slots[b].value)
    {
      if a != i || b != k {
        assert EdgeOk(t, t.modules[a], t.modules[a].slots[b].value);
      }
    }
    forall p, d | Linked(p, d) in u.log ensures Finished(u, p) || exists a, b :: HoldsAt(u.modules, a, b, p, d) {
      if Linked(p, d) == e {
        assert HoldsAt(u.modules, i, k, p, d);
      } else {
        KeptLink(t, u, i, m, k, p, d);
      }
    }
    TrackedKept(t, u);
  }

  lemma KeptLink(t: Table, u: Table, i: nat, m: Module, k: nat, p: nat, d: nat)
    requires Hist(t) && i < |t.modules| && k < |t.modules[i].slots| && t.modules[i].slots[k] == None
    requires m == t.modules[i].(slots := m.slots) && |m.slots| == |t.modules[i].slots|
    requires forall b :: 0 <= b < |m.slots| && b != k ==> m.slots[b] == t.modules[i].slots[b]
    requires u.modules == t.modules[i := m] && Linked(p, d) in t.log && t.log <= u.log
    requires Inited(p) in u.log ==> Inited(p) in t.log
    ensures Finished(u, p) || exists a, b :: HoldsAt(u.modules, a, b, p, d)
  {
    hide Lookup, Unique, EdgeOk, FlagOk;
    LookupUpdate(t.modules, i, m);
    FoundIs(t.modules, i);
    if !Finished(t, p) {
      var a, b :| HoldsAt(t.modules, a, b, p, d);
      assert HoldsAt(u.modules, a, b, p, d);
    }
  }

  /** A link in the log changes nothing that ended before. */
  lemma LoggedLink(log: seq<Event>, e: Event)
    requires e.Linked? && Ordered(log) && Once(log) && Ended(e.child) !in log
    ensures Ordered(log + [e]) && Once(log + [e])
  {
    var u := log + [e];
    forall j, p, c | 0 <= j < |u| && u[j] == Ended(c) && Linked(p, c) in u && Inited(p) in u ensures Ended(p) in u[..j] {
      assert u[..j] == log[..j];
      assert log[j] == Ended(c) && Ended(c) in log;
    }
  }

  /** A module starts after everything it holds. */
  lemma InitStep(t: Table, i: nat)
    requires Hist(t) && Serving(t) && i < |t.modules| && !t.modules[i].inited && !t.modules[i].dying
    requires Edges(t.modules, t.modules[i].name) == 0
    ensures var m := t.modules[i];
            var u := Note(Update(t, i, m.(inited := true, order := t.nextOrder)).(nextOrder := t.nextOrder + 1), Inited(m.handle));
            Hist(u) && Serving(u)
  {
    hide LinksOk, HoldsAt, Tracked, Lookup, Unique, Edges;
    var h := t.modules[i].handle;
    var m := t.modules[i].(inited := true, order := t.nextOrder);
    var u := Note(Update(t, i, m).(nextOrder := t.nextOrder + 1), Inited(h));
    LookupUpdate(t.modules, i, m);
    FoundIs(t.modules, i);
    Unheld(t.modules, m.name);
    assert FlagOk(t, t.modules[i]);
    forall a | 0 <= a < |u.modules| ensures FlagOk(u, u.modules[a]) {
      assert FlagOk(t, t.modules[a]);
    }
    forall a, b | 0 <= a < |u.modules| && 0 <= b < |u.modules[a].slots| && u.modules[a].slots[b].Some?
      ensures EdgeOk(u, u.modules[a], u.modules[a].slots[b].value)
    {
      var c := t.modules[a].slots[b].value;
      assert EdgeOk(t, t.modules[a], c);
      NamedSo(t.modules, c);
      var x :| 0 <= x < |t.modules| && t.modules[x] == Lookup(t.modules, c).value;
      assert FlagOk(t, t.modules[x]);
    }
    NotEnded(t, i);
    LoggedInit(t.log, h);
    forall p, d | Linked(p, d) in u.log ensures Linked(p, d) in t.log && (Finished(t, p) ==> Finished(u, p)) {
      if Finished(t, p) && Ended(p) !in t.log {
        assert p != h;
      }
    }
    LinksKept(t, u, i, m);
    assert HandleAt(u.modules, i, h);
    TrackedKept(t, u);
  }

  /** While a module serves, nothing it links to has ended. */
  lemma NotEnded(t: Table, i: nat)
    requires Hist(t) && Serving(t) && i < |t.modules| && !t.modules[i].dying
    ensures forall c :: Linked(t.modules[i].handle, c) in t.log ==> Ended(c) !in t.log
  {
    hide Lookup, Unique;
    var h := t.modules[i].handle;
    assert FlagOk(t, t.modules[i]);
    assert !Finished(t, h);
    forall c | Linked(h, c) in t.log ensures Ended(c) !in t.log {
      var a, b :| HoldsAt(t.modules, a, b, h, c);
      HandleIs(t, a, i);
      var n := t.modules[a].slots[b].value;
      assert EdgeOk(t, t.modules[a], n);
      NamedSo(t.modules, n);
      var x :| 0 <= x < |t.modules| && t.modules[x] == Lookup(t.modules, n).value;
      assert FlagOk(t, t.modules[x]);
    }
  }

  lemma LoggedInit(log: seq<Event>, h: nat)
    requires Ordered(log) && Once(log) && forall c :: Linked(h, c) in log ==> Ended(c) !in log
    ensures Ordered(log + [Inited(h)]) && Once(log + [Inited(h)])
  {
    var u := log + [Inited(h)];
    forall j, p, c | 0 <= j < |u| && u[j] == Ended(c) && Linked(p, c) in u && Inited(p) in u ensures Ended(p) in u[..j] {
      assert u[..j] == log[..j];
      assert log[j] == Ended(c) && Ended(c) in log;
    }
  }

  /** The table with module `i` dying: an initialised one ends now. */
  function Mortal(t: Table, i: nat, refs: nat): Table
    requires i < |t.modules|
  {
    var m := t.modules[i];
    var x := m.(refs := refs, dying := true, termed := m.inited);
    t.(modules := t.modules[i := x], log := if m.inited then t.log + [Ended(m.handle)] else t.log)
  }

  /** A module that nobody holds may end: everybody who was linked to it has ended before. */
  lemma DieStep(t: Table, i: nat, refs: nat)
    requires Hist(t) && Serving(t) && i < |t.modules| && !t.modules[i].dying && Edges(t.modules, t.modules[i].name) == 0
    ensures Hist(Mortal(t, i, refs)) && Serving(Mortal(t, i, refs))
  {
    hide LinksOk, HoldsAt, Tracked, Lookup, Unique, Edges;
    var h := t.modules[i].handle;
    var u := Mortal(t, i, refs);
    var m := u.modules[i];
    LookupUpdate(t.modules, i, m);
    FoundIs(t.modules, i);
    Unheld(t.modules, m.name);
    assert FlagOk(t, t.modules[i]);
    forall a | 0 <= a < |u.modules| ensures FlagOk(u, u.modules[a]) {
      assert FlagOk(t, t.modules[a]);
    }
    forall a, b | 0 <= a < |u.modules| && 0 <= b < |u.modules[a].slots| && u.modules[a].slots[b].Some?
      ensures EdgeOk(u, u.modules[a], u.modules[a].slots[b].value)
    {
      assert EdgeOk(t, t.modules[a], t.modules[a].slots[b].value);
    }
    NobodyLinked(t, i);
    if m.inited {
      LoggedEnd(t.log, h);
    }
    forall p, d | Linked(p, d) in u.log ensures Linked(p, d) in t.log && (Finished(t, p) ==> Finished(u, p)) {
    }
    LinksKept(t, u, i, m);
    TrackedKept(t, u);
  }

  /** A slot that holds the handle of module `i` holds its name. */
  lemma HeldByName(t: Table, i: nat, a: int, b: int, p: nat)
    requires HandlesOk(t) && i < |t.modules| && HoldsAt(t.modules, a, b, p, t.modules[i].handle)
    ensures t.modules[a].slots[b] == Some(t.modules[i].name)
  {
    hide Lookup;
    var n := t.modules[a].slots[b].value;
    NamedSo(t.modules, n);
    var x :| 0 <= x < |t.modules| && t.modules[x] == Lookup(t.modules, n).value;
    HandleIs(t, x, i);
  }

  /** Every link to a module that nobody holds comes from a finished module. */
  lemma NobodyLinked(t: Table, i: nat)
    requires Hist(t) && i < |t.modules| && Edges(t.modules, t.modules[i].name) == 0
    ensures forall p :: Linked(p, t.modules[i].handle) in t.log && Inited(p) in t.log ==> Ended(p) in t.log
  {
    hide Lookup, Unique, Edges;
    var h := t.modules[i].handle;
    Unheld(t.modules, t.modules[i].name);
    forall p | Linked(p, h) in t.log && Inited(p) in t.log ensures Ended(p) in t.log {
      if !Finished(t, p) {
        var a, b :| HoldsAt(t.modules, a, b, p, h);
        HeldByName(t, i, a, b, p);
      }
    }
  }

  lemma LoggedEnd(log: seq<Event>, h: nat)
    requires Ordered(log) && Once(log) && Ended(h) !in log
    requires forall p :: Linked(p, h) in log && Inited(p) in log ==> Ended(p) in log
    ensures Ordered(log + [Ended(h)]) && Once(log + [Ended(h)])
  {
    var u := log + [Ended(h)];
    forall j, p, c | 0 <= j < |u| && u[j] == Ended(c) && Linked(p, c) in u && Inited(p) in u ensures Ended(p) in u[..j] {
      assert u[..j] == log[..j];
      if j == |log| {
        assert log[..j] == log;
      }
    }
  }

  /** A dying module lets go of what it holds. */
  lemma ClearStep(t: Table, i: nat, k: nat)
    requires Hist(t) && Serving(t) && i < |t.modules| && t.modules[i].dying && k < |t.modules[i].slots|
    ensures Hist(SetSlot(t, i, k, None)) && Serving(SetSlot(t, i, k, None))
  {
    hide Tracked, Lookup, Unique;
    var h := t.modules[i].handle;
    var u := SetSlot(t, i, k, None);
    LookupUpdate(t.modules, i, u.modules[i]);
    FoundIs(t.modules, i);
    assert FlagOk(t, t.modules[i]);
    forall a | 0 <= a < |u.modules| ensures FlagOk(u, u.modules[a]) {
      assert FlagOk(t, t.modules[a]);
    }
    forall a, b | 0 <= a < |u.modules| && 0 <= b < |u.modules[a].slots| && u.modules[a].slots[b].Some?
      ensures EdgeOk(u, u.modules[a], u.modules[a].slots[b].value)
    {
      assert EdgeOk(t, t.modules[a], t.modules[a].slots[b].value);
    }
    DyingFinished(t, i);
    forall p, d | Linked(p, d) in u.log ensures Finished(u, p) || exists a, b :: HoldsAt(u.modules, a, b, p, d) {
      if Finished(t, p) {
        assert Finished(u, p);
      } else {
        var a, b :| HoldsAt(t.modules, a, b, p, d);
        assert HoldsAt(u.modules, a, b, p, d);
      }
    }
    TrackedKept(t, u);
  }

  lemma DyingFinished(t: Table, i: nat)
    requires Hist(t) && i < |t.modules| && t.modules[i].dying
    ensures Finished(t, t.modules[i].handle)
  {
    hide Lookup, Unique;
    assert FlagOk(t, t.modules[i]);
    forall a | 0 <= a < |t.modules| && t.modules[a].handle == t.modules[i].handle ensures t.modules[a].dying {
      HandleIs(t, a, i);
    }
  }

  /** A dying module that holds nothing, and that nobody holds, disappears. */
  lemma RemoveStep(t: Table, i: nat)
    requires Hist(t) && Serving(t) && i < |t.modules| && t.modules[i].dying && Edges(t.modules, t.modules[i].name) == 0
    requires forall k :: 0 <= k < |t.modules[i].slots| ==> t.modules[i].slots[k] == None
    ensures var u := t.(modules := t.modules[..i] + t.modules[i + 1..]); Hist(u) && Serving(u)
  {
    hide Tracked, Lookup, Unique, Edges, HoldsAt, Finished;
    var u := t.(modules := t.modules[..i] + t.modules[i + 1..]);
    LookupRemove(t.modules, i);
    Unheld(t.modules, t.modules[i].name);
    assert forall a :: 0 <= a < |u.modules| ==> u.modules[a] == t.modules[if a < i then a else a + 1];
    forall a | 0 <= a < |u.modules| ensures FlagOk(u, u.modules[a]) {
      assert FlagOk(t, t.modules[if a < i then a else a + 1]);
    }
    forall a, b | 0 <= a < |u.modules| && 0 <= b < |u.modules[a].slots| && u.modules[a].slots[b].Some?
      ensures EdgeOk(u, u.modules[a], u.modules[a].slots[b].value)
    {
      assert EdgeOk(t, t.modules[if a < i then a else a + 1], u.modules[a].slots[b].value);
    }
    forall p, d | Linked(p, d) in u.log ensures Finished(u, p) || exists a, b :: HoldsAt(u.modules, a, b, p, d) {
      RemovedLink(t, i, p, d);
    }
    RemovedTracked(t, i);
  }

  lemma RemovedTracked(t: Table, i: nat)
    requires Hist(t) && i < |t.modules| && t.modules[i].dying
    ensures Tracked(t.(modules := t.modules[..i] + t.modules[i + 1..]))
  {
    hide Lookup, Unique, LinksOk, Ordered, Once;
    var u := t.(modules := t.modules[..i] + t.modules[i + 1..]);
    assert FlagOk(t, t.modules[i]);
    forall h | Inited(h) in u.log && Ended(h) !in u.log ensures exists a :: HandleAt(u.modules, a, h) {
      var a :| HandleAt(t.modules, a, h);
      assert a != i;
      assert HandleAt(u.modules, if a < i then a else a - 1, h);
    }
  }

  lemma RemovedLink(t: Table, i: nat, p: nat, d: nat)
    requires Hist(t) && i < |t.modules| && Linked(p, d) in t.log
    requires forall k :: 0 <= k < |t.modules[i].slots| ==> t.modules[i].slots[k] == None
    requires forall a, k :: 0 <= a < |t.modules| && 0 <= k < |t.modules[a].slots| ==> t.modules[a].slots[k] != Some(t.modules[i].name)
    ensures var u := t.(modules := t.modules[..i] + t.modules[i + 1..]);
            Finished(u, p) || exists a, b :: HoldsAt(u.modules, a, b, p, d)
  {
    hide Lookup, Unique, EdgeOk, FlagOk;
    var u := t.(modules := t.modules[..i] + t.modules[i + 1..]);
    assert forall a :: 0 <= a < |u.modules| ==> u.modules[a] == t.modules[if a < i then a else a + 1];
    if !Finished(t, p) {
      LookupRemove(t.modules, i);
      var a, b :| HoldsAt(t.modules, a, b, p, d);
      var x := if a < i then a else a - 1;
      assert u.modules[x] == t.modules[a];
      assert HoldsAt(u.modules, x, b, p, d);
    }
  }
}
