/** Loading and releasing keep every reference count exact. */
module ModuleConservation {
  import opened Options
  import opened ModuleGraph
  import opened ModuleRefs

  /** Every other module of the rank of `n` or above is exactly as it was. */
  ghost predicate SameBeside(w: World, a: seq<Module>, b: seq<Module>, n: Name)
    requires n in w
  {
    forall c :: c in w && c != n && w[c].rank >= w[n].rank ==> Lookup(b, c) == Lookup(a, c)
  }

  /** No module but `n` is dying, except above its rank. */
  ghost predicate OnlyDying(w: World, ms: seq<Module>, n: Name)
    requires n in w
  {
    forall c :: c != n && Lookup(ms, c).Some? && Lookup(ms, c).value.dying ==> c in w && w[c].rank > w[n].rank
  }

  predicate Clear(slots: seq<Option<Name>>, k: nat) {
    forall j :: 0 <= j < |slots| && j < k ==> slots[j] == None
  }

  /** The dying module `n` of `a` is the same in `b` but for slots that were cleared. */
  ghost predicate Cleared(a: seq<Module>, b: seq<Module>, n: Name) {
    Lookup(a, n).Some? && Lookup(b, n).Some? &&
    var x, y := Lookup(a, n).value, Lookup(b, n).value;
    y == x.(slots := y.slots) && |y.slots| == |x.slots| && Clear(y.slots, |y.slots|)
  }

  lemma RefsPositive(ms: seq<Module>, out: multiset<Name>, c: Name)
    requires Counted(ms, out) && out[c] > 0
    ensures Lookup(ms, c).Some? && Lookup(ms, c).value.refs > 0
  {
    assert RefsOf(ms, c) == Edges(ms, c) + out[c];
  }

  lemma CountedUnique(ms: seq<Module>, out: multiset<Name>)
    requires Counted(ms, out)
    ensures Unique(ms)
  {
  }

  lemma TableIs(t: Table, i: nat, m: Module)
    requires i < |t.modules| && m.name == t.modules[i].name && Unique(t.modules)
    ensures var u := Update(t, i, m);
            Unique(u.modules) && Find(u.modules, m.name) == i &&
            forall c :: Lookup(u.modules, c) == if c == m.name then Some(m) else Lookup(t.modules, c)
  {
    hide Lookup;
    LookupUpdate(t.modules, i, m);
    FoundIs(Update(t, i, m).modules, i);
  }

  // ---- release ---------------------------------------------------------------------------

  /** Releasing gives back exactly one reference to `n`; whatever dies gives up its own. */
  lemma {:induction false} ReleaseCounts(w: World, t: Table, n: Name, out: multiset<Name>)
    requires Good(w) && Shaped(w, t.modules) && n in w
    requires Counted(t.modules, out + multiset{n}) && NoneDyingBelow(w, t.modules, w[n].rank + 1)
    ensures var r := Release(w, t, n).modules;
            Counted(r, out) && NoneDyingBelow(w, r, w[n].rank + 1) && SameAbove(w, t.modules, r, w[n].rank)
    decreases w[n].rank + 1, 1
  {
    hide Counted, Lookup, Edges, Kids, Unique, Shaped, Good, Terminate;
    RefsPositive(t.modules, out + multiset{n}, n);
    CountedUnique(t.modules, out + multiset{n});
    var i := Find(t.modules, n);
    assert i >= 0 && t.modules[i] == Lookup(t.modules, n).value by { LookedUp(t.modules, n); }
    var m := t.modules[i].(refs := t.modules[i].refs - 1);
    GiveUpOne(t, i, out);
    TableIs(t, i, m);
    if m.refs == 0 {
      var dying := Dying(w, t, i);
      DyingCounts(w, t, i, out);
      SlotsCount(w, dying, n, 0, out);
      var s := ReleaseSlots(w, dying, n, 0);
      Disappears(w, dying, s, n, out);
    } else {
      StillAlive(w, t, i);
    }
  }

  lemma LookedUp(ms: seq<Module>, n: Name)
    requires Lookup(ms, n).Some?
    ensures var i := Find(ms, n); i >= 0 && ms[i] == Lookup(ms, n).value
  {
  }

  /** The table with module `i` dying and terminated. */
  function Dying(w: World, t: Table, i: nat): (r: Table)
    requires Shaped(w, t.modules) && i < |t.modules| && t.modules[i].refs > 0
  {
    Terminate(w, Update(t, i, t.modules[i].(refs := t.modules[i].refs - 1, dying := true)), i)
  }

  lemma GiveUpOne(t: Table, i: nat, out: multiset<Name>)
    requires i < |t.modules| && t.modules[i].refs > 0 && Counted(t.modules, out + multiset{t.modules[i].name})
    ensures Counted(t.modules[i := t.modules[i].(refs := t.modules[i].refs - 1)], out)
  {
    hide Counted, Kids;
    var m := t.modules[i].(refs := t.modules[i].refs - 1);
    CountedUpdate(t.modules, i, m, out + multiset{m.name}, out);
  }

  lemma StillAlive(w: World, t: Table, i: nat)
    requires i < |t.modules| && Unique(t.modules) && t.modules[i].refs > 0 && t.modules[i].name in w
    requires NoneDyingBelow(w, t.modules, w[t.modules[i].name].rank + 1)
    ensures var n := t.modules[i].name;
            var r := Update(t, i, t.modules[i].(refs := t.modules[i].refs - 1)).modules;
            NoneDyingBelow(w, r, w[n].rank + 1) && SameAbove(w, t.modules, r, w[n].rank)
  {
    hide Lookup, Unique;
    FoundIs(t.modules, i);
    TableIs(t, i, t.modules[i].(refs := t.modules[i].refs - 1));
  }

  /** What dying changes: counts and slots stay, the flags are set. */
  lemma DyingIs(w: World, t: Table, i: nat) returns (termed: bool)
    requires Shaped(w, t.modules) && i < |t.modules| && t.modules[i].refs > 0
    ensures var m := t.modules[i];
            Dying(w, t, i).modules == t.modules[i := m.(refs := m.refs - 1, dying := true, termed := termed)]
  {
    var m := t.modules[i];
    var x := m.(refs := m.refs - 1, dying := true);
    termed := Dying(w, t, i).modules[i].termed;
    assert t.modules[i := x][i := x.(termed := true)] == t.modules[i := x.(termed := true)];
  }

  lemma DyingCounts(w: World, t: Table, i: nat, out: multiset<Name>)
    requires Shaped(w, t.modules) && i < |t.modules| && t.modules[i].refs > 0
    requires Counted(t.modules, out + multiset{t.modules[i].name}) && NoneDyingBelow(w, t.modules, w[t.modules[i].name].rank + 1)
    ensures var n := t.modules[i].name;
            var d := Dying(w, t, i);
            Shaped(w, d.modules) && Counted(d.modules, out) && NoneDyingBelow(w, d.modules, w[n].rank) &&
            SameBeside(w, t.modules, d.modules, n) && OnlyDying(w, d.modules, n) && Lookup(d.modules, n).Some? && Lookup(d.modules, n).value.dying &&
            Lookup(d.modules, n).value.refs == t.modules[i].refs - 1
  {
    hide Counted, Lookup, Kids, Unique, Dying;
    CountedUnique(t.modules, out + multiset{t.modules[i].name});
    var termed := DyingIs(w, t, i);
    var m := t.modules[i];
    var x := m.(refs := m.refs - 1, dying := true, termed := termed);
    CountedUpdate(t.modules, i, x, out + multiset{m.name}, out);
    LookupUpdate(t.modules, i, x);
  }

  /** The slots of a dying module: each reference is given up, and nothing else changes at its
      rank or above. */
  lemma {:induction false} SlotsCount(w: World, t: Table, n: Name, k: nat, out: multiset<Name>)
    requires Good(w) && Shaped(w, t.modules) && n in w && Counted(t.modules, out) && NoneDyingBelow(w, t.modules, w[n].rank)
    requires Lookup(t.modules, n).Some? && Clear(Lookup(t.modules, n).value.slots, k)
    ensures var r := ReleaseSlots(w, t, n, k).modules;
            Counted(r, out) && NoneDyingBelow(w, r, w[n].rank) && SameBeside(w, t.modules, r, n) &&
            Cleared(t.modules, r, n)
    decreases w[n].rank + 1, 0, |w[n].imports| - k
  {
    hide Counted, Lookup, Edges, Kids, Unique, Shaped, Good, Release;
    LookedUp(t.modules, n);
    var i := Find(t.modules, n);
    SlotsShaped(w, t.modules, i);
    if k < |t.modules[i].slots| {
      match t.modules[i].slots[k] {
        case None =>
          SlotsCount(w, t, n, k + 1, out);
        case Some(c) =>
          SlotGone(w, t, n, k, c, out);
          var next := AfterSlot(w, t, n, k, c);
          SlotsCount(w, next, n, k + 1, out);
      }
    }
  }

  lemma SlotsShaped(w: World, ms: seq<Module>, i: nat)
    requires Shaped(w, ms) && i < |ms|
    ensures ms[i].name in w && |ms[i].slots| == |w[ms[i].name].imports|
    ensures forall k :: 0 <= k < |ms[i].slots| && ms[i].slots[k].Some? ==> ms[i].slots[k].value == w[ms[i].name].imports[k]
  {
  }

  /** Slot `k` of `n` cleared, and the module it held released. */
  function AfterSlot(w: World, t: Table, n: Name, k: nat, c: Name): (r: Table)
    requires Good(w) && Shaped(w, t.modules) && Find(t.modules, n) >= 0
    requires k < |t.modules[Find(t.modules, n)].slots|
    ensures Shaped(w, r.modules)
  {
    var cleared := SetSlot(t, Find(t.modules, n), k, None);
    var j := Find(cleared.modules, c);
    if j >= 0 && !cleared.modules[j].dying then Release(w, cleared, c) else cleared
  }

  lemma SlotGone(w: World, t: Table, n: Name, k: nat, c: Name, out: multiset<Name>)
    requires Good(w) && Shaped(w, t.modules) && n in w && Counted(t.modules, out) && NoneDyingBelow(w, t.modules, w[n].rank)
    requires Lookup(t.modules, n).Some? && Find(t.modules, n) >= 0 && Clear(Lookup(t.modules, n).value.slots, k)
    requires k < |t.modules[Find(t.modules, n)].slots| && t.modules[Find(t.modules, n)].slots[k] == Some(c)
    ensures var r := AfterSlot(w, t, n, k, c).modules;
            Counted(r, out) && NoneDyingBelow(w, r, w[n].rank) && SameBeside(w, t.modules, r, n) &&
            Lookup(r, n).Some? && Clear(Lookup(r, n).value.slots, k + 1) &&
            Lookup(r, n).value == Lookup(t.modules, n).value.(slots := Lookup(r, n).value.slots) &&
            |Lookup(r, n).value.slots| == |Lookup(t.modules, n).value.slots|
    decreases w[n].rank + 1, 0, |w[n].imports| - k, 0
  {
    hide Counted, Lookup, Edges, Kids, Unique, Shaped, Good, Release;
    LookedUp(t.modules, n);
    CountedUnique(t.modules, out);
    var i := Find(t.modules, n);
    ClearSlot(w, t, i, k, c, out);
    var cleared := SetSlot(t, i, k, None);
    RefsPositive(cleared.modules, out + multiset{c}, c);
    LookedUp(cleared.modules, c);
    Present(w, cleared.modules, c);
    ChildBelow(w, t.modules, i, k, c);
    assert !Lookup(cleared.modules, c).value.dying;
    Weaker(w, cleared.modules, w[n].rank, w[c].rank + 1);
    ReleaseCounts(w, cleared, c, out);
    var r := Release(w, cleared, c).modules;
    Stronger(w, cleared.modules, r, w[n].rank, w[c].rank);
  }

  lemma Present(w: World, ms: seq<Module>, c: Name)
    requires Shaped(w, ms) && Lookup(ms, c).Some?
    ensures c in w
  {
  }

  lemma ChildBelow(w: World, ms: seq<Module>, i: nat, k: nat, c: Name)
    requires Good(w) && Shaped(w, ms) && i < |ms| && k < |ms[i].slots| && ms[i].slots[k] == Some(c) && c in w
    ensures w[c].rank < w[ms[i].name].rank && c != ms[i].name
  {
  }

  lemma Weaker(w: World, ms: seq<Module>, a: nat, b: nat)
    requires NoneDyingBelow(w, ms, a) && b <= a
    ensures NoneDyingBelow(w, ms, b)
  {
    hide Lookup;
  }

  lemma Stronger(w: World, a: seq<Module>, b: seq<Module>, rank: nat, low: nat)
    requires NoneDyingBelow(w, a, rank) && NoneDyingBelow(w, b, low + 1) && SameAbove(w, a, b, low) && low < rank
    ensures NoneDyingBelow(w, b, rank)
  {
    hide Lookup;
  }

  lemma ClearSlot(w: World, t: Table, i: nat, k: nat, c: Name, out: multiset<Name>)
    requires Shaped(w, t.modules) && Counted(t.modules, out) && i < |t.modules| && Unique(t.modules)
    requires k < |t.modules[i].slots| && t.modules[i].slots[k] == Some(c) && Clear(t.modules[i].slots, k)
    requires NoneDyingBelow(w, t.modules, w[t.modules[i].name].rank)
    ensures var n := t.modules[i].name;
            var u := SetSlot(t, i, k, None).modules;
            Shaped(w, u) && Counted(u, out + multiset{c}) && NoneDyingBelow(w, u, w[n].rank) &&
            SameBeside(w, t.modules, u, n) && Find(u, n) == i && Clear(u[i].slots, k + 1) &&
            Lookup(u, n) == Some(t.modules[i].(slots := t.modules[i].slots[k := None]))
  {
    hide Counted, Lookup, Unique, Kids;
    var m := t.modules[i].(slots := t.modules[i].slots[k := None]);
    forall d ensures Kids(m.slots, d) + One(Some(c), d) == Kids(t.modules[i].slots, d) {
      KidsUpdate(t.modules[i].slots, k, None, d);
    }
    CountedUpdate(t.modules, i, m, out, out + multiset{c});
    FoundIs(t.modules, i);
    TableIs(t, i, m);
  }

  /** A dead module leaves the table, and the counts stay exact. */
  lemma Disappears(w: World, d: Table, s: Table, n: Name, out: multiset<Name>)
    requires n in w && Counted(s.modules, out) && Cleared(d.modules, s.modules, n) && Lookup(d.modules, n).value.refs == 0
    requires NoneDyingBelow(w, s.modules, w[n].rank) && SameBeside(w, d.modules, s.modules, n) && OnlyDying(w, d.modules, n)
    ensures var r := Remove(s, n).modules;
            Counted(r, out) && NoneDyingBelow(w, r, w[n].rank + 1) && SameAbove(w, d.modules, r, w[n].rank)
  {
    hide Counted, Lookup, Unique, Kids;
    LookedUp(s.modules, n);
    CountedUnique(s.modules, out);
    var i := Find(s.modules, n);
    forall c ensures Kids(s.modules[i].slots, c) == 0 {
      NoKids(s.modules[i].slots, c);
    }
    CountedRemove(s.modules, i, out, out);
    LookupRemove(s.modules, i);
  }

  // ---- load --------------------------------------------------------------------------------

  ghost predicate NoneDying(ms: seq<Module>) {
    forall c :: Lookup(ms, c).Some? ==> !Lookup(ms, c).value.dying
  }

  /** Loading adds one reference to `n`, whether it was loaded already or is loaded now with
      all it imports; a refused load leaves every count as it was. */
  lemma {:induction false} LoadCounts(w: World, t: Table, n: Name, out: multiset<Name>)
    requires Good(w) && Shaped(w, t.modules) && Counted(t.modules, out) && NoneDying(t.modules)
    ensures var r := Load(w, t, n);
            !r.Fatal? ==>
              n in w && NoneDying(r.table.modules) && SameAbove(w, t.modules, r.table.modules, w[n].rank) &&
              (if r.Loaded? then Counted(r.table.modules, out + multiset{n}) && Lookup(r.table.modules, n).Some?
               else Counted(r.table.modules, out))
    decreases if n in w then w[n].rank + 1 else 0, 2
  {
    hide Counted, Lookup, Edges, Kids, Unique, Shaped, Good, LoadUses, Start;
    CountedUnique(t.modules, out);
    var i := Find(t.modules, n);
    if i >= 0 {
      AcquireCounts(w, t, i, out);
    } else if |t.modules| < MAX_GUEST_MODULES && n in w {
      AppendCounts(w, t, n, out);
      var appended := t.(modules := t.modules + [Fresh(w, t, n)], nextHandle := t.nextHandle + 1);
      UsesCount(w, appended, n, 0, out + multiset{n});
      var r := LoadUses(w, appended, n, 0);
      if r.Loaded? {
        StartCounts(w, r.table, n, out);
      }
    }
  }

  lemma AcquireCounts(w: World, t: Table, i: nat, out: multiset<Name>)
    requires Shaped(w, t.modules) && Counted(t.modules, out) && NoneDying(t.modules) && i < |t.modules|
    ensures var n := t.modules[i].name;
            var r := Update(t, i, t.modules[i].(refs := t.modules[i].refs + 1)).modules;
            n in w && NoneDying(r) && SameAbove(w, t.modules, r, w[n].rank) && Counted(r, out + multiset{n}) && Lookup(r, n).Some?
  {
    hide Counted, Lookup, Unique, Kids;
    CountedUnique(t.modules, out);
    var m := t.modules[i].(refs := t.modules[i].refs + 1);
    CountedUpdate(t.modules, i, m, out, out + multiset{m.name});
    FoundIs(t.modules, i);
    TableIs(t, i, m);
  }

  lemma AppendCounts(w: World, t: Table, n: Name, out: multiset<Name>)
    requires Shaped(w, t.modules) && Counted(t.modules, out) && NoneDying(t.modules) && n in w && Find(t.modules, n) < 0
    ensures var r := t.modules + [Fresh(w, t, n)];
            Shaped(w, r) && Counted(r, out + multiset{n}) && NoneDying(r) && SameAbove(w, t.modules, r, w[n].rank) &&
            Lookup(r, n) == Some(Fresh(w, t, n))
  {
    hide Counted, Unique, Kids;
    CountedUnique(t.modules, out);
    var m := Fresh(w, t, n);
    forall c ensures Kids(m.slots, c) == 0 {
      NoKids(m.slots, c);
    }
    CountedAppend(t.modules, m, out);
    LookupAppend(t.modules, m);
  }

  /** Resolving imports gives each reference that a load returned to the slot it was for. */
  lemma {:induction false} UsesCount(w: World, t: Table, n: Name, u: nat, out: multiset<Name>)
    requires Good(w) && Shaped(w, t.modules) && n in w && Counted(t.modules, out) && NoneDying(t.modules)
    requires Lookup(t.modules, n).Some?
    ensures var r := LoadUses(w, t, n, u);
            r.Loaded? ==>
              Counted(r.table.modules, out) && NoneDying(r.table.modules) && SameAbove(w, t.modules, r.table.modules, w[n].rank) &&
              Lookup(r.table.modules, n).Some? && Lookup(r.table.modules, n).value.refs == Lookup(t.modules, n).value.refs
    decreases w[n].rank + 1, 1, |w[n].uses| - u
  {
    hide Counted, Lookup, Edges, Kids, Unique, Shaped, Good, Load, Link;
    LookedUp(t.modules, n);
    var i := Find(t.modules, n);
    if u < |w[n].uses| {
      UseOk(w, t.modules, i, u);
      var k := w[n].uses[u];
      if t.modules[i].slots[k].Some? {
        UsesCount(w, t, n, u + 1, out);
      } else {
        var c := w[n].imports[k];
        ImportBelow(w, n, k);
        LoadCounts(w, t, c, out);
        var r := Load(w, t, c);
        if r.Loaded? {
          LinkCounts(w, t, r.table, n, k, c, out);
          UsesCount(w, Link(r.table, n, k, c), n, u + 1, out);
        }
      }
    }
  }

  lemma UseOk(w: World, ms: seq<Module>, i: nat, u: nat)
    requires Good(w) && Shaped(w, ms) && i < |ms| && u < |w[ms[i].name].uses|
    ensures ms[i].name in w && w[ms[i].name].uses[u] < |ms[i].slots| == |w[ms[i].name].imports|
  {
    assert w[ms[i].name].uses[u] in w[ms[i].name].uses;
  }

  lemma ImportBelow(w: World, n: Name, k: nat)
    requires Good(w) && n in w && k < |w[n].imports|
    ensures w[n].imports[k] in w ==> w[w[n].imports[k]].rank < w[n].rank && w[n].imports[k] != n
  {
  }

  lemma LinkCounts(w: World, t: Table, got: Table, n: Name, k: nat, c: Name, out: multiset<Name>)
    requires Good(w) && Shaped(w, t.modules) && Shaped(w, got.modules) && n in w && c in w && w[c].rank < w[n].rank
    requires Lookup(t.modules, n).Some? && k < |Lookup(t.modules, n).value.slots| && Lookup(t.modules, n).value.slots[k] == None
    requires c == w[n].imports[k] && |w[n].imports| == |Lookup(t.modules, n).value.slots|
    requires Counted(got.modules, out + multiset{c}) && NoneDying(got.modules) && Lookup(got.modules, c).Some?
    requires SameAbove(w, t.modules, got.modules, w[c].rank)
    ensures var r := Link(got, n, k, c);
            Shaped(w, r.modules) && Counted(r.modules, out) && NoneDying(r.modules) &&
            SameAbove(w, t.modules, r.modules, w[n].rank) && Lookup(r.modules, n).Some? &&
            Lookup(r.modules, n).value.refs == Lookup(t.modules, n).value.refs
  {
    hide Counted, Lookup, Unique, Kids;
    assert Lookup(got.modules, n) == Lookup(t.modules, n);
    CountedUnique(got.modules, out + multiset{c});
    LookedUp(got.modules, n);
    LookedUp(got.modules, c);
    var i := Find(got.modules, n);
    var m := got.modules[i].(slots := got.modules[i].slots[k := Some(c)]);
    forall d ensures Kids(m.slots, d) == Kids(got.modules[i].slots, d) + One(Some(c), d) {
      KidsUpdate(got.modules[i].slots, k, Some(c), d);
    }
    CountedUpdate(got.modules, i, m, out + multiset{c}, out);
    TableIs(got, i, m);
  }

  /** A failed initialisation gives the imports back and takes the module with it. */
  lemma StartCounts(w: World, t: Table, n: Name, out: multiset<Name>)
    requires Good(w) && Shaped(w, t.modules) && n in w && Counted(t.modules, out + multiset{n}) && NoneDying(t.modules)
    requires Lookup(t.modules, n).Some? && Lookup(t.modules, n).value.refs == 1
    ensures var r := Start(w, t, n);
            !r.Fatal? && NoneDying(r.table.modules) && SameAbove(w, t.modules, r.table.modules, w[n].rank) &&
            (if r.Loaded? then Counted(r.table.modules, out + multiset{n}) && Lookup(r.table.modules, n).Some?
             else Counted(r.table.modules, out))
    decreases w[n].rank + 1, 1, 0
  {
    hide Counted, Lookup, Edges, Kids, Unique, Shaped, Good, ReleaseSlots;
    LookedUp(t.modules, n);
    CountedUnique(t.modules, out + multiset{n});
    var i := Find(t.modules, n);
    var m := t.modules[i];
    if w[n].hasEntry && w[n].initSucceeds {
      SameCounts(t, i, m.(inited := true, order := t.nextOrder), out + multiset{n});
      TableIs(t, i, m.(inited := true, order := t.nextOrder));
    } else if w[n].hasEntry {
      var d := Update(t, i, m.(dying := true));
      SameCounts(t, i, m.(dying := true), out + multiset{n});
      TableIs(t, i, m.(dying := true));
      StillShaped(w, t.modules, i, m.(dying := true));
      SlotsCount(w, d, n, 0, out + multiset{n});
      Withdrawn(w, d, ReleaseSlots(w, d, n, 0), n, out);
    }
  }

  lemma SameCounts(t: Table, i: nat, m: Module, out: multiset<Name>)
    requires i < |t.modules| && Counted(t.modules, out) && m.name == t.modules[i].name
    requires m.refs == t.modules[i].refs && m.slots == t.modules[i].slots
    ensures Counted(Update(t, i, m).modules, out)
  {
    hide Counted, Kids;
    CountedUpdate(t.modules, i, m, out, out);
  }

  lemma StillShaped(w: World, ms: seq<Module>, i: nat, m: Module)
    requires Shaped(w, ms) && i < |ms| && m.name == ms[i].name && m.slots == ms[i].slots
    ensures Shaped(w, ms[i := m])
  {
  }

  lemma Withdrawn(w: World, d: Table, s: Table, n: Name, out: multiset<Name>)
    requires n in w && Counted(s.modules, out + multiset{n}) && Cleared(d.modules, s.modules, n) && Lookup(d.modules, n).value.refs == 1
    requires NoneDyingBelow(w, s.modules, w[n].rank) && SameBeside(w, d.modules, s.modules, n)
    requires forall c :: c != n && Lookup(d.modules, c).Some? ==> !Lookup(d.modules, c).value.dying
    ensures var r := Remove(s, n).modules;
            Counted(r, out) && NoneDying(r) && SameAbove(w, d.modules, r, w[n].rank)
  {
    hide Counted, Lookup, Unique, Kids;
    LookedUp(s.modules, n);
    CountedUnique(s.modules, out + multiset{n});
    var i := Find(s.modules, n);
    forall c ensures Kids(s.modules[i].slots, c) == 0 {
      NoKids(s.modules[i].slots, c);
    }
    CountedRemove(s.modules, i, out + multiset{n}, out);
    LookupRemove(s.modules, i);
    var r := Remove(s, n).modules;
    forall c | Lookup(r, c).Some? ensures !Lookup(r, c).value.dying {
      assert c != n && Lookup(r, c) == Lookup(s.modules, c);
    }
  }

  // ---- nothing is kept for nobody ----------------------------------------------------------

  /** A module without references is on its way out. */
  predicate Needed(ms: seq<Module>) {
    forall i :: 0 <= i < |ms| ==> ms[i].refs > 0 || ms[i].dying
  }

  lemma RemoveNeeded(t: Table, n: Name)
    requires Needed(t.modules)
    ensures Needed(Remove(t, n).modules)
  {
  }

  lemma {:induction false} ReleaseNeeded(w: World, t: Table, n: Name)
    requires Good(w) && Shaped(w, t.modules) && Needed(t.modules)
    ensures Needed(Release(w, t, n).modules)
    decreases if n in w then w[n].rank + 1 else 0, 1
  {
    hide Shaped, Good, ReleaseSlots, Remove;
    var i := Find(t.modules, n);
    if i >= 0 && t.modules[i].refs == 1 {
      KnownName(w, t.modules, i);
      var dying := Dying(w, t, i);
      SlotsNeeded(w, dying, n, 0);
      RemoveNeeded(ReleaseSlots(w, dying, n, 0), n);
    }
  }

  lemma KnownName(w: World, ms: seq<Module>, i: nat)
    requires Shaped(w, ms) && i < |ms|
    ensures ms[i].name in w
    ensures ms[i].refs > 0 ==> forall t: Table :: t.modules == ms ==> Shaped(w, Dying(w, t, i).modules)
  {
  }

  lemma {:induction false} SlotsNeeded(w: World, t: Table, n: Name, k: nat)
    requires Good(w) && Shaped(w, t.modules) && n in w && Needed(t.modules)
    ensures Needed(ReleaseSlots(w, t, n, k).modules)
    decreases w[n].rank + 1, 0, |w[n].imports| - k
  {
    hide Release;
    var i := Find(t.modules, n);
    if i >= 0 && k < |t.modules[i].slots| {
      if t.modules[i].slots[k].Some? {
        var c := t.modules[i].slots[k].value;
        var cleared := SetSlot(t, i, k, None);
        var j := Find(cleared.modules, c);
        if j >= 0 && !cleared.modules[j].dying {
          ReleaseNeeded(w, cleared, c);
        }
        SlotsNeeded(w, AfterSlot(w, t, n, k, c), n, k + 1);
      } else {
        SlotsNeeded(w, t, n, k + 1);
      }
    }
  }

  lemma {:induction false} LoadNeeded(w: World, t: Table, n: Name)
    requires Good(w) && Shaped(w, t.modules) && Needed(t.modules)
    ensures !Load(w, t, n).Fatal? ==> Needed(Load(w, t, n).table.modules)
    decreases if n in w then w[n].rank + 1 else 0, 2
  {
    hide LoadUses, Start;
    if Find(t.modules, n) < 0 && |t.modules| < MAX_GUEST_MODULES && n in w {
      var appended := t.(modules := t.modules + [Fresh(w, t, n)], nextHandle := t.nextHandle + 1);
      UsesNeeded(w, appended, n, 0);
      var r := LoadUses(w, appended, n, 0);
      if r.Loaded? {
        StartNeeded(w, r.table, n);
      }
    }
  }

  lemma {:induction false} UsesNeeded(w: World, t: Table, n: Name, u: nat)
    requires Good(w) && Shaped(w, t.modules) && n in w && Needed(t.modules)
    ensures LoadUses(w, t, n, u).Loaded? ==> Needed(LoadUses(w, t, n, u).table.modules)
    decreases w[n].rank + 1, 1, |w[n].uses| - u
  {
    hide Load, Link;
    var i := Find(t.modules, n);
    if i >= 0 && u < |w[n].uses| {
      var k := w[n].uses[u];
      assert k in w[n].uses;
      if t.modules[i].slots[k].Some? {
        UsesNeeded(w, t, n, u + 1);
      } else {
        var c := w[n].imports[k];
        LoadNeeded(w, t, c);
        var r := Load(w, t, c);
        if r.Loaded? {
          LinkNeeded(w, r.table, n, k, c);
          UsesNeeded(w, Link(r.table, n, k, c), n, u + 1);
        }
      }
    }
  }

  lemma LinkNeeded(w: World, t: Table, n: Name, k: nat, c: Name)
    requires Good(w) && Shaped(w, t.modules) && Needed(t.modules) && n in w && k < |w[n].imports| && c == w[n].imports[k]
    ensures Needed(Link(t, n, k, c).modules) && Shaped(w, Link(t, n, k, c).modules)
  {
  }

  lemma {:induction false} StartNeeded(w: World, t: Table, n: Name)
    requires Good(w) && Shaped(w, t.modules) && n in w && Needed(t.modules)
    ensures !Start(w, t, n).Fatal? ==> Needed(Start(w, t, n).table.modules)
    decreases w[n].rank + 1, 1, 0
  {
    hide ReleaseSlots, Remove;
    var i := Find(t.modules, n);
    if i >= 0 && w[n].hasEntry && !w[n].initSucceeds {
      var d := Update(t, i, t.modules[i].(dying := true));
      SlotsNeeded(w, d, n, 0);
      RemoveNeeded(ReleaseSlots(w, d, n, 0), n);
    }
  }

  // ---- any history ------------------------------------------------------------------------------

  /** A load says which INIT routines fail when it runs them: one may fail now and succeed later. */
  datatype Op = LoadOp(name: Name, failing: set<Name>) | FreeOp(name: Name)

  /** The files, as the routines behave during one load. */
  function Trial(w: World, failing: set<Name>): (v: World)
    ensures v.Keys == w.Keys && (Good(w) ==> Good(v)) && forall ms :: Shaped(w, ms) <==> Shaped(v, ms)
  {
    map n | n in w :: w[n].(initSucceeds := n !in failing)
  }

  datatype Host = Host(table: Table, out: multiset<Name>)

  /** One call from outside. A free that matches no load is left out; None is process exit. */
  function Call(w: World, h: Host, op: Op): (r: Option<Host>)
    requires Good(w) && Shaped(w, h.table.modules)
    ensures r.Some? ==> Shaped(w, r.value.table.modules)
  {
    match op
    case LoadOp(n, failing) =>
      (match Load(Trial(w, failing), h.table, n)
       case Loaded(t) => Some(Host(t, h.out + multiset{n}))
       case Refused(t) => Some(Host(t, h.out))
       case Fatal => None)
    case FreeOp(n) => if h.out[n] == 0 then Some(h) else Some(Host(Release(w, h.table, n), h.out - multiset{n}))
  }

  function Calls(w: World, h: Host, ops: seq<Op>): (r: Option<Host>)
    requires Good(w) && Shaped(w, h.table.modules)
    ensures r.Some? ==> Shaped(w, r.value.table.modules)
    decreases |ops|
  {
    if ops == [] then Some(h)
    else
      match Call(w, h, ops[0])
      case None => None
      case Some(next) => Calls(w, next, ops[1..])
  }

  const EMPTY := Host(Table([], 1, 0x10000, []), multiset{})

  /** The counts are exact, nothing is half dead, and nothing is kept for nobody. */
  ghost predicate Exact(h: Host) {
    Counted(h.table.modules, h.out) && NoneDying(h.table.modules) && Needed(h.table.modules)
  }

  lemma CallCounts(w: World, h: Host, op: Op)
    requires Good(w) && Shaped(w, h.table.modules) && Exact(h)
    ensures var r := Call(w, h, op); r.Some? ==> Exact(r.value)
  {
    hide Counted, Lookup, Shaped, Good, Load, Release, Needed, Trial;
    match op {
      case LoadOp(n, failing) =>
        LoadCounts(Trial(w, failing), h.table, n, h.out);
        LoadNeeded(Trial(w, failing), h.table, n);
      case FreeOp(n) =>
        if h.out[n] > 0 {
          RefsPositive(h.table.modules, h.out, n);
          Present(w, h.table.modules, n);
          assert h.out - multiset{n} + multiset{n} == h.out;
          ReleaseCounts(w, h.table, n, h.out - multiset{n});
          ReleaseNeeded(w, h.table, n);
          NoneLeft(w, h.table.modules, Release(w, h.table, n).modules, n);
        }
    }
  }

  lemma NoneLeft(w: World, a: seq<Module>, b: seq<Module>, n: Name)
    requires n in w && NoneDying(a) && NoneDyingBelow(w, b, w[n].rank + 1) && SameAbove(w, a, b, w[n].rank)
    ensures NoneDying(b)
  {
    hide Lookup;
  }

  /** Conservation: after any loads, failed initialisations and matched frees, every module's
      count is its outstanding loads plus the import slots that hold it, and the modules in the
      table are exactly those that have some. */
  lemma {:induction false} CountsConserved(w: World, h: Host, ops: seq<Op>)
    requires Good(w) && Shaped(w, h.table.modules) && Exact(h)
    ensures var r := Calls(w, h, ops);
            r.Some? ==>
              Exact(r.value) &&
              forall c :: Lookup(r.value.table.modules, c).Some? <==> Edges(r.value.table.modules, c) + r.value.out[c] > 0
    decreases |ops|
  {
    hide Exact, Lookup, Edges, Shaped, Good, Call;
    if ops == [] {
      LoadedIfNeeded(h);
    } else {
      CallCounts(w, h, ops[0]);
      var r := Call(w, h, ops[0]);
      if r.Some? {
        CountsConserved(w, r.value, ops[1..]);
      }
    }
  }

  lemma LoadedIfNeeded(h: Host)
    requires Exact(h)
    ensures forall c :: Lookup(h.table.modules, c).Some? <==> Edges(h.table.modules, c) + h.out[c] > 0
  {
    hide Edges;
    var ms := h.table.modules;
    forall c ensures Lookup(ms, c).Some? <==> Edges(ms, c) + h.out[c] > 0 {
      assert RefsOf(ms, c) == Edges(ms, c) + h.out[c];
    }
  }

  lemma {:induction false} SomeSlot(slots: seq<Option<Name>>, c: Name) returns (k: nat)
    requires Kids(slots, c) > 0
    ensures k < |slots| && slots[k] == Some(c)
  {
    var last := |slots| - 1;
    if slots[last] == Some(c) {
      k := last;
    } else {
      k := SomeSlot(slots[..last], c);
    }
  }

  lemma {:induction false} SomeHolder(ms: seq<Module>, c: Name) returns (i: nat, k: nat)
    requires Edges(ms, c) > 0
    ensures i < |ms| && k < |ms[i].slots| && ms[i].slots[k] == Some(c)
  {
    hide Kids;
    var last := |ms| - 1;
    if Kids(ms[last].slots, c) > 0 {
      i := last;
      k := SomeSlot(ms[last].slots, c);
    } else {
      i, k := SomeHolder(ms[..last], c);
    }
  }

  /** Some module has the largest rank. */
  lemma {:induction false} Topmost(w: World, ms: seq<Module>) returns (i: nat)
    requires Shaped(w, ms) && ms != []
    ensures i < |ms| && forall j :: 0 <= j < |ms| ==> ms[i].name in w && ms[j].name in w && w[ms[j].name].rank <= w[ms[i].name].rank
  {
    var last := |ms| - 1;
    if last == 0 {
      i := 0;
    } else {
      i := Topmost(w, ms[..last]);
      if w[ms[last].name].rank > w[ms[i].name].rank {
        i := last;
      }
    }
  }

  /** Imports are acyclic, so nothing stays loaded once every load has been freed. */
  lemma AllReclaimed(w: World, h: Host)
    requires Good(w) && Shaped(w, h.table.modules) && Exact(h) && h.out == multiset{}
    ensures h.table.modules == []
  {
    hide Counted, Edges, Lookup;
    var ms := h.table.modules;
    if ms != [] {
      var i := Topmost(w, ms);
      CountedUnique(ms, h.out);
      FoundIs(ms, i);
      LoadedIfNeeded(h);
      var a, k := SomeHolder(ms, ms[i].name);
      SlotsShaped(w, ms, a);
      ChildBelow(w, ms, a, k, ms[i].name);
    }
  }

  /** From the empty table: a module stays loaded exactly as long as a load or another module
      needs it; when every load has been freed, nothing is loaded. */
  lemma CountsFromEmpty(w: World, ops: seq<Op>)
    requires Good(w)
    ensures Shaped(w, EMPTY.table.modules)
    ensures var r := Calls(w, EMPTY, ops);
            r.Some? ==>
              Counted(r.value.table.modules, r.value.out) &&
              (forall c :: Lookup(r.value.table.modules, c).Some? <==> Edges(r.value.table.modules, c) + r.value.out[c] > 0) &&
              (r.value.out == multiset{} ==> r.value.table.modules == [])
  {
    assert Counted(EMPTY.table.modules, EMPTY.out);
    CountsConserved(w, EMPTY, ops);
    var r := Calls(w, EMPTY, ops);
    if r.Some? && r.value.out == multiset{} {
      AllReclaimed(w, r.value);
    }
  }
}
