/** The module table as it runs. */
module ModuleTable {
  import opened Options
  import opened ModuleGraph
  import opened ModuleConservation
  import opened ModuleHistory

  class Loader {
    const w: World
    var modules: seq<Module>
    var nextOrder: nat
    var nextHandle: nat
    ghost var log: seq<Event>

    ghost function State(): Table
      reads this
    {
      Table(modules, nextOrder, nextHandle, log)
    }

    ghost predicate Valid()
      reads this
    {
      Good(w) && Shaped(w, modules)
    }

    constructor (files: World)
      requires Good(files)
      ensures Valid() && w == files && State() == Table([], 1, 0x10000, [])
    {
      w := files;
      modules, nextOrder, nextHandle, log := [], 1, 0x10000, [];
    }

    method FindGuestModule(n: Name) returns (i: int)
      ensures i == Find(modules, n)
    {
      i := 0;
      while i < |modules|
        invariant 0 <= i <= |modules| && Find(modules[..i], n) == -1
      {
        assert modules[..i + 1][..i] == modules[..i];
        if modules[i].name == n {
          FoundFirst(modules, i, n);
          return;
        }
        i := i + 1;
      }
      assert modules[..|modules|] == modules;
      i := -1;
    }

    method UnregisterGuestModule(n: Name)
      modifies this`modules
      ensures State() == Remove(old(State()), n)
    {
      var i := FindGuestModule(n);
      if i < 0 {
        return;
      }
      modules := modules[..i] + modules[i + 1..];
    }

    method TerminateGuestModule(i: nat)
      requires Valid() && i < |modules|
      modifies this`modules, this`log
      ensures State() == Terminate(w, old(State()), i)
    {
      if !modules[i].inited || modules[i].termed {
        return;
      }
      modules := modules[i := modules[i].(termed := true)];
      log := log + [Ended(modules[i].handle)];
    }

    /** The import loop of a module that is going away. */
    method ReleaseImports(n: Name)
      requires Valid() && n in w
      modifies this
      ensures Valid() && State() == ReleaseSlots(w, old(State()), n, 0)
      decreases w[n].rank + 1, 0, |w[n].imports| + 1
    {
      hide Release;
      ghost var result := ReleaseSlots(w, State(), n, 0);
      var k := 0;
      var i := FindGuestModule(n);
      while i >= 0 && k < |modules[i].slots|
        invariant Valid() && i == Find(modules, n)
        invariant ReleaseSlots(w, State(), n, k) == result
        decreases |w[n].imports| - k
      {
        ImportBound(w, modules, i, k);
        if modules[i].slots[k].Some? {
          DropImport(n, i, k);
        }
        k := k + 1;
        i := FindGuestModule(n);
      }
    }

    /** One slot: cleared, and the module it held released. */
    method DropImport(n: Name, i: nat, k: nat)
      requires Valid() && n in w && i == Find(modules, n) && k < |modules[i].slots| && modules[i].slots[k].Some?
      modifies this
      ensures Valid() && State() == AfterSlot(w, old(State()), n, k, old(modules[i].slots[k].value))
      decreases w[n].rank + 1, 0, |w[n].imports| - k, 0
    {
      hide Release;
      ImportBound(w, modules, i, k);
      var c := modules[i].slots[k].value;
      ghost var before := State();
      modules := modules[i := modules[i].(slots := modules[i].slots[k := None])];
      ClearedShape(w, before, i, k);
      assert State() == SetSlot(before, i, k, None);
      var j := FindGuestModule(c);
      if j >= 0 && !modules[j].dying {
        SmallerRank(w, modules, j, n, k, c);
        ReleaseGuestModule(c);
      }
    }

    method ReleaseGuestModule(n: Name)
      requires Valid()
      modifies this
      ensures Valid() && State() == Release(w, old(State()), n)
      decreases if n in w then w[n].rank + 1 else 0, 1
    {
      hide ReleaseSlots;
      var i := FindGuestModule(n);
      if i < 0 || modules[i].refs == 0 {
        return;
      }
      NameKnown(w, modules, i);
      var refs := modules[i].refs - 1;
      if refs != 0 {
        modules := modules[i := modules[i].(refs := refs)];
        return;
      }
      modules := modules[i := modules[i].(refs := refs, dying := true)];
      TerminateGuestModule(i);
      ReleaseImports(n);
      UnregisterGuestModule(n);
    }

    method LoadGuestModule(n: Name) returns (r: Outcome)
      requires Valid()
      modifies this
      ensures match Load(w, old(State()), n)
              case Loaded(t) => r.Loaded? && State() == t && Valid()
              case Refused(t) => r.Refused? && State() == t && Valid()
              case Fatal => r.Fatal?
      decreases if n in w then w[n].rank + 1 else 0, 2
    {
      hide LoadUses, Start;
      var i := FindGuestModule(n);
      if i >= 0 {
        modules := modules[i := modules[i].(refs := modules[i].refs + 1)];
        return Loaded(Table([], 0, 0, []));
      }
      if |modules| >= MAX_GUEST_MODULES || n !in w {
        return Fatal;
      }
      var g := Module(n, nextHandle, 1, false, false, false, 0, seq(|w[n].imports|, _ => None));
      assert g == Fresh(w, State(), n);
      modules := modules + [g];
      nextHandle := nextHandle + 1;
      r := ResolveImports(n);
      if r.Fatal? {
        return;
      }
      r := InitializeGuestModule(n);
    }

    /** Every import makes sure its module is loaded. */
    method ResolveImports(n: Name) returns (r: Outcome)
      requires Valid() && n in w
      modifies this
      ensures match LoadUses(w, old(State()), n, 0)
              case Loaded(t) => r.Loaded? && State() == t && Valid()
              case _ => r.Fatal?
      decreases w[n].rank + 1, 1
    {
      hide Load, Link;
      ghost var result := LoadUses(w, State(), n, 0);
      var u := 0;
      while u < |w[n].uses|
        invariant 0 <= u <= |w[n].uses| && Valid() && LoadUses(w, State(), n, u) == result
      {
        var i := FindGuestModule(n);
        if i < 0 {
          return Fatal;
        }
        var k := w[n].uses[u];
        assert k in w[n].uses;
        ImportBound(w, modules, i, k);
        if modules[i].slots[k] == None {
          var c := w[n].imports[k];
          r := LoadGuestModule(c);
          if !r.Loaded? {
            return Fatal;
          }
          ghost var got := State();
          HoldImport(n, k, c);
          LinkShape(w, got, n, k, c);
        }
        u := u + 1;
      }
      var i := FindGuestModule(n);
      return if i < 0 then Fatal else Loaded(Table([], 0, 0, []));
    }

    method HoldImport(n: Name, k: nat, c: Name)
      modifies this`modules, this`log
      ensures State() == Link(old(State()), n, k, c)
    {
      var i := FindGuestModule(n);
      var j := FindGuestModule(c);
      if i < 0 || j < 0 || k >= |modules[i].slots| {
        return;
      }
      log := log + [Linked(modules[i].handle, modules[j].handle)];
      modules := modules[i := modules[i].(slots := modules[i].slots[k := Some(c)])];
    }

    method InitializeGuestModule(n: Name) returns (r: Outcome)
      requires Valid() && n in w
      modifies this
      ensures match Start(w, old(State()), n)
              case Loaded(t) => r.Loaded? && State() == t && Valid()
              case Refused(t) => r.Refused? && State() == t && Valid()
              case Fatal => r.Fatal?
      decreases w[n].rank + 1, 1
    {
      hide ReleaseSlots;
      var i := FindGuestModule(n);
      if i < 0 {
        return Fatal;
      }
      if !w[n].hasEntry {
        return Loaded(Table([], 0, 0, []));
      }
      var m := modules[i];
      if w[n].initSucceeds {
        modules := modules[i := m.(inited := true, order := nextOrder)];
        log := log + [Inited(m.handle)];
        nextOrder := nextOrder + 1;
        return Loaded(Table([], 0, 0, []));
      }
      modules := modules[i := m.(dying := true)];
      ReleaseImports(n);
      UnregisterGuestModule(n);
      return Refused(Table([], 0, 0, []));
    }

    /** Process exit: modules end one by one, the one initialised last first. */
    method TerminateAllModules()
      modifies this`modules, this`log
      ensures State() == TerminateAll(old(State()))
    {
      hide Latest1, Awaited;
      var i := PickLast();
      while i >= 0
        invariant i == Latest1(modules) && TerminateAll(State()) == TerminateAll(old(State()))
        decreases Awaited(modules)
      {
        FewerAwaited(modules, i, modules[i].(termed := true));
        ghost var before := State();
        log := log + [Ended(modules[i].handle)];
        modules := modules[i := modules[i].(termed := true)];
        assert State() == EndOne(before, i);
        i := PickLast();
      }
    }

    method PickLast() returns (i: int)
      ensures i == Latest1(modules)
    {
      i := -1;
      var best, j := 0, 0;
      while j < |modules|
        invariant 0 <= j <= |modules| && i == Latest1(modules[..j]) && best == (if i < 0 then 0 else modules[i].order)
      {
        assert modules[..j + 1][..j] == modules[..j];
        var m := modules[j];
        if m.inited && !m.termed && m.order >= best {
          i := j;
          best := m.order;
        }
        j := j + 1;
      }
      assert modules[..|modules|] == modules;
    }
  }

  lemma {:induction false} FoundFirst(ms: seq<Module>, i: nat, n: Name)
    requires i < |ms| && ms[i].name == n && Find(ms[..i], n) == -1
    ensures Find(ms, n) == i
    decreases |ms|
  {
    if i < |ms| - 1 {
      assert ms[..|ms| - 1][..i] == ms[..i];
      FoundFirst(ms[..|ms| - 1], i, n);
    } else {
      assert ms[..|ms| - 1] == ms[..i];
    }
  }

  lemma NameKnown(w: World, ms: seq<Module>, i: nat)
    requires Shaped(w, ms) && i < |ms|
    ensures ms[i].name in w
  {
  }

  lemma ImportBound(w: World, ms: seq<Module>, i: nat, k: nat)
    requires Shaped(w, ms) && i < |ms|
    ensures ms[i].name in w && |ms[i].slots| == |w[ms[i].name].imports|
    ensures k < |ms[i].slots| && ms[i].slots[k].Some? ==> ms[i].slots[k].value == w[ms[i].name].imports[k]
  {
  }

  lemma ClearedShape(w: World, t: Table, i: nat, k: nat)
    requires Shaped(w, t.modules) && i < |t.modules| && k < |t.modules[i].slots|
    ensures Shaped(w, SetSlot(t, i, k, None).modules)
  {
  }

  lemma LinkShape(w: World, t: Table, n: Name, k: nat, c: Name)
    requires Good(w) && Shaped(w, t.modules) && n in w && k < |w[n].imports| && c == w[n].imports[k]
    ensures Shaped(w, Link(t, n, k, c).modules)
  {
  }

  lemma SmallerRank(w: World, ms: seq<Module>, j: nat, n: Name, k: nat, c: Name)
    requires Good(w) && Shaped(w, ms) && j < |ms| && ms[j].name == c && n in w && k < |w[n].imports| && c == w[n].imports[k]
    ensures c in w && w[c].rank < w[n].rank
  {
  }
}
