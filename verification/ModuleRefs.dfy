/** Reference counts: every module counts exactly the loads outstanding and the import slots
    that hold it, through any history of loads, failed loads and frees. */
module ModuleRefs {
  import opened Options
  import opened ModuleGraph

  // ---- counting edges -----------------------------------------------------------------

  function One(v: Option<Name>, c: Name): nat {
    if v == Some(c) then 1 else 0
  }

  /** How many of the slots hold `c`. */
  function Kids(slots: seq<Option<Name>>, c: Name): nat {
    if slots == [] then 0 else Kids(slots[..|slots| - 1], c) + One(slots[|slots| - 1], c)
  }

  /** How many import slots in the whole table hold `c`. */
  function Edges(ms: seq<Module>, c: Name): nat {
    if ms == [] then 0 else Edges(ms[..|ms| - 1], c) + Kids(ms[|ms| - 1].slots, c)
  }

  lemma {:induction false} KidsUpdate(slots: seq<Option<Name>>, k: nat, v: Option<Name>, c: Name)
    requires k < |slots|
    ensures Kids(slots[k := v], c) + One(slots[k], c) == Kids(slots, c) + One(v, c)
  {
    hide One;
    var last := |slots| - 1;
    if k < last {
      assert slots[k := v][..last] == slots[..last][k := v];
      KidsUpdate(slots[..last], k, v, c);
    } else {
      assert slots[k := v][..last] == slots[..last];
    }
  }

  lemma {:induction false} NoKids(slots: seq<Option<Name>>, c: Name)
    requires forall k :: 0 <= k < |slots| ==> slots[k] != Some(c)
    ensures Kids(slots, c) == 0
  {
    if slots != [] {
      NoKids(slots[..|slots| - 1], c);
    }
  }

  lemma {:induction false} EdgesUpdate(ms: seq<Module>, i: nat, m: Module, c: Name)
    requires i < |ms|
    ensures Edges(ms[i := m], c) + Kids(ms[i].slots, c) == Edges(ms, c) + Kids(m.slots, c)
  {
    hide Kids;
    var last := |ms| - 1;
    if i < last {
      assert ms[i := m][..last] == ms[..last][i := m];
      EdgesUpdate(ms[..last], i, m, c);
    } else {
      assert ms[i := m][..last] == ms[..last];
    }
  }

  lemma {:induction false} EdgesRemove(ms: seq<Module>, i: nat, c: Name)
    requires i < |ms|
    ensures Edges(ms[..i] + ms[i + 1..], c) + Kids(ms[i].slots, c) == Edges(ms, c)
  {
    hide Kids;
    var last := |ms| - 1;
    if i < last {
      var r := ms[..i] + ms[i + 1..];
      assert r[..|r| - 1] == ms[..last][..i] + ms[..last][i + 1..] && r[|r| - 1] == ms[last];
      EdgesRemove(ms[..last], i, c);
    } else {
      assert ms[..i] + ms[i + 1..] == ms[..last];
    }
  }

  lemma EdgesAppend(ms: seq<Module>, m: Module, c: Name)
    ensures Edges(ms + [m], c) == Edges(ms, c) + Kids(m.slots, c)
  {
    hide Kids;
    assert (ms + [m])[..|ms|] == ms;
  }

  // ---- looking modules up --------------------------------------------------------------

  function Lookup(ms: seq<Module>, c: Name): Option<Module> {
    var i := Find(ms, c);
    if i >= 0 then Some(ms[i]) else None
  }

  predicate Unique(ms: seq<Module>) {
    forall i, j :: 0 <= i < j < |ms| ==> ms[i].name != ms[j].name
  }

  lemma LookupUpdate(ms: seq<Module>, i: nat, m: Module)
    requires i < |ms| && m.name == ms[i].name && Unique(ms)
    ensures Unique(ms[i := m])
    ensures forall c :: Lookup(ms[i := m], c) == if c == m.name then Some(m) else Lookup(ms, c)
  {
    var us := ms[i := m];
    forall c ensures Lookup(us, c) == if c == m.name then Some(m) else Lookup(ms, c) {
      var a, b := Find(us, c), Find(ms, c);
      if b >= 0 {
        assert us[b].name == c;
      }
    }
  }

  lemma LookupAppend(ms: seq<Module>, m: Module)
    requires Unique(ms) && Lookup(ms, m.name) == None
    ensures Unique(ms + [m])
    ensures forall c :: Lookup(ms + [m], c) == if c == m.name then Some(m) else Lookup(ms, c)
  {
    assert (ms + [m])[..|ms|] == ms;
  }

  lemma LookupRemove(ms: seq<Module>, i: nat)
    requires i < |ms| && Unique(ms)
    ensures Unique(ms[..i] + ms[i + 1..])
    ensures forall c :: Lookup(ms[..i] + ms[i + 1..], c) == if c == ms[i].name then None else Lookup(ms, c)
  {
    var us := ms[..i] + ms[i + 1..];
    assert forall k :: 0 <= k < |us| ==> us[k] == ms[if k < i then k else k + 1];
    forall c ensures Lookup(us, c) == if c == ms[i].name then None else Lookup(ms, c) {
      var a, b := Find(us, c), Find(ms, c);
      if b >= 0 && b != i {
        var k := if b < i then b else b - 1;
        assert us[k].name == c;
      }
    }
  }

  lemma FoundIs(ms: seq<Module>, i: nat)
    requires i < |ms| && Unique(ms)
    ensures Find(ms, ms[i].name) == i && Lookup(ms, ms[i].name) == Some(ms[i])
  {
  }

  // ---- the law -----------------------------------------------------------------------------

  function RefsOf(ms: seq<Module>, c: Name): nat {
    if Lookup(ms, c).Some? then Lookup(ms, c).value.refs else 0
  }

  /** Each module's count is the number of loads in `out` plus the slots that hold it; a module
      that is not loaded is held by nobody. */
  ghost predicate Counted(ms: seq<Module>, out: multiset<Name>) {
    Unique(ms) && forall c :: RefsOf(ms, c) == Edges(ms, c) + out[c]
  }

  ghost predicate NoneDyingBelow(w: World, ms: seq<Module>, rank: nat) {
    forall c :: Lookup(ms, c).Some? && Lookup(ms, c).value.dying ==> c in w && w[c].rank >= rank
  }

  /** Modules of rank above `rank` are exactly as they were. */
  ghost predicate SameAbove(w: World, a: seq<Module>, b: seq<Module>, rank: nat) {
    forall c :: c in w && w[c].rank > rank ==> Lookup(b, c) == Lookup(a, c)
  }

  /** One module changes its count and its slots; the outstanding loads change to match. */
  lemma CountedUpdate(ms: seq<Module>, i: nat, m: Module, out: multiset<Name>, now: multiset<Name>)
    requires Counted(ms, out) && i < |ms| && m.name == ms[i].name
    requires forall c ::
               Kids(ms[i].slots, c) + out[c] + (if c == m.name then m.refs else 0) ==
               Kids(m.slots, c) + now[c] + (if c == m.name then ms[i].refs else 0)
    ensures Counted(ms[i := m], now)
  {
    hide Kids, Edges, Lookup, Unique;
    FoundIs(ms, i);
    LookupUpdate(ms, i, m);
    var us := ms[i := m];
    forall c ensures RefsOf(us, c) == Edges(us, c) + now[c] {
      EdgesUpdate(ms, i, m, c);
      assert RefsOf(ms, c) == Edges(ms, c) + out[c];
    }
  }

  /** A module without imports left disappears, and its outstanding loads with it. */
  lemma CountedRemove(ms: seq<Module>, i: nat, out: multiset<Name>, now: multiset<Name>)
    requires Counted(ms, out) && i < |ms| && forall c :: Kids(ms[i].slots, c) == 0
    requires forall c :: out[c] == now[c] + if c == ms[i].name then ms[i].refs else 0
    ensures Counted(ms[..i] + ms[i + 1..], now)
  {
    hide Kids, Edges, Lookup, Unique;
    FoundIs(ms, i);
    LookupRemove(ms, i);
    var us := ms[..i] + ms[i + 1..];
    forall c ensures RefsOf(us, c) == Edges(us, c) + now[c] {
      EdgesRemove(ms, i, c);
      assert RefsOf(ms, c) == Edges(ms, c) + out[c];
    }
  }

  lemma CountedAppend(ms: seq<Module>, m: Module, out: multiset<Name>)
    requires Counted(ms, out) && Lookup(ms, m.name) == None && m.refs == 1 && forall c :: Kids(m.slots, c) == 0
    ensures Counted(ms + [m], out + multiset{m.name})
  {
    hide Kids, Edges, Lookup, Unique;
    LookupAppend(ms, m);
    var us := ms + [m];
    forall c ensures RefsOf(us, c) == Edges(us, c) + (out + multiset{m.name})[c] {
      EdgesAppend(ms, m, c);
      assert RefsOf(ms, c) == Edges(ms, c) + out[c];
    }
  }
}
