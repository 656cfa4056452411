/** Guest DLLs: loading with their imports, counting references, releasing. */
module ModuleGraph {
  import opened Options

  const MAX_GUEST_MODULES := 64

  /** Module names are compared without case, so a number stands for each class of names. */
  type Name = nat

  /** A DLL file: its import module table, which entry each import in turn refers to, and its
      lifecycle. `rank` is larger than that of every import: imports are acyclic. */
  datatype Library = Library(imports: seq<Name>, uses: seq<nat>, hasEntry: bool, initSucceeds: bool, rank: nat)

  /** The files that can be found. */
  type World = map<Name, Library>

  predicate Good(w: World) {
    forall n :: n in w ==>
      (forall u :: u in w[n].uses ==> u < |w[n].imports|) &&
      (forall k :: 0 <= k < |w[n].imports| && w[n].imports[k] in w ==> w[w[n].imports[k]].rank < w[n].rank)
  }

  /** A loaded module: its import slots hold the modules it keeps loaded. */
  datatype Module = Module(
    name: Name, handle: nat, refs: nat, dying: bool, inited: bool, termed: bool, order: nat, slots: seq<Option<Name>>)

  /** What happened, by handle. A module without a TERM routine ends all the same. */
  datatype Event = Linked(parent: nat, child: nat) | Inited(handle: nat) | Ended(handle: nat)

  datatype Table = Table(modules: seq<Module>, nextOrder: nat, nextHandle: nat, log: seq<Event>)

  /** Loading succeeds, the module's own initialisation fails, or the process exits. */
  datatype Outcome = Loaded(table: Table) | Refused(table: Table) | Fatal

  function Find(ms: seq<Module>, n: Name): (i: int)
    ensures -1 <= i < |ms|
    ensures i >= 0 ==> ms[i].name == n && forall j :: 0 <= j < i ==> ms[j].name != n
    ensures i < 0 ==> forall j :: 0 <= j < |ms| ==> ms[j].name != n
  {
    if ms == [] then -1
    else
      var i := Find(ms[..|ms| - 1], n);
      if i >= 0 then i else if ms[|ms| - 1].name == n then |ms| - 1 else -1
  }

  /** Slots hold imports of their own positions. */
  predicate Shaped(w: World, ms: seq<Module>) {
    forall i :: 0 <= i < |ms| ==> ShapedModule(w, ms[i])
  }

  predicate ShapedModule(w: World, m: Module) {
    m.name in w && |m.slots| == |w[m.name].imports| &&
    forall k :: 0 <= k < |m.slots| && m.slots[k].Some? ==> m.slots[k].value == w[m.name].imports[k]
  }

  function Update(t: Table, i: nat, m: Module): Table
    requires i < |t.modules|
  {
    t.(modules := t.modules[i := m])
  }

  function Remove(t: Table, n: Name): Table {
    var i := Find(t.modules, n);
    if i < 0 then t else t.(modules := t.modules[..i] + t.modules[i + 1..])
  }

  function Note(t: Table, e: Event): Table {
    t.(log := t.log + [e])
  }

  /** `terminate_guest_module`. */
  function Terminate(w: World, t: Table, i: nat): Table
    requires i < |t.modules| && t.modules[i].name in w
  {
    var m := t.modules[i];
    if !m.inited || m.termed then t else Note(Update(t, i, m.(termed := true)), Ended(m.handle))
  }

  function Fresh(w: World, t: Table, n: Name): Module
    requires n in w
  {
    Module(n, t.nextHandle, 1, false, false, false, 0, seq(|w[n].imports|, _ => None))
  }

  function SetSlot(t: Table, i: nat, k: nat, v: Option<Name>): Table
    requires i < |t.modules| && k < |t.modules[i].slots|
  {
    Update(t, i, t.modules[i].(slots := t.modules[i].slots[k := v]))
  }

  predicate ShapedOutcome(w: World, r: Outcome) {
    r.Fatal? || Shaped(w, r.table.modules)
  }

  // ---- release ----------------------------------------------------------------------------

  /** `release_guest_module`. A count of zero, or no such module, is an invalid handle. */
  function Release(w: World, t: Table, n: Name): (r: Table)
    requires Good(w) && Shaped(w, t.modules)
    ensures Shaped(w, r.modules)
    decreases if n in w then w[n].rank + 1 else 0, 1
  {
    var i := Find(t.modules, n);
    if i < 0 || t.modules[i].refs == 0 then t
    else
      var m := t.modules[i].(refs := t.modules[i].refs - 1);
      if m.refs != 0 then Update(t, i, m)
      else
        var dying := Terminate(w, Update(t, i, m.(dying := true)), i);
        Remove(ReleaseSlots(w, dying, n, 0), n)
  }

  /** The slots of a dying module from `k` on: each is cleared, and its module released. */
  function ReleaseSlots(w: World, t: Table, n: Name, k: nat): (r: Table)
    requires Good(w) && Shaped(w, t.modules) && n in w
    ensures Shaped(w, r.modules)
    decreases w[n].rank + 1, 0, |w[n].imports| - k
  {
    var i := Find(t.modules, n);
    if i < 0 || k >= |t.modules[i].slots| then t
    else
      match t.modules[i].slots[k]
      case None => ReleaseSlots(w, t, n, k + 1)
      case Some(c) =>
        var cleared := SetSlot(t, i, k, None);
        var j := Find(cleared.modules, c);
        var next := if j >= 0 && !cleared.modules[j].dying then Release(w, cleared, c) else cleared;
        ReleaseSlots(w, next, n, k + 1)
  }

  // ---- load -------------------------------------------------------------------------------------

  /** `load_guest_module`. */
  function Load(w: World, t: Table, n: Name): (r: Outcome)
    requires Good(w) && Shaped(w, t.modules)
    ensures ShapedOutcome(w, r)
    decreases if n in w then w[n].rank + 1 else 0, 2
  {
    var i := Find(t.modules, n);
    if i >= 0 then Loaded(Update(t, i, t.modules[i].(refs := t.modules[i].refs + 1)))
    else if |t.modules| >= MAX_GUEST_MODULES || n !in w then Fatal
    else
      var appended := t.(modules := t.modules + [Fresh(w, t, n)], nextHandle := t.nextHandle + 1);
      var r := LoadUses(w, appended, n, 0);
      if r.Loaded? then Start(w, r.table, n) else r
  }

  /** `resolve_imports`: each import in turn makes sure that its module is loaded; a module
      whose initialisation fails ends the process. */
  function LoadUses(w: World, t: Table, n: Name, u: nat): (r: Outcome)
    requires Good(w) && Shaped(w, t.modules) && n in w
    ensures ShapedOutcome(w, r) && !r.Refused?
    decreases w[n].rank + 1, 1, |w[n].uses| - u
  {
    var i := Find(t.modules, n);
    if i < 0 then Fatal
    else if u >= |w[n].uses| then Loaded(t)
    else
      var k := w[n].uses[u];
      assert k in w[n].uses;
      if t.modules[i].slots[k].Some? then LoadUses(w, t, n, u + 1)
      else
        var c := w[n].imports[k];
        match Load(w, t, c)
        case Loaded(got) => LoadUses(w, Link(got, n, k, c), n, u + 1)
        case _ => Fatal
  }

  /** The slot takes over the reference that the load returned. */
  function Link(t: Table, n: Name, k: nat, c: Name): (r: Table) {
    var i, j := Find(t.modules, n), Find(t.modules, c);
    if i < 0 || j < 0 || k >= |t.modules[i].slots| then t
    else Note(SetSlot(t, i, k, Some(c)), Linked(t.modules[i].handle, t.modules[j].handle))
  }

  /** INIT: a module without an entry point is ready; one whose routine fails gives up its
      imports and disappears. */
  function Start(w: World, t: Table, n: Name): (r: Outcome)
    requires Good(w) && Shaped(w, t.modules) && n in w
    ensures ShapedOutcome(w, r)
    decreases w[n].rank + 1, 1, 0
  {
    var i := Find(t.modules, n);
    if i < 0 then Fatal
    else if !w[n].hasEntry then Loaded(t)
    else
      var m := t.modules[i];
      if w[n].initSucceeds then
        Loaded(Note(Update(t, i, m.(inited := true, order := t.nextOrder)).(nextOrder := t.nextOrder + 1), Inited(m.handle)))
      else Refused(Remove(ReleaseSlots(w, Update(t, i, m.(dying := true)), n, 0), n))
  }
}
