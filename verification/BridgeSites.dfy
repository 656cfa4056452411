/** Bridges and the fixup sites of an image: nothing is left over. */
module BridgeSites {
  import opened FixupRecords
  import opened FixupPasses
  import opened BridgePairing
  import opened BridgeRecords

  predicate IsRole(c: Class) {
    c == Call || c == Return || c == Alias || c == Stack
  }

  /** The indices of the sites of one class, in order. */
  function Positions(sites: seq<Site>, c: Class): (s: seq<nat>)
    ensures forall j :: 0 <= j < |s| ==> s[j] < |sites| && ClassOf(sites[s[j]].record) == c
    ensures forall i, j :: 0 <= i < j < |s| ==> s[i] < s[j]
    ensures forall k :: 0 <= k < |sites| && ClassOf(sites[k].record) == c ==> k in s
  {
    if sites == [] then []
    else
      var n := |sites| - 1;
      var before := Positions(sites[..n], c);
      assert forall k :: 0 <= k < n ==> sites[..n][k] == sites[k];
      if ClassOf(sites[n].record) == c then
        (assert (before + [n])[|before|] == n; assert forall k :: k in before ==> k in before + [n]; before + [n])
      else before
  }

  /** The lists of the inventory are the sites of each class, and no site is foreign. */
  ghost predicate Lists(sites: seq<Site>, inv: Inventory)
    requires Small(sites)
  {
    |inv.exts| == |Positions(sites, Call)| && |inv.rets| == |Positions(sites, Return)| &&
    |inv.aliases| == |Positions(sites, Alias)| && |inv.stacks| == |Positions(sites, Stack)| &&
    (forall k :: 0 <= k < |sites| ==> ClassOf(sites[k].record) != Foreign && (ClassOf(sites[k].record) != Plain ==> sites[k].record.first > 0)) &&
    (forall j :: 0 <= j < |inv.exts| ==> inv.exts[j] == CallAt(sites[Positions(sites, Call)[j]])) &&
    (forall j :: 0 <= j < |inv.rets| ==> inv.rets[j] == ReturnAt(sites[Positions(sites, Return)[j]])) &&
    (forall j :: 0 <= j < |inv.aliases| ==> inv.aliases[j] == SelectorAt(sites[Positions(sites, Alias)[j]])) &&
    (forall j :: 0 <= j < |inv.stacks| ==> inv.stacks[j] == SelectorAt(sites[Positions(sites, Stack)[j]]))
  }

  lemma PositionsNext(sites: seq<Site>, c: Class)
    requires sites != []
    ensures var n := |sites| - 1;
            Positions(sites, c) == Positions(sites[..n], c) + if ClassOf(sites[n].record) == c then [n] else []
  {
  }

  lemma EnterLists(l: Layout, sites: seq<Site>, inv: Inventory)
    requires sites != [] && Small(sites) && Lists(sites[..|sites| - 1], inv) && Enter(l, inv, sites[|sites| - 1]).Seen?
    ensures Lists(sites, Enter(l, inv, sites[|sites| - 1]).value)
  {
    hide Positions, ClassOf;
    PositionsNext(sites, Call);
    PositionsNext(sites, Return);
    PositionsNext(sites, Alias);
    PositionsNext(sites, Stack);
  }

  lemma {:induction false} GatherLists(l: Layout, sites: seq<Site>)
    requires Small(sites) && Gather(l, sites).Seen?
    ensures Lists(sites, Gather(l, sites).value)
    decreases |sites|
  {
    hide Enter, Positions;
    if sites == [] {
      NoPositions(sites);
    } else {
      GatherLists(l, sites[..|sites| - 1]);
      EnterLists(l, sites, Gather(l, sites[..|sites| - 1]).value);
    }
  }

  lemma NoPositions(sites: seq<Site>)
    requires sites == []
    ensures forall c :: Positions(sites, c) == []
  {
  }

  // ---- bridges own their sites --------------------------------------------------------------------

  /** The index of the chosen list entry that a bridge uses in a role. */
  function Chosen(p: Pairing, b: nat, c: Class): nat
    requires b < |p.rets| && |p.aliases| == |p.rets| && |p.stacks| == |p.rets|
  {
    if c == Call then b else if c == Return then p.rets[b] else if c == Alias then p.aliases[b] else p.stacks[b]
  }

  /** The site of bridge `b` in the role `c`. */
  function Part(sites: seq<Site>, p: Pairing, b: nat, c: Class): int
    requires IsRole(c) && b < |p.rets| && |p.aliases| == |p.rets| && |p.stacks| == |p.rets|
  {
    var at := Chosen(p, b, c);
    if at < |Positions(sites, c)| then Positions(sites, c)[at] else -1
  }

  /** Each bridge has one site of each role; no site serves twice; every site that is not flat
      serves. */
  ghost predicate Owned(sites: seq<Site>, p: Pairing) {
    |p.aliases| == |p.rets| && |p.stacks| == |p.rets| &&
    (forall b, c | 0 <= b < |p.rets| && IsRole(c) ::
       0 <= Part(sites, p, b, c) < |sites| && ClassOf(sites[Part(sites, p, b, c)].record) == c) &&
    (forall b, c, d, e | 0 <= b < |p.rets| && 0 <= d < |p.rets| && IsRole(c) && IsRole(e) ::
       Part(sites, p, b, c) == Part(sites, p, d, e) ==> b == d && c == e) &&
    (forall k | 0 <= k < |sites| && ClassOf(sites[k].record) != Plain ::
       exists b :: 0 <= b < |p.rets| && Serves(sites, p, k, b))
  }

  predicate Serves(sites: seq<Site>, p: Pairing, k: nat, b: nat)
    requires k < |sites| && b < |p.rets| && |p.aliases| == |p.rets| && |p.stacks| == |p.rets|
  {
    IsRole(ClassOf(sites[k].record)) && Part(sites, p, b, ClassOf(sites[k].record)) == k
  }

  lemma PartOf(sites: seq<Site>, inv: Inventory, p: Pairing, b: nat, c: Class)
    requires Small(sites) && Lists(sites, inv) && Indices(inv, p) && b < |p.rets| && IsRole(c)
    ensures var k := Part(sites, p, b, c); 0 <= k < |sites| && ClassOf(sites[k].record) == c
  {
    hide Positions, ClassOf;
  }

  lemma PartOnce(sites: seq<Site>, inv: Inventory, p: Pairing, b: nat, d: nat, c: Class)
    requires Small(sites) && Lists(sites, inv) && Indices(inv, p) && b < |p.rets| && d < |p.rets| && IsRole(c)
    requires Part(sites, p, b, c) == Part(sites, p, d, c)
    ensures b == d
  {
    hide Positions, ClassOf;
    PartOf(sites, inv, p, b, c);
  }

  lemma ChosenBy(inv: Inventory, p: Pairing, at: nat, c: Class) returns (b: nat)
    requires Indices(inv, p) && |p.rets| == |inv.exts| && AllUsed(inv, p) && at < |inv.exts|
    ensures b < |p.rets| && Chosen(p, b, c) == at
  {
    if c == Call {
      b := at;
    } else if c == Return {
      assert at in p.rets;
      b :| 0 <= b < |p.rets| && p.rets[b] == at;
    } else if c == Alias {
      assert at in p.aliases;
      b :| 0 <= b < |p.aliases| && p.aliases[b] == at;
    } else {
      assert at in p.stacks;
      b :| 0 <= b < |p.stacks| && p.stacks[b] == at;
    }
  }

  lemma PartServes(sites: seq<Site>, inv: Inventory, p: Pairing, k: nat)
    requires Small(sites) && Lists(sites, inv) && Indices(inv, p) && |p.rets| == |inv.exts| && AllUsed(inv, p) && SameCounts(inv)
    requires k < |sites| && ClassOf(sites[k].record) != Plain
    ensures exists b :: 0 <= b < |p.rets| && Serves(sites, p, k, b)
  {
    hide Positions, ClassOf, AllUsed, Distinct, Below, Small, Chosen;
    var c := ClassOf(sites[k].record);
    assert IsRole(c) && |Positions(sites, c)| == |inv.exts|;
    assert k in Positions(sites, c);
    var at :| 0 <= at < |Positions(sites, c)| && Positions(sites, c)[at] == k;
    var b := ChosenBy(inv, p, at, c);
    assert Serves(sites, p, k, b);
  }

  /** If detection completes on a scanned image, its bridges own every site that is not flat:
      each has exactly one import call, return, alias and stack selector, structurally one
      thunk and helper, and every such site belongs to exactly one bridge. */
  lemma BridgesOwnSites(l: Layout, m: Image)
    requires Loaded(l) && ScanFixups(l).Ok? && Detect(l, m).Seen?
    ensures var (inv, p) := Detect(l, m).value;
            var sites := ScanFixups(l).value.sites;
            Small(sites) && Lists(sites, inv) && Bridged(m, inv, p) && Forced(inv, p) && Owned(sites, p)
  {
    hide Complete, Fits, OnlyOnes, ScanPages, CollectPages, Gather, Serves, Part, Lists, Indices, Sixteens, IsRole, ClassOf;
    var inv, p := Detect(l, m).value.0, Detect(l, m).value.1;
    var start := Scan([], [], true, []);
    assert Gather(l, []) == Seen(EMPTY) by { GatherNone(l); }
    PagesSeen(l, 1, start);
    var sites := ScanFixups(l).value.sites;
    GatherLists(l, sites);
    BridgesAreBijection(m, inv);
    CompleteCounts(m, inv);
    OwnsAll(sites, inv, p);
  }

  lemma GatherNone(l: Layout)
    ensures Gather(l, []) == Seen(EMPTY)
  {
  }

  lemma CompleteCounts(m: Image, inv: Inventory)
    requires Complete(m, inv).Some?
    ensures SameCounts(inv)
  {
  }

  lemma OwnsAll(sites: seq<Site>, inv: Inventory, p: Pairing)
    requires Small(sites) && Lists(sites, inv) && Indices(inv, p) && |p.rets| == |inv.exts| && AllUsed(inv, p) && SameCounts(inv)
    ensures Owned(sites, p)
  {
    hide Lists, AllUsed, SameCounts, Part, Serves, ClassOf, IsRole;
    assert |p.aliases| == |p.rets| && |p.stacks| == |p.rets|;
    forall b, c | 0 <= b < |p.rets| && IsRole(c)
      ensures 0 <= Part(sites, p, b, c) < |sites| && ClassOf(sites[Part(sites, p, b, c)].record) == c
    {
      PartOf(sites, inv, p, b, c);
    }
    forall b, c, d, e | 0 <= b < |p.rets| && 0 <= d < |p.rets| && IsRole(c) && IsRole(e) && Part(sites, p, b, c) == Part(sites, p, d, e)
      ensures b == d && c == e
    {
      PartOnce(sites, inv, p, b, d, c);
    }
    forall k | 0 <= k < |sites| && ClassOf(sites[k].record) != Plain
      ensures exists b :: 0 <= b < |p.rets| && Serves(sites, p, k, b)
    {
      PartServes(sites, inv, p, k);
    }
  }

  /** The second pass's silent branch drops exactly the sites of bridges. */
  lemma SkippedAreBridged(l: Layout, m: Image, k: nat)
    requires Loaded(l) && ScanFixups(l).Ok? && Detect(l, m).Seen? && k < |ScanFixups(l).value.sites|
    ensures var p := Detect(l, m).value.1;
            var sites := ScanFixups(l).value.sites;
            Owned(sites, p) &&
            (!Patched(sites[k].record) <==> exists b, c | 0 <= b < |p.rets| && IsRole(c) :: Part(sites, p, b, c) == k)
  {
    hide Detect, ScanFixups, Positions, SourceKind, TargetKind, IsAlias, Part;
    BridgesOwnSites(l, m);
    var p := Detect(l, m).value.1;
    var sites := ScanFixups(l).value.sites;
    var c := ClassOf(sites[k].record);
    if c != Plain {
      var b :| 0 <= b < |p.rets| && Serves(sites, p, k, b);
    }
  }
}
