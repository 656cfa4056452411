/** What the patched memory holds. */
module FixupMeaning {
  import opened Words
  import opened FixupRecords
  import opened FixupPasses
  import opened FixupAgreement

  predicate Patches(site: Site, obj: nat, i: nat) {
    site.obj == obj && site.offset <= i < site.offset + 4
  }

  /** The last site that patches byte `i` of an object, or -1. */
  function LastPatch(sites: seq<Site>, obj: nat, i: nat): (k: int)
    ensures -1 <= k < |sites|
    ensures k >= 0 ==> Patches(sites[k], obj, i)
    ensures forall j :: k < j < |sites| ==> !Patches(sites[j], obj, i)
  {
    if sites == [] then -1
    else
      var k := LastPatch(sites[1..], obj, i);
      if k >= 0 then k + 1 else if Patches(sites[0], obj, i) then 0 else -1
  }

  /** Both memories map the same objects at the same addresses. */
  predicate SameMap(a: seq<Mapped>, b: seq<Mapped>) {
    |a| == |b| && forall i :: 0 <= i < |a| ==> a[i].base == b[i].base && a[i].big == b[i].big && |a[i].bytes| == |b[i].bytes|
  }

  /** The site's import has an adapter for CALLs. */
  predicate Adapted(s: Scan, links: Links, site: Site) {
    var r := site.record;
    links.bridged && TargetKind(r.flags) == TGT_EXT_ORD && r.first > 0 &&
    var k := Find(s.imports, Import(r.first - 1, r.target));
    k >= 0 && k in links.adapters
  }

  predicate SameBefore(a: seq<Mapped>, b: seq<Mapped>, site: Site)
    requires SameMap(a, b) && site.obj < |a|
  {
    0 < site.offset <= |a[site.obj].bytes| ==> a[site.obj].bytes[site.offset - 1] == b[site.obj].bytes[site.offset - 1]
  }

  /** Site values depend on addresses only, except that the byte before the site tells a CALL. */
  lemma ValueSame(s: Scan, links: Links, a: seq<Mapped>, b: seq<Mapped>, site: Site)
    requires Linked(s, links) && SameMap(a, b) && site.obj < |a|
    ensures SiteValue(s, links, a, site).Ok? == SiteValue(s, links, b, site).Ok?
    ensures !Adapted(s, links, site) || SameBefore(a, b, site) ==> SiteValue(s, links, a, site) == SiteValue(s, links, b, site)
  {
    hide SourceKind, IsAlias, Wrap;
  }

  /** No site lies over the byte that tells whether another one follows a CALL. */
  ghost predicate Steady(s: Scan, links: Links, sites: seq<Site>) {
    forall j, k :: 0 <= j < |sites| && 0 <= k < |sites| && Adapted(s, links, sites[k]) && sites[k].offset > 0 ==>
      !Patches(sites[j], sites[k].obj, sites[k].offset - 1)
  }

  lemma SteadyRest(s: Scan, links: Links, sites: seq<Site>)
    requires Steady(s, links, sites) && sites != []
    ensures Steady(s, links, sites[1..])
  {
    hide Adapted, Patches;
    var rest := sites[1..];
    forall j, k | 0 <= j < |rest| && 0 <= k < |rest| && Adapted(s, links, rest[k]) && rest[k].offset > 0
      ensures !Patches(rest[j], rest[k].obj, rest[k].offset - 1)
    {
      assert rest[j] == sites[j + 1] && rest[k] == sites[k + 1];
    }
  }

  /** Patching one of the sites does not change the value of another. */
  lemma PatchSteady(s: Scan, links: Links, mem: seq<Mapped>, sites: seq<Site>, v: U32, k: nat)
    requires Linked(s, links) && Steady(s, links, sites) && k < |sites| && SiteFits(mem, sites[0]) && SiteFits(mem, sites[k])
    ensures SiteValue(s, links, Patch(mem, sites[0].obj, sites[0].offset, v), sites[k]) == SiteValue(s, links, mem, sites[k])
  {
    hide SiteValue, Adapted;
    ValueSame(s, links, mem, Patch(mem, sites[0].obj, sites[0].offset, v), sites[k]);
  }

  /** The byte at `i` after the sites have been patched into `mem`. */
  function Final(s: Scan, links: Links, mem: seq<Mapped>, sites: seq<Site>, obj: nat, i: nat): (b: U8)
    requires Linked(s, links) && obj < |mem| && i < |mem[obj].bytes|
    requires forall k :: 0 <= k < |sites| ==> SiteFits(mem, sites[k]) && SiteValue(s, links, mem, sites[k]).Ok?
  {
    var k := LastPatch(sites, obj, i);
    if k < 0 then mem[obj].bytes[i] else Le32(SiteValue(s, links, mem, sites[k]).value)[i - sites[k].offset]
  }

  lemma WriteOk(s: Scan, links: Links, mem: seq<Mapped>, sites: seq<Site>)
    requires Linked(s, links) && WriteAll(s, links, mem, sites).Ok?
    ensures forall k :: 0 <= k < |sites| ==> SiteFits(mem, sites[k]) && SiteValue(s, links, mem, sites[k]).Ok?
    decreases |sites|
  {
    hide SiteValue, Put32;
    if sites != [] {
      var site := sites[0];
      var next := Patch(mem, site.obj, site.offset, SiteValue(s, links, mem, site).value);
      WriteOk(s, links, next, sites[1..]);
      forall k | 0 <= k < |sites| ensures SiteFits(mem, sites[k]) && SiteValue(s, links, mem, sites[k]).Ok? {
        if k > 0 {
          assert sites[k] == sites[1..][k - 1];
          ValueSame(s, links, mem, next, sites[k]);
        }
      }
    }
  }

  /** Conversely, when every site fits and has a value, patching cannot fail. */
  lemma {:induction false} WriteTotal(s: Scan, links: Links, mem: seq<Mapped>, sites: seq<Site>)
    requires Linked(s, links)
    requires forall k :: 0 <= k < |sites| ==> SiteFits(mem, sites[k]) && SiteValue(s, links, mem, sites[k]).Ok?
    ensures WriteAll(s, links, mem, sites).Ok?
    decreases |sites|
  {
    hide SiteValue, Put32;
    if sites != [] {
      assert SiteFits(mem, sites[0]);
      var next := Patch(mem, sites[0].obj, sites[0].offset, SiteValue(s, links, mem, sites[0]).value);
      forall k | 0 <= k < |sites[1..]|
        ensures SiteFits(next, sites[1..][k]) && SiteValue(s, links, next, sites[1..][k]).Ok?
      {
        assert SiteFits(mem, sites[k + 1]);
        ValueSame(s, links, mem, next, sites[k + 1]);
      }
      WriteTotal(s, links, next, sites[1..]);
    }
  }

  /** Every byte of the patched memory is accounted for: the last site over it decides. */
  lemma {:induction false} WriteByte(s: Scan, links: Links, mem: seq<Mapped>, sites: seq<Site>, obj: nat, i: nat)
    requires Steady(s, links, sites)
    requires Linked(s, links) && WriteAll(s, links, mem, sites).Ok? && obj < |mem| && i < |mem[obj].bytes|
    requires forall k :: 0 <= k < |sites| ==> SiteFits(mem, sites[k]) && SiteValue(s, links, mem, sites[k]).Ok?
    ensures var q := WriteAll(s, links, mem, sites).value;
            SameMap(mem, q) && q[obj].bytes[i] == Final(s, links, mem, sites, obj, i)
    decreases |sites|
  {
    hide SiteValue, Put32, Le32, Steady;
    if sites != [] {
      var site := sites[0];
      var v := SiteValue(s, links, mem, site).value;
      var next := Patch(mem, site.obj, site.offset, v);
      forall k | 0 <= k < |sites[1..]|
        ensures SiteFits(next, sites[1..][k]) && SiteValue(s, links, next, sites[1..][k]).Ok?
        ensures SiteValue(s, links, next, sites[1..][k]) == SiteValue(s, links, mem, sites[k + 1])
      {
        assert SiteFits(mem, sites[k + 1]);
        PatchSteady(s, links, mem, sites, v, k + 1);
      }
      SteadyRest(s, links, sites);
      WriteByte(s, links, next, sites[1..], obj, i);
      if Patches(site, obj, i) {
        PatchedByte(mem[obj].bytes, site.offset, v, i);
      }
    }
  }

  /** A byte that no site lies over keeps its value. */
  lemma {:induction false} WriteFrame(s: Scan, links: Links, mem: seq<Mapped>, sites: seq<Site>, obj: nat, i: nat)
    requires Linked(s, links) && WriteAll(s, links, mem, sites).Ok? && obj < |mem| && i < |mem[obj].bytes|
    requires LastPatch(sites, obj, i) < 0
    ensures var q := WriteAll(s, links, mem, sites).value; SameMap(mem, q) && q[obj].bytes[i] == mem[obj].bytes[i]
    decreases |sites|
  {
    hide SiteValue, Put32;
    if sites != [] {
      var site := sites[0];
      var v := SiteValue(s, links, mem, site).value;
      WriteFrame(s, links, Patch(mem, site.obj, site.offset, v), sites[1..], obj, i);
    }
  }

  /** What tells a CALL is the same before and after the sites are patched. */
  lemma BeforeKept(s: Scan, links: Links, mem: seq<Mapped>, sites: seq<Site>, k: nat)
    requires Linked(s, links) && WriteAll(s, links, mem, sites).Ok? && k < |sites| && SiteFits(mem, sites[k])
    requires Steady(s, links, sites)
    ensures var q := WriteAll(s, links, mem, sites).value;
            SameMap(mem, q) && (Adapted(s, links, sites[k]) ==> SameBefore(mem, q, sites[k]))
  {
    hide SiteValue, WriteAll, Adapted;
    Mapping(s, links, mem, sites);
    if Adapted(s, links, sites[k]) && sites[k].offset > 0 {
      WriteFrame(s, links, mem, sites, sites[k].obj, sites[k].offset - 1);
    }
  }

  lemma PatchedByte(bytes: seq<U8>, at: nat, v: U32, i: nat)
    requires at + 4 <= |bytes| && at <= i < at + 4
    ensures Put32(bytes, at, v)[i] == Le32(v)[i - at]
  {
    assert Put32(bytes, at, v)[at..at + 4][i - at] == Put32(bytes, at, v)[i];
  }

  // ---- the meaning ------------------------------------------------------------------------------

  /** No two sites share a byte. */
  ghost predicate Disjoint(sites: seq<Site>) {
    forall j, k :: 0 <= j < k < |sites| && sites[j].obj == sites[k].obj ==>
      sites[j].offset + 4 <= sites[k].offset || sites[k].offset + 4 <= sites[j].offset
  }

  function WordAt(mem: seq<Mapped>, obj: nat, at: nat): U32
    requires obj < |mem| && at + 4 <= |mem[obj].bytes|
  {
    var b := mem[obj].bytes;
    Join32(b[at], b[at + 1], b[at + 2], b[at + 3])
  }

  lemma SiteWord(s: Scan, links: Links, mem: seq<Mapped>, sites: seq<Site>, k: nat)
    requires Linked(s, links) && WriteAll(s, links, mem, sites).Ok? && Disjoint(sites) && Steady(s, links, sites) && k < |sites|
    ensures var q := WriteAll(s, links, mem, sites).value;
            SiteFits(mem, sites[k]) && SiteFits(q, sites[k]) && SameMap(mem, q) && SiteValue(s, links, mem, sites[k]).Ok? &&
            WordAt(q, sites[k].obj, sites[k].offset) == SiteValue(s, links, mem, sites[k]).value
  {
    hide SiteValue, WriteAll, Le32, Join32, Steady;
    WriteOk(s, links, mem, sites);
    var site := sites[k];
    var v := SiteValue(s, links, mem, site).value;
    assert SiteFits(mem, site);
    forall d | 0 <= d < 4
      ensures SameMap(mem, WriteAll(s, links, mem, sites).value)
      ensures WriteAll(s, links, mem, sites).value[site.obj].bytes[site.offset + d] == Le32(v)[d]
    {
      OnlyPatch(sites, k, d);
      WriteByte(s, links, mem, sites, site.obj, site.offset + d);
    }
    JoinLe32(v);
  }

  lemma OnlyPatch(sites: seq<Site>, k: nat, d: nat)
    requires Disjoint(sites) && k < |sites| && d < 4
    ensures LastPatch(sites, sites[k].obj, sites[k].offset + d) == k
  {
    var j := LastPatch(sites, sites[k].obj, sites[k].offset + d);
    assert Patches(sites[k], sites[k].obj, sites[k].offset + d);
  }

  lemma WrapCancel(a: U32, b: int)
    ensures Wrap(Wrap(a - b) + b) == a
  {
    var m := 0x1_0000_0000;
    var d := (a - b) % m;
    assert Wrap(a - b) == d;
    var n := (a - b) / m;
    assert a - b == m * n + d;
    assert d + b == a + m * (-n);
    ModShift(a, -n);
  }

  lemma ModShift(a: U32, n: int)
    ensures Wrap(a + 0x1_0000_0000 * n) == a
  {
  }

  /** Flat relocation: a 32-bit offset site holds its target's base plus offset, modulo 2^32,
      biased constants included; a 32-bit relative site, counted from its own end, reaches
      its import; every other byte keeps its value. */
  lemma RelocationMeaning(s: Scan, links: Links, mem: seq<Mapped>, sites: seq<Site>)
    requires Linked(s, links) && WriteAll(s, links, mem, sites).Ok? && Disjoint(sites) && Steady(s, links, sites)
    ensures var q := WriteAll(s, links, mem, sites).value;
            SameMap(mem, q) &&
            (forall k :: 0 <= k < |sites| ==> Relocated(s, links, q, sites[k])) &&
            (forall o, i :: 0 <= o < |mem| && 0 <= i < |mem[o].bytes| && (forall k :: 0 <= k < |sites| ==> !Patches(sites[k], o, i)) ==>
               q[o].bytes[i] == mem[o].bytes[i])
  {
    hide SiteValue, WriteAll, Relocated, Steady, Adapted, SameBefore;
    WriteOk(s, links, mem, sites);
    var q := WriteAll(s, links, mem, sites).value;
    Mapping(s, links, mem, sites);
    forall k | 0 <= k < |sites| ensures Relocated(s, links, q, sites[k]) {
      SiteWord(s, links, mem, sites, k);
      BeforeKept(s, links, mem, sites, k);
      ValueMeans(s, links, mem, q, sites[k]);
    }
    forall o, i | 0 <= o < |mem| && 0 <= i < |mem[o].bytes| && (forall k :: 0 <= k < |sites| ==> !Patches(sites[k], o, i))
      ensures q[o].bytes[i] == mem[o].bytes[i]
    {
      assert LastPatch(sites, o, i) < 0;
      WriteFrame(s, links, mem, sites, o, i);
    }
  }

  /** The relation between a patched site and what its record points at. */
  predicate Relocated(s: Scan, links: Links, q: seq<Mapped>, site: Site)
    requires Linked(s, links)
  {
    SiteFits(q, site) &&
    var r := site.record;
    var word := WordAt(q, site.obj, site.offset);
    var address := q[site.obj].base + site.offset;
    if TargetKind(r.flags) == TGT_INTERNAL then
      0 < r.first <= |q| && word == Wrap(q[r.first - 1].base + r.targetOff)
    else if TargetKind(r.flags) == TGT_EXT_ORD then
      r.first > 0 && exists k :: 0 <= k < |s.imports| && s.imports[k] == Import(r.first - 1, r.target) &&
                                 Wrap(word + address + 4) == ImportAt(links, q, site, k)
    else
      r.first > 0 && exists k :: 0 <= k < |s.names| && s.names[k] == Import(r.first - 1, r.target) &&
                                 Wrap(word + address + 4) == links.names[k]
  }

  lemma ValueMeans(s: Scan, links: Links, mem: seq<Mapped>, q: seq<Mapped>, site: Site)
    requires Linked(s, links) && SameMap(mem, q) && SiteFits(q, site) && SiteValue(s, links, mem, site).Ok?
    requires WordAt(q, site.obj, site.offset) == SiteValue(s, links, mem, site).value
    requires Adapted(s, links, site) ==> SameBefore(mem, q, site)
    ensures Relocated(s, links, q, site)
  {
    hide Wrap, SourceKind, IsAlias;
    var r := site.record;
    var after := mem[site.obj].base + site.offset + 4;
    if TargetKind(r.flags) == TGT_EXT_ORD {
      var k := Find(s.imports, Import(r.first - 1, r.target));
      assert ImportAt(links, q, site, k) == ImportAt(links, mem, site, k);
      WrapCancel(ImportAt(links, q, site, k), after);
    } else if TargetKind(r.flags) == TGT_EXT_NAME {
      var k := Find(s.names, Import(r.first - 1, r.target));
      WrapCancel(links.names[k], after);
    }
  }

  lemma {:induction false} Mapping(s: Scan, links: Links, mem: seq<Mapped>, sites: seq<Site>)
    requires Linked(s, links) && WriteAll(s, links, mem, sites).Ok?
    ensures SameMap(mem, WriteAll(s, links, mem, sites).value)
    decreases |sites|
  {
    hide SiteValue, Put32;
    if sites != [] {
      Mapping(s, links, Patch(mem, sites[0].obj, sites[0].offset, SiteValue(s, links, mem, sites[0]).value), sites[1..]);
    }
  }

  /** Applying the fixups again changes nothing, whether or not sites overlap. */
  lemma ApplyTwice(s: Scan, links: Links, mem: seq<Mapped>, sites: seq<Site>)
    requires Linked(s, links) && WriteAll(s, links, mem, sites).Ok? && Steady(s, links, sites)
    ensures var q := WriteAll(s, links, mem, sites).value; WriteAll(s, links, q, sites) == Ok(q)
  {
    hide SiteValue, WriteAll, Le32, Steady, Adapted, SameBefore;
    WriteOk(s, links, mem, sites);
    Mapping(s, links, mem, sites);
    var q := WriteAll(s, links, mem, sites).value;
    forall k | 0 <= k < |sites| ensures SiteFits(q, sites[k]) && SiteValue(s, links, q, sites[k]) == SiteValue(s, links, mem, sites[k]) {
      assert SiteFits(mem, sites[k]);
      BeforeKept(s, links, mem, sites, k);
      ValueSame(s, links, mem, q, sites[k]);
    }
    WriteTotal(s, links, q, sites);
    Mapping(s, links, q, sites);
    var u := WriteAll(s, links, q, sites).value;
    forall o | 0 <= o < |q| ensures u[o] == q[o] {
      forall i | 0 <= i < |q[o].bytes| ensures u[o].bytes[i] == q[o].bytes[i] {
        WriteByte(s, links, mem, sites, o, i);
        WriteByte(s, links, q, sites, o, i);
      }
      assert u[o].bytes == q[o].bytes;
    }
    assert u == q;
  }

  lemma UnbridgedSteady(s: Scan, links: Links, sites: seq<Site>)
    requires !links.bridged
    ensures Steady(s, links, sites)
  {
  }

  /** The loader's two passes together: an image the scan accepts for direct use is relocated
      completely, and a second application would change nothing. */
  lemma ImageRelocated(l: Layout, links: Links, mem: seq<Mapped>)
    requires Loaded(l) && AllMapped(l, mem) && ScanFixups(l).Ok? && ScanFixups(l).value.direct
    requires Linked(ScanFixups(l).value, links) && Disjoint(ScanFixups(l).value.sites)
    ensures var s := ScanFixups(l).value;
            var q := ApplyFixups(l, s, links, mem);
            q.Ok? && SameMap(mem, q.value) && AllMapped(l, q.value) &&
            (forall k :: 0 <= k < |s.sites| ==> Relocated(s, links, q.value, s.sites[k])) &&
            ApplyFixups(l, s, links, q.value) == q
  {
    hide ScanFixups, ApplyFixups, WriteAll, Relocated, Disjoint;
    var s := ScanFixups(l).value;
    TwoPasses(l, links, mem);
    UnbridgedSteady(s, links, s.sites);
    RelocationMeaning(s, links, mem, s.sites);
    ApplyTwice(s, links, mem, s.sites);
    TwoPasses(l, links, ApplyFixups(l, s, links, mem).value);
  }
}
