/** The second pass over an image whose far calls have been recognised as bridges. */
module FixupBridged {
  import opened FixupRecords
  import opened FixupPasses
  import opened FixupAgreement
  import opened FixupMeaning
  import opened BridgePairing
  import opened BridgeRecords

  /** The sites that a patching branch applies to, in order. */
  function FlatOnly(sites: seq<Site>): seq<Site> {
    if sites == [] then []
    else (if Patched(sites[0].record) then [sites[0]] else []) + FlatOnly(sites[1..])
  }

  lemma {:induction false} FlatAppend(a: seq<Site>, b: seq<Site>)
    ensures FlatOnly(a + b) == FlatOnly(a) + FlatOnly(b)
    decreases |a|
  {
    hide Patched;
    if a == [] {
      assert a + b == b;
    } else {
      assert (a + b)[0] == a[0] && (a + b)[1..] == a[1..] + b;
      FlatAppend(a[1..], b);
    }
  }

  /** What the detector asks of a record, and what the flat import tables owe it. */
  predicate Usable(l: Layout, f: Scan, r: Record) {
    FirstOk(TargetKind(r.flags), r.first, |l.objects|, l.moduleCount) && !IsAdditive(r.flags) &&
    (TargetKind(r.flags) == TGT_EXT_ORD ==> Import(r.first - 1, r.target) in f.imports) &&
    (TargetKind(r.flags) == TGT_EXT_NAME ==> Import(r.first - 1, r.target) in f.names)
  }

  lemma PatchedFlat(r: Record)
    requires Patched(r) && !IsAdditive(r.flags)
    ensures Flat(r)
  {
  }

  lemma {:induction false} SourcesBridged(l: Layout, f: Scan, links: Links, page: nat, r: Record, sources: seq<int>, mem: seq<Mapped>)
    requires Loaded(l) && Linked(f, links) && links.bridged && AllMapped(l, mem) && SitesOf(l, page, r, sources).Ok? && FirstOk(TargetKind(r.flags), r.first, |l.objects|, l.moduleCount)
    requires Usable(l, f, r)
    ensures var q := ApplySources(l, f, links, page, r, sources, mem);
            q.Ok? && AllMapped(l, q.value) && q == WriteAll(f, links, mem, FlatOnly(SitesOf(l, page, r, sources).value))
    decreases |sources|
  {
    hide SiteOf, SiteValue, FirstOk, Patch, Patched, Flat, WriteAll, IsAdditive;
    if sources == [] {
      WriteNone(f, links, mem);
    } else {
      var width := Width(SourceKind(r.type_));
      var (obj, offset) := SiteOf(l, page, sources[0], width).value;
      var site := Site(obj, offset, r);
      var rest := SitesOf(l, page, r, sources[1..]).value;
      assert ([site] + rest)[0] == site && ([site] + rest)[1..] == rest;
      if Patched(r) {
        PatchedFlat(r);
        ValueFound(l, f, links, mem, r, obj, offset);
        FourWide(r);
        var next := Patch(mem, obj, offset, SiteValue(f, links, mem, site).value);
        SourcesBridged(l, f, links, page, r, sources[1..], next);
        FirstSite(f, links, mem, site, FlatOnly(rest));
      } else {
        SourcesBridged(l, f, links, page, r, sources[1..], mem);
        assert [] + FlatOnly(rest) == FlatOnly(rest);
      }
    }
  }

  lemma FourWide(r: Record)
    requires Patched(r)
    ensures Width(SourceKind(r.type_)) == 4
  {
  }

  lemma RecordBridged(l: Layout, page: nat, p: nat, end: nat, s: Scan, f: Scan, links: Links, mem: seq<Mapped>)
    requires Loaded(l) && Linked(f, links) && links.bridged && AllMapped(l, mem) && p < end <= |l.file|
    requires ScanRecord(l, page, p, end, s).Ok? && Sighted(l.file, p, end).Seen?
    requires Covers(f, ScanRecord(l, page, p, end, s).value.0)
    ensures var (t, next) := ScanRecord(l, page, p, end, s).value;
            var r := Trusted(l.file, p, end);
            s.sites <= t.sites && r.Ok? && r.value.next == next &&
            var q := ApplySources(l, f, links, page, r.value, r.value.sources, mem);
            q.Ok? && AllMapped(l, q.value) && q == WriteAll(f, links, mem, FlatOnly(t.sites[|s.sites|..]))
  {
    hide Checked, Trusted, Sighted, SitesOf, ApplySources, WriteAll, Flat, IsAdditive, FirstOk;
    DecodersAgree(l.file, p, end, |l.objects|, l.moduleCount);
    DetectorAgrees(l.file, p, end, |l.objects|, l.moduleCount);
    var r := Checked(l.file, p, end, |l.objects|, l.moduleCount).value;
    SourcesBridged(l, f, links, page, r, r.sources, mem);
    var (t, next) := ScanRecord(l, page, p, end, s).value;
    assert t.sites[|s.sites|..] == SitesOf(l, page, r, r.sources).value;
  }

  lemma JoinedFlat(f: Scan, links: Links, mem: seq<Mapped>, a: seq<Site>, b: seq<Site>, c: seq<Site>)
    requires Linked(f, links) && a <= b <= c && WriteAll(f, links, mem, FlatOnly(b[|a|..])).Ok?
    ensures WriteAll(f, links, mem, FlatOnly(c[|a|..])) ==
            WriteAll(f, links, WriteAll(f, links, mem, FlatOnly(b[|a|..])).value, FlatOnly(c[|b|..]))
  {
    hide WriteAll, FlatOnly;
    assert c[|a|..] == b[|a|..] + c[|b|..];
    FlatAppend(b[|a|..], c[|b|..]);
    WriteAppend(f, links, mem, FlatOnly(b[|a|..]), FlatOnly(c[|b|..]));
  }

  lemma {:induction false} PageBridged(l: Layout, page: nat, p: nat, end: nat, s: Scan, f: Scan, links: Links, mem: seq<Mapped>, inv: Inventory)
    requires Loaded(l) && Linked(f, links) && links.bridged && AllMapped(l, mem) && p <= end <= |l.file|
    requires ScanPage(l, page, p, end, s).Ok? && CollectPage(l, page, p, end, inv).Seen?
    requires Covers(f, ScanPage(l, page, p, end, s).value)
    ensures var t := ScanPage(l, page, p, end, s).value;
            s.sites <= t.sites &&
            var q := ApplyPage(l, f, links, page, p, end, mem);
            q.Ok? && AllMapped(l, q.value) && q == WriteAll(f, links, mem, FlatOnly(t.sites[|s.sites|..]))
    decreases end - p
  {
    hide ScanRecord, Trusted, ApplySources, WriteAll, CollectSources, Sighted;
    if p == end {
      assert s.sites[|s.sites|..] == [] && FlatOnly([]) == [];
      WriteNone(f, links, mem);
    } else {
      var (t, next) := ScanRecord(l, page, p, end, s).value;
      PageGrows(l, page, next, end, t);
      RecordBridged(l, page, p, end, s, f, links, mem);
      SameNext(l, page, p, end, s);
      var r := Trusted(l.file, p, end).value;
      var seen := Sighted(l.file, p, end).value;
      var mid := ApplySources(l, f, links, page, r, r.sources, mem).value;
      PageBridged(l, page, next, end, t, f, links, mid, CollectSources(l, page, seen, seen.sources, inv).value);
      JoinedFlat(f, links, mem, s.sites, t.sites, ScanPage(l, page, p, end, s).value.sites);
    }
  }

  lemma SameNext(l: Layout, page: nat, p: nat, end: nat, s: Scan)
    requires Loaded(l) && p < end <= |l.file| && ScanRecord(l, page, p, end, s).Ok? && Sighted(l.file, p, end).Seen?
    ensures Sighted(l.file, p, end).value.next == ScanRecord(l, page, p, end, s).value.1
  {
    hide Checked, Sighted, SitesOf, WithImport, Flat;
    DetectorAgrees(l.file, p, end, |l.objects|, l.moduleCount);
  }

  lemma {:induction false} PagesBridged(l: Layout, page: nat, s: Scan, f: Scan, links: Links, mem: seq<Mapped>, inv: Inventory)
    requires Loaded(l) && Linked(f, links) && links.bridged && AllMapped(l, mem) && 0 < page <= l.pages + 1
    requires ScanPages(l, page, s).Ok? && CollectPages(l, page, inv).Seen? && Covers(f, ScanPages(l, page, s).value)
    ensures var t := ScanPages(l, page, s).value;
            s.sites <= t.sites &&
            var q := ApplyPages(l, f, links, page, mem);
            q.Ok? && AllMapped(l, q.value) && q == WriteAll(f, links, mem, FlatOnly(t.sites[|s.sites|..]))
    decreases l.pages + 1 - page
  {
    hide ScanPage, ApplyPage, WriteAll, RecordsAt, CollectPage;
    if page > l.pages {
      assert s.sites[|s.sites|..] == [] && FlatOnly([]) == [];
      WriteNone(f, links, mem);
    } else {
      RangeMeans(l, page);
      var p, end := RecordsAt(l, page - 1), RecordsAt(l, page);
      var t := ScanPage(l, page, p, end, s).value;
      if p == end {
        EmptyPage(l, page, p, end, s, f, links, mem);
        EmptyRange(l, page, p, inv);
      }
      PagesGrow(l, page + 1, t);
      PageBridged(l, page, p, end, s, f, links, mem, inv);
      var mid := ApplyPage(l, f, links, page, p, end, mem).value;
      PagesBridged(l, page + 1, t, f, links, mid, CollectPage(l, page, p, end, inv).value);
      JoinedFlat(f, links, mem, s.sites, t.sites, ScanPages(l, page, s).value.sites);
    }
  }

  lemma {:induction false} BigSixteens(objects: seq<Object>)
    requires forall i :: 0 <= i < |objects| ==> Big(objects[i])
    ensures Sixteens(objects) == 0
  {
    hide Big;
    if objects != [] {
      BigSixteens(objects[..|objects| - 1]);
    }
  }

  /** Detection never completes on an image that the scan accepts for direct use. */
  lemma FlatHasNoBridges(l: Layout, m: Image)
    requires Loaded(l) && ScanFixups(l).Ok? && ScanFixups(l).value.direct
    ensures Detect(l, m).GivesUp?
  {
    hide ScanPages, Loaded, Big;
    BigSixteens(l.objects);
  }

  /** Patching the flat sites of a bridged image. */
  lemma FlatWritten(s: Scan, links: Links, mem: seq<Mapped>, flat: seq<Site>)
    requires Linked(s, links) && WriteAll(s, links, mem, flat).Ok?
    ensures var q := WriteAll(s, links, mem, flat).value;
            SameMap(mem, q) && (Disjoint(flat) && Steady(s, links, flat) ==> forall k :: 0 <= k < |flat| ==> Relocated(s, links, q, flat[k])) &&
            forall o, i :: 0 <= o < |mem| && 0 <= i < |mem[o].bytes| && LastPatch(flat, o, i) < 0 ==> q[o].bytes[i] == mem[o].bytes[i]
  {
    hide WriteAll, LastPatch, Relocated, Disjoint, Steady;
    Mapping(s, links, mem, flat);
    if Disjoint(flat) && Steady(s, links, flat) {
      RelocationMeaning(s, links, mem, flat);
    }
    forall o, i | 0 <= o < |mem| && 0 <= i < |mem[o].bytes| && LastPatch(flat, o, i) < 0
      ensures WriteAll(s, links, mem, flat).value[o].bytes[i] == mem[o].bytes[i]
    {
      WriteFrame(s, links, mem, flat, o, i);
    }
  }

  /** If the scan accepts an image and the detector completes on it, the second pass never fails,
      never reads outside a record range, finds every import, and patches exactly the flat sites,
      in the order of the scan. Where those do not lie over each other or over the byte before the
      operand of a CALL that may get an adapter, each holds what its record asks for; and no byte
      outside them changes, so the sites of bridges keep what they held wherever no flat site lies
      over them. */
  lemma BridgedPasses(l: Layout, m: Image, links: Links, mem: seq<Mapped>)
    requires Loaded(l) && AllMapped(l, mem) && ScanFixups(l).Ok? && Detect(l, m).Seen?
    requires Linked(ScanFixups(l).value, links) && links.bridged
    ensures var s := ScanFixups(l).value;
            var flat := FlatOnly(s.sites);
            var q := ApplyFixups(l, s, links, mem);
            q.Ok? && q == WriteAll(s, links, mem, flat) && SameMap(mem, q.value) &&
            (Disjoint(flat) && Steady(s, links, flat) ==> forall k :: 0 <= k < |flat| ==> Relocated(s, links, q.value, flat[k])) &&
            forall o, i :: 0 <= o < |mem| && 0 <= i < |mem[o].bytes| && LastPatch(flat, o, i) < 0 ==>
              q.value[o].bytes[i] == mem[o].bytes[i]
  {
    hide ScanPages, ApplyPages, WriteAll, CollectPages, FlatOnly, LastPatch, Relocated, Disjoint, Steady, AllMapped;
    var s := ScanFixups(l).value;
    PagesBridged(l, 1, Scan([], [], true, []), s, links, mem, EMPTY);
    assert s.sites[0..] == s.sites;
    FlatWritten(s, links, mem, FlatOnly(s.sites));
  }
}
