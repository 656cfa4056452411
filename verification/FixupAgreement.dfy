/** The second, almost unchecked pass does exactly what the first one prepared. */
module FixupAgreement {
  import opened Words
  import opened FixupRecords
  import opened FixupPasses

  /** The site lies inside its object. */
  predicate SiteFits(mem: seq<Mapped>, site: Site) {
    site.obj < |mem| && site.offset + 4 <= |mem[site.obj].bytes|
  }

  /** All the sites patched in order: the meaning of a list of flat sites. */
  function WriteAll(s: Scan, links: Links, mem: seq<Mapped>, sites: seq<Site>): (q: Outcome<seq<Mapped>>)
    requires Linked(s, links)
    decreases |sites|
  {
    if sites == [] then Ok(mem)
    else if !SiteFits(mem, sites[0]) then Fail(Rejected("LX fixup source lies outside object"))
    else
      match SiteValue(s, links, mem, sites[0])
      case Fail(m) => Fail(m)
      case Ok(v) => WriteAll(s, links, Patch(mem, sites[0].obj, sites[0].offset, v), sites[1..])
  }

  lemma {:induction false} WriteAppend(s: Scan, links: Links, mem: seq<Mapped>, a: seq<Site>, b: seq<Site>)
    requires Linked(s, links)
    ensures var q := WriteAll(s, links, mem, a);
            WriteAll(s, links, mem, a + b) == (if q.Ok? then WriteAll(s, links, q.value, b) else q)
    decreases |a|
  {
    hide SiteValue, Patch, SiteFits;
    if a == [] {
      assert a + b == b;
    } else {
      assert (a + b)[0] == a[0] && (a + b)[1..] == a[1..] + b;
      if SiteFits(mem, a[0]) {
        WriteNext(s, links, mem, a, b);
      }
    }
  }

  lemma WriteNext(s: Scan, links: Links, mem: seq<Mapped>, a: seq<Site>, b: seq<Site>)
    requires Linked(s, links) && a != [] && SiteFits(mem, a[0])
    requires (a + b)[0] == a[0] && (a + b)[1..] == a[1..] + b
    ensures var q := WriteAll(s, links, mem, a);
            WriteAll(s, links, mem, a + b) == (if q.Ok? then WriteAll(s, links, q.value, b) else q)
    decreases |a|, 0
  {
    hide SiteValue, Patch;
    var v := SiteValue(s, links, mem, a[0]);
    if v.Ok? {
      WriteAppend(s, links, Patch(mem, a[0].obj, a[0].offset, v.value), a[1..], b);
    }
  }

  /** Every import that `t` knows is known to `f`. */
  ghost predicate Covers(f: Scan, t: Scan) {
    (forall i :: i in t.imports ==> i in f.imports) && (forall i :: i in t.names ==> i in f.names)
  }

  /** The scan only adds: to the tables, to the sites, and to the reasons against direct use. */
  ghost predicate Grows(s: Scan, t: Scan) {
    Covers(t, s) && s.sites <= t.sites && (t.direct ==> s.direct)
  }

  lemma RecordGrows(l: Layout, page: nat, p: nat, end: nat, s: Scan)
    requires Loaded(l) && p < end <= |l.file|
    ensures var r := ScanRecord(l, page, p, end, s); r.Ok? ==> Grows(s, r.value.0)
  {
    hide Checked, SitesOf, Flat;
  }

  lemma {:induction false} PageGrows(l: Layout, page: nat, p: nat, end: nat, s: Scan)
    requires Loaded(l) && p <= end <= |l.file|
    ensures var r := ScanPage(l, page, p, end, s); r.Ok? ==> Grows(s, r.value)
    decreases end - p
  {
    hide ScanRecord;
    if p < end {
      var r := ScanRecord(l, page, p, end, s);
      if r.Ok? {
        RecordGrows(l, page, p, end, s);
        PageGrows(l, page, r.value.1, end, r.value.0);
      }
    }
  }

  lemma {:induction false} PagesGrow(l: Layout, page: nat, s: Scan)
    requires Loaded(l) && 0 < page <= l.pages + 1
    ensures var r := ScanPages(l, page, s); r.Ok? ==> Grows(s, r.value)
    decreases l.pages + 1 - page
  {
    hide ScanPage, RecordsAt;
    if page <= l.pages && RangeOk(l, page) {
      RangeMeans(l, page);
      var r := ScanPage(l, page, RecordsAt(l, page - 1), RecordsAt(l, page), s);
      if r.Ok? {
        PageGrows(l, page, RecordsAt(l, page - 1), RecordsAt(l, page), s);
        PagesGrow(l, page + 1, r.value);
      }
    }
  }

  lemma RangeMeans(l: Layout, page: nat)
    requires page > 0 && RangeOk(l, page)
    ensures RecordsAt(l, page - 1) <= RecordsAt(l, page) <= |l.file|
  {
  }

  // ---- one record -------------------------------------------------------------------------------

  /** A flat record whose import the final tables hold gets a value at each of its sites. */
  lemma ValueFound(l: Layout, f: Scan, links: Links, mem: seq<Mapped>, r: Record, obj: nat, offset: nat)
    requires Linked(f, links) && obj < |mem| && |mem| == |l.objects| && Flat(r)
    requires FirstOk(TargetKind(r.flags), r.first, |l.objects|, l.moduleCount)
    requires TargetKind(r.flags) == TGT_EXT_ORD ==> Import(r.first - 1, r.target) in f.imports
    requires TargetKind(r.flags) == TGT_EXT_NAME ==> Import(r.first - 1, r.target) in f.names
    ensures SiteValue(f, links, mem, Site(obj, offset, r)).Ok?
  {
    hide SourceKind, IsAlias, IsAdditive, Wrap;
  }

  lemma FlatPatched(r: Record)
    requires Flat(r)
    ensures Patched(r)
  {
  }

  lemma {:induction false} SourcesAgree(l: Layout, f: Scan, links: Links, page: nat, r: Record, sources: seq<int>, mem: seq<Mapped>)
    requires Loaded(l) && Linked(f, links) && AllMapped(l, mem) && Flat(r) && SitesOf(l, page, r, sources).Ok?
    requires FirstOk(TargetKind(r.flags), r.first, |l.objects|, l.moduleCount)
    requires TargetKind(r.flags) == TGT_EXT_ORD ==> Import(r.first - 1, r.target) in f.imports
    requires TargetKind(r.flags) == TGT_EXT_NAME ==> Import(r.first - 1, r.target) in f.names
    ensures var q := ApplySources(l, f, links, page, r, sources, mem);
            q.Ok? && AllMapped(l, q.value) && q == WriteAll(f, links, mem, SitesOf(l, page, r, sources).value)
    decreases |sources|
  {
    hide SiteOf, SiteValue, Flat, FirstOk, Patch, Patched;
    FlatPatched(r);
    if sources != [] {
      var width := Width(SourceKind(r.type_));
      var (obj, offset) := SiteOf(l, page, sources[0], width).value;
      ValueFound(l, f, links, mem, r, obj, offset);
      var v := SiteValue(f, links, mem, Site(obj, offset, r)).value;
      var next := Patch(mem, obj, offset, v);
      SourcesAgree(l, f, links, page, r, sources[1..], next);
      var rest := SitesOf(l, page, r, sources[1..]).value;
      FirstSite(f, links, mem, Site(obj, offset, r), rest);
    }
  }

  lemma FirstSite(f: Scan, links: Links, mem: seq<Mapped>, site: Site, rest: seq<Site>)
    requires Linked(f, links) && SiteFits(mem, site) && SiteValue(f, links, mem, site).Ok?
    ensures WriteAll(f, links, mem, [site] + rest) ==
            WriteAll(f, links, Patch(mem, site.obj, site.offset, SiteValue(f, links, mem, site).value), rest)
  {
    hide SiteValue, Patch, SiteFits;
    assert ([site] + rest)[0] == site && ([site] + rest)[1..] == rest;
  }

  /** The scan of a flat record, in the terms of the second pass. */
  lemma RecordAgrees(l: Layout, page: nat, p: nat, end: nat, s: Scan, f: Scan, links: Links, mem: seq<Mapped>)
    requires Loaded(l) && Linked(f, links) && AllMapped(l, mem) && p < end <= |l.file|
    requires ScanRecord(l, page, p, end, s).Ok? && ScanRecord(l, page, p, end, s).value.0.direct
    requires Covers(f, ScanRecord(l, page, p, end, s).value.0)
    ensures var (t, next) := ScanRecord(l, page, p, end, s).value;
            var r := Trusted(l.file, p, end);
            s.sites <= t.sites && r.Ok? && r.value.next == next &&
            var q := ApplySources(l, f, links, page, r.value, r.value.sources, mem);
            q.Ok? && AllMapped(l, q.value) && q == WriteAll(f, links, mem, t.sites[|s.sites|..])
  {
    hide Checked, Trusted, SitesOf, ApplySources, WriteAll, Flat;
    DecodersAgree(l.file, p, end, |l.objects|, l.moduleCount);
    var r := Checked(l.file, p, end, |l.objects|, l.moduleCount).value;
    SourcesAgree(l, f, links, page, r, r.sources, mem);
    var (t, next) := ScanRecord(l, page, p, end, s).value;
    assert t.sites[|s.sites|..] == SitesOf(l, page, r, r.sources).value;
  }

  // ---- pages ------------------------------------------------------------------------------------------

  lemma {:induction false} PageAgrees(l: Layout, page: nat, p: nat, end: nat, s: Scan, f: Scan, links: Links, mem: seq<Mapped>)
    requires Loaded(l) && Linked(f, links) && AllMapped(l, mem) && p <= end <= |l.file|
    requires ScanPage(l, page, p, end, s).Ok? && ScanPage(l, page, p, end, s).value.direct
    requires Covers(f, ScanPage(l, page, p, end, s).value)
    ensures var t := ScanPage(l, page, p, end, s).value;
            s.sites <= t.sites &&
            var q := ApplyPage(l, f, links, page, p, end, mem);
            q.Ok? && AllMapped(l, q.value) && q == WriteAll(f, links, mem, t.sites[|s.sites|..])
    decreases end - p
  {
    hide ScanRecord, Trusted, ApplySources, WriteAll;
    if p == end {
      assert s.sites[|s.sites|..] == [];
      WriteNone(f, links, mem);
    } else {
      var (t, next) := ScanRecord(l, page, p, end, s).value;
      PageGrows(l, page, next, end, t);
      RecordAgrees(l, page, p, end, s, f, links, mem);
      var r := Trusted(l.file, p, end).value;
      var mid := ApplySources(l, f, links, page, r, r.sources, mem).value;
      PageAgrees(l, page, next, end, t, f, links, mid);
      Joined(f, links, mem, s.sites, t.sites, ScanPage(l, page, p, end, s).value.sites);
    }
  }

  lemma WriteNone(f: Scan, links: Links, mem: seq<Mapped>)
    requires Linked(f, links)
    ensures WriteAll(f, links, mem, []) == Ok(mem)
  {
  }

  lemma Joined(f: Scan, links: Links, mem: seq<Mapped>, a: seq<Site>, b: seq<Site>, c: seq<Site>)
    requires Linked(f, links) && a <= b <= c && WriteAll(f, links, mem, b[|a|..]).Ok?
    ensures WriteAll(f, links, mem, c[|a|..]) == WriteAll(f, links, WriteAll(f, links, mem, b[|a|..]).value, c[|b|..])
  {
    hide WriteAll;
    assert c[|a|..] == b[|a|..] + c[|b|..];
    WriteAppend(f, links, mem, b[|a|..], c[|b|..]);
  }

  lemma {:induction false} PagesAgree(l: Layout, page: nat, s: Scan, f: Scan, links: Links, mem: seq<Mapped>)
    requires Loaded(l) && Linked(f, links) && AllMapped(l, mem) && 0 < page <= l.pages + 1
    requires ScanPages(l, page, s).Ok? && ScanPages(l, page, s).value.direct && Covers(f, ScanPages(l, page, s).value)
    ensures var t := ScanPages(l, page, s).value;
            s.sites <= t.sites &&
            var q := ApplyPages(l, f, links, page, mem);
            q.Ok? && AllMapped(l, q.value) && q == WriteAll(f, links, mem, t.sites[|s.sites|..])
    decreases l.pages + 1 - page
  {
    hide ScanPage, ApplyPage, WriteAll, RecordsAt;
    if page > l.pages {
      assert s.sites[|s.sites|..] == [];
      WriteNone(f, links, mem);
    } else {
      RangeMeans(l, page);
      var p, end := RecordsAt(l, page - 1), RecordsAt(l, page);
      var t := ScanPage(l, page, p, end, s).value;
      PagesGrow(l, page + 1, t);
      PageAgrees(l, page, p, end, s, f, links, mem);
      if p == end {
        EmptyPage(l, page, p, end, s, f, links, mem);
      }
      var mid := ApplyPage(l, f, links, page, p, end, mem).value;
      PagesAgree(l, page + 1, t, f, links, mid);
      Joined(f, links, mem, s.sites, t.sites, ScanPages(l, page, s).value.sites);
    }
  }

  lemma EmptyPage(l: Layout, page: nat, p: nat, end: nat, s: Scan, f: Scan, links: Links, mem: seq<Mapped>)
    requires Loaded(l) && Linked(f, links) && AllMapped(l, mem) && p == end <= |l.file|
    ensures ApplyPage(l, f, links, page, p, end, mem) == Ok(mem)
  {
  }

  /** If the scan accepts an image for direct use and every object is mapped, the second pass
      never fails, never reads outside a record range, finds every import, and patches exactly
      the sites the scan recorded, in the same order. */
  lemma TwoPasses(l: Layout, links: Links, mem: seq<Mapped>)
    requires Loaded(l) && AllMapped(l, mem) && ScanFixups(l).Ok? && ScanFixups(l).value.direct
    requires Linked(ScanFixups(l).value, links)
    ensures var s := ScanFixups(l).value;
            var q := ApplyFixups(l, s, links, mem);
            q.Ok? && q == WriteAll(s, links, mem, s.sites)
  {
    hide ScanPages, ApplyPages, WriteAll;
    var s := ScanFixups(l).value;
    PagesAgree(l, 1, Scan([], [], true, []), s, links, mem);
    assert s.sites[0..] == s.sites;
  }
}
