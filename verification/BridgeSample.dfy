/** An image, byte by byte, in which the order of two thunks decides. */
module BridgeSample {
  import opened Words
  import opened FixupRecords
  import opened FixupPasses
  import opened BridgePairing
  import opened BridgeRecords

  /** Four page entries: the records of page 1 end at 26, those of page 2 at 46. */
  function TableByte(i: nat): U8 {
    if i == 4 then 26 else if i == 8 || i == 12 then 46 else 0
  }

  /** Byte `i` of the record of a far call at `src`. */
  function CallByte(src: U8, i: nat): U8 {
    if i == 0 then 0x13 else if i == 1 then 0x81 else if i == 2 then src else if i == 3 then 0 else if i == 4 then 1 else 7
  }

  function ReturnByte(src: U8, off: U8, i: nat): U8 {
    if i == 0 then 0x06 else if i == 2 then src else if i == 4 then 2 else if i == 5 then off else 0
  }

  function SelectorByte(type_: U8, src: U8, target: U8, i: nat): U8 {
    if i == 0 then type_ else if i == 2 then src else if i == 4 then target else 0
  }

  /** The fixup tables of an image with two thunks: two far calls (at `a` and `b`) and two returns
      on page 1, two aliases and two stack selectors on page 2. */
  function ByteAt(a: U8, b: U8, i: nat): U8 {
    if i < 16 then TableByte(i)
    else if i < 22 then CallByte(a, i - 16)
    else if i < 28 then CallByte(b, i - 22)
    else if i < 35 then ReturnByte(8, 102, i - 28)
    else if i < 42 then ReturnByte(28, 252, i - 35)
    else if i < 47 then SelectorByte(0x12, 100, 1, i - 42)
    else if i < 52 then SelectorByte(0x12, 250, 1, i - 47)
    else if i < 57 then SelectorByte(0x02, 40, 3, i - 52)
    else SelectorByte(0x02, 90, 3, i - 57)
  }

  function Bytes(a: U8, b: U8): (f: seq<U8>)
    ensures |f| == 62 && forall i :: 0 <= i < 62 ==> f[i] == ByteAt(a, b, i)
  {
    seq(62, i requires 0 <= i => ByteAt(a, b, i))
  }

  function SampleLayout(a: U8, b: U8): (l: Layout)
    ensures Loaded(l) && |l.file| == 62
  {
    Layout(Bytes(a, b), false, 0, 16, 62, 3, 0x1000, SAMPLE.objects, [], 1)
  }

  // ---- the records ------------------------------------------------------------------------

  lemma CallRecord(file: seq<U8>, p: nat, end: nat)
    requires p + 6 <= end <= |file| && file[p] == 0x13 && file[p + 1] == 0x81 && file[p + 3] == 0 && file[p + 4] == 1 && file[p + 5] == 7
    ensures Checked(file, p, end, 3, 1) == Ok(Record(0x13, 0x81, 1, 7, 0, [file[p + 2] as int], p + 6))
  {
  }

  lemma ReturnRecord(file: seq<U8>, p: nat, end: nat)
    requires p + 7 <= end <= |file| && file[p] == 0x06 && file[p + 1] == 0 && file[p + 3] == 0 && file[p + 4] == 2 && file[p + 6] == 0
    ensures Checked(file, p, end, 3, 1) == Ok(Record(0x06, 0, 2, 0, file[p + 5], [file[p + 2] as int], p + 7))
  {
  }

  lemma SelectorRecord(file: seq<U8>, p: nat, end: nat)
    requires p + 5 <= end <= |file| && (file[p] == 0x12 || file[p] == 0x02) && file[p + 1] == 0 && file[p + 3] == 0 && 0 < file[p + 4] <= 3
    ensures Checked(file, p, end, 3, 1) == Ok(Record(file[p], 0, file[p + 4], 0, 0, [file[p + 2] as int], p + 5))
  {
  }

  // ---- one step of each walk ---------------------------------------------------------------

  predicate Lone(l: Layout, page: nat, p: nat, end: nat, r: Record, obj: nat)
    requires Loaded(l)
  {
    p < end <= |l.file| && |l.objects| == 3 && l.moduleCount == 1 && Checked(l.file, p, end, 3, 1) == Ok(r) && |r.sources| == 1 &&
    0 <= r.sources[0] < TWO32 && SiteOf(l, page, r.sources[0], Width(SourceKind(r.type_))) == Ok((obj, r.sources[0])) &&
    !IsAdditive(r.flags) && (TargetKind(r.flags) == TGT_INTERNAL || TargetKind(r.flags) == TGT_EXT_ORD)
  }

  lemma ScanStep(l: Layout, page: nat, p: nat, end: nat, r: Record, obj: nat, s: Scan) returns (t: Scan)
    requires Loaded(l) && Lone(l, page, p, end, r, obj) && |s.imports| < 100
    ensures r.next <= end && |t.imports| <= |s.imports| + 1
    ensures ScanPage(l, page, p, end, s) == ScanPage(l, page, r.next, end, t)
  {
    hide SiteOf, Checked, Width, SourceKind, Flat, IsAdditive, WithImport, ScanPage;
    OneSite(l, page, r, obj);
    NextRecord(l, p, end, r);
    FewImports(s, r);
    t := ScanRecord(l, page, p, end, s).value.0;
    ScanNext(l, page, p, end, s);
  }

  lemma OneSite(l: Layout, page: nat, r: Record, obj: nat)
    requires Loaded(l) && |r.sources| == 1 && 0 <= r.sources[0]
    requires SiteOf(l, page, r.sources[0], Width(SourceKind(r.type_))) == Ok((obj, r.sources[0]))
    ensures SitesOf(l, page, r, r.sources) == Ok([Site(obj, r.sources[0], r)])
  {
    hide SiteOf, Width, SourceKind;
    assert SitesOf(l, page, r, r.sources[1..]) == Ok([]);
    assert [Site(obj, r.sources[0], r)] + [] == [Site(obj, r.sources[0], r)];
  }

  lemma NextRecord(l: Layout, p: nat, end: nat, r: Record)
    requires p < end <= |l.file| && Checked(l.file, p, end, 3, 1) == Ok(r)
    ensures p < r.next <= end && FirstOk(TargetKind(r.flags), r.first, 3, 1)
  {
    hide Checked;
  }

  lemma FewImports(s: Scan, r: Record)
    requires |s.imports| < 100 && FirstOk(TargetKind(r.flags), r.first, 3, 1)
    requires TargetKind(r.flags) == TGT_INTERNAL || TargetKind(r.flags) == TGT_EXT_ORD
    ensures WithImport(s, r).Ok? && |WithImport(s, r).value.imports| <= |s.imports| + 1
  {
    hide TargetKind;
  }

  lemma ScanNext(l: Layout, page: nat, p: nat, end: nat, s: Scan)
    requires Loaded(l) && p < end <= |l.file| && ScanRecord(l, page, p, end, s).Ok?
    ensures var (t, next) := ScanRecord(l, page, p, end, s).value; ScanPage(l, page, p, end, s) == ScanPage(l, page, next, end, t)
  {
    hide ScanRecord;
  }

  lemma CollectStep(l: Layout, page: nat, p: nat, end: nat, r: Record, obj: nat, inv: Inventory, next: Inventory)
    requires Loaded(l) && Lone(l, page, p, end, r, obj) && Enter(l, inv, Site(obj, r.sources[0], r)) == Seen(next)
    ensures r.next <= end && CollectPage(l, page, p, end, inv) == CollectPage(l, page, r.next, end, next)
  {
    hide SiteOf, Checked, Sighted, Width, SourceKind, TargetKind, IsAdditive, Enter;
    DetectorAgrees(l.file, p, end, 3, 1);
    OneEntered(l, page, r, obj, inv, next);
    assert CollectPage(l, page, p, end, inv) == CollectPage(l, page, r.next, end, next);
  }

  lemma OneEntered(l: Layout, page: nat, r: Record, obj: nat, inv: Inventory, next: Inventory)
    requires Loaded(l) && |r.sources| == 1 && 0 <= r.sources[0] < TWO32
    requires SiteOf(l, page, r.sources[0], Width(SourceKind(r.type_))) == Ok((obj, r.sources[0]))
    requires Enter(l, inv, Site(obj, r.sources[0], r)) == Seen(next)
    ensures CollectSources(l, page, r, r.sources, inv) == Seen(next)
  {
    hide SiteOf, Width, SourceKind, Enter;
    assert CollectSources(l, page, r, r.sources[1..], next) == Seen(next);
  }

  // ---- the image --------------------------------------------------------------------------------

  function CallRec(src: U8, next: nat): Record { Record(0x13, 0x81, 1, 7, 0, [src], next) }

  function ReturnRec(src: U8, off: U8, next: nat): Record { Record(0x06, 0, 2, 0, off, [src], next) }

  function SelectorRec(type_: U8, src: U8, target: nat, next: nat): Record { Record(type_, 0, target, 0, 0, [src], next) }

  lemma PageSites(a: U8, b: U8, src: nat, width: nat)
    requires width <= 6 && src < 0x100
    ensures src < 200 ==> SiteOf(SampleLayout(a, b), 1, src, width) == Ok((0, src))
    ensures SiteOf(SampleLayout(a, b), 2, src, width) == Ok((1, src))
  {
    var l := SampleLayout(a, b);
    assert LxOwner(l, 1, 0) == Ok((0, 0));
    assert LxOwner(l, 2, 1) == Ok((1, 0)) && LxOwner(l, 2, 0) == LxOwner(l, 2, 1);
  }

  lemma Kinds()
    ensures SourceKind(0x13) == 3 && SourceKind(0x06) == 6 && SourceKind(0x12) == 2 && SourceKind(0x02) == 2
    ensures IsAlias(0x13) && !IsAlias(0x06) && IsAlias(0x12) && !IsAlias(0x02)
    ensures TargetKind(0x81) == TGT_EXT_ORD && TargetKind(0) == TGT_INTERNAL && !IsAdditive(0x81) && !IsAdditive(0)
  {
  }

  lemma CallsLone(a: U8, b: U8)
    requires a < 200 && b < 200
    ensures var l := SampleLayout(a, b); Lone(l, 1, 16, 42, CallRec(a, 22), 0) && Lone(l, 1, 22, 42, CallRec(b, 28), 0)
  {
    hide Checked, SiteOf, SourceKind, IsAlias, TargetKind, IsAdditive;
    var f := Bytes(a, b);
    assert f[16] == 0x13 && f[17] == 0x81 && f[18] == a && f[19] == 0 && f[20] == 1 && f[21] == 7;
    assert f[22] == 0x13 && f[23] == 0x81 && f[24] == b && f[25] == 0 && f[26] == 1 && f[27] == 7;
    CallRecord(f, 16, 42);
    CallRecord(f, 22, 42);
    Kinds();
    PageSites(a, b, a, 4);
    PageSites(a, b, b, 4);
  }

  lemma ReturnsLone(a: U8, b: U8)
    ensures var l := SampleLayout(a, b); Lone(l, 1, 28, 42, ReturnRec(8, 102, 35), 0) && Lone(l, 1, 35, 42, ReturnRec(28, 252, 42), 0)
  {
    hide Checked, SiteOf, SourceKind, IsAlias, TargetKind, IsAdditive;
    var f := Bytes(a, b);
    assert f[28] == 6 && f[29] == 0 && f[30] == 8 && f[31] == 0 && f[32] == 2 && f[33] == 102 && f[34] == 0;
    assert f[35] == 6 && f[36] == 0 && f[37] == 28 && f[38] == 0 && f[39] == 2 && f[40] == 252 && f[41] == 0;
    ReturnRecord(f, 28, 42);
    ReturnRecord(f, 35, 42);
    Kinds();
    PageSites(a, b, 8, 6);
    PageSites(a, b, 28, 6);
  }

  lemma AliasesLone(a: U8, b: U8)
    ensures var l := SampleLayout(a, b);
            Lone(l, 2, 42, 62, SelectorRec(0x12, 100, 1, 47), 1) && Lone(l, 2, 47, 62, SelectorRec(0x12, 250, 1, 52), 1)
  {
    hide Checked, SiteOf, SourceKind, IsAlias, TargetKind, IsAdditive;
    var f := Bytes(a, b);
    assert f[42] == 0x12 && f[43] == 0 && f[44] == 100 && f[45] == 0 && f[46] == 1;
    assert f[47] == 0x12 && f[48] == 0 && f[49] == 250 && f[50] == 0 && f[51] == 1;
    SelectorRecord(f, 42, 62);
    SelectorRecord(f, 47, 62);
    Kinds();
    PageSites(a, b, 100, 2);
    PageSites(a, b, 250, 2);
  }

  lemma StacksLone(a: U8, b: U8)
    ensures var l := SampleLayout(a, b);
            Lone(l, 2, 52, 62, SelectorRec(0x02, 40, 3, 57), 1) && Lone(l, 2, 57, 62, SelectorRec(0x02, 90, 3, 62), 1)
  {
    hide Checked, SiteOf, SourceKind, IsAlias, TargetKind, IsAdditive;
    var f := Bytes(a, b);
    assert f[52] == 0x02 && f[53] == 0 && f[54] == 40 && f[55] == 0 && f[56] == 3;
    assert f[57] == 0x02 && f[58] == 0 && f[59] == 90 && f[60] == 0 && f[61] == 3;
    SelectorRecord(f, 52, 62);
    SelectorRecord(f, 57, 62);
    Kinds();
    PageSites(a, b, 40, 2);
    PageSites(a, b, 90, 2);
  }

  lemma PageEntry(a: U8, b: U8, page: nat)
    requires page < 4
    ensures Word32(Bytes(a, b), 4 * page) == TableByte(4 * page)
  {
    hide Bytes;
    var f := Bytes(a, b);
    assert f[4 * page] == TableByte(4 * page);
    assert f[4 * page + 1] == 0 && f[4 * page + 2] == 0 && f[4 * page + 3] == 0;
  }

  lemma Ranges(a: U8, b: U8)
    ensures var l := SampleLayout(a, b);
            RecordsAt(l, 0) == 16 && RecordsAt(l, 1) == 42 && RecordsAt(l, 2) == 62 && RecordsAt(l, 3) == 62
  {
    hide Bytes, Word32;
    PageEntry(a, b, 0);
    PageEntry(a, b, 1);
    PageEntry(a, b, 2);
    PageEntry(a, b, 3);
  }

  /** The scan accepts the image. */
  lemma SampleScans(a: U8, b: U8)
    requires a < 200 && b < 200
    ensures ScanFixups(SampleLayout(a, b)).Ok?
  {
    hide Lone, ScanPage, RecordsAt, CallRec, ReturnRec, SelectorRec, SampleLayout, Loaded;
    var l := SampleLayout(a, b);
    SampleIs(a, b);
    Ranges(a, b);
    var s := PageOneScans(a, b, Scan([], [], true, []));
    var t := PageTwoScans(a, b, s);
    PagesScan(a, b, s, t);
  }

  lemma SampleIs(a: U8, b: U8)
    ensures var l := SampleLayout(a, b);
            Loaded(l) && |l.file| == 62 && l.pages == 3 && l.importTable == 62 && l.objects == SAMPLE.objects && l.moduleCount == 1
  {
  }

  lemma PageOneScans(a: U8, b: U8, s: Scan) returns (t: Scan)
    requires a < 200 && b < 200 && s.imports == []
    ensures ScanPage(SampleLayout(a, b), 1, 16, 42, s) == Ok(t) && |t.imports| <= 4
  {
    hide Lone, ScanPage, SampleLayout;
    var l := SampleLayout(a, b);
    SampleIs(a, b);
    CallsLone(a, b);
    ReturnsLone(a, b);
    t := ScanStep(l, 1, 16, 42, CallRec(a, 22), 0, s);
    t := ScanStep(l, 1, 22, 42, CallRec(b, 28), 0, t);
    t := ScanStep(l, 1, 28, 42, ReturnRec(8, 102, 35), 0, t);
    t := ScanStep(l, 1, 35, 42, ReturnRec(28, 252, 42), 0, t);
    ScanEnds(l, 1, 42, t);
  }

  lemma ScanEnds(l: Layout, page: nat, end: nat, s: Scan)
    requires Loaded(l) && end <= |l.file|
    ensures ScanPage(l, page, end, end, s) == Ok(s)
  {
  }

  lemma PageTwoScans(a: U8, b: U8, s: Scan) returns (t: Scan)
    requires |s.imports| <= 4
    ensures ScanPage(SampleLayout(a, b), 2, 42, 62, s) == Ok(t)
  {
    hide Lone, ScanPage, SampleLayout;
    var l := SampleLayout(a, b);
    SampleIs(a, b);
    AliasesLone(a, b);
    StacksLone(a, b);
    t := ScanStep(l, 2, 42, 62, SelectorRec(0x12, 100, 1, 47), 1, s);
    t := ScanStep(l, 2, 47, 62, SelectorRec(0x12, 250, 1, 52), 1, t);
    t := ScanStep(l, 2, 52, 62, SelectorRec(0x02, 40, 3, 57), 1, t);
    t := ScanStep(l, 2, 57, 62, SelectorRec(0x02, 90, 3, 62), 1, t);
    ScanEnds(l, 2, 62, t);
  }

  lemma PagesScan(a: U8, b: U8, s: Scan, t: Scan)
    requires ScanPage(SampleLayout(a, b), 1, 16, 42, Scan([], [], true, [])) == Ok(s)
    requires ScanPage(SampleLayout(a, b), 2, 42, 62, s) == Ok(t)
    ensures ScanPages(SampleLayout(a, b), 1, Scan([], [], true, [])) == Ok(t)
  {
    hide ScanPage, RecordsAt, SampleLayout, Loaded;
    var l := SampleLayout(a, b);
    SampleIs(a, b);
    Ranges(a, b);
    ScanEnds(l, 3, 62, t);
    assert ScanPages(l, 4, t) == Ok(t);
    assert ScanPages(l, 3, t) == Ok(t);
    assert ScanPages(l, 2, s) == Ok(t);
  }

  function Thunk(src: U8): ExtRec { ExtRec(0, 0, 7, src) }

  /** The detector's walk makes the inventory of it. */
  lemma SampleCollects(a: U8, b: U8)
    requires a < 200 && b < 200
    ensures CollectPages(SampleLayout(a, b), 1, EMPTY) == Seen(Sample([Thunk(a), Thunk(b)]))
  {
    hide CollectPage, RecordsAt, SampleLayout, Loaded;
    var l := SampleLayout(a, b);
    SampleIs(a, b);
    Ranges(a, b);
    PageOneCollects(a, b);
    PageTwoCollects(a, b);
    var half := Inventory([Thunk(a), Thunk(b)], [RetRec(0, 1, 102, 8), RetRec(0, 1, 252, 28)], [], []);
    var full := Sample([Thunk(a), Thunk(b)]);
    assert CollectPages(l, 4, full) == Seen(full);
    assert CollectPages(l, 3, full) == Seen(full);
    assert CollectPages(l, 2, half) == Seen(full);
  }

  lemma CollectEnds(l: Layout, page: nat, end: nat, inv: Inventory)
    requires Loaded(l) && end <= |l.file|
    ensures CollectPage(l, page, end, end, inv) == Seen(inv)
  {
  }

  lemma EnterCall(l: Layout, inv: Inventory, src: U8, next: nat)
    requires l.moduleCount == 1 && |inv.exts| < 4
    ensures Enter(l, inv, Site(0, src, CallRec(src, next))) == Seen(inv.(exts := inv.exts + [Thunk(src)]))
  {
    Kinds();
  }

  lemma EnterReturn(l: Layout, inv: Inventory, src: U8, off: U8, next: nat)
    requires |l.objects| == 3 && |inv.rets| < 4
    ensures Enter(l, inv, Site(0, src, ReturnRec(src, off, next))) == Seen(inv.(rets := inv.rets + [RetRec(0, 1, off, src)]))
  {
    Kinds();
  }

  lemma EnterAlias(l: Layout, inv: Inventory, src: U8, next: nat)
    requires |l.objects| == 3 && |inv.aliases| < 4
    ensures Enter(l, inv, Site(1, src, SelectorRec(0x12, src, 1, next))) == Seen(inv.(aliases := inv.aliases + [SelRec(1, 0, src)]))
  {
    Kinds();
  }

  lemma EnterStack(l: Layout, inv: Inventory, src: U8, next: nat)
    requires |l.objects| == 3 && |inv.stacks| < 4
    ensures Enter(l, inv, Site(1, src, SelectorRec(0x02, src, 3, next))) == Seen(inv.(stacks := inv.stacks + [SelRec(1, 2, src)]))
  {
    Kinds();
  }

  lemma PageOneCollects(a: U8, b: U8)
    requires a < 200 && b < 200
    ensures CollectPage(SampleLayout(a, b), 1, 16, 42, EMPTY) ==
            Seen(Inventory([Thunk(a), Thunk(b)], [RetRec(0, 1, 102, 8), RetRec(0, 1, 252, 28)], [], []))
  {
    hide Lone, CollectPage, SampleLayout, Enter;
    var l := SampleLayout(a, b);
    SampleIs(a, b);
    CallsLone(a, b);
    ReturnsLone(a, b);
    var i1 := Inventory([Thunk(a)], [], [], []);
    var i2 := Inventory([Thunk(a), Thunk(b)], [], [], []);
    var i3 := i2.(rets := [RetRec(0, 1, 102, 8)]);
    var i4 := i2.(rets := [RetRec(0, 1, 102, 8), RetRec(0, 1, 252, 28)]);
    assert EMPTY.exts + [Thunk(a)] == i1.exts && i1.exts + [Thunk(b)] == i2.exts;
    assert i2.rets + [RetRec(0, 1, 102, 8)] == i3.rets && i3.rets + [RetRec(0, 1, 252, 28)] == i4.rets;
    EnterCall(l, EMPTY, a, 22);
    EnterCall(l, i1, b, 28);
    EnterReturn(l, i2, 8, 102, 35);
    EnterReturn(l, i3, 28, 252, 42);
    CollectStep(l, 1, 16, 42, CallRec(a, 22), 0, EMPTY, i1);
    CollectStep(l, 1, 22, 42, CallRec(b, 28), 0, i1, i2);
    CollectStep(l, 1, 28, 42, ReturnRec(8, 102, 35), 0, i2, i3);
    CollectStep(l, 1, 35, 42, ReturnRec(28, 252, 42), 0, i3, i4);
    CollectEnds(l, 1, 42, i4);
  }

  lemma PageTwoCollects(a: U8, b: U8)
    ensures CollectPage(SampleLayout(a, b), 2, 42, 62,
                        Inventory([Thunk(a), Thunk(b)], [RetRec(0, 1, 102, 8), RetRec(0, 1, 252, 28)], [], [])) ==
            Seen(Sample([Thunk(a), Thunk(b)]))
  {
    hide Lone, CollectPage, SampleLayout, Enter;
    var l := SampleLayout(a, b);
    SampleIs(a, b);
    AliasesLone(a, b);
    StacksLone(a, b);
    var i0 := Inventory([Thunk(a), Thunk(b)], [RetRec(0, 1, 102, 8), RetRec(0, 1, 252, 28)], [], []);
    var i1 := i0.(aliases := [SelRec(1, 0, 100)]);
    var i2 := i0.(aliases := [SelRec(1, 0, 100), SelRec(1, 0, 250)]);
    var i3 := i2.(stacks := [SelRec(1, 2, 40)]);
    var i4 := i2.(stacks := [SelRec(1, 2, 40), SelRec(1, 2, 90)]);
    assert i0.aliases + [SelRec(1, 0, 100)] == i1.aliases && i1.aliases + [SelRec(1, 0, 250)] == i2.aliases;
    assert i2.stacks + [SelRec(1, 2, 40)] == i3.stacks && i3.stacks + [SelRec(1, 2, 90)] == i4.stacks;
    EnterAlias(l, i0, 100, 47);
    EnterAlias(l, i1, 250, 52);
    EnterStack(l, i2, 40, 57);
    EnterStack(l, i3, 90, 62);
    CollectStep(l, 2, 42, 62, SelectorRec(0x12, 100, 1, 47), 1, i0, i1);
    CollectStep(l, 2, 47, 62, SelectorRec(0x12, 250, 1, 52), 1, i1, i2);
    CollectStep(l, 2, 52, 62, SelectorRec(0x02, 40, 3, 57), 1, i2, i3);
    CollectStep(l, 2, 57, 62, SelectorRec(0x02, 90, 3, 62), 1, i3, i4);
    CollectEnds(l, 2, 62, i4);
  }

  /** Two images that the scan accepts and that differ only in the order of their far calls: one
      is recognised, the other is given up. */
  lemma ImageOrderDecides()
    ensures ScanFixups(SampleLayout(21, 1)).Ok? && Detect(SampleLayout(21, 1), SAMPLE).Seen?
    ensures ScanFixups(SampleLayout(1, 21)).Ok? && Detect(SampleLayout(1, 21), SAMPLE).GivesUp?
  {
    hide ScanFixups, CollectPages, Complete, Sample, SampleLayout, Loaded;
    SampleScans(21, 1);
    SampleScans(1, 21);
    SampleCollects(21, 1);
    SampleCollects(1, 21);
    StackChoiceDependsOnOrder();
    SampleIs(21, 1);
    SampleIs(1, 21);
    assert Thunk(21) == FAR && Thunk(1) == NEAR;
    OneSixteen();
  }

  lemma OneSixteen()
    ensures Sixteens(SAMPLE.objects) == 1
  {
    var os := SAMPLE.objects;
    assert os[..2][..1] == os[..1] && os[..1][..0] == [];
    assert Sixteens(os[..1]) == 1;
    assert Sixteens(os[..2]) == 1;
  }
}
