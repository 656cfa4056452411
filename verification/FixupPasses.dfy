/** The two passes over a module's fixups: scanning, and applying. */
module FixupPasses {
  import opened Words
  import opened FixupRecords

  datatype Object = Object(size: U32, flags: U32, pageIndex: U32, pageCount: U32)

  /** LE pages name their owner; LX pages belong to the object whose page range holds them. */
  datatype Owner = Owner(valid: bool, obj: nat, objPage: U32)

  datatype Layout = Layout(
    file: seq<U8>, isLE: bool, pageTable: nat, recordTable: U32, importTable: U32, pages: nat, pageSize: U32,
    objects: seq<Object>, owners: seq<Owner>, moduleCount: nat)

  /** What the loader has checked before it scans. */
  predicate Loaded(l: Layout) {
    l.pageTable + 4 * (l.pages + 1) <= |l.file| &&
    (l.isLE ==> |l.owners| == l.pages + 1 && forall i :: 0 <= i <= l.pages && l.owners[i].valid ==> l.owners[i].obj < |l.objects|)
  }

  // ---- sites ---------------------------------------------------------------------------

  /** The first object at or after `i` whose page range holds `page`. */
  function LxOwner(l: Layout, page: nat, i: nat): (r: Outcome<(nat, U32)>)
    requires i <= |l.objects|
    ensures r.Ok? ==> r.value.0 < |l.objects|
    decreases |l.objects| - i
  {
    if i == |l.objects| then Fail(Rejected("LX fixup page has no object owner"))
    else
      var o := l.objects[i];
      if o.pageCount != 0 && o.pageIndex <= page < Wrap(o.pageIndex + o.pageCount) then Ok((i, Wrap(page - o.pageIndex)))
      else LxOwner(l, page, i + 1)
  }

  function PageOwner(l: Layout, page: nat): (r: Outcome<(nat, U32)>)
    requires Loaded(l)
    ensures r.Ok? ==> r.value.0 < |l.objects|
  {
    if page == 0 || page > l.pages then Fail(Rejected("fixup references invalid linear-executable page"))
    else if !l.isLE then LxOwner(l, page, 0)
    else if !l.owners[page].valid then Fail(Rejected("LE fixup physical page has no object owner"))
    else Ok((l.owners[page].obj, l.owners[page].objPage))
  }

  function Signed32(w: U32): int {
    if w < 0x8000_0000 then w else w - 0x1_0000_0000
  }

  /** Object and offset of the bytes a source patches; all of them lie inside the object. */
  function SiteOf(l: Layout, page: nat, source: int, width: nat): (r: Outcome<(nat, nat)>)
    requires Loaded(l)
    ensures r.Ok? ==> r.value.0 < |l.objects| && r.value.1 + width <= l.objects[r.value.0].size
  {
    match PageOwner(l, page)
    case Fail(m) => Fail(m)
    case Ok((obj, objPage)) =>
      var off := Signed32(Wrap(objPage * l.pageSize)) + source;
      if off < 0 || off + width > l.objects[obj].size then Fail(Rejected("LX fixup source lies outside object"))
      else Ok((obj, off))
  }

  /** A place to patch, and the record that asks for it. */
  datatype Site = Site(obj: nat, offset: nat, record: Record)

  /** The sites of one record, in the order of its source list. */
  function SitesOf(l: Layout, page: nat, r: Record, sources: seq<int>): (s: Outcome<seq<Site>>)
    requires Loaded(l)
    ensures s.Ok? ==> |s.value| == |sources|
    decreases |sources|
  {
    if sources == [] then Ok([])
    else
      match SiteOf(l, page, sources[0], Width(SourceKind(r.type_)))
      case Fail(m) => Fail(m)
      case Ok((obj, offset)) =>
        match SitesOf(l, page, r, sources[1..])
        case Fail(m) => Fail(m)
        case Ok(rest) => Ok([Site(obj, offset, r)] + rest)
  }

  // ---- import tables ----------------------------------------------------------------------

  const MAX_IMPORTS := 1024
  const MAX_NAME_IMPORTS := 256

  /** A module number (from 0) with an ordinal or a name offset. */
  datatype Import = Import(mod: nat, key: U32)

  /** The first entry equal to `i`, or -1. */
  function Find(table: seq<Import>, i: Import): (k: int)
    ensures -1 <= k < |table|
    ensures k >= 0 ==> table[k] == i
    ensures k < 0 ==> i !in table
  {
    if table == [] then -1
    else
      var k := Find(table[..|table| - 1], i);
      if k >= 0 then k else if table[|table| - 1] == i then |table| - 1 else -1
  }

  function AddImport(table: seq<Import>, i: Import, max: nat): (r: Outcome<seq<Import>>)
    ensures r.Ok? ==> i in r.value && forall j :: j in table ==> j in r.value
  {
    if i in table then Ok(table)
    else if |table| >= max then Fail(Rejected("too many LX imports"))
    else
      assert (table + [i])[|table|] == i;
      Ok(table + [i])
  }

  datatype Scan = Scan(imports: seq<Import>, names: seq<Import>, direct: bool, sites: seq<Site>)

  /** The import that a record names, in the ordinal table or the name table. */
  function WithImport(s: Scan, r: Record): (q: Outcome<Scan>)
    requires TargetKind(r.flags) == TGT_EXT_ORD || TargetKind(r.flags) == TGT_EXT_NAME ==> r.first > 0
    ensures q.Ok? ==> q.value.direct == s.direct && q.value.sites == s.sites
  {
    var kind := TargetKind(r.flags);
    if kind == TGT_EXT_ORD then
      match AddImport(s.imports, Import(r.first - 1, r.target), MAX_IMPORTS)
      case Fail(m) => Fail(m)
      case Ok(t) => Ok(s.(imports := t))
    else if kind == TGT_EXT_NAME then
      match AddImport(s.names, Import(r.first - 1, r.target), MAX_NAME_IMPORTS)
      case Fail(m) => Fail(m)
      case Ok(t) => Ok(s.(names := t))
    else Ok(s)
  }

  // ---- scanning -----------------------------------------------------------------------------

  /** One record of page `page` at `p`: the state after it and where the next one starts. */
  function ScanRecord(l: Layout, page: nat, p: nat, end: nat, s: Scan): (r: Outcome<(Scan, nat)>)
    requires Loaded(l) && p < end <= |l.file|
    ensures r.Ok? ==> p < r.value.1 <= end
  {
    match Checked(l.file, p, end, |l.objects|, l.moduleCount)
    case Fail(m) => Fail(m)
    case Ok(rec) =>
      match WithImport(s, rec)
      case Fail(m) => Fail(m)
      case Ok(t) =>
        match SitesOf(l, page, rec, rec.sources)
        case Fail(m) => Fail(m)
        case Ok(sites) => Ok((t.(direct := t.direct && Flat(rec), sites := t.sites + sites), rec.next))
  }

  function ScanPage(l: Layout, page: nat, p: nat, end: nat, s: Scan): Outcome<Scan>
    requires Loaded(l) && p <= end <= |l.file|
    decreases end - p
  {
    if p == end then Ok(s)
    else
      match ScanRecord(l, page, p, end, s)
      case Fail(m) => Fail(m)
      case Ok((t, next)) => ScanPage(l, page, next, end, t)
  }

  /** Where page `page`'s records start, counted from the page table's entry. */
  function RecordsAt(l: Layout, page: nat): U32 {
    Wrap(l.recordTable + Word32(l.file, l.pageTable + 4 * page))
  }

  predicate RangeOk(l: Layout, page: nat)
    requires page > 0
  {
    RecordsAt(l, page - 1) <= RecordsAt(l, page) <= |l.file| && RecordsAt(l, page) <= l.importTable
  }

  function ScanPages(l: Layout, page: nat, s: Scan): Outcome<Scan>
    requires Loaded(l) && 0 < page <= l.pages + 1
    decreases l.pages + 1 - page
  {
    if page > l.pages then Ok(s)
    else if !RangeOk(l, page) then Fail(Rejected("bad LX fixup record range"))
    else
      match ScanPage(l, page, RecordsAt(l, page - 1), RecordsAt(l, page), s)
      case Fail(m) => Fail(m)
      case Ok(t) => ScanPages(l, page + 1, t)
  }

  const OBJ_BIG_DEFAULT := 0x2000

  /** A 32-bit object. */
  predicate Big(o: Object) {
    o.flags / OBJ_BIG_DEFAULT % 2 == 1
  }

  predicate AllBig(l: Layout) {
    forall i :: 0 <= i < |l.objects| ==> Big(l.objects[i])
  }

  function ScanFixups(l: Layout): Outcome<Scan>
    requires Loaded(l)
  {
    match ScanPages(l, 1, Scan([], [], true, []))
    case Fail(m) => Fail(m)
    case Ok(s) => Ok(s.(direct := s.direct && AllBig(l)))
  }

  // ---- applying -----------------------------------------------------------------------------------

  /** Objects in memory: the address each is mapped at, whether it is a 32-bit object, and its
      bytes. */
  datatype Mapped = Mapped(base: U32, big: bool, bytes: seq<U8>)

  predicate AllMapped(l: Layout, mem: seq<Mapped>) {
    |mem| == |l.objects| && forall i :: 0 <= i < |mem| ==> |mem[i].bytes| == l.objects[i].size && mem[i].big == Big(l.objects[i])
  }

  /** Addresses found for the imports, in table order; whether the image's other sites all belong
      to recognised bridges; and the adapters that CALL instructions of such an image are given
      instead of some imports. */
  datatype Links = Links(imports: seq<U32>, names: seq<U32>, bridged: bool, adapters: map<nat, U32>)

  /** Tables of the same length; an image for direct use has no bridges
      (`FixupBridged.FlatHasNoBridges`). */
  predicate Linked(s: Scan, links: Links) {
    |links.imports| == |s.imports| && |links.names| == |s.names| && (s.direct ==> !links.bridged)
  }

  const CALL := 0xe8

  /** The word at the site is the operand of a CALL in 32-bit code. */
  predicate AfterCall(mem: seq<Mapped>, site: Site)
    requires site.obj < |mem|
  {
    mem[site.obj].big && 0 < site.offset <= |mem[site.obj].bytes| && mem[site.obj].bytes[site.offset - 1] == CALL
  }

  /** What the site is linked to for import `k`. */
  function ImportAt(links: Links, mem: seq<Mapped>, site: Site, k: nat): U32
    requires site.obj < |mem| && k < |links.imports|
  {
    if links.bridged && k in links.adapters && AfterCall(mem, site) then links.adapters[k] else links.imports[k]
  }

  function Put32(bytes: seq<U8>, at: nat, v: U32): (r: seq<U8>)
    requires at + 4 <= |bytes|
    ensures |r| == |bytes| && r[at..at + 4] == Le32(v)
    ensures forall i :: 0 <= i < |bytes| && !(at <= i < at + 4) ==> r[i] == bytes[i]
  {
    bytes[..at] + Le32(v) + bytes[at + 4..]
  }

  function Patch(mem: seq<Mapped>, obj: nat, at: nat, v: U32): (r: seq<Mapped>)
    requires obj < |mem| && at + 4 <= |mem[obj].bytes|
    ensures |r| == |mem| && forall i :: 0 <= i < |mem| ==> r[i].base == mem[i].base && r[i].big == mem[i].big && |r[i].bytes| == |mem[i].bytes|
  {
    mem[obj := mem[obj].(bytes := Put32(mem[obj].bytes, at, v))]
  }

  /** A record that a patching branch applies to. */
  predicate Patched(r: Record) {
    var kind, st := TargetKind(r.flags), SourceKind(r.type_);
    !IsAlias(r.type_) &&
    ((kind == TGT_INTERNAL && st == SRC_OFF32) || ((kind == TGT_EXT_ORD || kind == TGT_EXT_NAME) && st == SRC_REL32))
  }

  /** The word that belongs at a site: an address, or a displacement from the end of the site. */
  function SiteValue(s: Scan, links: Links, mem: seq<Mapped>, site: Site): (v: Outcome<U32>)
    requires Linked(s, links) && site.obj < |mem|
    ensures v.Ok? ==> Width(SourceKind(site.record.type_)) == 4
  {
    var r := site.record;
    var kind, st := TargetKind(r.flags), SourceKind(r.type_);
    var after := mem[site.obj].base + site.offset + 4;
    if kind == TGT_INTERNAL && st == SRC_OFF32 && !IsAlias(r.type_) then
      if !(0 < r.first <= |mem|) then Fail(Rejected("LX target object is not mapped"))
      else Ok(Wrap(mem[r.first - 1].base + r.targetOff))
    else if kind == TGT_EXT_ORD && st == SRC_REL32 && !IsAlias(r.type_) then
      var k := if r.first == 0 then -1 else Find(s.imports, Import(r.first - 1, r.target));
      if k < 0 then Fail(Rejected("internal error: missing LX ordinal import")) else Ok(Wrap(ImportAt(links, mem, site, k) - after))
    else if kind == TGT_EXT_NAME && st == SRC_REL32 && !IsAlias(r.type_) then
      var k := if r.first == 0 then -1 else Find(s.names, Import(r.first - 1, r.target));
      if k < 0 then Fail(Rejected("internal error: missing LX named import")) else Ok(Wrap(links.names[k] - after))
    else Fail(Rejected("non-flat LX fixup has no native execution bridge"))
  }

  /** The sites of one record, one after the other; memory as it is after them. A site that no
      patching branch applies to is dropped silently in a bridged image. */
  function ApplySources(l: Layout, s: Scan, links: Links, page: nat, r: Record, sources: seq<int>, mem: seq<Mapped>)
    : (q: Outcome<seq<Mapped>>)
    requires Loaded(l) && Linked(s, links) && AllMapped(l, mem)
    ensures q.Ok? ==> AllMapped(l, q.value)
    decreases |sources|
  {
    if sources == [] then Ok(mem)
    else
      match SiteOf(l, page, sources[0], Width(SourceKind(r.type_)))
      case Fail(m) => Fail(m)
      case Ok((obj, offset)) =>
        if !Patched(r) && links.bridged then ApplySources(l, s, links, page, r, sources[1..], mem)
        else
          match SiteValue(s, links, mem, Site(obj, offset, r))
          case Fail(m) => Fail(m)
          case Ok(v) =>
            ApplySources(l, s, links, page, r, sources[1..], Patch(mem, obj, offset, v))
  }

  function ApplyPage(l: Layout, s: Scan, links: Links, page: nat, p: nat, end: nat, mem: seq<Mapped>): (q: Outcome<seq<Mapped>>)
    requires Loaded(l) && Linked(s, links) && AllMapped(l, mem) && p <= end <= |l.file|
    ensures q.Ok? ==> AllMapped(l, q.value)
    decreases end - p
  {
    if p == end then Ok(mem)
    else
      match Trusted(l.file, p, end)
      case Fail(m) => Fail(m)
      case Ok(r) =>
        match ApplySources(l, s, links, page, r, r.sources, mem)
        case Fail(m) => Fail(m)
        case Ok(next) => ApplyPage(l, s, links, page, r.next, end, next)
  }

  function ApplyPages(l: Layout, s: Scan, links: Links, page: nat, mem: seq<Mapped>): (q: Outcome<seq<Mapped>>)
    requires Loaded(l) && Linked(s, links) && AllMapped(l, mem) && 0 < page <= l.pages + 1
    ensures q.Ok? ==> AllMapped(l, q.value)
    decreases l.pages + 1 - page
  {
    if page > l.pages then Ok(mem)
    else if RecordsAt(l, page) > |l.file| && RecordsAt(l, page - 1) < RecordsAt(l, page) then Fail(Outside)
    else if RecordsAt(l, page - 1) >= RecordsAt(l, page) then ApplyPages(l, s, links, page + 1, mem)
    else
      match ApplyPage(l, s, links, page, RecordsAt(l, page - 1), RecordsAt(l, page), mem)
      case Fail(m) => Fail(m)
      case Ok(next) => ApplyPages(l, s, links, page + 1, next)
  }

  function ApplyFixups(l: Layout, s: Scan, links: Links, mem: seq<Mapped>): (q: Outcome<seq<Mapped>>)
    requires Loaded(l) && Linked(s, links) && AllMapped(l, mem)
  {
    ApplyPages(l, s, links, 1, mem)
  }
}
