/** The detector's walk over the fixup records, after the scan has accepted them. */
module BridgeRecords {
  import opened Words
  import opened FixupRecords
  import opened FixupPasses
  import opened BridgePairing

  /** The detector looks and goes on, gives up on the image, or ends the process. */
  datatype Look<T> = Seen(value: T) | GivesUp | Fatal

  const MAX_BRIDGES := 32

  const SRC_PTR1616 := 3
  const SRC_PTR1632 := 6

  const EMPTY := Inventory([], [], [], [])

  // ---- decoding ----------------------------------------------------------------------------

  /** The detector's own decoder. It reads two bytes before it looks at `end`. */
  function Sighted(file: seq<U8>, p: nat, end: nat): (r: Look<Record>)
    requires p < end <= |file|
    ensures r.Seen? ==> p < r.value.next <= end
  {
    if end < p + 2 then Fatal
    else
      var type_, flags := file[p], file[p + 1];
      var st, kind, list := SourceKind(type_), TargetKind(flags), IsList(type_);
      if Width(st) == 0 || IsChain(flags) then GivesUp
      else if end - (p + 2) < (if list then 1 else 2) then GivesUp
      else
        var count: nat := if list then file[p + 2] else 1;
        var q := p + 2 + if list then 1 else 2;
        var firstBytes := if HasObj16(flags) then 2 else 1;
        if end - q < firstBytes then Fatal
        else
          var first := TargetValue(file, q, firstBytes);
          var t := q + firstBytes;
          if kind != TGT_INTERNAL && kind != TGT_EXT_ORD then GivesUp
          else if end - t < TargetBytes(st, flags) then GivesUp
          else
            var s := t + TargetBytes(st, flags);
            if IsAdditive(flags) then GivesUp
            else if list && end - s < 2 * count then GivesUp
            else
              var value := TargetValue(file, t, TargetBytes(st, flags));
              Seen(Record(type_, flags, first,
                          if kind == TGT_INTERNAL then 0 else value, if kind == TGT_INTERNAL then value else 0,
                          if list then SourceList(file, s, count) else [Signed16(Word16(file, p + 2))],
                          if list then s + 2 * count else s))
  }

  /** What the scanner accepted, the detector sees as the same record, or it gives up: exactly on
      additive records and on imports by name and entry references. */
  lemma DetectorAgrees(file: seq<U8>, p: nat, end: nat, objectCount: nat, moduleCount: nat)
    requires p < end <= |file| && Checked(file, p, end, objectCount, moduleCount).Ok?
    ensures var r := Checked(file, p, end, objectCount, moduleCount).value;
            Sighted(file, p, end) ==
            if IsAdditive(r.flags) || (TargetKind(r.flags) != TGT_INTERNAL && TargetKind(r.flags) != TGT_EXT_ORD) then GivesUp else Seen(r)
  {
    hide Width, TargetValue, SourceList, SourceKind, IsList, IsChain, HasObj16, IsAlias, Word16, Word32, Has32, HasOrd8, FirstOk;
  }

  // ---- one site ----------------------------------------------------------------------------------

  datatype Class = Plain | Call | Return | Alias | Stack | Foreign

  function ClassOf(r: Record): Class {
    var kind, st := TargetKind(r.flags), SourceKind(r.type_);
    if kind == TGT_INTERNAL && st == SRC_OFF32 && !IsAlias(r.type_) then Plain
    else if kind == TGT_EXT_ORD && st == SRC_REL32 && !IsAlias(r.type_) then Plain
    else if kind == TGT_EXT_ORD && st == SRC_PTR1616 && IsAlias(r.type_) then Call
    else if kind == TGT_INTERNAL && st == SRC_PTR1632 && !IsAlias(r.type_) then Return
    else if kind == TGT_INTERNAL && st == SRC_SEL16 then if IsAlias(r.type_) then Alias else Stack
    else Foreign
  }

  function CallAt(s: Site): ExtRec
    requires s.record.first > 0 && s.offset < TWO32
  {
    ExtRec(s.obj, s.record.first - 1, s.record.target, s.offset)
  }

  function ReturnAt(s: Site): RetRec
    requires s.record.first > 0 && s.offset < TWO32
  {
    RetRec(s.obj, s.record.first - 1, s.record.targetOff, s.offset)
  }

  function SelectorAt(s: Site): SelRec
    requires s.record.first > 0 && s.offset < TWO32
  {
    SelRec(s.obj, s.record.first - 1, s.offset)
  }

  /** One site: nothing for a flat one, an entry in its list for the four kinds of a bridge. */
  function Enter(l: Layout, inv: Inventory, s: Site): Look<Inventory>
    requires s.offset < TWO32
  {
    var r := s.record;
    var limit := if TargetKind(r.flags) == TGT_EXT_ORD then l.moduleCount else |l.objects|;
    match ClassOf(r)
    case Plain => Seen(inv)
    case Foreign => GivesUp
    case Call =>
      if |inv.exts| >= MAX_BRIDGES || !(0 < r.first <= limit) then GivesUp
      else Seen(inv.(exts := inv.exts + [CallAt(s)]))
    case Return =>
      if |inv.rets| >= MAX_BRIDGES || !(0 < r.first <= limit) then GivesUp
      else Seen(inv.(rets := inv.rets + [ReturnAt(s)]))
    case Alias =>
      if |inv.aliases| >= MAX_BRIDGES || !(0 < r.first <= limit) then GivesUp
      else Seen(inv.(aliases := inv.aliases + [SelectorAt(s)]))
    case Stack =>
      if |inv.stacks| >= MAX_BRIDGES || !(0 < r.first <= limit) then GivesUp
      else Seen(inv.(stacks := inv.stacks + [SelectorAt(s)]))
  }

  // ---- all sites ------------------------------------------------------------------------------------

  function CollectSources(l: Layout, page: nat, r: Record, sources: seq<int>, inv: Inventory): Look<Inventory>
    requires Loaded(l)
    decreases |sources|
  {
    if sources == [] then Seen(inv)
    else
      match SiteOf(l, page, sources[0], Width(SourceKind(r.type_)))
      case Fail(_) => Fatal
      case Ok((obj, offset)) =>
        SiteSmall(l, page, sources[0], Width(SourceKind(r.type_)));
        match Enter(l, inv, Site(obj, offset, r))
        case Seen(next) => CollectSources(l, page, r, sources[1..], next)
        case GivesUp => GivesUp
        case Fatal => Fatal
  }

  lemma SiteSmall(l: Layout, page: nat, source: int, width: nat)
    requires Loaded(l)
    ensures SiteOf(l, page, source, width).Ok? ==> SiteOf(l, page, source, width).value.1 < TWO32
  {
  }

  function CollectPage(l: Layout, page: nat, p: nat, end: nat, inv: Inventory): Look<Inventory>
    requires Loaded(l) && p <= end <= |l.file|
    decreases end - p
  {
    if p == end then Seen(inv)
    else
      match Sighted(l.file, p, end)
      case GivesUp => GivesUp
      case Fatal => Fatal
      case Seen(r) =>
        match CollectSources(l, page, r, r.sources, inv)
        case GivesUp => GivesUp
        case Fatal => Fatal
        case Seen(next) => CollectPage(l, page, r.next, end, next)
  }

  function CollectPages(l: Layout, page: nat, inv: Inventory): Look<Inventory>
    requires Loaded(l) && 0 < page <= l.pages + 1
    decreases l.pages + 1 - page
  {
    if page > l.pages then Seen(inv)
    else if RecordsAt(l, page - 1) >= RecordsAt(l, page) then CollectPages(l, page + 1, inv)
    else if RecordsAt(l, page) > |l.file| then Fatal
    else
      match CollectPage(l, page, RecordsAt(l, page - 1), RecordsAt(l, page), inv)
      case GivesUp => GivesUp
      case Fatal => Fatal
      case Seen(next) => CollectPages(l, page + 1, next)
  }

  function Sixteens(objects: seq<Object>): nat {
    if objects == [] then 0
    else Sixteens(objects[..|objects| - 1]) + if Big(objects[|objects| - 1]) then 0 else 1
  }

  /** The inventory of an image with exactly one 16-bit object, and its pairing. */
  function Detect(l: Layout, m: Image): Look<(Inventory, Pairing)>
    requires Loaded(l)
  {
    if Sixteens(l.objects) != 1 then GivesUp
    else
      match CollectPages(l, 1, EMPTY)
      case GivesUp => GivesUp
      case Fatal => Fatal
      case Seen(inv) =>
        match Complete(m, inv)
        case None => GivesUp
        case Some(p) => Seen((inv, p))
  }

  // ---- the walk sees the scanned sites ------------------------------------------------------------

  predicate Small(sites: seq<Site>) {
    forall i :: 0 <= i < |sites| ==> sites[i].offset < TWO32
  }

  /** The inventory of a list of sites. */
  function Gather(l: Layout, sites: seq<Site>): Look<Inventory>
    requires Small(sites)
  {
    if sites == [] then Seen(EMPTY)
    else
      var n := |sites| - 1;
      match Gather(l, sites[..n])
      case Seen(inv) => Enter(l, inv, sites[n])
      case GivesUp => GivesUp
      case Fatal => Fatal
  }

  lemma GatherNext(l: Layout, sites: seq<Site>, s: Site)
    requires Small(sites) && s.offset < TWO32 && Gather(l, sites).Seen?
    ensures Small(sites + [s]) && Gather(l, sites + [s]) == Enter(l, Gather(l, sites).value, s)
  {
    assert (sites + [s])[..|sites|] == sites;
  }

  lemma {:induction false} SourcesSeen(l: Layout, page: nat, r: Record, sources: seq<int>, base: seq<Site>)
    requires Loaded(l) && SitesOf(l, page, r, sources).Ok? && Small(base) && Gather(l, base).Seen?
    ensures var now := base + SitesOf(l, page, r, sources).value;
            var c := CollectSources(l, page, r, sources, Gather(l, base).value);
            Small(now) && !c.Fatal? && (c.Seen? ==> Gather(l, now) == c)
    decreases |sources|
  {
    hide Enter, Gather, SiteOf, Width, Loaded;
    if sources == [] {
      assert base + SitesOf(l, page, r, sources).value == base;
    } else {
      var (obj, offset) := SiteOf(l, page, sources[0], Width(SourceKind(r.type_))).value;
      var s := Site(obj, offset, r);
      SiteSmall(l, page, sources[0], Width(SourceKind(r.type_)));
      GatherNext(l, base, s);
      var rest := SitesOf(l, page, r, sources[1..]).value;
      assert base + ([s] + rest) == (base + [s]) + rest;
      EnterGoesOn(l, Gather(l, base).value, s);
      SourcesSmall(l, page, r, sources[1..]);
      if Enter(l, Gather(l, base).value, s).Seen? {
        SourcesSeen(l, page, r, sources[1..], base + [s]);
      }
    }
  }

  lemma EnterGoesOn(l: Layout, inv: Inventory, s: Site)
    requires s.offset < TWO32
    ensures !Enter(l, inv, s).Fatal?
  {
  }

  lemma {:induction false} SourcesSmall(l: Layout, page: nat, r: Record, sources: seq<int>)
    requires Loaded(l) && SitesOf(l, page, r, sources).Ok?
    ensures Small(SitesOf(l, page, r, sources).value)
    decreases |sources|
  {
    hide SiteOf, Width, Loaded;
    if sources != [] {
      SiteSmall(l, page, sources[0], Width(SourceKind(r.type_)));
      SourcesSmall(l, page, r, sources[1..]);
    }
  }

  lemma {:induction false} PageSeen(l: Layout, page: nat, p: nat, end: nat, s: Scan)
    requires Loaded(l) && p <= end <= |l.file| && ScanPage(l, page, p, end, s).Ok? && Small(s.sites) && Gather(l, s.sites).Seen?
    ensures var t := ScanPage(l, page, p, end, s).value;
            var c := CollectPage(l, page, p, end, Gather(l, s.sites).value);
            Small(t.sites) && !c.Fatal? && (c.Seen? ==> Gather(l, t.sites) == c)
    decreases end - p
  {
    hide Gather, Checked, Sighted, SitesOf, CollectSources, WithImport, Flat;
    if p < end {
      var (t, next) := ScanRecord(l, page, p, end, s).value;
      var r := Checked(l.file, p, end, |l.objects|, l.moduleCount).value;
      DetectorAgrees(l.file, p, end, |l.objects|, l.moduleCount);
      SourcesSeen(l, page, r, r.sources, s.sites);
      PageSmall(l, page, next, end, t);
      if Sighted(l.file, p, end).Seen? && CollectSources(l, page, r, r.sources, Gather(l, s.sites).value).Seen? {
        PageSeen(l, page, next, end, t);
      }
    }
  }

  lemma {:induction false} PageSmall(l: Layout, page: nat, p: nat, end: nat, s: Scan)
    requires Loaded(l) && p <= end <= |l.file| && ScanPage(l, page, p, end, s).Ok? && Small(s.sites)
    ensures Small(ScanPage(l, page, p, end, s).value.sites)
    decreases end - p
  {
    hide Checked, SitesOf, WithImport, Flat;
    if p < end {
      var (t, next) := ScanRecord(l, page, p, end, s).value;
      var r := Checked(l.file, p, end, |l.objects|, l.moduleCount).value;
      SourcesSmall(l, page, r, r.sources);
      PageSmall(l, page, next, end, t);
    }
  }

  lemma {:induction false} PagesSeen(l: Layout, page: nat, s: Scan)
    requires Loaded(l) && 0 < page <= l.pages + 1 && ScanPages(l, page, s).Ok? && Small(s.sites) && Gather(l, s.sites).Seen?
    ensures var t := ScanPages(l, page, s).value;
            var c := CollectPages(l, page, Gather(l, s.sites).value);
            Small(t.sites) && !c.Fatal? && (c.Seen? ==> Gather(l, t.sites) == c)
    decreases l.pages + 1 - page
  {
    hide Gather, ScanPage, CollectPage, RecordsAt;
    if page <= l.pages {
      var p, end := RecordsAt(l, page - 1), RecordsAt(l, page);
      var inv := Gather(l, s.sites).value;
      PageSeen(l, page, p, end, s);
      PagesSmall(l, page + 1, ScanPage(l, page, p, end, s).value);
      if p == end {
        EmptyRange(l, page, p, inv);
      }
      if CollectPage(l, page, p, end, inv).Seen? {
        PagesSeen(l, page + 1, ScanPage(l, page, p, end, s).value);
      }
    }
  }

  lemma EmptyRange(l: Layout, page: nat, p: nat, inv: Inventory)
    requires Loaded(l) && p <= |l.file|
    ensures CollectPage(l, page, p, p, inv) == Seen(inv)
  {
  }

  lemma {:induction false} PagesSmall(l: Layout, page: nat, s: Scan)
    requires Loaded(l) && 0 < page <= l.pages + 1 && ScanPages(l, page, s).Ok? && Small(s.sites)
    ensures Small(ScanPages(l, page, s).value.sites)
    decreases l.pages + 1 - page
  {
    hide ScanPage, RecordsAt;
    if page <= l.pages {
      var p, end := RecordsAt(l, page - 1), RecordsAt(l, page);
      PageSmall(l, page, p, end, s);
      PagesSmall(l, page + 1, ScanPage(l, page, p, end, s).value);
    }
  }
}
