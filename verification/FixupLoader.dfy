/** Both passes as they run: cursors over the record bytes, growing import tables, and object
    memory patched in place. */
module FixupLoader {
  import opened Words
  import opened FixupRecords
  import opened FixupPasses

  class Scanner {
    const l: Layout
    var imports: seq<Import>
    var names: seq<Import>
    var direct: bool
    ghost var sites: seq<Site>

    ghost function State(): Scan
      reads this
    {
      Scan(imports, names, direct, sites)
    }

    constructor (layout: Layout)
      ensures l == layout && State() == Scan([], [], true, [])
    {
      l := layout;
      imports, names, direct, sites := [], [], true, [];
    }

    method SourceObjectOffset(page: nat, source: int, width: nat) returns (r: Outcome<(nat, nat)>)
      requires Loaded(l)
      ensures r == SiteOf(l, page, source, width)
    {
      var owner := PageOwner(l, page);
      if owner.Fail? {
        return Fail(owner.reason);
      }
      var (obj, objPage) := owner.value;
      var off := Signed32(Wrap(objPage * l.pageSize)) + source;
      if off < 0 || off + width > l.objects[obj].size {
        return Fail(Rejected("LX fixup source lies outside object"));
      }
      return Ok((obj, off));
    }

    /** A module, object or entry number of one or two bytes. */
    method SkipObjMod(q: nat, flags: U8, end: nat) returns (r: Outcome<(nat, nat)>)
      requires q <= end <= |l.file|
      ensures var n := if HasObj16(flags) then 2 else 1;
              if end - q < n then r.Fail? else r == Ok((TargetValue(l.file, q, n), q + n))
    {
      if HasObj16(flags) {
        if end - q < 2 {
          return Fail(Rejected("truncated LX fixup target"));
        }
        return Ok((Word16(l.file, q), q + 2));
      }
      if q >= end {
        return Fail(Rejected("truncated LX fixup target"));
      }
      return Ok((l.file[q], q + 1));
    }

    method FindOrAdd(table: seq<Import>, i: Import, max: nat) returns (r: Outcome<seq<Import>>)
      ensures r == AddImport(table, i, max)
    {
      var k := 0;
      while k < |table|
        invariant 0 <= k <= |table| && i !in table[..k]
      {
        if table[k] == i {
          return Ok(table);
        }
        k := k + 1;
      }
      if |table| >= max {
        return Fail(Rejected("too many LX imports"));
      }
      return Ok(table + [i]);
    }

    /** The target field: how many bytes, and what they hold. */
    method ReadTarget(st: nat, flags: U8, t: nat, end: nat) returns (r: Outcome<(U32, nat)>)
      requires t <= end <= |l.file|
      ensures var n := TargetBytes(st, flags);
              if end - t < n then r.Fail? else r == Ok((TargetValue(l.file, t, n), t + n))
    {
      var kind := TargetKind(flags);
      if kind == TGT_INT_ENTRY || (kind == TGT_INTERNAL && st == SRC_SEL16) {
        return Ok((0, t));
      }
      if kind == TGT_EXT_ORD && HasOrd8(flags) {
        if t >= end {
          return Fail(Rejected("truncated LX 8-bit ordinal"));
        }
        return Ok((l.file[t], t + 1));
      }
      if Has32(flags) {
        if end - t < 4 {
          return Fail(Rejected("truncated LX 32-bit target"));
        }
        return Ok((Word32(l.file, t), t + 4));
      }
      if end - t < 2 {
        return Fail(Rejected("truncated LX 16-bit target"));
      }
      return Ok((Word16(l.file, t), t + 2));
    }

    /** Records the import a record names, and whether the flat loader can apply it. */
    method NoteTarget(st: nat, type_: U8, flags: U8, first: nat, target: U32) returns (failure: Outcome<()>)
      requires TargetKind(flags) == TGT_EXT_ORD || TargetKind(flags) == TGT_EXT_NAME ==> first > 0
      modifies this`imports, this`names, this`direct
      ensures var kind := TargetKind(flags);
              match WithImport(old(State()), Record(type_, flags, first, target, 0, [], 0))
              case Fail(_) => failure.Fail?
              case Ok(s) =>
                failure.Ok? && imports == s.imports && names == s.names &&
                direct == (old(direct) && !IsAlias(type_) &&
                           ((kind == TGT_INTERNAL && st == SRC_OFF32) ||
                            ((kind == TGT_EXT_ORD || kind == TGT_EXT_NAME) && st == SRC_REL32)))
    {
      var kind := TargetKind(flags);
      if kind == TGT_INTERNAL {
        if st != SRC_OFF32 || IsAlias(type_) {
          direct := false;
        }
      } else if kind == TGT_EXT_ORD {
        var t := FindOrAdd(imports, Import(first - 1, target), MAX_IMPORTS);
        if t.Fail? {
          return Fail(t.reason);
        }
        imports := t.value;
        if st != SRC_REL32 || IsAlias(type_) {
          direct := false;
        }
      } else if kind == TGT_EXT_NAME {
        var t := FindOrAdd(names, Import(first - 1, target), MAX_NAME_IMPORTS);
        if t.Fail? {
          return Fail(t.reason);
        }
        names := t.value;
        if st != SRC_REL32 || IsAlias(type_) {
          direct := false;
        }
      } else {
        direct := false;
      }
      return Ok(());
    }

    /** The sites of a decoded record; a listed source is read where the cursor stands. */
    method VisitSources(page: nat, r: Record, at: nat) returns (failure: Outcome<()>)
      requires Loaded(l) && at + 2 * |r.sources| <= |l.file|
      requires r.sources == SourceList(l.file, at, |r.sources|)
      modifies this`sites
      ensures match SitesOf(l, page, r, r.sources)
              case Fail(_) => failure.Fail?
              case Ok(s) => failure.Ok? && sites == old(sites) + s
    {
      var p, i := at, 0;
      SitesOfNone(l, page, r);
      while i < |r.sources|
        invariant 0 <= i <= |r.sources| && p == at + 2 * i
        invariant SitesOf(l, page, r, r.sources[..i]).Ok? && sites == old(sites) + SitesOf(l, page, r, r.sources[..i]).value
      {
        var source := Signed16(Word16(l.file, p));
        SourceAt(l.file, at, |r.sources|, i);
        SitesStep(l, page, r, i);
        var site := SourceObjectOffset(page, source, Width(SourceKind(r.type_)));
        if site.Fail? {
          return Fail(site.reason);
        }
        sites := sites + [Site(site.value.0, site.value.1, r)];
        p := p + 2;
        i := i + 1;
      }
      assert r.sources[..|r.sources|] == r.sources;
      return Ok(());
    }

    method VisitOne(page: nat, r: Record) returns (failure: Outcome<()>)
      requires Loaded(l) && |r.sources| == 1
      modifies this`sites
      ensures match SitesOf(l, page, r, r.sources)
              case Fail(_) => failure.Fail?
              case Ok(s) => failure.Ok? && sites == old(sites) + s
    {
      assert r.sources[1..] == [];
      var site := SourceObjectOffset(page, r.sources[0], Width(SourceKind(r.type_)));
      if site.Fail? {
        return Fail(site.reason);
      }
      sites := sites + [Site(site.value.0, site.value.1, r)];
      return Ok(());
    }

    /** One record, field by field, each checked against `end` before it is read. */
    method DecodeRecord(start: nat, end: nat) returns (r: Outcome<Record>)
      requires start < end <= |l.file|
      ensures var c := Checked(l.file, start, end, |l.objects|, l.moduleCount);
              if c.Ok? then r == c else r.Fail?
    {
      hide TargetValue, TargetBytes, SourceList, Width, SourceKind, TargetKind, IsList, IsChain, IsAlias, IsAdditive, HasAdd32, HasObj16,
        Word16, Signed16, FirstOk;
      if end - start < 2 {
        return Fail(Rejected("truncated LX fixup record"));
      }
      var type_, flags := l.file[start], l.file[start + 1];
      var st, kind := SourceKind(type_), TargetKind(flags);
      if Width(st) == 0 {
        return Fail(Rejected("unknown/undefined LX source fixup type"));
      }
      if IsChain(flags) {
        return Fail(Rejected("chained LX fixups are not supported by the scanner yet"));
      }
      var count: nat, source, q := 1, 0, start + 2;
      if IsList(type_) {
        if q >= end {
          return Fail(Rejected("truncated LX fixup source-list count"));
        }
        count := l.file[q];
        q := q + 1;
      } else {
        if end - q < 2 {
          return Fail(Rejected("truncated LX fixup source"));
        }
        source := Signed16(Word16(l.file, q));
        q := q + 2;
      }
      var number := SkipObjMod(q, flags, end);
      if number.Fail? {
        return Fail(number.reason);
      }
      var (first, t) := number.value;
      if !FirstOk(kind, first, |l.objects|, l.moduleCount) {
        return Fail(Rejected("bad target object or module"));
      }
      var field := ReadTarget(st, flags, t, end);
      if field.Fail? {
        return Fail(field.reason);
      }
      var (value, a) := field.value;
      if IsAdditive(flags) {
        var add := if HasAdd32(flags) then 4 else 2;
        if end - a < add {
          return Fail(Rejected("truncated LX additive"));
        }
        a := a + add;
      }
      if IsList(type_) && end - a < count * 2 {
        return Fail(Rejected("LX fixup source list extends past page records"));
      }
      return Ok(Record(type_, flags, first, if kind == TGT_INTERNAL then 0 else value, if kind == TGT_INTERNAL then value else 0,
                       if IsList(type_) then SourceList(l.file, a, count) else [source],
                       if IsList(type_) then a + 2 * count else a));
    }

    method ScanRecordAt(page: nat, start: nat, end: nat) returns (r: Outcome<nat>)
      requires Loaded(l) && start < end <= |l.file|
      modifies this
      ensures match ScanRecord(l, page, start, end, old(State()))
              case Fail(_) => r.Fail?
              case Ok(x) => r == Ok(x.1) && State() == x.0
    {
      hide Checked, SitesOf, Width, SourceKind, TargetKind, IsAlias, IsAdditive, WithImport, FirstOk, Loaded;
      ghost var before := State();
      var decoded := DecodeRecord(start, end);
      if decoded.Fail? {
        return Fail(decoded.reason);
      }
      var record := decoded.value;
      FirstPositive(record, |l.objects|, l.moduleCount);
      NotedSame(before, record);
      var noted := NoteTarget(SourceKind(record.type_), record.type_, record.flags, record.first, record.target);
      if noted.Fail? {
        return Fail(noted.reason);
      }
      if IsAdditive(record.flags) {
        direct := false;
      }
      var visited := Visit(page, record, start, end);
      if visited.Fail? {
        return Fail(visited.reason);
      }
      return Ok(record.next);
    }

    method Visit(page: nat, record: Record, start: nat, end: nat) returns (visited: Outcome<()>)
      requires Loaded(l) && start < end <= |l.file|
      requires Checked(l.file, start, end, |l.objects|, l.moduleCount) == Ok(record)
      modifies this`sites
      ensures match SitesOf(l, page, record, record.sources)
              case Fail(_) => visited.Fail?
              case Ok(s) => visited.Ok? && sites == old(sites) + s
    {
      hide SitesOf, Loaded;
      ListedSources(l.file, start, end, |l.objects|, l.moduleCount);
      if IsList(record.type_) {
        visited := VisitSources(page, record, record.next - 2 * |record.sources|);
      } else {
        visited := VisitOne(page, record);
      }
    }

    method ScanAll() returns (r: Outcome<()>)
      requires Loaded(l) && State() == Scan([], [], true, [])
      modifies this
      ensures match ScanFixups(l)
              case Fail(_) => r.Fail?
              case Ok(s) => r.Ok? && State() == s
    {
      hide ScanRecord, RecordsAt, AllBig;
      ghost var whole := ScanPages(l, 1, State());
      var page := 1;
      while page <= l.pages
        invariant 1 <= page <= l.pages + 1
        invariant ScanPages(l, page, State()) == whole
      {
        var p, end := RecordsAt(l, page - 1), RecordsAt(l, page);
        if p > end || end > |l.file| || end > l.importTable {
          return Fail(Rejected("bad LX fixup record range"));
        }
        ghost var result := ScanPage(l, page, p, end, State());
        while p < end
          invariant p <= end && ScanPage(l, page, p, end, State()) == result
          decreases end - p
        {
          var next := ScanRecordAt(page, p, end);
          if next.Fail? {
            return Fail(next.reason);
          }
          p := next.value;
        }
        page := page + 1;
      }
      var all := HasOnlyBigObjects();
      if !all {
        direct := false;
      }
      return Ok(());
    }

    method HasOnlyBigObjects() returns (all: bool)
      ensures all == AllBig(l)
    {
      all := true;
      var i := 0;
      while i < |l.objects|
        invariant 0 <= i <= |l.objects|
        invariant all == forall j :: 0 <= j < i ==> l.objects[j].flags / OBJ_BIG_DEFAULT % 2 == 1
      {
        if l.objects[i].flags / OBJ_BIG_DEFAULT % 2 == 0 {
          all := false;
        }
        i := i + 1;
      }
    }
  }

  lemma FirstPositive(r: Record, objectCount: nat, moduleCount: nat)
    requires FirstOk(TargetKind(r.flags), r.first, objectCount, moduleCount)
    ensures TargetKind(r.flags) == TGT_EXT_ORD || TargetKind(r.flags) == TGT_EXT_NAME ==> r.first > 0
  {
  }

  /** A source list ends where the record ends. */
  lemma ListedSources(file: seq<U8>, p: nat, end: nat, objectCount: nat, moduleCount: nat)
    requires p < end <= |file| && Checked(file, p, end, objectCount, moduleCount).Ok?
    ensures var r := Checked(file, p, end, objectCount, moduleCount).value;
            if IsList(r.type_) then
              2 * |r.sources| <= r.next <= |file| && r.sources == SourceList(file, r.next - 2 * |r.sources|, |r.sources|)
            else |r.sources| == 1
  {
    hide TargetValue, TargetBytes, SourceList, Width, SourceKind, IsList, IsChain, IsAdditive, HasObj16, Word16, Signed16, FirstOk;
  }

  lemma NotedSame(s: Scan, r: Record)
    requires TargetKind(r.flags) == TGT_EXT_ORD || TargetKind(r.flags) == TGT_EXT_NAME ==> r.first > 0
    ensures WithImport(s, Record(r.type_, r.flags, r.first, r.target, 0, [], 0)) == WithImport(s, r)
  {
    hide AddImport;
  }

  lemma SitesOfNone(l: Layout, page: nat, r: Record)
    requires Loaded(l)
    ensures r.sources[..0] == [] && SitesOf(l, page, r, []) == Ok([])
  {
  }

  lemma {:induction false} SourceAt(file: seq<U8>, at: nat, count: nat, i: nat)
    requires i < count
    ensures SourceList(file, at, count)[i] == Signed16(Word16(file, at + 2 * i))
    decreases count
  {
    hide Word16;
    if i > 0 {
      SourceAt(file, at + 2, count - 1, i - 1);
    }
  }

  /** One more source at the end of the list. */
  lemma SitesStep(l: Layout, page: nat, r: Record, i: nat)
    requires Loaded(l) && i < |r.sources| && SitesOf(l, page, r, r.sources[..i]).Ok?
    ensures var site := SiteOf(l, page, r.sources[i], Width(SourceKind(r.type_)));
            if site.Fail? then SitesOf(l, page, r, r.sources).Fail?
            else
              SitesOf(l, page, r, r.sources[..i + 1]) ==
              Ok(SitesOf(l, page, r, r.sources[..i]).value + [Site(site.value.0, site.value.1, r)])
  {
    hide SiteOf, Loaded;
    var a, x, b := r.sources[..i], r.sources[i], r.sources[i + 1..];
    assert r.sources[..i + 1] == a + [x] && r.sources == a + ([x] + b);
    SitesConcat(l, page, r, a, [x]);
    SitesConcat(l, page, r, a, [x] + b);
    SitesConcat(l, page, r, [x], b);
    OneSource(l, page, r, x);
  }

  lemma OneSource(l: Layout, page: nat, r: Record, x: int)
    requires Loaded(l)
    ensures var site := SiteOf(l, page, x, Width(SourceKind(r.type_)));
            if site.Fail? then SitesOf(l, page, r, [x]).Fail?
            else SitesOf(l, page, r, [x]) == Ok([Site(site.value.0, site.value.1, r)])
  {
    hide SiteOf, Loaded;
    assert [x][1..] == [] && [x][0] == x;
    var site := SiteOf(l, page, x, Width(SourceKind(r.type_)));
    if site.Ok? {
      assert [Site(site.value.0, site.value.1, r)] + [] == [Site(site.value.0, site.value.1, r)];
    }
  }

  lemma {:induction false} SitesConcat(l: Layout, page: nat, r: Record, a: seq<int>, b: seq<int>)
    requires Loaded(l)
    ensures var x, y := SitesOf(l, page, r, a), SitesOf(l, page, r, b);
            if x.Ok? && y.Ok? then SitesOf(l, page, r, a + b) == Ok(x.value + y.value) else SitesOf(l, page, r, a + b).Fail?
    decreases |a|
  {
    hide SiteOf, Loaded;
    if a == [] {
      assert a + b == b;
      var y := SitesOf(l, page, r, b);
      assert y.Ok? ==> [] + y.value == y.value;
    } else {
      assert (a + b)[0] == a[0] && (a + b)[1..] == a[1..] + b;
      SitesConcat(l, page, r, a[1..], b);
      var x, y := SitesOf(l, page, r, a[1..]), SitesOf(l, page, r, b);
      var site := SiteOf(l, page, a[0], Width(SourceKind(r.type_)));
      if x.Ok? && y.Ok? && site.Ok? {
        var s := Site(site.value.0, site.value.1, r);
        assert [s] + (x.value + y.value) == ([s] + x.value) + y.value;
      }
    }
  }
}
