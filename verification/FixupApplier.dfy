/** The second pass as it runs over mapped object memory. */
module FixupApplier {
  import opened Words
  import opened FixupRecords
  import opened FixupPasses

  class Applier {
    const l: Layout
    const scan: Scan
    const links: Links
    const bases: seq<U32>
    const mem: seq<array<U8>>

    ghost predicate Valid() {
      Loaded(l) && Linked(scan, links) && |mem| == |bases| == |l.objects| &&
      (forall i :: 0 <= i < |mem| ==> mem[i].Length == l.objects[i].size) &&
      (forall i, j :: 0 <= i < j < |mem| ==> mem[i] != mem[j])
    }

    ghost function Memory(): (m: seq<Mapped>)
      requires Valid()
      reads mem
      ensures |m| == |mem| && AllMapped(l, m)
      ensures forall i :: 0 <= i < |mem| ==> m[i] == Mapped(bases[i], Big(l.objects[i]), mem[i][..])
    {
      seq(|mem|, i requires 0 <= i < |mem| reads mem => Mapped(bases[i], Big(l.objects[i]), mem[i][..]))
    }

    constructor (layout: Layout, found: Scan, addresses: Links, at: seq<U32>, buffers: seq<array<U8>>)
      requires Loaded(layout) && Linked(found, addresses) && |buffers| == |at| == |layout.objects|
      requires forall i :: 0 <= i < |buffers| ==> buffers[i].Length == layout.objects[i].size
      requires forall i, j :: 0 <= i < j < |buffers| ==> buffers[i] != buffers[j]
      ensures Valid() && l == layout && scan == found && links == addresses && bases == at && mem == buffers
    {
      l, scan, links, bases, mem := layout, found, addresses, at, buffers;
    }

    method Wr32(obj: nat, at: nat, v: U32)
      requires Valid() && obj < |mem| && at + 4 <= mem[obj].Length
      modifies mem
      ensures Memory() == Patch(old(Memory()), obj, at, v)
    {
      ghost var was := Memory();
      var a := mem[obj];
      a[at], a[at + 1], a[at + 2], a[at + 3] := Le32(v)[0], Le32(v)[1], Le32(v)[2], Le32(v)[3];
      assert a[..] == Put32(was[obj].bytes, at, v);
      forall i | 0 <= i < |mem| && i != obj ensures Memory()[i] == was[i] {
        assert mem[i] != a;
      }
      assert Memory() == Patch(was, obj, at, v);
    }

    method ImportIndex(table: seq<Import>, i: Import) returns (k: int)
      ensures k == Find(table, i)
    {
      k := 0;
      while k < |table|
        invariant 0 <= k <= |table| && i !in table[..k]
      {
        if table[k] == i {
          FirstFound(table, i, k);
          return;
        }
        k := k + 1;
      }
      k := -1;
    }

    /** `c386_direct_import_target`: the import, or its adapter for the operand of a CALL. */
    method DirectImportTarget(k: nat, obj: nat, offset: nat) returns (address: U32)
      requires Valid() && obj < |mem| && k < |links.imports|
      ensures forall r: Record :: address == ImportAt(links, Memory(), Site(obj, offset, r), k)
    {
      hide Big;
      if !links.bridged || !Big(l.objects[obj]) || offset == 0 || offset > mem[obj].Length || mem[obj][offset - 1] != CALL {
        return links.imports[k];
      }
      return if k in links.adapters then links.adapters[k] else links.imports[k];
    }

    /** The word for one site. */
    method Resolve(r: Record, obj: nat, offset: nat) returns (v: Outcome<U32>)
      requires Valid() && obj < |mem|
      ensures v == SiteValue(scan, links, Memory(), Site(obj, offset, r))
    {
      hide Wrap, SourceKind, IsAlias, TargetKind, Width, AllMapped, Loaded, Find;
      var kind, st := TargetKind(r.flags), SourceKind(r.type_);
      var after := bases[obj] + offset + 4;
      if kind == TGT_INTERNAL && st == SRC_OFF32 && !IsAlias(r.type_) {
        if !(0 < r.first <= |mem|) {
          return Fail(Rejected("LX target object is not mapped"));
        }
        return Ok(Wrap(bases[r.first - 1] + r.targetOff));
      }
      if kind == TGT_EXT_ORD && st == SRC_REL32 && !IsAlias(r.type_) {
        var k := -1;
        if r.first != 0 {
          k := ImportIndex(scan.imports, Import(r.first - 1, r.target));
        }
        if k < 0 {
          return Fail(Rejected("internal error: missing LX ordinal import"));
        }
        var address := DirectImportTarget(k, obj, offset);
        return Ok(Wrap(address - after));
      }
      if kind == TGT_EXT_NAME && st == SRC_REL32 && !IsAlias(r.type_) {
        var k := -1;
        if r.first != 0 {
          k := ImportIndex(scan.names, Import(r.first - 1, r.target));
        }
        if k < 0 {
          return Fail(Rejected("internal error: missing LX named import"));
        }
        return Ok(Wrap(links.names[k] - after));
      }
      return Fail(Rejected("non-flat LX fixup has no native execution bridge"));
    }

    /** The patch loop of one record. */
    method PatchSources(page: nat, r: Record) returns (done: Outcome<()>)
      requires Valid()
      modifies mem
      ensures match ApplySources(l, scan, links, page, r, r.sources, old(Memory()))
              case Fail(_) => done.Fail?
              case Ok(m) => done.Ok? && Memory() == m
    {
      hide SiteOf, SiteValue, Patch, Patched, Loaded;
      ghost var result := ApplySources(l, scan, links, page, r, r.sources, Memory());
      var i := 0;
      assert r.sources[0..] == r.sources;
      while i < |r.sources|
        invariant 0 <= i <= |r.sources|
        invariant ApplySources(l, scan, links, page, r, r.sources[i..], Memory()) == result
      {
        assert r.sources[i..][0] == r.sources[i] && r.sources[i..][1..] == r.sources[i + 1..];
        var site := SourceOffset(page, r.sources[i], Width(SourceKind(r.type_)));
        if site.Fail? {
          return Fail(site.reason);
        }
        var (obj, offset) := site.value;
        if !Patched(r) && links.bridged {
          i := i + 1;
          continue;
        }
        var v := Resolve(r, obj, offset);
        if v.Fail? {
          return Fail(v.reason);
        }
        Wr32(obj, offset, v.value);
        i := i + 1;
      }
      assert r.sources[|r.sources|..] == [];
      return Ok(());
    }

    method SourceOffset(page: nat, source: int, width: nat) returns (r: Outcome<(nat, nat)>)
      requires Valid()
      ensures r == SiteOf(l, page, source, width)
    {
      var owner := PageOwner(l, page);
      if owner.Fail? {
        return Fail(owner.reason);
      }
      var (obj, objPage) := owner.value;
      var off := Signed32(Wrap(objPage * l.pageSize)) + source;
      if off < 0 || off + width > l.objects[obj].size {
        return Fail(Rejected("LX fixup source lies outside object"));
      }
      return Ok((obj, off));
    }

    /** Decodes a record again, this time without looking where it ends. It may be called
        only where that is safe. */
    method ReadRecord(start: nat, end: nat) returns (r: Outcome<Record>)
      requires start < end <= |l.file| && Trusted(l.file, start, end) != Fail(Outside)
      ensures r == Trusted(l.file, start, end)
    {
      hide SourceList, Width, SourceKind, TargetKind, IsList, IsChain, IsAdditive, HasObj16, Word16, Word32, Signed16, Has32, HasOrd8;
      var type_, flags := l.file[start], l.file[start + 1];
      var st, kind := SourceKind(type_), TargetKind(flags);
      if Width(st) == 0 {
        return Fail(Slipped("unsupported LX source type slipped through validation"));
      }
      if IsChain(flags) {
        return Fail(Slipped("chained LX fixup slipped through validation"));
      }
      var count: nat, source, q := 1, 0, start + 2;
      if IsList(type_) {
        count := l.file[q];
        q := q + 1;
      } else {
        source := Signed16(Word16(l.file, q));
        q := q + 2;
      }
      var first;
      if HasObj16(flags) {
        if end - q < 2 {
          return Fail(Rejected("truncated LX fixup target"));
        }
        first := Word16(l.file, q);
        q := q + 2;
      } else {
        if q >= end {
          return Fail(Rejected("truncated LX fixup target"));
        }
        first := l.file[q];
        q := q + 1;
      }
      if kind == TGT_INT_ENTRY {
        return Fail(Slipped("unsupported LX fixup slipped through validation"));
      }
      var value: U32 := 0;
      if kind == TGT_EXT_ORD && HasOrd8(flags) {
        value := l.file[q];
        q := q + 1;
      } else if kind != TGT_INTERNAL || st != SRC_SEL16 {
        if Has32(flags) {
          value := Word32(l.file, q);
          q := q + 4;
        } else {
          value := Word16(l.file, q);
          q := q + 2;
        }
      }
      assert q == start + 2 + (if IsList(type_) then 1 else 2) + (if HasObj16(flags) then 2 else 1) + TargetBytes(st, flags);
      if IsAdditive(flags) {
        return Fail(Slipped("additive LX fixup slipped through validation"));
      }
      return Ok(Record(type_, flags, first, if kind == TGT_INTERNAL then 0 else value, if kind == TGT_INTERNAL then value else 0,
                       if IsList(type_) then SourceList(l.file, q, count) else [source], if IsList(type_) then q + 2 * count else q));
    }

    /** All pages, all records, all sites. The caller owes that no read leaves a record range;
        `TwoPasses` shows it for every image that the scan accepted as flat. */
    method ApplyAll() returns (done: Outcome<()>)
      requires Valid() && ApplyFixups(l, scan, links, Memory()) != Fail(Outside)
      modifies mem
      ensures match ApplyFixups(l, scan, links, old(Memory()))
              case Fail(_) => done.Fail?
              case Ok(m) => done.Ok? && Memory() == m
    {
      hide Trusted, ApplySources, RecordsAt, Loaded;
      ghost var whole := ApplyPages(l, scan, links, 1, Memory());
      var page := 1;
      while page <= l.pages
        invariant 1 <= page <= l.pages + 1
        invariant ApplyPages(l, scan, links, page, Memory()) == whole
      {
        var p, end := RecordsAt(l, page - 1), RecordsAt(l, page);
        if p < end {
          ghost var result := ApplyPage(l, scan, links, page, p, end, Memory());
          while p < end
            invariant p <= end <= |l.file| && ApplyPage(l, scan, links, page, p, end, Memory()) == result
            invariant result != Fail(Outside)
            decreases end - p
          {
            var r := ReadRecord(p, end);
            if r.Fail? {
              return Fail(r.reason);
            }
            var patched := PatchSources(page, r.value);
            if patched.Fail? {
              return Fail(patched.reason);
            }
            p := r.value.next;
          }
        }
        page := page + 1;
      }
      return Ok(());
    }
  }

  lemma {:induction false} FirstFound(table: seq<Import>, i: Import, k: nat)
    requires k < |table| && table[k] == i && i !in table[..k]
    ensures Find(table, i) == k
    decreases |table|
  {
    if k < |table| - 1 {
      assert table[..|table| - 1][..k] == table[..k];
      FirstFound(table[..|table| - 1], i, k);
    } else {
      assert table[..|table| - 1] == table[..k];
    }
  }
}
