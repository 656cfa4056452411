/** The bridge detector as it runs, with its lists and its marks of used records. */
module BridgeDetector {
  import opened Options
  import opened Words
  import opened FixupRecords
  import opened FixupPasses
  import opened BridgePairing
  import opened BridgeRecords
  import opened BridgeSites

  /** What the loader keeps of one bridge. */
  datatype Bridge = Bridge(
    descriptor: nat, thunkObject: nat, thunkOffset: U32, importModule: nat, importOrdinal: U32,
    aliasObject: nat, aliasOffset: U32, stackOffset: U32, returnObject: nat, returnOffset: U32)

  function Described(m: Image, e: ExtRec, r: RetRec, a: SelRec, s: SelRec): Bridge
    requires ExtOk(m, e)
  {
    Bridge(m.descriptors[(e.mod, e.ord)], e.obj, e.src - 1, e.mod, e.ord, a.obj, a.src, s.src, r.target, r.off)
  }

  function BridgeOf(m: Image, inv: Inventory, p: Pairing, b: nat): Bridge
    requires Bridged(m, inv, p) && b < |p.rets|
  {
    assert Fits(m, inv, p, b);
    Described(m, inv.exts[b], inv.rets[p.rets[b]], inv.aliases[p.aliases[b]], inv.stacks[p.stacks[b]])
  }

  function Bridges(m: Image, inv: Inventory, p: Pairing): seq<Bridge>
    requires Bridged(m, inv, p)
  {
    seq(|p.rets|, b requires 0 <= b < |p.rets| => BridgeOf(m, inv, p, b))
  }

  /** The lists are arrays of fixed size. */
  predicate Bounded(inv: Inventory) {
    |inv.exts| <= MAX_BRIDGES && |inv.rets| <= MAX_BRIDGES && |inv.aliases| <= MAX_BRIDGES && |inv.stacks| <= MAX_BRIDGES
  }

  /** The first `n` marks say which records are taken. */
  ghost predicate Marked(used: array<bool>, n: nat, taken: seq<nat>)
    reads used
  {
    n <= used.Length && forall j :: 0 <= j < n ==> (used[j] <==> j in taken)
  }

  class Detector {
    const l: Layout
    const m: Image
    var bridges: seq<Bridge>
    var complete: bool

    ghost predicate Valid() {
      Loaded(l) && m.objects == l.objects
    }

    constructor (layout: Layout, image: Image)
      requires Loaded(layout) && image.objects == layout.objects
      ensures Valid() && l == layout && m == image
    {
      l, m, bridges, complete := layout, image, [], false;
    }

    method ReadRecord(start: nat, end: nat) returns (r: Look<Record>)
      requires start < end <= |l.file| && !Sighted(l.file, start, end).Fatal?
      ensures r == Sighted(l.file, start, end)
    {
      hide SourceList, Width, SourceKind, TargetKind, IsList, IsChain, IsAdditive, HasObj16, Word16, Word32, Signed16, Has32, HasOrd8;
      var type_, flags := l.file[start], l.file[start + 1];
      var st, kind := SourceKind(type_), TargetKind(flags);
      if Width(st) == 0 || IsChain(flags) {
        return GivesUp;
      }
      var count: nat, source, q := 1, 0, start + 2;
      if IsList(type_) {
        if q >= end {
          return GivesUp;
        }
        count := l.file[q];
        q := q + 1;
      } else {
        if end - q < 2 {
          return GivesUp;
        }
        source := Signed16(Word16(l.file, q));
        q := q + 2;
      }
      var first;
      if HasObj16(flags) {
        first := Word16(l.file, q);
        q := q + 2;
      } else {
        first := l.file[q];
        q := q + 1;
      }
      if kind != TGT_INTERNAL && kind != TGT_EXT_ORD {
        return GivesUp;
      }
      var value: U32 := 0;
      if kind == TGT_EXT_ORD && HasOrd8(flags) {
        if q >= end {
          return GivesUp;
        }
        value := l.file[q];
        q := q + 1;
      } else if kind != TGT_INTERNAL || st != SRC_SEL16 {
        if Has32(flags) {
          if end - q < 4 {
            return GivesUp;
          }
          value := Word32(l.file, q);
          q := q + 4;
        } else {
          if end - q < 2 {
            return GivesUp;
          }
          value := Word16(l.file, q);
          q := q + 2;
        }
      }
      assert q == start + 2 + (if IsList(type_) then 1 else 2) + (if HasObj16(flags) then 2 else 1) + TargetBytes(st, flags);
      if IsAdditive(flags) {
        return GivesUp;
      }
      if IsList(type_) && end - q < 2 * count {
        return GivesUp;
      }
      return Seen(Record(type_, flags, first, if kind == TGT_INTERNAL then 0 else value, if kind == TGT_INTERNAL then value else 0,
                         if IsList(type_) then SourceList(l.file, q, count) else [source], if IsList(type_) then q + 2 * count else q));
    }

    /** The sites of one record. */
    method EnterSources(page: nat, r: Record, inv: Inventory) returns (look: Look<Inventory>)
      requires Valid() && Bounded(inv)
      ensures look == CollectSources(l, page, r, r.sources, inv)
      ensures look.Seen? ==> Bounded(look.value)
    {
      hide SiteOf, Loaded, ClassOf;
      var now, i := inv, 0;
      assert r.sources[0..] == r.sources;
      while i < |r.sources|
        invariant 0 <= i <= |r.sources| && Bounded(now)
        invariant CollectSources(l, page, r, r.sources[i..], now) == CollectSources(l, page, r, r.sources, inv)
      {
        assert r.sources[i..][0] == r.sources[i] && r.sources[i..][1..] == r.sources[i + 1..];
        var site := SiteOf(l, page, r.sources[i], Width(SourceKind(r.type_)));
        if site.Fail? {
          return Fatal;
        }
        SiteSmall(l, page, r.sources[i], Width(SourceKind(r.type_)));
        var next := Enter(l, now, Site(site.value.0, site.value.1, r));
        if !next.Seen? {
          return next;
        }
        now, i := next.value, i + 1;
      }
      assert r.sources[|r.sources|..] == [];
      return Seen(now);
    }

    /** The walk over all pages. */
    method Collect() returns (look: Look<Inventory>)
      requires Valid() && !CollectPages(l, 1, EMPTY).Fatal?
      ensures look == CollectPages(l, 1, EMPTY)
      ensures look.Seen? ==> Bounded(look.value)
    {
      hide Sighted, CollectSources, RecordsAt, Loaded;
      ghost var whole := CollectPages(l, 1, EMPTY);
      var page, inv := 1, EMPTY;
      while page <= l.pages
        invariant 1 <= page <= l.pages + 1 && Bounded(inv)
        invariant CollectPages(l, page, inv) == whole
      {
        var p, end := RecordsAt(l, page - 1), RecordsAt(l, page);
        if p < end {
          ghost var result := CollectPage(l, page, p, end, inv);
          while p < end
            invariant p <= end <= |l.file| && Bounded(inv) && CollectPage(l, page, p, end, inv) == result
            invariant !result.Fatal?
            decreases end - p
          {
            var r := ReadRecord(p, end);
            if !r.Seen? {
              return GivesUp;
            }
            var next := EnterSources(page, r.value, inv);
            if !next.Seen? {
              return GivesUp;
            }
            inv, p := next.value, r.value.next;
          }
        }
        page := page + 1;
      }
      return Seen(inv);
    }

    // ---- the three searches ----------------------------------------------------------------

    method FindReturn(inv: Inventory, e: ExtRec, used: array<bool>, ghost taken: seq<nat>) returns (k: int)
      requires Marked(used, |inv.rets|, taken)
      ensures k == Sole(RetsFor(inv, taken, e))
    {
      hide RetFits, Sole, RetsFor;
      ghost var fits := RetsFor(inv, taken, e);
      k := -1;
      var j := 0;
      SoleNone(fits);
      while j < |inv.rets|
        invariant 0 <= j <= |inv.rets| && k == Sole(fits[..j]) && -1 <= k < j
      {
        SoleNext(fits, j);
        if !used[j] && RetFits(e, inv.rets[j]) {
          if k != -1 {
            Ambiguous(fits, j + 1);
            return -2;
          }
          k := j;
        }
        j := j + 1;
      }
      assert fits[..|inv.rets|] == fits;
    }

    method FindAlias(inv: Inventory, e: ExtRec, r: RetRec, used: array<bool>, ghost taken: seq<nat>) returns (k: int)
      requires Marked(used, |inv.aliases|, taken)
      ensures k == Sole(AliasesFor(inv, taken, e, r))
    {
      hide AliasFits, Sole, AliasesFor;
      ghost var fits := AliasesFor(inv, taken, e, r);
      k := -1;
      var j := 0;
      SoleNone(fits);
      while j < |inv.aliases|
        invariant 0 <= j <= |inv.aliases| && k == Sole(fits[..j]) && -1 <= k < j
      {
        SoleNext(fits, j);
        if !used[j] && AliasFits(e, r, inv.aliases[j]) {
          if k != -1 {
            Ambiguous(fits, j + 1);
            return -2;
          }
          k := j;
        }
        j := j + 1;
      }
      assert fits[..|inv.aliases|] == fits;
    }

    method FindStack(inv: Inventory, a: SelRec, used: array<bool>, ghost taken: seq<nat>) returns (k: int)
      requires Marked(used, |inv.stacks|, taken)
      ensures k == Nearest(m, a, inv.stacks, taken, |inv.stacks|)
    {
      hide StackFits;
      k := -1;
      var best, j := 0, 0;
      while j < |inv.stacks|
        invariant 0 <= j <= |inv.stacks| && k == Nearest(m, a, inv.stacks, taken, j)
        invariant k >= 0 ==> best == inv.stacks[k].src
      {
        var s := inv.stacks[j];
        if !used[j] && StackFits(m, a, s) && (k == -1 || s.src > best) {
          k := j;
          best := s.src;
        }
        j := j + 1;
      }
    }

    /** The records of the next bridge, and the bridge. */
    method Next(inv: Inventory, retUsed: array<bool>, aliasUsed: array<bool>, stackUsed: array<bool>, i: nat, ghost p: Pairing)
      returns (ok: bool, r: nat, a: nat, s: nat)
      requires SameCounts(inv) && |p.rets| == i < |inv.exts|
      requires Marked(retUsed, |inv.exts|, p.rets) && Marked(aliasUsed, |inv.exts|, p.aliases) && Marked(stackUsed, |inv.exts|, p.stacks)
      ensures Step(m, inv, p) == if ok then Some(Pairing(p.rets + [r], p.aliases + [a], p.stacks + [s])) else None
      ensures ok ==> r < |inv.rets| && a < |inv.aliases| && s < |inv.stacks| && ExtOk(m, inv.exts[i])
    {
      hide ExtOk, AliasOk, Sole, Nearest, RetFits, AliasFits, StackFits, Marked, RetsFor, AliasesFor;
      ok, r, a, s := false, 0, 0, 0;
      var e := inv.exts[i];
      if !ExtOk(m, e) {
        return;
      }
      var ret := FindReturn(inv, e, retUsed, p.rets);
      if ret < 0 {
        return;
      }
      var alias := FindAlias(inv, e, inv.rets[ret], aliasUsed, p.aliases);
      if alias < 0 {
        return;
      }
      var stack := FindStack(inv, inv.aliases[alias], stackUsed, p.stacks);
      if stack < 0 || !AliasOk(m, inv.aliases[alias]) {
        return;
      }
      return true, ret, alias, stack;
    }

    method Mark(used: array<bool>, n: nat, k: nat, ghost taken: seq<nat>)
      requires Marked(used, n, taken) && k < n
      modifies used
      ensures Marked(used, n, taken + [k])
    {
      used[k] := true;
    }

    /** Far call by far call, marking what each bridge takes. */
    method PairAll(inv: Inventory) returns (found: Option<seq<Bridge>>)
      requires Bounded(inv) && SameCounts(inv)
      ensures match Complete(m, inv)
              case None => found == None
              case Some(p) => Bridged(m, inv, p) && found == Some(Bridges(m, inv, p))
    {
      hide Pairs, Step, ExtOk, AliasOk, Bridged, Bridges, BridgeOf, Marked, AllUsed;
      var n := |inv.exts|;
      ghost var p := NOTHING;
      var bridges: seq<Bridge> := [];
      var retUsed := Marks();
      var aliasUsed := Marks();
      var stackUsed := Marks();
      NoneYet(m, inv, retUsed, n);
      NoneYet(m, inv, aliasUsed, n);
      NoneYet(m, inv, stackUsed, n);
      var i := 0;
      while i < n
        invariant 0 <= i <= n && |p.rets| == |p.aliases| == |p.stacks| == i && Bridged(m, inv, p) && bridges == Bridges(m, inv, p)
        invariant Marked(retUsed, n, p.rets) && Marked(aliasUsed, n, p.aliases) && Marked(stackUsed, n, p.stacks)
        invariant Pairs(m, inv, p) == Pairs(m, inv, NOTHING)
      {
        PairsNext(m, inv, p);
        StepBridged(m, inv, p);
        var ok, r, a, s := Next(inv, retUsed, aliasUsed, stackUsed, i, p);
        if !ok {
          return None;
        }
        ghost var q := Pairing(p.rets + [r], p.aliases + [a], p.stacks + [s]);
        NextBridge(m, inv, p, q);
        assert q.rets[i] == r && q.aliases[i] == a && q.stacks[i] == s;
        bridges := bridges + [Described(m, inv.exts[i], inv.rets[r], inv.aliases[a], inv.stacks[s])];
        Mark(retUsed, n, r, p.rets);
        Mark(aliasUsed, n, a, p.aliases);
        Mark(stackUsed, n, s, p.stacks);
        p := q;
        i := i + 1;
      }
      PairsDone(m, inv, p);
      var used := UsedUp(inv, retUsed, aliasUsed, stackUsed, p);
      return if used then Some(bridges) else None;
    }

    method Marks() returns (used: array<bool>)
      ensures fresh(used) && used.Length == MAX_BRIDGES && forall j :: 0 <= j < used.Length ==> !used[j]
    {
      used := new bool[MAX_BRIDGES](_ => false);
    }

    /** The last check: every record is marked. */
    method UsedUp(inv: Inventory, retUsed: array<bool>, aliasUsed: array<bool>, stackUsed: array<bool>, ghost p: Pairing)
      returns (all: bool)
      requires Marked(retUsed, |inv.exts|, p.rets) && Marked(aliasUsed, |inv.exts|, p.aliases) && Marked(stackUsed, |inv.exts|, p.stacks)
      ensures all == AllUsed(inv, p)
    {
      var i := 0;
      while i < |inv.exts|
        invariant 0 <= i <= |inv.exts|
        invariant forall j :: 0 <= j < i ==> j in p.rets && j in p.aliases && j in p.stacks
      {
        if !retUsed[i] || !aliasUsed[i] || !stackUsed[i] {
          return false;
        }
        i := i + 1;
      }
      return true;
    }

    /** The detector: what it leaves in the image is what detection computes. */
    method Detect()
      requires Valid() && ScanFixups(l).Ok?
      modifies this`bridges, this`complete
      ensures match BridgeRecords.Detect(l, m)
              case Seen((inv, p)) => complete && Bridged(m, inv, p) && bridges == Bridges(m, inv, p)
              case _ => !complete && bridges == []
    {
      hide Complete, CollectPages, ScanFixups, Bridged, Bridges, Loaded;
      bridges, complete := [], false;
      var sixteens := Count();
      if sixteens != 1 {
        return;
      }
      NeverFatal(l);
      var look := Collect();
      if !look.Seen? || |look.value.exts| == 0 || |look.value.rets| != |look.value.exts| ||
         |look.value.aliases| != |look.value.exts| || |look.value.stacks| != |look.value.exts| {
        if look.Seen? {
          NoPairing(m, look.value);
        }
        return;
      }
      var found := PairAll(look.value);
      if found.Some? {
        bridges, complete := found.value, true;
      }
    }

    method Count() returns (n: nat)
      requires Valid()
      ensures n == Sixteens(l.objects)
    {
      n := 0;
      var i := 0;
      while i < |l.objects|
        invariant 0 <= i <= |l.objects| && n == Sixteens(l.objects[..i])
      {
        assert l.objects[..i + 1][..i] == l.objects[..i];
        if !Big(l.objects[i]) {
          n := n + 1;
        }
        i := i + 1;
      }
      assert l.objects[..|l.objects|] == l.objects;
    }
  }

  lemma NeverFatal(l: Layout)
    requires Loaded(l) && ScanFixups(l).Ok?
    ensures !CollectPages(l, 1, EMPTY).Fatal?
  {
    hide ScanPages, CollectPages;
    GatherNone(l);
    PagesSeen(l, 1, Scan([], [], true, []));
  }

  lemma NoPairing(m: Image, inv: Inventory)
    requires !SameCounts(inv)
    ensures Complete(m, inv) == None
  {
  }

  lemma SoleNone(fits: seq<bool>)
    ensures Sole(fits[..0]) == -1
  {
  }

  lemma SoleNext(fits: seq<bool>, j: nat)
    requires j < |fits|
    ensures var k := Sole(fits[..j]);
            Sole(fits[..j + 1]) == if k == -2 then -2 else if !fits[j] then k else if k >= 0 then -2 else j
  {
    assert fits[..j + 1][..j] == fits[..j];
  }

  /** Two candidates among the first are two candidates. */
  lemma Ambiguous(fits: seq<bool>, n: nat)
    requires n <= |fits| && Sole(fits[..n]) == -2
    ensures Sole(fits) == -2
  {
    hide Sole;
    var s := fits[..n];
    var i, j :| 0 <= i < j < |s| && s[i] && s[j];
    assert fits[i] && fits[j];
  }

  lemma NoneYet(m: Image, inv: Inventory, used: array<bool>, n: nat)
    requires n <= used.Length && forall j :: 0 <= j < used.Length ==> !used[j]
    ensures Marked(used, n, []) && Bridged(m, inv, NOTHING) && Bridges(m, inv, NOTHING) == []
  {
    NothingSound(m, inv);
  }

  lemma NextBridge(m: Image, inv: Inventory, p: Pairing, q: Pairing)
    requires Bridged(m, inv, p) && |p.rets| < |inv.exts| && Bridged(m, inv, q) && Step(m, inv, p) == Some(q)
    ensures var n := |p.rets|;
            Bridges(m, inv, q) ==
            Bridges(m, inv, p) + [Described(m, inv.exts[n], inv.rets[q.rets[n]], inv.aliases[q.aliases[n]], inv.stacks[q.stacks[n]])]
  {
    hide Step, Fits, Indices;
    StepGrows(m, inv, p, q);
    var n := |p.rets|;
    forall b | 0 <= b < n ensures BridgeOf(m, inv, q, b) == BridgeOf(m, inv, p, b) {
      SameBridge(m, inv, p, q, b);
    }
  }

  lemma StepGrows(m: Image, inv: Inventory, p: Pairing, q: Pairing)
    requires Indices(inv, p) && |p.rets| < |inv.exts| && Step(m, inv, p) == Some(q)
    ensures p.rets <= q.rets && p.aliases <= q.aliases && p.stacks <= q.stacks && |q.rets| == |p.rets| + 1
  {
    hide Sole, Nearest, ExtOk, AliasOk;
  }

  lemma SameBridge(m: Image, inv: Inventory, p: Pairing, q: Pairing, b: nat)
    requires Bridged(m, inv, p) && Bridged(m, inv, q) && b < |p.rets| <= |q.rets|
    requires p.rets <= q.rets && p.aliases <= q.aliases && p.stacks <= q.stacks
    ensures BridgeOf(m, inv, q, b) == BridgeOf(m, inv, p, b)
  {
    hide RetFits, AliasFits, StackFits, AliasOk, ExtOk, Distinct, Below;
  }
}
