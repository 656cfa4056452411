/** The guest memory arena: blocks that are reused whole, and a tail that only grows. */
module GuestArena {
  import opened Words

  const MAX_ALLOCS := 256
  const ARENA_BASE := 0x0100_0000
  const ARENA_LIMIT := 0x0300_0000

  /** A table entry; base 0 means that the entry has never been used. */
  datatype Block = Block(base: U32, size: U32, used: bool)

  datatype Arena = Arena(blocks: seq<Block>, next: U32)

  /** Rounded up to whole pages, without a limit. */
  function Rounded(size: nat): nat {
    (size + 0xfff) / 0x1000 * 0x1000
  }

  predicate Paged(x: nat) {
    x % 0x1000 == 0
  }

  lemma PagedSum(x: nat, y: nat)
    requires Paged(x) && Paged(y)
    ensures Paged(x + y)
  {
  }

  // ---- the operations --------------------------------------------------------------

  /** The first free block of at least `need` bytes at or after `i`, or -1. */
  function FirstFit(bs: seq<Block>, need: nat, i: nat): (k: int)
    requires i <= |bs|
    ensures -1 <= k < |bs|
    ensures k >= 0 ==> i <= k && !bs[k].used && bs[k].base != 0 && bs[k].size >= need
    ensures k < 0 ==> forall j :: i <= j < |bs| ==> bs[j].used || bs[j].base == 0 || bs[j].size < need
    decreases |bs| - i
  {
    if i == |bs| then -1
    else if !bs[i].used && bs[i].base != 0 && bs[i].size >= need then i
    else FirstFit(bs, need, i + 1)
  }

  function FirstEmpty(bs: seq<Block>, i: nat): (k: int)
    requires i <= |bs|
    ensures -1 <= k < |bs|
    ensures k >= 0 ==> i <= k && bs[k].base == 0 && forall j :: i <= j < k ==> bs[j].base != 0
    ensures k < 0 ==> forall j :: i <= j < |bs| ==> bs[j].base != 0
    decreases |bs| - i
  {
    if i == |bs| then -1 else if bs[i].base == 0 then i else FirstEmpty(bs, i + 1)
  }

  /** `alloc_guest`: the new arena and the address, 0 for none. */
  function Alloc(a: Arena, size: U32): (r: (Arena, U32))
    requires |a.blocks| == MAX_ALLOCS
    ensures |r.0.blocks| == MAX_ALLOCS
  {
    if size == 0 || size > ARENA_LIMIT - ARENA_BASE then (a, 0)
    else
      var need := Rounded(size);
      var k := FirstFit(a.blocks, need, 0);
      if k >= 0 then (a.(blocks := a.blocks[k := a.blocks[k].(used := true)]), a.blocks[k].base)
      else
        var base := Wrap(Rounded(a.next));
        if base >= ARENA_LIMIT || need > ARENA_LIMIT - base then (a, 0)
        else
          var e := FirstEmpty(a.blocks, 0);
          if e < 0 then (a, 0) else (Arena(a.blocks[e := Block(base, need, true)], base + need), base)
  }

  function FindBlock(bs: seq<Block>, base: U32, i: nat): (k: int)
    requires i <= |bs|
    ensures -1 <= k < |bs|
    ensures k >= 0 ==> bs[k].base == base
    ensures k < 0 ==> forall j :: i <= j < |bs| ==> bs[j].base != base
    decreases |bs| - i
  {
    if i == |bs| then -1 else if bs[i].base == base then i else FindBlock(bs, base, i + 1)
  }

  /** `soft_free_memory`; false for an address that is not a block in use. */
  function Free(a: Arena, base: U32): (r: (Arena, bool))
    requires |a.blocks| == MAX_ALLOCS
    ensures |r.0.blocks| == MAX_ALLOCS
  {
    var k := FindBlock(a.blocks, base, 0);
    if k < 0 || !a.blocks[k].used then (a, false)
    else (a.(blocks := a.blocks[k := a.blocks[k].(used := false)]), true)
  }

  /** The sizes of the free blocks below `n`, summed; and of all blocks. */
  function FreeBytes(bs: seq<Block>, n: nat): nat
    requires n <= |bs|
  {
    if n == 0 then 0 else FreeBytes(bs, n - 1) + if bs[n - 1].base != 0 && !bs[n - 1].used then bs[n - 1].size else 0
  }

  function UsedBytes(bs: seq<Block>, n: nat): nat
    requires n <= |bs|
  {
    if n == 0 then 0 else UsedBytes(bs, n - 1) + if bs[n - 1].base != 0 && bs[n - 1].used then bs[n - 1].size else 0
  }

  function LargestFree(bs: seq<Block>, n: nat): nat
    requires n <= |bs|
  {
    if n == 0 then 0
    else
      var m := LargestFree(bs, n - 1);
      if bs[n - 1].base != 0 && !bs[n - 1].used && bs[n - 1].size > m then bs[n - 1].size else m
  }

  /** The untouched end of the arena, if a table entry is left to describe it. */
  function Tail(a: Arena): nat {
    if FirstEmpty(a.blocks, 0) >= 0 && ARENA_BASE <= a.next < ARENA_LIMIT && Rounded(a.next) <= ARENA_LIMIT
    then ARENA_LIMIT - Rounded(a.next) else 0
  }

  /** `soft_query_memory_status`: all free bytes, and the largest block there could be. */
  function Available(a: Arena): (nat, nat)
    requires |a.blocks| == MAX_ALLOCS
  {
    var largest := LargestFree(a.blocks, MAX_ALLOCS);
    (FreeBytes(a.blocks, MAX_ALLOCS) + Tail(a), if Tail(a) > largest then Tail(a) else largest)
  }

  // ---- the invariant --------------------------------------------------------------------

  /** Where block `n` starts if the blocks before it are laid end to end. */
  function End(bs: seq<Block>, n: nat): nat
    requires n <= |bs|
  {
    if n == 0 then ARENA_BASE else End(bs, n - 1) + bs[n - 1].size
  }

  /** The first `n` entries tile the arena from its base to `next` with whole pages; the
      others are unused. */
  predicate Tiles(a: Arena, n: nat) {
    |a.blocks| == MAX_ALLOCS && n <= MAX_ALLOCS && a.next == End(a.blocks, n) <= ARENA_LIMIT && Paged(a.next) &&
    (forall i :: 0 <= i < n ==>
       a.blocks[i].base == End(a.blocks, i) && 0 < a.blocks[i].size && Paged(a.blocks[i].size)) &&
    (forall i :: n <= i < MAX_ALLOCS ==> a.blocks[i] == Block(0, 0, false))
  }

  ghost predicate Tiled(a: Arena) {
    exists n :: Tiles(a, n)
  }

  function Empty(): Arena {
    Arena(seq(MAX_ALLOCS, i => Block(0, 0, false)), ARENA_BASE)
  }

  lemma {:induction false} EndSame(a: seq<Block>, b: seq<Block>, n: nat)
    requires n <= |a| && n <= |b|
    requires forall i :: 0 <= i < n ==> a[i].size == b[i].size
    ensures End(a, n) == End(b, n)
  {
    if n > 0 {
      EndSame(a, b, n - 1);
    }
  }

  lemma {:induction false} EndGrows(bs: seq<Block>, i: nat, j: nat)
    requires i <= j <= |bs|
    ensures ARENA_BASE <= End(bs, i) <= End(bs, j)
    decreases j
  {
    if j > i {
      EndGrows(bs, i, j - 1);
    } else if j > 0 {
      EndGrows(bs, i - 1, j - 1);
    }
  }

  lemma Bases(a: Arena, n: nat)
    requires Tiles(a, n)
    ensures ARENA_BASE <= a.next && forall i :: 0 <= i < n ==> ARENA_BASE <= a.blocks[i].base
  {
    EndGrows(a.blocks, 0, n);
    forall i | 0 <= i < n ensures ARENA_BASE <= a.blocks[i].base {
      EndGrows(a.blocks, 0, i);
    }
  }

  /** The first entry never used is the one after the tiles. */
  lemma EmptyIs(a: Arena, n: nat)
    requires Tiles(a, n)
    ensures FirstEmpty(a.blocks, 0) == if n < MAX_ALLOCS then n else -1
  {
    Bases(a, n);
    var e := FirstEmpty(a.blocks, 0);
    assert n < MAX_ALLOCS ==> a.blocks[n].base == 0;
  }

  lemma NextPaged(a: Arena, n: nat)
    requires Tiles(a, n)
    ensures Paged(a.next) && ARENA_BASE <= a.next <= ARENA_LIMIT
  {
    Bases(a, n);
  }

  lemma MarkTiles(a: Arena, n: nat, k: nat, used: bool)
    requires Tiles(a, n) && k < n
    ensures Tiles(a.(blocks := a.blocks[k := a.blocks[k].(used := used)]), n)
  {
    var bs := a.blocks[k := a.blocks[k].(used := used)];
    EndSame(a.blocks, bs, n);
    forall i | 0 <= i < n ensures End(bs, i) == End(a.blocks, i) {
      EndSame(a.blocks, bs, i);
    }
  }

  lemma GrowTiles(a: Arena, n: nat, need: nat)
    requires Tiles(a, n) && n < MAX_ALLOCS && 0 < need && Paged(need) && a.next + need <= ARENA_LIMIT
    ensures Tiles(Arena(a.blocks[n := Block(a.next, need, true)], a.next + need), n + 1)
  {
    hide Paged;
    PagedSum(a.next, need);
    var bs := a.blocks[n := Block(a.next, need, true)];
    forall i | 0 <= i <= n ensures End(bs, i) == End(a.blocks, i) {
      EndSame(a.blocks, bs, i);
    }
  }

  lemma RoundedPages(size: nat)
    ensures Paged(Rounded(size)) && size <= Rounded(size) < size + 0x1000
    ensures Paged(size) ==> Rounded(size) == size
  {
  }

  /** Allocation keeps the tiling; what it returns is a block that was free or untouched, lies
      on a page and in the arena, is big enough, and is in use afterwards. */
  lemma AllocTiles(a: Arena, n: nat, size: U32) returns (m: nat)
    requires Tiles(a, n)
    ensures n <= m <= n + 1 && Tiles(Alloc(a, size).0, m)
    ensures var (b, base) := Alloc(a, size);
            base != 0 ==>
              exists k :: 0 <= k < m && b.blocks[k].base == base && b.blocks[k].used && b.blocks[k].size >= size &&
                          Paged(base) && (k < n ==> !a.blocks[k].used) && b.blocks == a.blocks[k := b.blocks[k]]
  {
    hide End, FirstFit, FirstEmpty, Paged;
    m := n;
    RoundedPages(size);
    RoundedPages(a.next);
    Bases(a, n);
    EmptyIs(a, n);
    var (b, base) := Alloc(a, size);
    if base != 0 {
      var k := FirstFit(a.blocks, Rounded(size), 0);
      if k >= 0 {
        MarkTiles(a, n, k, true);
        AlignedBase(a, n, k);
        assert b.blocks[k].used;
      } else {
        GrowTiles(a, n, Rounded(size));
        m := n + 1;
        assert b.blocks[n].used;
      }
    }
  }

  lemma {:induction false} AlignedBase(a: Arena, n: nat, k: nat)
    requires Tiles(a, n) && k < n
    ensures Paged(a.blocks[k].base)
  {
    hide Paged;
    FirstPage();
    if k > 0 {
      AlignedBase(a, n, k - 1);
      PagedSum(a.blocks[k - 1].base, a.blocks[k - 1].size);
    }
  }

  lemma FirstPage()
    ensures Paged(ARENA_BASE)
  {
  }

  lemma FreeTiles(a: Arena, n: nat, base: U32)
    requires Tiles(a, n)
    ensures Tiles(Free(a, base).0, n)
  {
    hide End;
    var k := FindBlock(a.blocks, base, 0);
    if k >= 0 && a.blocks[k].used {
      MarkTiles(a, n, k, false);
    }
  }

  // ---- what it is for ------------------------------------------------------------------------

  /** Blocks never overlap. */
  lemma BlocksDisjoint(a: Arena, n: nat, i: nat, j: nat)
    requires Tiles(a, n) && i < j < n
    ensures a.blocks[i].base + a.blocks[i].size <= a.blocks[j].base && a.blocks[j].base + a.blocks[j].size <= ARENA_LIMIT
  {
    EndGrows(a.blocks, i + 1, j);
    EndGrows(a.blocks, j + 1, n);
  }

  lemma {:induction false} LargestMeans(bs: seq<Block>, n: nat, need: nat)
    requires n <= |bs| && need > 0
    ensures LargestFree(bs, n) >= need <==> exists i :: 0 <= i < n && bs[i].base != 0 && !bs[i].used && bs[i].size >= need
  {
    if n > 0 {
      LargestMeans(bs, n - 1, need);
    }
  }

  /** An allocation succeeds exactly when its size is positive and, rounded to pages, no more
      than the reported largest block. */
  lemma AllocIff(a: Arena, n: nat, size: U32)
    requires Tiles(a, n)
    ensures Alloc(a, size).1 != 0 <==> size > 0 && Rounded(size) <= Available(a).1
  {
    hide End, LargestFree, FreeBytes, Paged;
    RoundedPages(size);
    RoundedPages(a.next);
    Bases(a, n);
    EmptyIs(a, n);
    if size > 0 {
      LargestMeans(a.blocks, MAX_ALLOCS, Rounded(size));
      SmallBlocks(a, n);
      LargestMeans(a.blocks, MAX_ALLOCS, ARENA_LIMIT - ARENA_BASE + 1);
    }
  }

  lemma SmallBlocks(a: Arena, n: nat)
    requires Tiles(a, n)
    ensures forall i :: 0 <= i < MAX_ALLOCS ==> a.blocks[i].size <= ARENA_LIMIT - ARENA_BASE
  {
    forall i | 0 <= i < n ensures a.blocks[i].size <= ARENA_LIMIT - ARENA_BASE {
      EndGrows(a.blocks, 0, i);
      EndGrows(a.blocks, i + 1, n);
    }
  }

  lemma {:induction false} BytesTo(a: Arena, n: nat, i: nat)
    requires Tiles(a, n) && i <= n
    ensures UsedBytes(a.blocks, i) + FreeBytes(a.blocks, i) == End(a.blocks, i) - ARENA_BASE
  {
    hide Paged;
    Bases(a, n);
    if i > 0 {
      BytesTo(a, n, i - 1);
    }
  }

  lemma {:induction false} BytesBeyond(a: Arena, n: nat, i: nat)
    requires Tiles(a, n) && n <= i <= MAX_ALLOCS
    ensures UsedBytes(a.blocks, i) == UsedBytes(a.blocks, n) && FreeBytes(a.blocks, i) == FreeBytes(a.blocks, n)
    decreases i
  {
    hide Paged, End;
    if i > n {
      BytesBeyond(a, n, i - 1);
    }
  }

  /** Conservation: used bytes, reported free bytes and the part of the tail that no entry is
      left to describe add up to the whole arena. */
  lemma BytesConserved(a: Arena, n: nat)
    requires Tiles(a, n)
    ensures UsedBytes(a.blocks, MAX_ALLOCS) + Available(a).0 + (if n < MAX_ALLOCS then 0 else ARENA_LIMIT - a.next) ==
            ARENA_LIMIT - ARENA_BASE
  {
    hide End, FreeBytes, UsedBytes, Paged;
    BytesTo(a, n, n);
    BytesBeyond(a, n, MAX_ALLOCS);
    RoundedPages(a.next);
    Bases(a, n);
    EmptyIs(a, n);
  }

  // ---- any history -------------------------------------------------------------------------------

  datatype Op = AllocOp(size: U32) | FreeOp(base: U32)

  function Step(a: Arena, op: Op): (r: Arena)
    requires |a.blocks| == MAX_ALLOCS
    ensures |r.blocks| == MAX_ALLOCS
  {
    match op case AllocOp(size) => Alloc(a, size).0 case FreeOp(base) => Free(a, base).0
  }

  function Steps(a: Arena, ops: seq<Op>): (r: Arena)
    requires |a.blocks| == MAX_ALLOCS
    ensures |r.blocks| == MAX_ALLOCS
    decreases |ops|
  {
    if ops == [] then a else Steps(Step(a, ops[0]), ops[1..])
  }

  /** Whatever is allocated and freed, the table tiles the arena. */
  lemma {:induction false} HistoryTiles(a: Arena, n: nat, ops: seq<Op>) returns (m: nat)
    requires Tiles(a, n)
    ensures Tiles(Steps(a, ops), m)
    decreases |ops|
  {
    hide Tiles, Alloc, Free;
    TilesSize(a, n);
    if ops == [] {
      m := n;
    } else {
      var k := n;
      match ops[0] {
        case AllocOp(size) => k := AllocTiles(a, n, size);
        case FreeOp(base) => FreeTiles(a, n, base);
      }
      m := HistoryTiles(Step(a, ops[0]), k, ops[1..]);
    }
  }

  lemma TilesSize(a: Arena, n: nat)
    requires Tiles(a, n)
    ensures |a.blocks| == MAX_ALLOCS
  {
  }

  lemma HistoryFromEmpty(ops: seq<Op>)
    ensures Tiled(Steps(Empty(), ops))
  {
    assert Tiles(Empty(), 0);
    var m := HistoryTiles(Empty(), 0, ops);
  }

  // ---- the table in place ---------------------------------------------------------------------------

  class Table {
    const blocks: array<Block>
    var next: U32

    ghost function State(): Arena
      reads this, blocks
    {
      Arena(blocks[..], next)
    }

    constructor ()
      ensures blocks.Length == MAX_ALLOCS && State() == Empty() && fresh(blocks)
    {
      blocks := new Block[MAX_ALLOCS](i => Block(0, 0, false));
      next := ARENA_BASE;
      new;
      assert blocks[..] == Empty().blocks;
    }

    method AllocGuest(size: U32) returns (base: U32)
      requires blocks.Length == MAX_ALLOCS
      modifies this, blocks
      ensures (State(), base) == Alloc(old(State()), size)
    {
      if size == 0 || size > ARENA_LIMIT - ARENA_BASE {
        return 0;
      }
      var need := Rounded(size);
      var i := 0;
      while i < MAX_ALLOCS
        invariant 0 <= i <= MAX_ALLOCS && State() == old(State())
        invariant FirstFit(blocks[..], need, i) == FirstFit(blocks[..], need, 0)
      {
        if !blocks[i].used && blocks[i].base != 0 && blocks[i].size >= need {
          blocks[i] := blocks[i].(used := true);
          return blocks[i].base;
        }
        i := i + 1;
      }
      base := Wrap(Rounded(next));
      if base >= ARENA_LIMIT || need > ARENA_LIMIT - base {
        return 0;
      }
      i := 0;
      while i < MAX_ALLOCS
        invariant 0 <= i <= MAX_ALLOCS && State() == old(State())
        invariant FirstEmpty(blocks[..], i) == FirstEmpty(blocks[..], 0)
      {
        if blocks[i].base == 0 {
          blocks[i] := Block(base, need, true);
          next := base + need;
          return;
        }
        i := i + 1;
      }
      return 0;
    }

    method FreeGuest(base: U32) returns (ok: bool)
      requires blocks.Length == MAX_ALLOCS
      modifies blocks
      ensures (State(), ok) == Free(old(State()), base)
    {
      var i := 0;
      while i < MAX_ALLOCS && blocks[i].base != base
        invariant 0 <= i <= MAX_ALLOCS
        invariant FindBlock(blocks[..], base, i) == FindBlock(blocks[..], base, 0)
      {
        i := i + 1;
      }
      if i == MAX_ALLOCS || !blocks[i].used {
        return false;
      }
      blocks[i] := blocks[i].(used := false);
      return true;
    }

    method QueryStatus(ghost n: nat) returns (free: nat, largest: nat)
      requires blocks.Length == MAX_ALLOCS && Tiles(State(), n)
      ensures (free, largest) == Available(State())
    {
      hide Tiles, Rounded;
      EmptyIs(State(), n);
      NextPaged(State(), n);
      RoundedPages(next);
      var spare;
      free, largest, spare := ScanFree();
      if spare && next >= ARENA_BASE && next < ARENA_LIMIT {
        var tail := ARENA_LIMIT - Rounded(next);
        free := free + tail;
        if tail > largest {
          largest := tail;
        }
      }
    }

    method ScanFree() returns (free: nat, largest: nat, spare: bool)
      requires blocks.Length == MAX_ALLOCS
      ensures free == FreeBytes(blocks[..], MAX_ALLOCS) && largest == LargestFree(blocks[..], MAX_ALLOCS)
      ensures spare == (FirstEmpty(blocks[..], 0) >= 0)
    {
      free, largest, spare := 0, 0, false;
      var i := 0;
      while i < MAX_ALLOCS
        invariant 0 <= i <= MAX_ALLOCS && free == FreeBytes(blocks[..], i) && largest == LargestFree(blocks[..], i)
        invariant if spare then FirstEmpty(blocks[..], 0) >= 0 else FirstEmpty(blocks[..], 0) == FirstEmpty(blocks[..], i)
      {
        if blocks[i].base == 0 {
          spare := true;
        } else if !blocks[i].used {
          free := free + blocks[i].size;
          if blocks[i].size > largest {
            largest := blocks[i].size;
          }
        }
        i := i + 1;
      }
    }
  }
}
