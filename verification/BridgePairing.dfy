/** Pairing the records of C/386 migration thunks into bridges. */
module BridgePairing {
  import opened Options
  import opened Words
  import opened FixupPasses

  datatype ExtRec = ExtRec(obj: nat, mod: nat, ord: U32, src: U32)
  datatype RetRec = RetRec(obj: nat, target: nat, off: U32, src: U32)
  datatype SelRec = SelRec(obj: nat, target: nat, src: U32)

  /** The records of one image: imports called far, returns, and the two kinds of selectors. */
  datatype Inventory = Inventory(exts: seq<ExtRec>, rets: seq<RetRec>, aliases: seq<SelRec>, stacks: seq<SelRec>)

  /** What pairing asks about the image: its objects, its stack object (from 1), and which
      imports have a descriptor. */
  datatype Image = Image(objects: seq<Object>, stackObject: U32, descriptors: map<(nat, U32), nat>)

  /** For each far call in turn: the indices of its return, its alias and its stack selector. */
  datatype Pairing = Pairing(rets: seq<nat>, aliases: seq<nat>, stacks: seq<nat>)

  const NOTHING := Pairing([], [], [])

  // ---- what fits together --------------------------------------------------------------------

  /** The thunk starts one byte before the far call; its return jump's operand is 8 bytes in. */
  predicate RetFits(e: ExtRec, r: RetRec) {
    r.obj == e.obj && r.src == Wrap(e.src + 7)
  }

  /** The alias selector names the thunk's object and lies just before the return point. */
  predicate AliasFits(e: ExtRec, r: RetRec, a: SelRec) {
    a.target == e.obj && a.obj == r.target && r.off == Wrap(a.src + 2)
  }

  /** The stack comparison lies in the helper, shortly before the alias. */
  predicate StackFits(m: Image, a: SelRec, s: SelRec) {
    s.obj == a.obj && s.target == Wrap(m.stackObject - 1) && s.src < a.src && a.src - s.src <= 192
  }

  predicate ExtOk(m: Image, e: ExtRec) {
    e.src != 0 && (e.mod, e.ord) in m.descriptors && e.obj < |m.objects| && !Big(m.objects[e.obj])
  }

  predicate AliasOk(m: Image, a: SelRec) {
    a.obj < |m.objects| && Big(m.objects[a.obj])
  }

  // ---- the searches ----------------------------------------------------------------------

  ghost predicate Twice(fits: seq<bool>) {
    exists i, j :: 0 <= i < j < |fits| && fits[i] && fits[j]
  }

  /** The only true entry of `fits`: -1 if there is none, -2 if there are several. */
  function Sole(fits: seq<bool>): (k: int)
    ensures -2 <= k < |fits|
    ensures k >= 0 ==> fits[k] && forall i :: 0 <= i < |fits| && fits[i] ==> i == k
    ensures k == -1 <==> forall i :: 0 <= i < |fits| ==> !fits[i]
    ensures k == -2 ==> Twice(fits)
  {
    if fits == [] then -1
    else
      var n := |fits| - 1;
      var k := Sole(fits[..n]);
      assert forall i :: 0 <= i < n ==> fits[..n][i] == fits[i];
      if k == -2 then -2
      else if !fits[n] then k
      else if k >= 0 then -2
      else n
  }

  function RetsFor(inv: Inventory, taken: seq<nat>, e: ExtRec): (f: seq<bool>)
    ensures |f| == |inv.rets| && forall j :: 0 <= j < |f| ==> (f[j] <==> j !in taken && RetFits(e, inv.rets[j]))
  {
    seq(|inv.rets|, j requires 0 <= j < |inv.rets| => j !in taken && RetFits(e, inv.rets[j]))
  }

  function AliasesFor(inv: Inventory, taken: seq<nat>, e: ExtRec, r: RetRec): (f: seq<bool>)
    ensures |f| == |inv.aliases| && forall j :: 0 <= j < |f| ==> (f[j] <==> j !in taken && AliasFits(e, r, inv.aliases[j]))
  {
    seq(|inv.aliases|, j requires 0 <= j < |inv.aliases| => j !in taken && AliasFits(e, r, inv.aliases[j]))
  }

  /** Among the first `n` free stack selectors that fit: the nearest to the alias, the earliest
      of equals; -1 if none fits. */
  function Nearest(m: Image, a: SelRec, stacks: seq<SelRec>, taken: seq<nat>, n: nat): (k: int)
    requires n <= |stacks|
    ensures -1 <= k < n
    ensures k >= 0 ==> k !in taken && StackFits(m, a, stacks[k])
    ensures forall j :: 0 <= j < n && j !in taken && StackFits(m, a, stacks[j]) ==>
                          k >= 0 && stacks[j].src <= stacks[k].src && (j < k ==> stacks[j].src < stacks[k].src)
  {
    if n == 0 then -1
    else
      var k := Nearest(m, a, stacks, taken, n - 1);
      var s := stacks[n - 1];
      if n - 1 !in taken && StackFits(m, a, s) && (k < 0 || s.src > stacks[k].src) then n - 1 else k
  }

  // ---- pairing ---------------------------------------------------------------------------------

  /** The bridge of the next far call, after those of `p`. */
  function Step(m: Image, inv: Inventory, p: Pairing): (q: Option<Pairing>)
    requires |p.rets| < |inv.exts|
    ensures q.Some? ==> |q.value.rets| == |p.rets| + 1
  {
    var e := inv.exts[|p.rets|];
    if !ExtOk(m, e) then None
    else
      var r := Sole(RetsFor(inv, p.rets, e));
      if r < 0 then None
      else
        var a := Sole(AliasesFor(inv, p.aliases, e, inv.rets[r]));
        if a < 0 then None
        else
          var s := Nearest(m, inv.aliases[a], inv.stacks, p.stacks, |inv.stacks|);
          if s < 0 || !AliasOk(m, inv.aliases[a]) then None
          else Some(Pairing(p.rets + [r], p.aliases + [a], p.stacks + [s]))
  }

  function Pairs(m: Image, inv: Inventory, p: Pairing): (q: Option<Pairing>)
    requires |p.rets| <= |inv.exts|
    ensures q.Some? ==> |q.value.rets| == |inv.exts|
    decreases |inv.exts| - |p.rets|
  {
    if |p.rets| == |inv.exts| then Some(p)
    else
      match Step(m, inv, p)
      case None => None
      case Some(next) => Pairs(m, inv, next)
  }

  lemma PairsNext(m: Image, inv: Inventory, p: Pairing)
    requires |p.rets| < |inv.exts|
    ensures Pairs(m, inv, p) == match Step(m, inv, p) case None => None case Some(next) => Pairs(m, inv, next)
  {
    hide Step;
  }

  lemma PairsDone(m: Image, inv: Inventory, p: Pairing)
    requires |p.rets| == |inv.exts|
    ensures Pairs(m, inv, p) == Some(p)
  {
  }

  predicate SameCounts(inv: Inventory) {
    inv.exts != [] && |inv.rets| == |inv.exts| && |inv.aliases| == |inv.exts| && |inv.stacks| == |inv.exts|
  }

  predicate AllUsed(inv: Inventory, p: Pairing) {
    forall i :: 0 <= i < |inv.exts| ==> i in p.rets && i in p.aliases && i in p.stacks
  }

  /** The whole of it: one record of each kind per bridge, paired, and all of them used. */
  function Complete(m: Image, inv: Inventory): Option<Pairing> {
    if !SameCounts(inv) then None
    else
      match Pairs(m, inv, NOTHING)
      case None => None
      case Some(p) => if AllUsed(inv, p) then Some(p) else None
  }

  // ---- what a pairing is ----------------------------------------------------------------------

  predicate Distinct(s: seq<nat>) {
    forall i, j :: 0 <= i < j < |s| ==> s[i] != s[j]
  }

  predicate Below(s: seq<nat>, n: nat) {
    forall i :: 0 <= i < |s| ==> s[i] < n
  }

  /** Indices that exist, none used twice. */
  predicate Indices(inv: Inventory, p: Pairing) {
    |p.aliases| == |p.rets| && |p.stacks| == |p.rets| && |p.rets| <= |inv.exts| &&
    Below(p.rets, |inv.rets|) && Below(p.aliases, |inv.aliases|) && Below(p.stacks, |inv.stacks|) &&
    Distinct(p.rets) && Distinct(p.aliases) && Distinct(p.stacks)
  }

  /** Bridge `b` is structurally one. */
  predicate Fits(m: Image, inv: Inventory, p: Pairing, b: nat)
    requires Indices(inv, p) && b < |p.rets|
  {
    var e, r, a := inv.exts[b], inv.rets[p.rets[b]], inv.aliases[p.aliases[b]];
    ExtOk(m, e) && RetFits(e, r) && AliasFits(e, r, a) && AliasOk(m, a) && StackFits(m, a, inv.stacks[p.stacks[b]])
  }

  ghost predicate Bridged(m: Image, inv: Inventory, p: Pairing) {
    Indices(inv, p) && forall b :: 0 <= b < |p.rets| ==> Fits(m, inv, p, b)
  }

  /** No other return and no other alias in the image fits far call `b`. */
  ghost predicate OnlyOnes(inv: Inventory, p: Pairing, b: nat)
    requires Indices(inv, p) && b < |p.rets|
  {
    (forall j :: 0 <= j < |inv.rets| && RetFits(inv.exts[b], inv.rets[j]) ==> j == p.rets[b]) &&
    (forall j :: 0 <= j < |inv.aliases| && AliasFits(inv.exts[b], inv.rets[p.rets[b]], inv.aliases[j]) ==> j == p.aliases[b])
  }

  ghost predicate Forced(inv: Inventory, p: Pairing) {
    Indices(inv, p) && forall b :: 0 <= b < |p.rets| ==> OnlyOnes(inv, p, b)
  }

  /** The first `n` bridges. */
  function Front(p: Pairing, n: nat): Pairing
    requires n <= |p.rets| && |p.aliases| == |p.rets| && |p.stacks| == |p.rets|
  {
    Pairing(p.rets[..n], p.aliases[..n], p.stacks[..n])
  }

  // ---- soundness ---------------------------------------------------------------------------------

  lemma AppendFree(s: seq<nat>, k: nat, n: nat)
    requires Distinct(s) && Below(s, n) && k < n && k !in s
    ensures Distinct(s + [k]) && Below(s + [k], n)
  {
  }

  lemma StepIndices(m: Image, inv: Inventory, p: Pairing)
    requires Indices(inv, p) && |p.rets| < |inv.exts|
    ensures var q := Step(m, inv, p);
            q.Some? ==> Indices(inv, q.value) && Front(q.value, |p.rets|) == p && Fits(m, inv, q.value, |p.rets|)
  {
    hide Sole, Nearest, ExtOk, AliasOk, RetFits, AliasFits, StackFits, Distinct, Below;
    var q := Step(m, inv, p);
    if q.Some? {
      var n := |p.rets|;
      AppendFree(p.rets, q.value.rets[n], |inv.rets|);
      AppendFree(p.aliases, q.value.aliases[n], |inv.aliases|);
      AppendFree(p.stacks, q.value.stacks[n], |inv.stacks|);
    }
  }

  lemma StepBridged(m: Image, inv: Inventory, p: Pairing)
    requires Bridged(m, inv, p) && |p.rets| < |inv.exts|
    ensures var q := Step(m, inv, p); q.Some? ==> Bridged(m, inv, q.value)
  {
    hide Step, ExtOk, AliasOk, RetFits, AliasFits, StackFits;
    StepIndices(m, inv, p);
    var o := Step(m, inv, p);
    if o.Some? {
      var q := o.value;
      forall b | 0 <= b < |q.rets| ensures Fits(m, inv, q, b) {
        if b < |p.rets| {
          assert Fits(m, inv, p, b);
        }
      }
    }
  }

  /** Choosing the only free candidate is choosing the only candidate: a record that an earlier
      bridge took and that also fits would have made the earlier choice ambiguous. */
  lemma StepForced(m: Image, inv: Inventory, p: Pairing)
    requires Bridged(m, inv, p) && Forced(inv, p) && |p.rets| < |inv.exts|
    requires Step(m, inv, p).Some?
    ensures Bridged(m, inv, Step(m, inv, p).value) && Forced(inv, Step(m, inv, p).value)
  {
    hide Sole, Nearest, ExtOk, AliasOk, RetFits, AliasFits, StackFits;
    StepBridged(m, inv, p);
    var q := Step(m, inv, p).value;
    var n := |p.rets|;
    forall b | 0 <= b < |q.rets| ensures OnlyOnes(inv, q, b) {
      if b < n {
        assert OnlyOnes(inv, p, b);
      } else {
        RetForced(m, inv, p, q);
        AliasForced(m, inv, p, q);
      }
    }
  }

  lemma SameSource(e: ExtRec, f: ExtRec, r: RetRec)
    requires RetFits(e, r) && RetFits(f, r)
    ensures e.obj == f.obj && e.src == f.src
    ensures forall t :: RetFits(e, t) <==> RetFits(f, t)
  {
  }

  lemma RetForced(m: Image, inv: Inventory, p: Pairing, q: Pairing)
    requires Bridged(m, inv, p) && Forced(inv, p) && |p.rets| < |inv.exts| && Step(m, inv, p) == Some(q)
    ensures forall j :: 0 <= j < |inv.rets| && RetFits(inv.exts[|p.rets|], inv.rets[j]) ==> j == q.rets[|p.rets|]
  {
    hide Sole, Nearest, ExtOk, AliasOk, RetFits, AliasFits, StackFits;
    var n := |p.rets|;
    var k := q.rets[n];
    forall j | 0 <= j < |inv.rets| && RetFits(inv.exts[n], inv.rets[j]) ensures j == k {
      if j in p.rets {
        var b :| 0 <= b < n && p.rets[b] == j;
        assert Fits(m, inv, p, b) && OnlyOnes(inv, p, b);
        SameSource(inv.exts[n], inv.exts[b], inv.rets[j]);
      }
    }
  }

  lemma SameTarget(e: ExtRec, f: ExtRec, r: RetRec, t: RetRec, a: SelRec)
    requires AliasFits(e, r, a) && AliasFits(f, t, a)
    ensures forall b :: AliasFits(e, r, b) <==> AliasFits(f, t, b)
  {
  }

  lemma AliasForced(m: Image, inv: Inventory, p: Pairing, q: Pairing)
    requires Bridged(m, inv, p) && Forced(inv, p) && |p.rets| < |inv.exts| && Step(m, inv, p) == Some(q)
    ensures forall j :: 0 <= j < |inv.aliases| && AliasFits(inv.exts[|p.rets|], inv.rets[q.rets[|p.rets|]], inv.aliases[j]) ==> j == q.aliases[|p.rets|]
  {
    hide Sole, Nearest, ExtOk, AliasOk, RetFits, AliasFits, StackFits;
    var n := |p.rets|;
    var e, r, k := inv.exts[n], inv.rets[q.rets[n]], q.aliases[n];
    forall j | 0 <= j < |inv.aliases| && AliasFits(e, r, inv.aliases[j]) ensures j == k {
      if j in p.aliases {
        var b :| 0 <= b < n && p.aliases[b] == j;
        assert Fits(m, inv, p, b) && OnlyOnes(inv, p, b);
        SameTarget(e, inv.exts[b], r, inv.rets[p.rets[b]], inv.aliases[j]);
      }
    }
  }

  lemma {:induction false} PairsSound(m: Image, inv: Inventory, p: Pairing)
    requires Bridged(m, inv, p) && Forced(inv, p)
    ensures var q := Pairs(m, inv, p); q.Some? ==> Bridged(m, inv, q.value) && Forced(inv, q.value)
    decreases |inv.exts| - |p.rets|
  {
    hide Step, Fits, OnlyOnes, Forced;
    if |p.rets| < |inv.exts| && Step(m, inv, p).Some? {
      StepForced(m, inv, p);
      PairsSound(m, inv, Step(m, inv, p).value);
    }
  }

  // ---- counting ------------------------------------------------------------------------------------

  /** `n` different numbers below `n` are all of them. */
  lemma {:induction false} Pigeonhole(s: seq<nat>, n: nat)
    requires |s| == n && Distinct(s) && Below(s, n)
    ensures forall i :: 0 <= i < n ==> i in s
    decreases n, 1
  {
    if n > 0 {
      LargestTaken(s, n);
      var k :| 0 <= k < n && s[k] == n - 1;
      var t := s[..k] + s[k + 1..];
      assert forall i :: 0 <= i < n - 1 ==> t[i] == s[if i < k then i else i + 1];
      Pigeonhole(t, n - 1);
      forall i | 0 <= i < n ensures i in s {
        if i < n - 1 {
          assert i in t;
        }
      }
    }
  }

  lemma {:induction false} LargestTaken(s: seq<nat>, n: nat)
    requires |s| == n > 0 && Distinct(s) && Below(s, n)
    ensures n - 1 in s
    decreases n, 0
  {
    if n - 1 !in s {
      Repeats(s, n);
    }
  }

  /** `n` numbers below `n - 1` repeat one. */
  lemma {:induction false} Repeats(s: seq<nat>, n: nat)
    requires |s| == n > 0 && Distinct(s[..n - 1]) && Below(s, n - 1)
    ensures exists j :: 0 <= j < n - 1 && s[j] == s[n - 1]
    decreases n - 1, 2
  {
    var t := s[..n - 1];
    assert forall i :: 0 <= i < n - 1 ==> t[i] == s[i];
    Pigeonhole(t, n - 1);
    assert s[n - 1] in t;
  }

  /** Every return, alias and stack selector of a complete image is part of exactly one bridge,
      every bridge is structurally one, and no other return or alias would have fitted it. */
  lemma BridgesAreBijection(m: Image, inv: Inventory)
    ensures var c := Complete(m, inv);
            c.Some? ==>
              Bridged(m, inv, c.value) && Forced(inv, c.value) && |c.value.rets| == |inv.exts| && AllUsed(inv, c.value)
  {
    hide Bridged, Forced, Pairs;
    if SameCounts(inv) {
      NothingSound(m, inv);
      PairsSound(m, inv, NOTHING);
    }
  }

  lemma NothingSound(m: Image, inv: Inventory)
    ensures Bridged(m, inv, NOTHING) && Forced(inv, NOTHING)
  {
  }

  /** The last check of the code never refuses: counting has already decided it. */
  lemma LastCheckRedundant(m: Image, inv: Inventory)
    requires SameCounts(inv)
    ensures Complete(m, inv) == Pairs(m, inv, NOTHING)
  {
    hide Forced, Fits, Pairs, Distinct, Below;
    NothingSound(m, inv);
    PairsSound(m, inv, NOTHING);
    var p := Pairs(m, inv, NOTHING);
    if p.Some? {
      Pigeonhole(p.value.rets, |inv.exts|);
      Pigeonhole(p.value.aliases, |inv.exts|);
      Pigeonhole(p.value.stacks, |inv.exts|);
    }
  }

  /** Returns and aliases can be paired in one way only, whatever the order of the records. */
  lemma OnlyPairing(m: Image, inv: Inventory, q: Pairing)
    requires Complete(m, inv).Some? && Bridged(m, inv, q) && |q.rets| == |inv.exts|
    ensures q.rets == Complete(m, inv).value.rets && q.aliases == Complete(m, inv).value.aliases
  {
    hide Complete, ExtOk, AliasOk, RetFits, AliasFits, StackFits;
    BridgesAreBijection(m, inv);
    var p := Complete(m, inv).value;
    forall b | 0 <= b < |q.rets| ensures q.rets[b] == p.rets[b] && q.aliases[b] == p.aliases[b] {
      assert OnlyOnes(inv, p, b) && Fits(m, inv, q, b);
    }
  }

  // ---- completeness --------------------------------------------------------------------------------

  /** Of the stack selectors that fit bridge `b` and that no earlier bridge has, its own is the
      nearest, and the earliest of equals. */
  ghost predicate NearestLeft(m: Image, inv: Inventory, p: Pairing, b: nat)
    requires Indices(inv, p) && b < |p.rets|
  {
    var own := inv.stacks[p.stacks[b]].src;
    forall j :: 0 <= j < |inv.stacks| && StackFits(m, inv.aliases[p.aliases[b]], inv.stacks[j]) && j != p.stacks[b] && j !in p.stacks[..b] ==>
      inv.stacks[j].src < own || (inv.stacks[j].src == own && p.stacks[b] < j)
  }

  ghost predicate Greedy(m: Image, inv: Inventory, p: Pairing) {
    Indices(inv, p) && forall b :: 0 <= b < |p.rets| ==> NearestLeft(m, inv, p, b)
  }

  lemma SoleIs(fits: seq<bool>, k: nat)
    requires k < |fits| && fits[k] && forall i :: 0 <= i < |fits| && fits[i] ==> i == k
    ensures Sole(fits) == k
  {
  }

  lemma NearestIs(m: Image, a: SelRec, stacks: seq<SelRec>, taken: seq<nat>, k: nat)
    requires k < |stacks| && k !in taken && StackFits(m, a, stacks[k])
    requires forall j :: 0 <= j < |stacks| && StackFits(m, a, stacks[j]) && j != k && j !in taken ==>
               stacks[j].src < stacks[k].src || (stacks[j].src == stacks[k].src && k < j)
    ensures Nearest(m, a, stacks, taken, |stacks|) == k
  {
  }

  lemma NotBefore(s: seq<nat>, n: nat)
    requires Distinct(s) && n < |s|
    ensures s[n] !in s[..n] && s[..n + 1] == s[..n] + [s[n]]
  {
  }

  lemma StepFinds(m: Image, inv: Inventory, q: Pairing, n: nat)
    requires Bridged(m, inv, q) && n < |q.rets| && OnlyOnes(inv, q, n) && NearestLeft(m, inv, q, n)
    ensures Step(m, inv, Front(q, n)) == Some(Front(q, n + 1))
  {
    hide ExtOk, AliasOk, RetFits, AliasFits, StackFits, Sole, Nearest, Distinct, Below;
    var p := Front(q, n);
    var e := inv.exts[n];
    assert Fits(m, inv, q, n);
    NotBefore(q.rets, n);
    NotBefore(q.aliases, n);
    NotBefore(q.stacks, n);
    assert q.rets[n] < |inv.rets| && q.aliases[n] < |inv.aliases| && q.stacks[n] < |inv.stacks| by { InRange(inv, q, n); }
    SoleIs(RetsFor(inv, p.rets, e), q.rets[n]);
    var r := inv.rets[q.rets[n]];
    SoleIs(AliasesFor(inv, p.aliases, e, r), q.aliases[n]);
    NearestIs(m, inv.aliases[q.aliases[n]], inv.stacks, p.stacks, q.stacks[n]);
  }

  lemma InRange(inv: Inventory, q: Pairing, n: nat)
    requires Indices(inv, q) && n < |q.rets|
    ensures q.rets[n] < |inv.rets| && q.aliases[n] < |inv.aliases| && q.stacks[n] < |inv.stacks|
  {
  }

  lemma {:induction false} PairsFind(m: Image, inv: Inventory, q: Pairing, n: nat)
    requires Bridged(m, inv, q) && Forced(inv, q) && Greedy(m, inv, q) && |q.rets| == |inv.exts| && n <= |q.rets|
    ensures Pairs(m, inv, Front(q, n)) == Some(q)
    decreases |q.rets| - n
  {
    hide Step, OnlyOnes, NearestLeft, Fits;
    if n < |q.rets| {
      StepFinds(m, inv, q, n);
      PairsFind(m, inv, q, n + 1);
    } else {
      assert Front(q, n) == q;
    }
  }

  lemma StepGreedy(m: Image, inv: Inventory, p: Pairing)
    requires Greedy(m, inv, p) && |p.rets| < |inv.exts|
    ensures var q := Step(m, inv, p); q.Some? ==> Greedy(m, inv, q.value)
  {
    hide Step, StackFits, Indices, Fits;
    StepIndices(m, inv, p);
    var o := Step(m, inv, p);
    if o.Some? {
      var q := o.value;
      StepNearest(m, inv, p, q);
      forall b | 0 <= b < |q.rets| ensures NearestLeft(m, inv, q, b) {
        if b < |p.rets| {
          SameFront(m, inv, p, q, b);
        }
      }
    }
  }

  lemma StepNearest(m: Image, inv: Inventory, p: Pairing, q: Pairing)
    requires Indices(inv, p) && Indices(inv, q) && |p.rets| < |inv.exts| && Step(m, inv, p) == Some(q)
    ensures NearestLeft(m, inv, q, |p.rets|)
  {
    hide Sole, Nearest, ExtOk, AliasOk, StackFits, Distinct, Below;
    assert q.stacks[..|p.rets|] == p.stacks;
  }

  lemma SameFront(m: Image, inv: Inventory, p: Pairing, q: Pairing, b: nat)
    requires Indices(inv, p) && Indices(inv, q) && |p.rets| <= |q.rets| && Front(q, |p.rets|) == p && b < |p.rets|
    requires NearestLeft(m, inv, p, b)
    ensures NearestLeft(m, inv, q, b)
  {
    hide StackFits, Distinct, Below;
    assert p.stacks[..b] == q.stacks[..b] && p.stacks[b] == q.stacks[b] && p.aliases[b] == q.aliases[b];
  }

  lemma {:induction false} PairsGreedy(m: Image, inv: Inventory, p: Pairing)
    requires Greedy(m, inv, p)
    ensures var q := Pairs(m, inv, p); q.Some? ==> Greedy(m, inv, q.value)
    decreases |inv.exts| - |p.rets|
  {
    hide Step, NearestLeft, Distinct, Below;
    if |p.rets| < |inv.exts| && Step(m, inv, p).Some? {
      StepGreedy(m, inv, p);
      PairsGreedy(m, inv, Step(m, inv, p).value);
    }
  }

  /** Exactly what the code recognises: a pairing of everything in which nothing else in the image
      fits a far call's return and alias, and each helper's stack comparison is the nearest one
      that earlier thunks have left. */
  lemma BridgesFound(m: Image, inv: Inventory, q: Pairing)
    ensures Complete(m, inv) == Some(q) <==>
            SameCounts(inv) && Bridged(m, inv, q) && Forced(inv, q) && Greedy(m, inv, q) && |q.rets| == |inv.exts|
  {
    hide Pairs, Forced, Fits, NearestLeft;
    if Complete(m, inv) == Some(q) {
      BridgesAreBijection(m, inv);
      PairsGreedy(m, inv, NOTHING);
    } else if SameCounts(inv) && Bridged(m, inv, q) && Forced(inv, q) && Greedy(m, inv, q) && |q.rets| == |inv.exts| {
      LastCheckRedundant(m, inv);
      assert Front(q, 0) == NOTHING;
      PairsFind(m, inv, q, 0);
    }
  }

  // ---- where the order of the records does matter ------------------------------------------------

  const SAMPLE := Image([Object(0x100, 0, 1, 1), Object(0x200, OBJ_BIG_DEFAULT, 2, 1), Object(0x100, OBJ_BIG_DEFAULT, 3, 1)], 3, map[(0, 7) := 0])

  const NEAR := ExtRec(0, 0, 7, 1)
  const FAR := ExtRec(0, 0, 7, 21)

  /** Two thunks; the stack comparison of the first lies before the other's window. */
  function Sample(exts: seq<ExtRec>): Inventory {
    Inventory(exts, [RetRec(0, 1, 102, 8), RetRec(0, 1, 252, 28)], [SelRec(1, 0, 100), SelRec(1, 0, 250)], [SelRec(1, 2, 40), SelRec(1, 2, 90)])
  }

  /** Stack selectors are chosen greedily, so two helpers that share their stack comparisons are
      recognised in one order of their thunks and refused in the other. */
  lemma StackChoiceDependsOnOrder()
    ensures Complete(SAMPLE, Sample([FAR, NEAR])) == Some(Pairing([1, 0], [1, 0], [1, 0]))
    ensures Complete(SAMPLE, Sample([NEAR, FAR])) == None
  {
    hide Step, Pairs, Complete, Sample;
    SampleFound();
    SampleRefused();
    assert SameCounts(Sample([FAR, NEAR])) && SameCounts(Sample([NEAR, FAR])) by { SampleCounts(); }
    LastCheckRedundant(SAMPLE, Sample([FAR, NEAR]));
    LastCheckRedundant(SAMPLE, Sample([NEAR, FAR]));
  }

  lemma SampleCounts()
    ensures SameCounts(Sample([FAR, NEAR])) && SameCounts(Sample([NEAR, FAR]))
  {
  }

  lemma SampleFound()
    ensures Pairs(SAMPLE, Sample([FAR, NEAR]), NOTHING) == Some(Pairing([1, 0], [1, 0], [1, 0]))
  {
    hide Step, Pairs;
    var a := Sample([FAR, NEAR]);
    assert NOTHING.rets + [1] == [1] && [1] + [0] == [1, 0];
    SampleStep(a, NOTHING, 1, 1);
    PairsNext(SAMPLE, a, NOTHING);
    SampleStep(a, Pairing([1], [1], [1]), 0, 0);
    PairsNext(SAMPLE, a, Pairing([1], [1], [1]));
    PairsDone(SAMPLE, a, Pairing([1, 0], [1, 0], [1, 0]));
  }

  lemma SampleRefused()
    ensures Pairs(SAMPLE, Sample([NEAR, FAR]), NOTHING) == None
  {
    hide Step, Pairs;
    var b := Sample([NEAR, FAR]);
    assert NOTHING.rets + [0] == [0] && NOTHING.stacks + [1] == [1];
    SampleStep(b, NOTHING, 0, 1);
    PairsNext(SAMPLE, b, NOTHING);
    SampleStuck();
    PairsNext(SAMPLE, b, Pairing([0], [0], [1]));
  }

  lemma SampleStep(inv: Inventory, p: Pairing, k: nat, s: nat)
    requires k < 2 && s < 2 && |p.rets| < 2
    requires inv == Sample([FAR, NEAR]) || inv == Sample([NEAR, FAR])
    requires inv.exts[|p.rets|] == (if k == 0 then NEAR else FAR)
    requires k !in p.rets && k !in p.aliases && s !in p.stacks
    requires s == 1 || (1 in p.stacks && k == 0)
    ensures Step(SAMPLE, inv, p) == Some(Pairing(p.rets + [k], p.aliases + [k], p.stacks + [s]))
  {
    hide Sole, Nearest;
    SoleIs(RetsFor(inv, p.rets, inv.exts[|p.rets|]), k);
    SoleIs(AliasesFor(inv, p.aliases, inv.exts[|p.rets|], inv.rets[k]), k);
    NearestIs(SAMPLE, inv.aliases[k], inv.stacks, p.stacks, s);
  }

  lemma SampleStuck()
    ensures Step(SAMPLE, Sample([NEAR, FAR]), Pairing([0], [0], [1])) == None
  {
    hide Sole, Nearest;
    var inv := Sample([NEAR, FAR]);
    SoleIs(RetsFor(inv, [0], FAR), 1);
    SoleIs(AliasesFor(inv, [0], FAR, inv.rets[1]), 1);
  }
}
