/** For which images the order of the thunk records does not matter. */
module BridgeOrder {
  import opened Options
  import opened BridgePairing

  // ---- what each far call would choose by itself ----------------------------------------------

  /** The only return that fits a far call; negative if there is not exactly one. */
  function RetOf(inv: Inventory, e: ExtRec): (k: int)
    ensures k < |inv.rets|
  {
    Sole(RetsFor(inv, [], e))
  }

  function AliasOf(inv: Inventory, e: ExtRec): (k: int)
    ensures k < |inv.aliases|
  {
    var r := RetOf(inv, e);
    if r < 0 then -1 else Sole(AliasesFor(inv, [], e, inv.rets[r]))
  }

  /** Of all stack selectors the nearest to its alias. */
  function StackOf(m: Image, inv: Inventory, e: ExtRec): (k: int)
    ensures k < |inv.stacks|
  {
    var a := AliasOf(inv, e);
    if a < 0 then -1 else Nearest(m, inv.aliases[a], inv.stacks, [], |inv.stacks|)
  }

  /** The far call can be bridged, and its choice is made. */
  predicate Choice(m: Image, inv: Inventory, e: ExtRec) {
    ExtOk(m, e) && RetOf(inv, e) >= 0 && AliasOf(inv, e) >= 0 && AliasOk(m, inv.aliases[AliasOf(inv, e)]) && StackOf(m, inv, e) >= 0
  }

  predicate Apart(m: Image, inv: Inventory, e: ExtRec, f: ExtRec) {
    RetOf(inv, e) != RetOf(inv, f) && AliasOf(inv, e) != AliasOf(inv, f) && StackOf(m, inv, e) != StackOf(m, inv, f)
  }

  /** Every far call has a choice, and no two choose the same record. */
  predicate Independent(m: Image, inv: Inventory) {
    SameCounts(inv) && (forall b :: 0 <= b < |inv.exts| ==> Choice(m, inv, inv.exts[b])) &&
    forall b, c :: 0 <= b < c < |inv.exts| ==> Apart(m, inv, inv.exts[b], inv.exts[c])
  }

  // ---- the same records in another order ---------------------------------------------------------

  predicate Ordering(order: seq<nat>, n: nat) {
    |order| == n && Distinct(order) && Below(order, n)
  }

  function Pick<T>(s: seq<T>, order: seq<nat>): (r: seq<T>)
    requires Below(order, |s|)
    ensures |r| == |order| && forall i :: 0 <= i < |r| ==> r[i] == s[order[i]]
  {
    seq(|order|, i requires 0 <= i < |order| => s[order[i]])
  }

  function Reordered(inv: Inventory, order: seq<nat>): Inventory
    requires Ordering(order, |inv.exts|)
  {
    inv.(exts := Pick(inv.exts, order))
  }

  /** The bridges of `p`, listed in another order. */
  function Relisted(p: Pairing, order: seq<nat>): Pairing
    requires Ordering(order, |p.rets|) && |p.aliases| == |p.rets| && |p.stacks| == |p.rets|
  {
    Pairing(Pick(p.rets, order), Pick(p.aliases, order), Pick(p.stacks, order))
  }

  /** Whatever the order of the far calls, detection finds the bridges of `p`. */
  ghost predicate OrderFree(m: Image, inv: Inventory, p: Pairing) {
    |p.rets| == |inv.exts| && |p.aliases| == |p.rets| && |p.stacks| == |p.rets| &&
    forall order :: Ordering(order, |inv.exts|) ==> Complete(m, Reordered(inv, order)) == Some(Relisted(p, order))
  }

  // ---- independent choices are found in any order --------------------------------------------------

  function Index(k: int): nat {
    if k < 0 then 0 else k
  }

  /** The choices of all far calls. */
  function Choices(m: Image, inv: Inventory): (p: Pairing)
    ensures |p.rets| == |inv.exts| && |p.aliases| == |inv.exts| && |p.stacks| == |inv.exts|
  {
    var n := |inv.exts|;
    Pairing(seq(n, b requires 0 <= b < n => Index(RetOf(inv, inv.exts[b]))),
            seq(n, b requires 0 <= b < n => Index(AliasOf(inv, inv.exts[b]))),
            seq(n, b requires 0 <= b < n => Index(StackOf(m, inv, inv.exts[b]))))
  }

  lemma PickDistinct(s: seq<nat>, order: seq<nat>, n: nat)
    requires Distinct(s) && Below(s, n) && Distinct(order) && Below(order, |s|)
    ensures Distinct(Pick(s, order)) && Below(Pick(s, order), n)
  {
    forall i, j | 0 <= i < j < |order| ensures Pick(s, order)[i] != Pick(s, order)[j] {
      assert order[i] != order[j];
    }
  }

  /** What a choice means for the bridge that has it. */
  lemma ChoiceMeans(m: Image, inv: Inventory, e: ExtRec)
    requires Choice(m, inv, e)
    ensures var r, a, s := RetOf(inv, e), AliasOf(inv, e), StackOf(m, inv, e);
            RetFits(e, inv.rets[r]) && AliasFits(e, inv.rets[r], inv.aliases[a]) && StackFits(m, inv.aliases[a], inv.stacks[s]) &&
            (forall j :: 0 <= j < |inv.rets| && RetFits(e, inv.rets[j]) ==> j == r) &&
            (forall j :: 0 <= j < |inv.aliases| && AliasFits(e, inv.rets[r], inv.aliases[j]) ==> j == a) &&
            (forall j :: 0 <= j < |inv.stacks| && StackFits(m, inv.aliases[a], inv.stacks[j]) && j != s ==>
               inv.stacks[j].src < inv.stacks[s].src || (inv.stacks[j].src == inv.stacks[s].src && s < j))
  {
    hide Sole, Nearest, ExtOk, AliasOk, RetFits, AliasFits, StackFits;
    var r := RetOf(inv, e);
    var a := AliasOf(inv, e);
    assert RetsFor(inv, [], e)[r];
    assert AliasesFor(inv, [], e, inv.rets[r])[a];
    forall j | 0 <= j < |inv.rets| && RetFits(e, inv.rets[j]) ensures j == r {
      assert RetsFor(inv, [], e)[j];
    }
    forall j | 0 <= j < |inv.aliases| && AliasFits(e, inv.rets[r], inv.aliases[j]) ensures j == a {
      assert AliasesFor(inv, [], e, inv.rets[r])[j];
    }
  }

  lemma ChoicesFound(m: Image, inv: Inventory, order: seq<nat>)
    requires Independent(m, inv) && Ordering(order, |inv.exts|)
    ensures Complete(m, Reordered(inv, order)) == Some(Relisted(Choices(m, inv), order))
  {
    hide Complete, ExtOk, AliasOk, RetFits, AliasFits, StackFits, RetOf, AliasOf, StackOf, Distinct, Below;
    var other, q := Reordered(inv, order), Relisted(Choices(m, inv), order);
    ChoicesIndices(m, inv, order);
    forall b | 0 <= b < |q.rets| ensures Fits(m, other, q, b) && OnlyOnes(other, q, b) && NearestLeft(m, other, q, b) {
      OrderBelow(order, |inv.exts|, b);
      var e := inv.exts[order[b]];
      assert Choice(m, inv, e);
      ChoiceMeans(m, inv, e);
    }
    BridgesFound(m, other, q);
  }

  lemma OrderBelow(order: seq<nat>, n: nat, b: nat)
    requires Ordering(order, n) && b < n
    ensures order[b] < n
  {
  }

  lemma ChoicesIndices(m: Image, inv: Inventory, order: seq<nat>)
    requires Independent(m, inv) && Ordering(order, |inv.exts|)
    ensures Indices(Reordered(inv, order), Relisted(Choices(m, inv), order)) && SameCounts(Reordered(inv, order))
  {
    hide ExtOk, AliasOk, RetOf, AliasOf, StackOf;
    var p := Choices(m, inv);
    forall b, c | 0 <= b < c < |inv.exts| ensures p.rets[b] != p.rets[c] && p.aliases[b] != p.aliases[c] && p.stacks[b] != p.stacks[c] {
      assert Apart(m, inv, inv.exts[b], inv.exts[c]);
    }
    PickDistinct(p.rets, order, |inv.rets|);
    PickDistinct(p.aliases, order, |inv.aliases|);
    PickDistinct(p.stacks, order, |inv.stacks|);
  }

  // ---- what is found in any order is independent -----------------------------------------------------

  /** The given order, with far call `b` and the first one exchanged. */
  function FirstIs(n: nat, b: nat): (order: seq<nat>)
    requires b < n
    ensures Ordering(order, n) && order[0] == b && (b == 0 ==> forall i :: 0 <= i < n ==> order[i] == i)
  {
    seq(n, i requires 0 <= i < n => if i == 0 then b else if i == b then 0 else i)
  }

  lemma FreeGiven(m: Image, inv: Inventory, p: Pairing)
    requires OrderFree(m, inv, p) && inv.exts != []
    ensures Complete(m, inv) == Some(p)
  {
    hide Complete;
    var order := FirstIs(|inv.exts|, 0);
    assert Pick(inv.exts, order) == inv.exts && Reordered(inv, order) == inv;
    assert Relisted(p, order) == p;
  }

  /** With its far call first, a bridge gets the nearest stack selector of all. */
  lemma FreeNearest(m: Image, inv: Inventory, p: Pairing, b: nat)
    requires OrderFree(m, inv, p) && Indices(inv, p) && b < |inv.exts| && Fits(m, inv, p, b)
    ensures Nearest(m, inv.aliases[p.aliases[b]], inv.stacks, [], |inv.stacks|) == p.stacks[b]
  {
    hide Complete, ExtOk, AliasOk, RetFits, AliasFits, StackFits, Nearest, Distinct, Bridged, Forced;
    var order := FirstIs(|inv.exts|, b);
    var other, q := Reordered(inv, order), Relisted(p, order);
    BridgesFound(m, other, q);
    assert NearestLeft(m, other, q, 0);
    assert q.stacks[..0] == [];
    NearestIs(m, inv.aliases[p.aliases[b]], inv.stacks, [], p.stacks[b]);
  }

  lemma FreeChoice(m: Image, inv: Inventory, p: Pairing, b: nat)
    requires OrderFree(m, inv, p) && Indices(inv, p) && |p.rets| == |inv.exts| && b < |inv.exts| && Fits(m, inv, p, b) && OnlyOnes(inv, p, b)
    ensures RetOf(inv, inv.exts[b]) == p.rets[b] && AliasOf(inv, inv.exts[b]) == p.aliases[b] &&
            StackOf(m, inv, inv.exts[b]) == p.stacks[b] && Choice(m, inv, inv.exts[b])
  {
    hide OrderFree, ExtOk, AliasOk, RetFits, AliasFits, StackFits, Nearest, Sole, Distinct;
    var e := inv.exts[b];
    SoleIs(RetsFor(inv, [], e), p.rets[b]);
    SoleIs(AliasesFor(inv, [], e, inv.rets[p.rets[b]]), p.aliases[b]);
    FreeNearest(m, inv, p, b);
  }

  /** The order of the far calls is irrelevant exactly if every far call has one return and one
      alias that fit it, a stack selector that fits the alias, and no two far calls have the same
      return, alias or nearest stack selector. */
  lemma OrderIrrelevant(m: Image, inv: Inventory)
    ensures (exists p :: OrderFree(m, inv, p)) <==> Independent(m, inv)
    ensures OrderFree(m, inv, Choices(m, inv)) <==> Independent(m, inv)
  {
    hide Complete, Choice, Apart, Fits, OnlyOnes, Bridged, Forced, RetOf, AliasOf, StackOf;
    if Independent(m, inv) {
      forall order | Ordering(order, |inv.exts|)
        ensures Complete(m, Reordered(inv, order)) == Some(Relisted(Choices(m, inv), order))
      {
        ChoicesFound(m, inv, order);
      }
      assert OrderFree(m, inv, Choices(m, inv));
    }
    if p :| OrderFree(m, inv, p) {
      FreeIndependent(m, inv, p);
    }
  }

  lemma FreeIndependent(m: Image, inv: Inventory, p: Pairing)
    requires OrderFree(m, inv, p)
    ensures Independent(m, inv)
  {
    hide Complete, Choice, Fits, OnlyOnes, RetOf, AliasOf, StackOf, OrderFree;
    NotEmpty(m, inv, p);
    FreeGiven(m, inv, p);
    BridgesFound(m, inv, p);
    forall b | 0 <= b < |inv.exts|
      ensures Choice(m, inv, inv.exts[b]) && RetOf(inv, inv.exts[b]) == p.rets[b] && AliasOf(inv, inv.exts[b]) == p.aliases[b] &&
              StackOf(m, inv, inv.exts[b]) == p.stacks[b]
    {
      FreeChoice(m, inv, p, b);
    }
  }

  lemma NotEmpty(m: Image, inv: Inventory, p: Pairing)
    requires OrderFree(m, inv, p)
    ensures inv.exts != [] && |p.rets| == |inv.exts|
  {
    hide Complete;
    if inv.exts == [] {
      NothingFound(m, inv);
    }
  }

  lemma NothingFound(m: Image, inv: Inventory)
    requires inv.exts == []
    ensures Ordering([], |inv.exts|) && Complete(m, Reordered(inv, [])) == None
  {
  }
}
