/** The loader's two-pass emission of the EMX dispatcher: placeholders first, then the
    forward branches are patched. */
module EmxEmitter {
  import opened Words
  import opened Far16Bridge
  import opened StubEmitter
  import opened EmxDispatcher

  datatype Import = Import(moduleName: string, ordinal: U32, address: U32)

  /** A row of the far16 API table. */
  datatype ApiDesc = ApiDesc(moduleName: string, ordinal: U32, widths: seq<U8>)

  /** Position of the first import a descriptor names; the import count if it is absent. */
  function FindImport(imports: seq<Import>, d: ApiDesc): (i: nat)
    ensures i <= |imports|
    ensures i < |imports| ==> imports[i].ordinal == d.ordinal && imports[i].moduleName == d.moduleName
    ensures forall k :: 0 <= k < i ==> imports[k].ordinal != d.ordinal || imports[k].moduleName != d.moduleName
    decreases |imports|
  {
    if imports == [] then 0
    else if imports[0].ordinal == d.ordinal && imports[0].moduleName == d.moduleName then 0
    else
      var i := FindImport(imports[1..], d);
      assert forall k :: 1 <= k < |imports| ==> imports[k] == imports[1..][k - 1];
      1 + i
  }

  /** The linear search both emission loops repeat. */
  method FindImportIndex(imports: seq<Import>, d: ApiDesc) returns (idx: nat)
    ensures idx == FindImport(imports, d)
  {
    idx := 0;
    while idx < |imports| && !(imports[idx].ordinal == d.ordinal && imports[idx].moduleName == d.moduleName)
      invariant idx <= |imports|
      invariant forall k :: 0 <= k < idx ==> imports[k].ordinal != d.ordinal || imports[k].moduleName != d.moduleName
    {
      idx := idx + 1;
    }
    var first := FindImport(imports, d);
    assert first == idx;
  }

  /** Every descriptor's import is present. */
  predicate Resolvable(descs: seq<ApiDesc>, imports: seq<Import>) {
    forall i :: 0 <= i < |descs| ==> FindImport(imports, descs[i]) < |imports|
  }

  predicate DescsWellFormed(descs: seq<ApiDesc>) {
    forall i :: 0 <= i < |descs| ==> WidthsKnown(descs[i].widths)
  }

  predicate DescsSmall(descs: seq<ApiDesc>) {
    forall i :: 0 <= i < |descs| ==> |descs[i].widths| <= MAX_ARGS
  }

  /** The table with its host addresses filled in. */
  function Resolved(descs: seq<ApiDesc>, imports: seq<Import>): (r: seq<Api>)
    requires Resolvable(descs, imports)
    ensures |r| == |descs|
  {
    seq(|descs|, i requires 0 <= i < |descs| => Api(descs[i].widths, imports[FindImport(imports, descs[i])].address))
  }

  // ---- table algebra -----------------------------------------------------------

  lemma {:induction false} TableSnoc(apis: seq<Api>, rels: seq<U32>, a: Api, r: U32)
    requires |rels| == |apis|
    ensures Table(apis + [a], rels + [r]) == Table(apis, rels) + (CompareCode(a.host) + JumpCode(r))
    decreases |apis|
  {
    hide CompareCode, JumpCode;
    if apis == [] {
      assert [a][1..] == [] && [r][1..] == [];
    } else {
      assert (apis + [a])[1..] == apis[1..] + [a] && (rels + [r])[1..] == rels[1..] + [r];
      TableSnoc(apis[1..], rels[1..], a, r);
    }
  }

  lemma {:induction false} CasesSnoc(apis: seq<Api>, a: Api)
    requires Apis(apis) && ApiEmittable(a)
    ensures Apis(apis + [a]) && Cases(apis + [a]) == Cases(apis) + CaseCode(a)
    decreases |apis|
  {
    hide CaseCode, ApiEmittable;
    if apis == [] {
      assert [a][1..] == [];
    } else {
      assert (apis + [a])[1..] == apis[1..] + [a];
      CasesSnoc(apis[1..], a);
    }
  }

  lemma {:induction false} CasesBeforeIs(apis: seq<Api>, i: nat)
    requires Apis(apis) && i <= |apis|
    ensures CasesBefore(apis, i) == |Cases(apis[..i])|
    decreases i
  {
    hide CaseCode, ApiEmittable;
    if i > 0 {
      assert apis[..i][1..] == apis[1..][..i - 1];
      CasesBeforeIs(apis[1..], i - 1);
    }
  }

  /** Writing a displacement into entry `i` changes exactly that entry. */
  lemma {:induction false} PatchTable(apis: seq<Api>, rels: seq<U32>, i: nat, r: U32)
    requires |rels| == |apis| && i < |apis|
    ensures var t := Table(apis, rels);
            t[..14 * i + 10] + Le32(r) + t[14 * i + 14..] == Table(apis, rels[i := r])
    decreases i
  {
    hide Le32;
    var t := Table(apis, rels);
    var entry := CompareCode(apis[0].host) + JumpCode(rels[0]);
    var rest := Table(apis[1..], rels[1..]);
    assert t == entry + rest;
    if i == 0 {
      assert rels[0 := r][1..] == rels[1..];
      assert t[..10] == CompareCode(apis[0].host) + [0x0f, 0x84];
    } else {
      assert rels[i := r][1..] == rels[1..][i - 1 := r];
      PatchTable(apis[1..], rels[1..], i - 1, r);
      assert t[..14 * i + 10] == entry + rest[..14 * (i - 1) + 10];
      assert t[14 * i + 14..] == rest[14 * (i - 1) + 14..];
    }
  }

  // ---- emission ----------------------------------------------------------------

  function Zeros(n: nat): (z: seq<U32>)
    ensures |z| == n
  {
    seq(n, _ => 0)
  }

  /** First loop: compare-and-branch entries with their displacements still zero. */
  method EmitTable(stub: array<U8>, descs: seq<ApiDesc>, imports: seq<Import>)
    returns (r: Emitted, dispatchPatch: seq<nat>)
    requires 14 * |descs| <= stub.Length
    modifies stub
    ensures r.Code? <==> Resolvable(descs, imports)
    ensures r.Code? ==> r.size == 14 * |descs| && |dispatchPatch| == |descs| &&
                        (forall i :: 0 <= i < |descs| ==> dispatchPatch[i] == 14 * i + 10)
    ensures r.Code? ==> stub[..r.size] == Table(Resolved(descs, imports), Zeros(|descs|))
  {
    hide Table, CompareCode, JumpCode, Le32;
    var p := 0;
    dispatchPatch := [];
    EmptyTable();
    assert Resolved(descs[..0], imports) == [];
    for i := 0 to |descs|
      invariant Resolvable(descs[..i], imports)
      invariant p == 14 * i && |dispatchPatch| == i
      invariant forall k :: 0 <= k < i ==> dispatchPatch[k] == 14 * k + 10
      invariant stub[..p] == Table(Resolved(descs[..i], imports), Zeros(i))
    {
      var idx := FindImportIndex(imports, descs[i]);
      if idx == |imports| {
        return Fatal("M30 EMX far16 target import is absent"), dispatchPatch;
      }
      var host := imports[idx].address;
      p := EmitEntry(stub, p, host);
      dispatchPatch := dispatchPatch + [p - 4];
      assert descs[..i + 1] == descs[..i] + [descs[i]];
      ghost var a := Api(descs[i].widths, host);
      assert Resolved(descs[..i + 1], imports) == Resolved(descs[..i], imports) + [a];
      assert Zeros(i + 1) == Zeros(i) + [0];
      TableSnoc(Resolved(descs[..i], imports), Zeros(i), a, 0);
    }
    assert descs[..|descs|] == descs;
    r := Code(p);
  }

  lemma EmptyTable()
    ensures Table([], []) == [] && Zeros(0) == []
  {
  }

  method EmitEntry(stub: array<U8>, start: nat, host: U32) returns (p: nat)
    requires start + 14 <= stub.Length
    modifies stub
    ensures p == start + 14 && stub[..p] == old(stub[..start]) + (CompareCode(host) + JumpCode(0))
  {
    hide Le32;
    p := Append(stub, start, [0x81, 0x7c, 0x24, 0x08]);
    p := Append(stub, p, Le32(host));
    p := Append(stub, p, [0x0f, 0x84]);
    p := Append(stub, p, Le32(0));
  }

  /** Third loop: one case per API; records where each starts. */
  method EmitCases(stub: array<U8>, start: nat, descs: seq<ApiDesc>, imports: seq<Import>)
    returns (r: Emitted, caseOff: seq<nat>)
    requires Resolvable(descs, imports) && DescsSmall(descs) && start + 55 * |descs| <= stub.Length
    modifies stub
    ensures r.Code? <==> DescsWellFormed(descs)
    ensures r.Code? ==> Apis(Resolved(descs, imports)) && start <= r.size <= stub.Length
    ensures r.Code? ==> |caseOff| == |descs|
    ensures r.Code? ==> forall i :: 0 <= i < |descs| ==> caseOff[i] == start + CasesBefore(Resolved(descs, imports), i)
    ensures r.Code? ==> stub[..r.size] == old(stub[..start]) + Cases(Resolved(descs, imports))
  {
    hide Cases, CaseCode, CasesBefore, ApiEmittable;
    var p := start;
    caseOff := [];
    ghost var before := stub[..start];
    ghost var apis := Resolved(descs, imports);
    EmptyCases();
    assert apis[..0] == [] && stub[..p] == before + [];
    for i := 0 to |descs|
      invariant DescsWellFormed(descs[..i]) && Apis(apis[..i])
      invariant start <= p <= start + 55 * i && |caseOff| == i && p == start + |Cases(apis[..i])|
      invariant forall k :: 0 <= k < i ==> caseOff[k] == start + |Cases(apis[..k])|
      invariant stub[..p] == before + Cases(apis[..i])
    {
      caseOff := caseOff + [p];
      var one := EmitCase(stub, p, descs[i], imports);
      if one.Fatal? {
        return one, caseOff;
      }
      p := one.size;
      assert apis[..i + 1] == apis[..i] + [apis[i]];
      CasesSnoc(apis[..i], apis[i]);
      ghost var done, last := Cases(apis[..i]), CaseCode(apis[i]);
      assert (before + done) + last == before + (done + last);
    }
    assert apis[..|descs|] == apis && descs[..|descs|] == descs;
    forall i | 0 <= i < |descs| ensures caseOff[i] == start + CasesBefore(apis, i) {
      CasesBeforeIs(apis, i);
    }
    r := Code(p);
  }

  lemma EmptyCases()
    ensures Cases([]) == []
  {
  }

  method EmitCase(stub: array<U8>, start: nat, d: ApiDesc, imports: seq<Import>) returns (r: Emitted)
    requires FindImport(imports, d) < |imports| && |d.widths| <= MAX_ARGS && start + 55 <= stub.Length
    modifies stub
    ensures r.Code? <==> WidthsKnown(d.widths)
    ensures r.Code? ==> var a := Api(d.widths, imports[FindImport(imports, d)].address);
              ApiEmittable(a) && start <= r.size <= start + 55 && r.size == start + |CaseCode(a)| &&
              stub[..r.size] == old(stub[..start]) + CaseCode(a)
  {
    hide ArgCode, CallCode, CleanupCode, FrameSize, Encodable;
    ghost var before := stub[..start];
    var p := Append(stub, start, [0x8b, 0x54, 0x24, 0x04]);
    var emitted, frameOff, pushed := EmitArguments(stub, p, d.widths);
    if emitted.Fatal? {
      return emitted;
    }
    FrameSizeBound(d.widths);
    var idx := FindImportIndex(imports, d);
    var host := imports[idx].address;
    p := EmitCall(stub, emitted.size, host);
    p := EmitCleanup(stub, p, pushed);
    p := Append(stub, p, [0xc3]);
    ghost var a := Api(d.widths, host);
    assert stub[..p] == before + CaseCode(a);
    r := Code(p);
  }

  /** Last loop: each displacement becomes the distance from the end of its jump to its case. */
  method PatchBranches(stub: array<U8>, ghost apis: seq<Api>, dispatchPatch: seq<nat>, caseOff: seq<nat>)
    requires Apis(apis) && |dispatchPatch| == |caseOff| == |apis| && 14 * |apis| <= stub.Length
    requires forall i :: 0 <= i < |apis| ==> dispatchPatch[i] == 14 * i + 10 && caseOff[i] == CaseOffset(apis, i)
    requires stub[..14 * |apis|] == Table(apis, Zeros(|apis|))
    modifies stub
    ensures stub[..] == Table(apis, Rels(apis)) + old(stub[14 * |apis|..])
  {
    hide Table, CaseOffset, Le32;
    ghost var n := 14 * |apis|;
    ghost var rels := Zeros(|apis|);
    for i := 0 to |dispatchPatch|
      invariant |rels| == |apis|
      invariant forall k :: 0 <= k < i ==> rels[k] == Rels(apis)[k]
      invariant stub[..n] == Table(apis, rels) && stub[n..] == old(stub[n..])
    {
      ghost var t := stub[..n];
      var from: int, to: int := dispatchPatch[i] + 4, caseOff[i];
      var rel := Wrap(to - from);
      Wr32(stub, dispatchPatch[i], rel);
      PatchTable(apis, rels, i, rel);
      ghost var u := t[..14 * i + 10] + Le32(rel) + t[14 * i + 14..];
      assert stub[..n] == u;
      rels := rels[i := rel];
      assert rel == Rel(apis, i);
    }
    assert rels == Rels(apis);
    assert stub[..] == stub[..n] + stub[n..];
  }

  /** The complete dispatcher for a table of at most 29 rows, in its 2048-byte buffer. */
  method EmitDispatcher(stub: array<U8>, descs: seq<ApiDesc>, imports: seq<Import>, handler: U32) returns (r: Emitted)
    requires stub.Length == 2048 && |descs| <= 29 && DescsSmall(descs)
    modifies stub
    ensures r.Code? <==> Resolvable(descs, imports) && DescsWellFormed(descs)
    ensures r.Code? ==> Apis(Resolved(descs, imports)) && r.size <= 2048 &&
                        stub[..r.size] == DispatcherCode(Resolved(descs, imports), handler)
  {
    hide Table, Cases, CasesBefore, CallCode, ApiEmittable;
    var table, dispatchPatch := EmitTable(stub, descs, imports);
    if table.Fatal? {
      return table;
    }
    ghost var apis := Resolved(descs, imports);
    var p := Append(stub, table.size, [0xff, 0x74, 0x24, 0x08]);
    p := Append(stub, p, [0xff, 0x74, 0x24, 0x08]);
    p := EmitCall(stub, p, handler);
    p := Append(stub, p, [0xcc]);
    ghost var head := Table(apis, Zeros(|descs|)) + UnknownCode(handler);
    assert stub[..p] == head;
    var cases, caseOff := EmitCases(stub, p, descs, imports);
    if cases.Fatal? {
      return cases;
    }
    p := cases.size;
    ghost var full := stub[..p];
    assert full == head + Cases(apis);
    assert stub[..14 * |descs|] == full[..14 * |descs|] == Table(apis, Zeros(|descs|));
    ghost var tail := stub[14 * |descs|..];
    assert tail[..p - 14 * |descs|] == full[14 * |descs|..] == UnknownCode(handler) + Cases(apis);
    PatchBranches(stub, apis, dispatchPatch, caseOff);
    assert stub[..p] == stub[..][..p] == Table(apis, Rels(apis)) + tail[..p - 14 * |descs|];
    r := Code(p);
  }
}
