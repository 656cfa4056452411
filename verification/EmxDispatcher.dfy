/** The EMX dispatcher: one stub that compares the caller's target word against every
    known host address and jumps to the case that calls it. */
module EmxDispatcher {
  import opened Options
  import opened Words
  import opened Machine
  import opened Far16Bridge

  /** One far16 API: its packed argument widths and the resolved host address. */
  datatype Api = Api(widths: seq<U8>, host: U32)

  predicate ApiEmittable(a: Api) {
    Emittable(a.widths)
  }

  predicate Apis(apis: seq<Api>) {
    forall i :: 0 <= i < |apis| ==> ApiEmittable(apis[i])
  }

  // ---- the emitted code ------------------------------------------------------

  function CompareCode(host: U32): seq<U8> { [0x81, 0x7c, 0x24, 0x08] + Le32(host) }

  function JumpCode(rel: U32): seq<U8> { [0x0f, 0x84] + Le32(rel) }

  /** Compare-and-branch entries, one per API. */
  function Table(apis: seq<Api>, rels: seq<U32>): (c: seq<U8>)
    requires |rels| == |apis|
    ensures |c| == 14 * |apis|
    decreases |apis|
  {
    if apis == [] then [] else CompareCode(apis[0].host) + JumpCode(rels[0]) + Table(apis[1..], rels[1..])
  }

  /** Push block and target, call the diagnostic, never come back. */
  function UnknownCode(handler: U32): (c: seq<U8>)
    ensures |c| == 16
  {
    [0xff, 0x74, 0x24, 0x08, 0xff, 0x74, 0x24, 0x08] + CallCode(handler) + [0xcc]
  }

  function CaseCode(a: Api): seq<U8>
    requires ApiEmittable(a)
  {
    [0x8b, 0x54, 0x24, 0x04] + ArgCode(a.widths, 4) + CallCode(a.host) + CaseReturn(|a.widths|)
  }

  function Cases(apis: seq<Api>): seq<U8>
    requires Apis(apis)
    decreases |apis|
  {
    if apis == [] then [] else CaseCode(apis[0]) + Cases(apis[1..])
  }

  /** Bytes of the cases before case `i`. */
  function CasesBefore(apis: seq<Api>, i: nat): nat
    requires Apis(apis) && i <= |apis|
    decreases i
  {
    if i == 0 then 0 else |CaseCode(apis[0])| + CasesBefore(apis[1..], i - 1)
  }

  /** Offset of case `i` from the start of the stub. */
  function CaseOffset(apis: seq<Api>, i: nat): nat
    requires Apis(apis) && i <= |apis|
  {
    14 * |apis| + 16 + CasesBefore(apis, i)
  }

  /** The displacement patched into entry `i`: case offset minus the address after the jump. */
  function Rel(apis: seq<Api>, i: nat): U32
    requires Apis(apis) && i < |apis|
  {
    Wrap(CaseOffset(apis, i) - (14 * i + 14))
  }

  function Rels(apis: seq<Api>): (r: seq<U32>)
    requires Apis(apis)
    ensures |r| == |apis|
  {
    seq(|apis|, i requires 0 <= i < |apis| => Rel(apis, i))
  }

  function DispatcherCode(apis: seq<Api>, handler: U32): seq<U8>
    requires Apis(apis)
  {
    Table(apis, Rels(apis)) + UnknownCode(handler) + Cases(apis)
  }

  // ---- dispatch ---------------------------------------------------------------

  /** Index of the first API whose host address is `target`; the table size if none. */
  function FirstMatch(apis: seq<Api>, target: U32): (i: nat)
    ensures i <= |apis|
    ensures i < |apis| ==> apis[i].host == target
    ensures forall k :: 0 <= k < i ==> apis[k].host != target
    decreases |apis|
  {
    if apis == [] then 0
    else if apis[0].host == target then 0
    else
      var i := FirstMatch(apis[1..], target);
      assert forall k :: 1 <= k < |apis| ==> apis[k] == apis[1..][k - 1];
      1 + i
  }

  /** One entry: jump to the case on a match, fall through to the next entry otherwise. */
  lemma EntryRuns(s: Cpu, host: U32, rel: U32)
    requires CodeAt(s.mem, s.eip, CompareCode(host) + JumpCode(rel)) && s.eip + 14 < TWO32
    ensures var hit := Dword(s.mem, s.esp + 8) == host;
            Run(s, 2) == Some(s.(zf := hit, eip := if hit then Wrap(s.eip + 14 + rel) else s.eip + 14))
  {
    hide Decode, Step, Run, Bytes, CodeAt, Le32, Dword;
    var code := CompareCode(host) + JumpCode(rel);
    BytesAt(s.mem, s.eip, code, 0, 8);
    BytesAt(s.mem, s.eip, code, 8, 14);
    assert code[0..8] == CompareCode(host) && code[8..14] == JumpCode(rel);
    assert s.eip + 0 == s.eip;
    DecodeImm(s.mem, s.eip, host);
    DecodeImm(s.mem, s.eip + 8, rel);
    StepBy(s, CmpTarget(host), 8);
    var t := s.(eip := s.eip + 8, zf := Dword(s.mem, s.esp + 8) == host);
    StepBy(t, Je(rel), 6);
    TwoSteps(s, t, Step(t).value);
  }

  /** Where control is after the table when entry `i` is the first match. */
  function TableExit(s: Cpu, apis: seq<Api>, rels: seq<U32>, i: nat): Cpu
    requires |rels| == |apis| && i <= |apis|
  {
    if i < |apis| then s.(zf := true, eip := Wrap(s.eip + 14 * i + 14 + rels[i]))
    else s.(zf := s.zf && apis == [], eip := Wrap(s.eip + 14 * |apis|))
  }

  /** One entry followed by the rest of the table. */
  lemma EntryThenTable(s: Cpu, first: Api, more: seq<Api>, rel: U32, rels: seq<U32>)
    requires |rels| == |more| && CodeAt(s.mem, s.eip, Table([first] + more, [rel] + rels))
    requires s.eip + 14 < TWO32
    ensures var hit := Dword(s.mem, s.esp + 8) == first.host;
            Run(s, 2) == Some(s.(zf := hit, eip := if hit then Wrap(s.eip + 14 + rel) else s.eip + 14))
    ensures CodeAt(s.mem, s.eip + 14, Table(more, rels))
  {
    hide Step, Run, CodeAt, Dword, Wrap;
    assert ([first] + more)[1..] == more && ([rel] + rels)[1..] == rels;
    var entry := CompareCode(first.host) + JumpCode(rel);
    CodeSplit(s.mem, s.eip, entry, Table(more, rels));
    EntryRuns(s, first.host, rel);
  }

  lemma FirstMatchCons(first: Api, more: seq<Api>, target: U32)
    ensures FirstMatch([first] + more, target) ==
            if first.host == target then 0 else 1 + FirstMatch(more, target)
  {
    assert ([first] + more)[1..] == more;
  }

  lemma NoMatchOfNone(s: Cpu)
    ensures FirstMatch([], Dword(s.mem, s.esp + 8)) == 0 && Run(s, 0) == Some(s)
  {
  }

  /** Running the table: the first matching entry decides, and if none matches control
      falls out at its end. Entry `k` branches to `s.eip + 14 k + 14 + rels[k]`. */
  lemma {:induction false} TableRuns(s: Cpu, apis: seq<Api>, rels: seq<U32>)
    requires |rels| == |apis| && CodeAt(s.mem, s.eip, Table(apis, rels))
    requires s.eip + 14 * |apis| < TWO32
    ensures var i := FirstMatch(apis, Dword(s.mem, s.esp + 8));
            Run(s, if i < |apis| then 2 * i + 2 else 2 * i) == Some(TableExit(s, apis, rels, i))
    decreases |apis|
  {
    hide Step, Dword, CodeAt, Table, FirstMatch, Wrap;
    if apis == [] {
      NoMatchOfNone(s);
      WrapId(s.eip);
    } else {
      hide Run;
      var more, later := apis[1..], rels[1..];
      assert apis == [apis[0]] + more && rels == [rels[0]] + later;
      var target := Dword(s.mem, s.esp + 8);
      EntryThenTable(s, apis[0], more, rels[0], later);
      FirstMatchCons(apis[0], more, target);
      if apis[0].host != target {
        var t := s.(zf := false, eip := s.eip + 14);
        TableRuns(t, more, later);
        var i := FirstMatch(more, target);
        RunThen(s, 2, if i < |more| then 2 * i + 2 else 2 * i);
      }
    }
  }

  // ---- one case ------------------------------------------------------------------

  /** Control is at the code of case `a`, called as EMX_THUNK1(block, target). */
  ghost predicate AtCase(s: Cpu, a: Api)
    requires ApiEmittable(a)
  {
    var size := |CaseCode(a)|;
    CodeAt(s.mem, s.eip, CaseCode(a)) && FrameRoom(s, a, s.eip, size)
  }

  /** The stack below ESP has room and meets neither the code nor the packed block. */
  ghost predicate FrameRoom(s: Cpu, a: Api, code: int, size: nat) {
    var block := Dword(s.mem, s.esp + 4);
    var room := 4 * |a.widths| + 4;
    code + size < TWO32 && room <= s.esp && s.esp + 12 <= TWO32 &&
    Clear(code, size, s.esp, room) &&
    block + 4 + FrameSize(a.widths) <= TWO32 && Clear(block + 4, FrameSize(a.widths), s.esp, room)
  }

  function CaseEntry(s: Cpu): Cpu {
    s.(edx := Dword(s.mem, s.esp + 4), eip := Wrap(s.eip + 4))
  }

  function CaseCalled(s: Cpu, a: Api): Cpu
    requires ApiEmittable(a)
  {
    Called(CaseEntry(s), a.widths, a.host)
  }

  function CaseReturn(n: nat): seq<U8>
    requires 4 * n <= 127
  {
    CleanupCode(n) + [0xc3]
  }

  lemma CaseParts(m: Memory, at: int, a: Api)
    requires ApiEmittable(a) && CodeAt(m, at, CaseCode(a))
    ensures CodeAt(m, at, [0x8b, 0x54, 0x24, 0x04])
    ensures CodeAt(m, at + 4, ArgCode(a.widths, 4))
    ensures CodeAt(m, at + 4 + |ArgCode(a.widths, 4)|, CallCode(a.host))
    ensures CodeAt(m, at + 11 + |ArgCode(a.widths, 4)|, CaseReturn(|a.widths|))
    ensures |CaseCode(a)| == 11 + |ArgCode(a.widths, 4)| + |CaseReturn(|a.widths|)|
  {
    hide CodeAt, ArgCode, CallCode, CleanupCode, Encodable, FrameSize;
    var args, call := ArgCode(a.widths, 4), CallCode(a.host);
    CallSize(a.host);
    CodeSplit(m, at, [0x8b, 0x54, 0x24, 0x04] + args + call, CaseReturn(|a.widths|));
    CodeSplit(m, at, [0x8b, 0x54, 0x24, 0x04] + args, call);
    CodeSplit(m, at, [0x8b, 0x54, 0x24, 0x04], args);
  }

  lemma CaseStarts(s: Cpu, a: Api)
    requires ApiEmittable(a) && AtCase(s, a)
    ensures Run(s, 1) == Some(CaseEntry(s)) && CallReady(CaseEntry(s), a.widths, a.host)
  {
    hide Decode, Step, Bytes, CodeAt, ArgCode, CallCode, CleanupCode, FrameSize, Encodable, Dword;
    CaseParts(s.mem, s.eip, a);
    var code: seq<U8> := [0x8b, 0x54, 0x24, 0x04];
    BytesAt(s.mem, s.eip, code, 0, 4);
    assert code[0..4] == code && s.eip + 0 == s.eip;
    DecodeShort(s.mem, s.eip);
    StepBy(s, MovEdxArg, 4);
    assert Run(Step(s).value, 0) == Step(s);
  }

  /** The case calls its host with the packed block's arguments, reversed. */
  lemma CaseReachesHost(s: Cpu, a: Api)
    requires ApiEmittable(a) && AtCase(s, a)
    ensures Run(s, 2 * |a.widths| + 3) == Some(CaseCalled(s, a))
    ensures var c := CaseCalled(s, a);
            var block := Dword(s.mem, s.esp + 4);
            c.eip == a.host && c.esp == s.esp - 4 * |a.widths| - 4 &&
            SeesArguments(c, FrameArgs(s.mem, block + 4, a.widths)) &&
            SameOutside(s.mem, c.mem, s.esp - 4 * |a.widths| - 4, s.esp) &&
            Dword(c.mem, c.esp) == s.eip + |CaseCode(a)| - |CaseReturn(|a.widths|)|
  {
    hide Step, Run, CodeAt, CaseCode, CaseReturn, ArgCode, CallCode, FrameArgs, FrameSize, SameOutside, Encodable, Dword, SeesArguments, CallReady;
    CaseStarts(s, a);
    CaseParts(s.mem, s.eip, a);
    var e := CaseEntry(s);
    ArgsThenCall(e, a.widths, a.host);
    HostSeesArguments(e, a.widths, a.host);
    RunThen(s, 1, 2 * |a.widths| + 2);
  }

  /** The host returned to the case; the case code and the caller's return address survive. */
  ghost predicate CaseResumed(s: Cpu, r: Cpu, a: Api)
    requires ApiEmittable(a)
  {
    var c := CaseCalled(s, a);
    r.eip == Dword(c.mem, c.esp) && r.esp == Wrap(c.esp + 4) &&
    CodeAt(r.mem, s.eip, CaseCode(a)) && Dword(r.mem, s.esp) == Dword(s.mem, s.esp)
  }

  lemma RetRuns(s: Cpu)
    requires CodeAt(s.mem, s.eip, [0xc3]) && s.eip + 1 < TWO32 && s.esp + 4 < TWO32
    ensures Step(s) == Some(s.(eip := Dword(s.mem, s.esp), esp := s.esp + 4))
  {
    hide Decode, Step, Bytes, CodeAt, Dword;
    var code: seq<U8> := [0xc3];
    BytesAt(s.mem, s.eip, code, 0, 1);
    assert code[0..1] == code && s.eip + 0 == s.eip;
    DecodeShort(s.mem, s.eip);
    StepBy(s, Ret, 1);
  }

  /** The case returns to the wrapper with the host's result and the stack balanced. */
  lemma CaseReturns(s: Cpu, r: Cpu, a: Api)
    requires ApiEmittable(a) && AtCase(s, a) && CaseResumed(s, r, a)
    ensures Run(r, ReturnSteps(a.widths)) == Some(r.(eip := Dword(s.mem, s.esp), esp := s.esp + 4))
  {
    hide Step, CodeAt, CaseCode, CaseCalled, ArgCode, CallCode, FrameArgs, FrameSize, SameOutside, Encodable, Dword, SeesArguments;
    CaseReachesHost(s, a);
    CaseParts(r.mem, s.eip, a);
    var n := |a.widths|;
    CodeSplit(r.mem, r.eip, CleanupCode(n), [0xc3]);
    if n == 0 {
      assert r.eip + |CleanupCode(n)| == r.eip;
      RetRuns(r);
      assert Run(Step(r).value, 0) == Step(r);
    } else {
      CleanupRuns(r, n);
      var t := Step(r).value;
      RetRuns(t);
      TwoSteps(r, t, Step(t).value);
    }
  }

  // ---- the unknown-target handler --------------------------------------------------

  /** An unrecognised target reaches the diagnostic with (block, target) as its arguments. */
  lemma UnknownReachesHandler(s: Cpu, handler: U32)
    requires CodeAt(s.mem, s.eip, UnknownCode(handler)) && s.eip + 16 < TWO32
    requires 12 <= s.esp && s.esp + 12 <= TWO32 && Clear(s.eip, 16, s.esp, 12)
    ensures var c := Run(s, 4);
            c.Some? && c.value.eip == handler && c.value.esp == s.esp - 12 &&
            Dword(c.value.mem, c.value.esp + 4) == Dword(s.mem, s.esp + 4) &&
            Dword(c.value.mem, c.value.esp + 8) == Dword(s.mem, s.esp + 8)
  {
    hide Decode, Step, Run, Bytes, CodeAt, CallCode, Dword, Put32, SameOutside;
    var code := UnknownCode(handler);
    CallSize(handler);
    var push: seq<U8> := [0xff, 0x74, 0x24, 0x08];
    var call := CallCode(handler);
    assert code == (push + push + call) + [0xcc];
    CodeSplit(s.mem, s.eip, push + push + call, [0xcc]);
    CodeSplit(s.mem, s.eip, push + push, call);
    CodeSplit(s.mem, s.eip, push, push);
    var target, block := Dword(s.mem, s.esp + 8), Dword(s.mem, s.esp + 4);
    PushTargetRuns(s);
    var t := Step(s).value;
    Put32Facts(s.mem, s.esp - 4, target);
    CodeKept(s.mem, t.mem, t.eip, push, s.esp - 4, s.esp);
    CodeKept(s.mem, t.mem, t.eip + 4, call, s.esp - 4, s.esp);
    DwordKept(s.mem, t.mem, s.esp + 4, s.esp - 4, s.esp);
    PushTargetRuns(t);
    var u := Step(t).value;
    assert t.esp + 8 == s.esp + 4;
    Put32Facts(t.mem, t.esp - 4, block);
    CodeKept(t.mem, u.mem, u.eip, call, t.esp - 4, t.esp);
    DwordKept(t.mem, u.mem, s.esp - 4, t.esp - 4, t.esp);
    TwoSteps(s, t, u);
    CallRuns(u, handler);
    var c := Run(u, 2).value;
    Put32Facts(u.mem, u.esp - 4, u.eip + 7);
    DwordKept(u.mem, c.mem, s.esp - 4, u.esp - 4, u.esp);
    DwordKept(u.mem, c.mem, s.esp - 8, u.esp - 4, u.esp);
    RunThen(s, 2, 2);
  }

  lemma PushTargetRuns(s: Cpu)
    requires CodeAt(s.mem, s.eip, [0xff, 0x74, 0x24, 0x08]) && s.eip + 4 < TWO32 && 4 <= s.esp
    ensures Step(s) == Some(s.(eip := s.eip + 4, esp := s.esp - 4,
                               mem := Put32(s.mem, s.esp - 4, Dword(s.mem, s.esp + 8))))
  {
    hide Decode, Step, Bytes, CodeAt, Dword, Put32;
    var code: seq<U8> := [0xff, 0x74, 0x24, 0x08];
    BytesAt(s.mem, s.eip, code, 0, 4);
    assert code[0..4] == code && s.eip + 0 == s.eip;
    DecodeShort(s.mem, s.eip);
    StepBy(s, PushTarget, 4);
  }

  // ---- the whole dispatcher ----------------------------------------------------------

  lemma {:induction false} CaseAt(m: Memory, at: int, apis: seq<Api>, i: nat)
    requires Apis(apis) && i < |apis| && CodeAt(m, at, Cases(apis))
    ensures CodeAt(m, at + CasesBefore(apis, i), CaseCode(apis[i]))
    ensures CasesBefore(apis, i) + |CaseCode(apis[i])| <= |Cases(apis)|
    decreases |apis|
  {
    hide CodeAt, CaseCode, ApiEmittable;
    CodeSplit(m, at, CaseCode(apis[0]), Cases(apis[1..]));
    if i > 0 {
      CaseAt(m, at + |CaseCode(apis[0])|, apis[1..], i - 1);
    }
  }

  /** EMX_THUNK1(block, target) has just been entered. */
  ghost predicate AtDispatcher(s: Cpu, apis: seq<Api>, handler: U32)
    requires Apis(apis)
  {
    var code := DispatcherCode(apis, handler);
    CodeAt(s.mem, s.eip, code) && s.eip + |code| < TWO32
  }

  lemma DispatcherParts(s: Cpu, apis: seq<Api>, handler: U32)
    requires Apis(apis) && AtDispatcher(s, apis, handler)
    ensures CodeAt(s.mem, s.eip, Table(apis, Rels(apis)))
    ensures CodeAt(s.mem, s.eip + 14 * |apis|, UnknownCode(handler))
    ensures CodeAt(s.mem, s.eip + 14 * |apis| + 16, Cases(apis))
    ensures |DispatcherCode(apis, handler)| == 14 * |apis| + 16 + |Cases(apis)|
  {
    hide CodeAt, Table, Cases, Rels, UnknownCode;
    CodeSplit(s.mem, s.eip, Table(apis, Rels(apis)) + UnknownCode(handler), Cases(apis));
    CodeSplit(s.mem, s.eip, Table(apis, Rels(apis)), UnknownCode(handler));
  }

  /** Dispatch is exact: the first table entry with the caller's target gets control at its
      own case, and when there is none the unknown-target code does; memory, ESP and the
      other registers are untouched. */
  lemma DispatchCorrect(s: Cpu, apis: seq<Api>, handler: U32)
    requires Apis(apis) && AtDispatcher(s, apis, handler)
    ensures var i := FirstMatch(apis, Dword(s.mem, s.esp + 8));
            if i < |apis| then
              Run(s, 2 * i + 2) == Some(s.(zf := true, eip := Wrap(s.eip + CaseOffset(apis, i)))) &&
              CodeAt(s.mem, s.eip + CaseOffset(apis, i), CaseCode(apis[i])) &&
              CaseOffset(apis, i) + |CaseCode(apis[i])| <= |DispatcherCode(apis, handler)|
            else
              Run(s, 2 * i) == Some(s.(zf := s.zf && apis == [], eip := Wrap(s.eip + 14 * |apis|))) &&
              CodeAt(s.mem, s.eip + 14 * |apis|, UnknownCode(handler))
  {
    hide Step, Run, CodeAt, Table, Cases, CasesBefore, UnknownCode, CaseCode, Dword, DispatcherCode, FirstMatch, Wrap;
    DispatcherParts(s, apis, handler);
    var i := FirstMatch(apis, Dword(s.mem, s.esp + 8));
    TableRuns(s, apis, Rels(apis));
    if i < |apis| {
      CaseAt(s.mem, s.eip + 14 * |apis| + 16, apis, i);
      RelLands(s.eip, apis, i);
    }
  }

  lemma RelLands(at: U32, apis: seq<Api>, i: nat)
    requires Apis(apis) && i < |apis| && at + CaseOffset(apis, i) < TWO32
    ensures Wrap(at + 14 * i + 14 + Rels(apis)[i]) == Wrap(at + CaseOffset(apis, i))
  {
    hide CasesBefore;
    assert Rels(apis)[i] == Rel(apis, i);
  }

  /** End to end for a known target: its host is called with the block's arguments, and the
      wrapper is resumed with the host's result and its stack pointer where the call left it. */
  lemma KnownTargetCorrect(s: Cpu, apis: seq<Api>, handler: U32)
    requires Apis(apis) && AtDispatcher(s, apis, handler)
    requires var i := FirstMatch(apis, Dword(s.mem, s.esp + 8));
             i < |apis| && FrameRoom(s, apis[i], s.eip, |DispatcherCode(apis, handler)|)
    ensures var i := FirstMatch(apis, Dword(s.mem, s.esp + 8));
            var a := apis[i];
            var d := s.(zf := true, eip := Wrap(s.eip + CaseOffset(apis, i)));
            var c := CaseCalled(d, a);
            Run(s, 2 * i + 2 + 2 * |a.widths| + 3) == Some(c) && c.eip == Dword(s.mem, s.esp + 8) &&
            SeesArguments(c, FrameArgs(s.mem, Dword(s.mem, s.esp + 4) + 4, a.widths)) &&
            forall r: Cpu :: CaseResumed(d, r, a) ==>
              Run(r, ReturnSteps(a.widths)) == Some(r.(eip := Dword(s.mem, s.esp), esp := Wrap(s.esp + 4)))
  {
    hide Step, Run, CodeAt, CaseCode, CaseCalled, CasesBefore, UnknownCode, FrameArgs, FrameSize, SameOutside, Dword, DispatcherCode, SeesArguments, CaseResumed;
    DispatchCorrect(s, apis, handler);
    var i := FirstMatch(apis, Dword(s.mem, s.esp + 8));
    var a := apis[i];
    var d := s.(zf := true, eip := Wrap(s.eip + CaseOffset(apis, i)));
    CaseReachesHost(d, a);
    RunThen(s, 2 * i + 2, 2 * |a.widths| + 3);
    forall r: Cpu | CaseResumed(d, r, a)
      ensures Run(r, ReturnSteps(a.widths)) == Some(r.(eip := Dword(s.mem, s.esp), esp := Wrap(s.esp + 4)))
    {
      CaseReturns(d, r, a);
    }
  }

  /** End to end for a target no entry knows: the diagnostic gets (block, target). */
  lemma UnknownTargetCorrect(s: Cpu, apis: seq<Api>, handler: U32)
    requires Apis(apis) && AtDispatcher(s, apis, handler)
    requires FirstMatch(apis, Dword(s.mem, s.esp + 8)) == |apis|
    requires 12 <= s.esp && s.esp + 12 <= TWO32 && Clear(s.eip, |DispatcherCode(apis, handler)|, s.esp, 12)
    ensures var c := Run(s, 2 * |apis| + 4);
            c.Some? && c.value.eip == handler &&
            Dword(c.value.mem, c.value.esp + 4) == Dword(s.mem, s.esp + 4) &&
            Dword(c.value.mem, c.value.esp + 8) == Dword(s.mem, s.esp + 8)
  {
    hide Step, Run, CodeAt, Table, Cases, UnknownCode, Dword, FirstMatch;
    DispatchCorrect(s, apis, handler);
    DispatcherParts(s, apis, handler);
    var d := s.(zf := s.zf && apis == [], eip := s.eip + 14 * |apis|);
    UnknownReachesHandler(d, handler);
    RunThen(s, 2 * |apis|, 4);
  }
}
