/** The native stubs the loader emits for 16-bit Pascal calls: what each emitter
    writes, and what the written bytes do. */
module Far16Bridge {
  import opened Options
  import opened Words
  import opened Machine

  // ---- the code generator's output -------------------------------------

  /** Bytes a packed Pascal frame with these argument widths occupies. */
  function FrameSize(widths: seq<U8>): (n: nat) {
    if widths == [] then 0 else widths[0] + FrameSize(widths[1..])
  }

  /** Every width is 2 or 4 and every argument starts within a signed byte of EDX. */
  predicate Encodable(widths: seq<U8>, off: nat) {
    widths == [] ||
    ((widths[0] == 2 || widths[0] == 4) && off <= 127 && Encodable(widths[1..], off + widths[0]))
  }

  function LoadPush(width: U8, off: nat): seq<U8>
    requires (width == 2 || width == 4) && off <= 127
  {
    if width == 2 then [0x0f, 0xb7, 0x42, off, 0x50] else [0x8b, 0x42, off, 0x50]
  }

  /** Code that widens and pushes the arguments found from `off` upwards. */
  function ArgCode(widths: seq<U8>, off: nat): seq<U8>
    requires Encodable(widths, off)
  {
    if widths == [] then [] else LoadPush(widths[0], off) + ArgCode(widths[1..], off + widths[0])
  }

  function CallCode(host: U32): seq<U8> {
    [0xb8] + Le32(host) + [0xff, 0xd0]
  }

  function CleanupCode(count: nat): seq<U8>
    requires 4 * count <= 127
  {
    if count == 0 then [] else [0x83, 0xc4, 4 * count]
  }

  /** What follows the call in a C/386 stub: drop the pushed words, pop the frame. */
  function ReturnCode(count: nat, frame: nat): seq<U8>
    requires 4 * count <= 127 && frame < 0x1_0000
  {
    CleanupCode(count) + [0xc2] + Le16(frame)
  }

  /** A bridge stub for one descriptor. */
  function StubCode(widths: seq<U8>, host: U32): seq<U8>
    requires Emittable(widths)
  {
    [0x8b, 0xd4] + ArgCode(widths, 4) + CallCode(host) + ReturnCode(|widths|, FrameSize(widths))
  }

  // ---- what the frame holds --------------------------------------------

  function Load(m: Memory, a: int, width: U8): U32 {
    if width == 2 then Word(m, a) else Dword(m, a)
  }

  /** The zero-extended arguments of a packed frame at `a`, in frame order. */
  function FrameArgs(m: Memory, a: int, widths: seq<U8>): (v: seq<U32>)
    ensures |v| == |widths|
    decreases |widths|
  {
    if widths == [] then []
    else [Load(m, a, widths[0])] + FrameArgs(m, a + widths[0], widths[1..])
  }

  function PushAll(m: Memory, sp: int, vals: seq<U32>): Memory
    decreases |vals|
  {
    if vals == [] then m else PushAll(Put32(m, sp - 4, vals[0]), sp - 4, vals[1..])
  }

  lemma FrameLoadKept(m: Memory, n: Memory, a: int, width: U8, lo: int, hi: int)
    requires width == 2 || width == 4
    requires SameOutside(m, n, lo, hi) && 0 <= a && a + width <= TWO32
    requires a + width <= lo || hi <= a
    ensures Load(n, a, width) == Load(m, a, width)
  {
    hide Join16, Join32;
  }

  lemma {:induction false} FrameArgsKept(m: Memory, n: Memory, a: int, widths: seq<U8>, off: nat, lo: int, hi: int)
    requires Encodable(widths, off)
    requires SameOutside(m, n, lo, hi) && 0 <= a && a + FrameSize(widths) <= TWO32
    requires a + FrameSize(widths) <= lo || hi <= a
    ensures FrameArgs(n, a, widths) == FrameArgs(m, a, widths)
    decreases |widths|
  {
    hide Wrap, Join16, Join32;
    if widths != [] {
      FrameLoadKept(m, n, a, widths[0], lo, hi);
      FrameArgsKept(m, n, a + widths[0], widths[1..], off + widths[0], lo, hi);
    }
  }

  /** Pushing leaves the values in reverse order above the new stack pointer. */
  lemma {:induction false} PushAllFacts(m: Memory, sp: int, vals: seq<U32>)
    requires 4 * |vals| <= sp <= TWO32
    ensures SameOutside(m, PushAll(m, sp, vals), sp - 4 * |vals|, sp)
    ensures forall j :: 0 <= j < |vals| ==>
              Dword(PushAll(m, sp, vals), sp - 4 * |vals| + 4 * j) == vals[|vals| - 1 - j]
    decreases |vals|
  {
    hide Dword, Put32;
    if vals != [] {
      var m1 := Put32(m, sp - 4, vals[0]);
      Put32Facts(m, sp - 4, vals[0]);
      PushAllFacts(m1, sp - 4, vals[1..]);
      var n := PushAll(m, sp, vals);
      DwordKept(m1, n, sp - 4, sp - 4 * |vals|, sp - 4);
      forall j | 0 <= j < |vals| ensures Dword(n, sp - 4 * |vals| + 4 * j) == vals[|vals| - 1 - j] {
        if j < |vals| - 1 {
          assert vals[1..][|vals| - 2 - j] == vals[|vals| - 1 - j];
        } else {
          assert sp - 4 * |vals| + 4 * j == sp - 4;
        }
      }
    }
  }

  // ---- running the argument code ---------------------------------------

  lemma LoadPushDecodes(m: Memory, a: int, width: U8, off: nat)
    requires (width == 2 || width == 4) && off <= 127
    requires CodeAt(m, a, LoadPush(width, off))
    ensures Decode(m, a) == if width == 2 then (LoadWord(off), 4) else (LoadDword(off), 3)
    ensures Decode(m, a + |LoadPush(width, off)| - 1) == (PushEax, 1)
  {
    hide Decode, Bytes, CodeAt;
    var code := LoadPush(width, off);
    var n := |code| - 1;
    BytesAt(m, a, code, 0, n);
    BytesAt(m, a, code, n, n + 1);
    DecodeDisp(m, a, off);
    DecodeShort(m, a + n);
    assert code[n..n + 1] == [0x50];
    assert code[0..n] == if width == 2 then [0x0f, 0xb7, 0x42, off] else [0x8b, 0x42, off];
    assert a + 0 == a;
  }

  /** The state after one load-and-push pair. */
  function LoadedAndPushed(s: Cpu, width: U8, off: nat): Cpu
    requires (width == 2 || width == 4) && off <= 127
  {
    var v := Load(s.mem, s.edx + off, width);
    s.(eax := v, eip := Wrap(s.eip + |LoadPush(width, off)|), esp := Wrap(s.esp - 4),
       mem := Put32(s.mem, s.esp - 4, v))
  }

  /** One load-and-push pair moves one argument from the frame to the stack. */
  lemma LoadPushRuns(s: Cpu, width: U8, off: nat)
    requires (width == 2 || width == 4) && off <= 127
    requires CodeAt(s.mem, s.eip, LoadPush(width, off))
    requires s.eip + |LoadPush(width, off)| < TWO32 && 4 <= s.esp
    ensures Run(s, 2) == Some(LoadedAndPushed(s, width, off))
  {
    hide Decode, Step, Run, Put32, Word, Dword, CodeAt;
    LoadPushDecodes(s.mem, s.eip, width, off);
    var n := |LoadPush(width, off)| - 1;
    StepBy(s, if width == 2 then LoadWord(off) else LoadDword(off), n);
    var t := s.(eax := Load(s.mem, s.edx + off, width), eip := s.eip + n);
    StepPush(t);
    TwoSteps(s, t, Step(t).value);
  }

  /** `size` bytes from `a` do not meet the `room` bytes below `sp`. */
  ghost predicate Clear(a: int, size: int, sp: int, room: int) {
    a + size <= sp - room || sp <= a
  }

  /** The state after the whole argument block ran from `s`. */
  function AfterArgs(s: Cpu, widths: seq<U8>, off: nat, codeSize: nat): Cpu {
    var vals := FrameArgs(s.mem, s.edx + off, widths);
    s.(eax := LastOr(s.eax, vals), eip := Wrap(s.eip + codeSize),
       esp := Wrap(s.esp - 4 * |widths|), mem := PushAll(s.mem, s.esp, vals))
  }

  function LastOr(v: U32, vals: seq<U32>): U32 {
    if vals == [] then v else vals[|vals| - 1]
  }

  ghost predicate ArgsReady(s: Cpu, widths: seq<U8>, off: nat)
    requires Encodable(widths, off)
  {
    var size := |ArgCode(widths, off)|;
    CodeAt(s.mem, s.eip, ArgCode(widths, off)) && s.eip + size < TWO32 && 4 * |widths| <= s.esp &&
    Clear(s.eip, size, s.esp, 4 * |widths|) &&
    s.edx + off + FrameSize(widths) <= TWO32 &&
    Clear(s.edx + off, FrameSize(widths), s.esp, 4 * |widths|)
  }

  lemma ConsFacts(width: U8, more: seq<U8>, off: nat)
    requires Encodable([width] + more, off)
    ensures (width == 2 || width == 4) && off <= 127 && Encodable(more, off + width)
    ensures ArgCode([width] + more, off) == LoadPush(width, off) + ArgCode(more, off + width)
    ensures FrameSize([width] + more) == width + FrameSize(more)
  {
    assert ([width] + more)[1..] == more;
  }

  /** Running the first load and push leaves the rest of the block ready to run. */
  lemma ArgCodeStep(s: Cpu, width: U8, more: seq<U8>, off: nat, t: Cpu)
    requires Encodable([width] + more, off) && ArgsReady(s, [width] + more, off)
    requires (width == 2 || width == 4) && off <= 127 && Encodable(more, off + width)
    requires t == LoadedAndPushed(s, width, off)
    ensures Run(s, 2) == Some(t) && ArgsReady(t, more, off + width)
    ensures FrameArgs(t.mem, s.edx + (off + width), more) == FrameArgs(s.mem, s.edx + (off + width), more)
  {
    hide Step, Put32, Load, CodeAt, SameOutside, Run, FrameArgs, FrameSize, ArgCode, Encodable;
    var one := LoadPush(width, off);
    var rest := ArgCode(more, off + width);
    ConsFacts(width, more, off);
    CodeSplit(s.mem, s.eip, one, rest);
    LoadPushRuns(s, width, off);
    assert t.esp == s.esp - 4 && t.eip == s.eip + |one|;
    PushKeeps(s.mem, t.mem, s.esp, Load(s.mem, s.edx + off, width), t.eip, rest, s.edx + (off + width), more, off + width);
  }

  lemma PushKeeps(m: Memory, n: Memory, sp: int, v: U32, at: int, code: seq<U8>, frame: int, widths: seq<U8>, off: nat)
    requires 4 <= sp <= TWO32 && n == Put32(m, sp - 4, v)
    requires CodeAt(m, at, code) && Clear(at, |code|, sp, 4)
    requires Encodable(widths, off) && 0 <= frame && frame + FrameSize(widths) <= TWO32
    requires Clear(frame, FrameSize(widths), sp, 4)
    ensures CodeAt(n, at, code) && FrameArgs(n, frame, widths) == FrameArgs(m, frame, widths)
  {
    hide Put32, CodeAt, SameOutside, FrameArgs, FrameSize, Encodable;
    Put32Facts(m, sp - 4, v);
    CodeKept(m, n, at, code, sp - 4, sp);
    FrameArgsKept(m, n, frame, widths, off, sp - 4, sp);
  }

  lemma ReadyRoom(s: Cpu, widths: seq<U8>, off: nat)
    requires Encodable(widths, off) && ArgsReady(s, widths, off) && widths != []
    ensures 4 <= s.esp && s.eip + |LoadPush(widths[0], off)| < TWO32
  {
  }

  lemma AfterArgsCons(s: Cpu, t: Cpu, width: U8, more: seq<U8>, off: nat, codeSize: nat)
    requires (width == 2 || width == 4) && off <= 127
    requires t == LoadedAndPushed(s, width, off) && 4 <= s.esp && s.eip + |LoadPush(width, off)| < TWO32
    requires FrameArgs(t.mem, s.edx + (off + width), more) == FrameArgs(s.mem, s.edx + (off + width), more)
    ensures AfterArgs(t, more, off + width, codeSize) ==
            AfterArgs(s, [width] + more, off, |LoadPush(width, off)| + codeSize)
  {
    hide Put32, Load;
    assert ([width] + more)[1..] == more;
    var v := Load(s.mem, s.edx + off, width);
    var vals := FrameArgs(s.mem, s.edx + (off + width), more);
    assert s.edx + off + width == s.edx + (off + width);
    assert FrameArgs(s.mem, s.edx + off, [width] + more) == [v] + vals;
    hide FrameArgs;
    PushAllCons(s.mem, s.esp, v, vals);
    assert LastOr(v, vals) == LastOr(s.eax, [v] + vals);
    hide PushAll;
  }

  lemma PushAllCons(m: Memory, sp: int, v: U32, vals: seq<U32>)
    ensures PushAll(m, sp, [v] + vals) == PushAll(Put32(m, sp - 4, v), sp - 4, vals)
  {
    hide Put32;
    assert ([v] + vals)[1..] == vals;
  }

  lemma NoArgsRun(s: Cpu, off: nat)
    ensures Run(s, 0) == Some(AfterArgs(s, [], off, |ArgCode([], off)|))
  {
    hide Step;
    assert PushAll(s.mem, s.esp, []) == s.mem;
  }

  /** The whole argument block, from any frame base in EDX and any stack that stays
      clear of the frame and of the code. */
  lemma {:induction false} ArgCodeRuns(s: Cpu, widths: seq<U8>, off: nat)
    requires Encodable(widths, off) && ArgsReady(s, widths, off)
    ensures Run(s, 2 * |widths|) == Some(AfterArgs(s, widths, off, |ArgCode(widths, off)|))
    decreases |widths|
  {
    hide Step, Run, AfterArgs, ArgCode, ArgsReady, LoadedAndPushed;
    if widths == [] {
      NoArgsRun(s, off);
    } else {
      var width, more := widths[0], widths[1..];
      assert widths == [width] + more;
      ConsFacts(width, more, off);
      var t := LoadedAndPushed(s, width, off);
      assert 4 <= s.esp && s.eip + |LoadPush(width, off)| < TWO32 by {
        ReadyRoom(s, widths, off);
      }
      ArgCodeStep(s, width, more, off, t);
      ArgCodeRuns(t, more, off + width);
      RunThen(s, 2, 2 * |more|);
      AfterArgsCons(s, t, width, more, off, |ArgCode(more, off + width)|);
    }
  }

  // ---- the call and the return -------------------------------------------

  lemma CallRuns(s: Cpu, host: U32)
    requires CodeAt(s.mem, s.eip, CallCode(host)) && s.eip + 7 < TWO32 && 4 <= s.esp
    ensures Run(s, 2) == Some(s.(eax := host, eip := host, esp := s.esp - 4,
                                 mem := Put32(s.mem, s.esp - 4, s.eip + 7)))
  {
    hide Decode, Step, Run, Put32, Bytes, CodeAt, Le32;
    var code := CallCode(host);
    BytesAt(s.mem, s.eip, code, 0, 5);
    BytesAt(s.mem, s.eip, code, 5, 7);
    assert code[0..5] == [0xb8] + Le32(host) && code[5..7] == [0xff, 0xd0];
    assert s.eip + 0 == s.eip;
    DecodeImm(s.mem, s.eip, host);
    DecodeShort(s.mem, s.eip + 5);
    StepBy(s, MovEaxImm(host), 5);
    var t := s.(eax := host, eip := s.eip + 5);
    StepBy(t, CallEax, 2);
    TwoSteps(s, t, Step(t).value);
  }

  lemma CleanupRuns(s: Cpu, count: nat)
    requires 0 < 4 * count <= 127 && CodeAt(s.mem, s.eip, CleanupCode(count))
    requires s.eip + 3 < TWO32 && s.esp + 4 * count < TWO32
    ensures Step(s) == Some(s.(eip := s.eip + 3, esp := s.esp + 4 * count))
  {
    hide Decode, Step, Bytes, CodeAt;
    var code := CleanupCode(count);
    BytesAt(s.mem, s.eip, code, 0, 3);
    assert code[0..3] == [0x83, 0xc4, 4 * count];
    assert s.eip + 0 == s.eip;
    DecodeDisp(s.mem, s.eip, 4 * count);
    StepBy(s, AddEsp(4 * count), 3);
  }

  lemma RetPopRuns(s: Cpu, frame: nat)
    requires frame < 0x1_0000 && CodeAt(s.mem, s.eip, [0xc2] + Le16(frame))
    requires s.eip + 3 < TWO32 && s.esp + 4 + frame < TWO32
    ensures Step(s) == Some(s.(eip := Dword(s.mem, s.esp), esp := s.esp + 4 + frame))
  {
    hide Decode, Step, Bytes, CodeAt, Dword, Le16, Join16;
    var b := Le16(frame);
    var code := [0xc2] + b;
    BytesAt(s.mem, s.eip, code, 0, 3);
    assert code[0..3] == [0xc2, b[0], b[1]] && s.eip + 0 == s.eip;
    DecodeRetPop(s.mem, s.eip, b[0], b[1]);
    JoinLe16(frame);
    StepBy(s, RetPop(frame), 3);
  }

  lemma ReturnRuns(s: Cpu, count: nat, frame: nat)
    requires 4 * count <= 127 && frame < 0x1_0000
    requires CodeAt(s.mem, s.eip, ReturnCode(count, frame)) && s.eip + |ReturnCode(count, frame)| < TWO32
    requires s.esp + 4 * count + 4 + frame < TWO32
    ensures var n: nat := if count == 0 then 1 else 2;
            Run(s, n) == Some(s.(eip := Dword(s.mem, s.esp + 4 * count), esp := s.esp + 4 * count + 4 + frame))
  {
    hide Step, Dword, Le16, CodeAt;
    assert ReturnCode(count, frame) == CleanupCode(count) + ([0xc2] + Le16(frame));
    CodeSplit(s.mem, s.eip, CleanupCode(count), [0xc2] + Le16(frame));
    if count == 0 {
      assert s.eip + |CleanupCode(count)| == s.eip;
      RetPopRuns(s, frame);
      assert Run(Step(s).value, 0) == Step(s);
    } else {
      CleanupRuns(s, count);
      var t := Step(s).value;
      RetPopRuns(t, frame);
      TwoSteps(s, t, Step(t).value);
    }
  }

  // ---- arguments, then the call ------------------------------------------

  /** The state on entry to the host routine when argument code and call ran from `s`. */
  function Called(s: Cpu, widths: seq<U8>, host: U32): Cpu
    requires Encodable(widths, 4)
  {
    var vals := FrameArgs(s.mem, s.edx + 4, widths);
    var sp := s.esp - 4 * |widths| - 4;
    Cpu(host, s.edx, Wrap(sp), host, s.zf,
        Put32(PushAll(s.mem, s.esp, vals), sp, Wrap(s.eip + |ArgCode(widths, 4)| + 7)))
  }

  /** Argument and call code at EIP, with a frame based at EDX and room on the stack. */
  ghost predicate CallReady(s: Cpu, widths: seq<U8>, host: U32)
    requires Encodable(widths, 4)
  {
    var size := |ArgCode(widths, 4)|;
    CodeAt(s.mem, s.eip, ArgCode(widths, 4)) && CodeAt(s.mem, s.eip + size, CallCode(host)) &&
    s.eip + size + 7 < TWO32 && 4 * |widths| + 4 <= s.esp &&
    Clear(s.eip, size + 7, s.esp, 4 * |widths| + 4) &&
    s.edx + 4 + FrameSize(widths) <= TWO32 &&
    Clear(s.edx + 4, FrameSize(widths), s.esp, 4 * |widths| + 4)
  }

  lemma ArgsThenCall(s: Cpu, widths: seq<U8>, host: U32)
    requires Encodable(widths, 4) && CallReady(s, widths, host)
    ensures Run(s, 2 * |widths| + 2) == Some(Called(s, widths, host))
    ensures Called(s, widths, host).esp == s.esp - 4 * |widths| - 4
    ensures SameOutside(s.mem, Called(s, widths, host).mem, s.esp - 4 * |widths| - 4, s.esp)
    ensures Dword(Called(s, widths, host).mem, Called(s, widths, host).esp) == s.eip + |ArgCode(widths, 4)| + 7
  {
    hide Step, Run, CodeAt, ArgCode, CallCode, PushAll, FrameArgs, FrameSize, Put32, SameOutside, Encodable, Dword;
    var n := |widths|;
    ArgCodeRuns(s, widths, 4);
    var b := AfterArgs(s, widths, 4, |ArgCode(widths, 4)|);
    PushAllFacts(s.mem, s.esp, FrameArgs(s.mem, s.edx + 4, widths));
    CallSize(host);
    CodeKept(s.mem, b.mem, b.eip, CallCode(host), s.esp - 4 * n, s.esp);
    CallRuns(b, host);
    RunThen(s, 2 * n, 2);
    var c := Called(s, widths, host);
    Put32Facts(b.mem, b.esp - 4, b.eip + 7);
    SameOutsideTrans(s.mem, b.mem, c.mem, s.esp - 4 * n - 4, s.esp - 4 * n, s.esp);
  }

  lemma CallSize(host: U32)
    ensures |CallCode(host)| == 7
  {
  }

  lemma SameOutsideTrans(l: Memory, m: Memory, n: Memory, lo: int, mid: int, hi: int)
    requires lo <= mid <= hi && SameOutside(l, m, mid, hi) && SameOutside(m, n, lo, mid)
    ensures SameOutside(l, n, lo, hi)
  {
  }

  /** A cdecl host routine finds argument `j` at `[esp + 4 + 4 j]`: the frame, reversed. */
  ghost predicate SeesArguments(c: Cpu, vals: seq<U32>) {
    forall j :: 0 <= j < |vals| ==> Dword(c.mem, c.esp + 4 + 4 * j) == vals[|vals| - 1 - j]
  }

  lemma HostSeesArguments(s: Cpu, widths: seq<U8>, host: U32)
    requires Encodable(widths, 4) && CallReady(s, widths, host)
    ensures SeesArguments(Called(s, widths, host), FrameArgs(s.mem, s.edx + 4, widths))
  {
    hide CodeAt, CallCode, ArgCode, PushAll, FrameArgs, FrameSize, Put32, SameOutside, Encodable, Dword;
    var n := |widths|;
    var vals := FrameArgs(s.mem, s.edx + 4, widths);
    var c := Called(s, widths, host);
    var pushed := PushAll(s.mem, s.esp, vals);
    PushAllFacts(s.mem, s.esp, vals);
    Put32Facts(pushed, c.esp, Wrap(s.eip + |ArgCode(widths, 4)| + 7));
    forall j | 0 <= j < n ensures Dword(c.mem, c.esp + 4 + 4 * j) == vals[n - 1 - j] {
      var at := s.esp - 4 * n + 4 * j;
      assert Dword(pushed, at) == vals[n - 1 - j];
      DwordKept(pushed, c.mem, at, c.esp, c.esp + 4);
      assert at == c.esp + 4 + 4 * j;
    }
  }

  // ---- the C/386 bridge ----------------------------------------------------

  function HostSteps(widths: seq<U8>): nat { 2 * |widths| + 3 }

  /** The guest has just jumped to the stub: its code is in memory, the caller's return
      address is on top of the stack and the packed frame above it. */
  ghost predicate AtStub(s: Cpu, widths: seq<U8>, host: U32)
    requires Emittable(widths)
  {
    var code := StubCode(widths, host);
    CodeAt(s.mem, s.eip, code) && s.eip + |code| < TWO32 &&
    4 * |widths| + 4 <= s.esp && s.esp + 4 + FrameSize(widths) < TWO32 &&
    Clear(s.eip, |code|, s.esp, 4 * |widths| + 4)
  }

  predicate Emittable(widths: seq<U8>) {
    Encodable(widths, 4) && |widths| <= 31 && FrameSize(widths) < 0x1_0000
  }

  /** The state on entry to the host routine. */
  function AtHost(s: Cpu, widths: seq<U8>, host: U32): Cpu
    requires Emittable(widths)
  {
    Called(s.(edx := s.esp, eip := Wrap(s.eip + 2)), widths, host)
  }

  /** `mov edx,esp` starts every C/386 stub. */
  lemma StubStarts(s: Cpu, widths: seq<U8>, host: U32)
    requires Emittable(widths) && AtStub(s, widths, host)
    ensures Run(s, 1) == Some(s.(edx := s.esp, eip := s.eip + 2))
  {
    hide Decode, Step, Bytes, CodeAt, ArgCode, CallCode, ReturnCode, FrameSize, Encodable;
    var code := StubCode(widths, host);
    BytesAt(s.mem, s.eip, code, 0, 2);
    assert code[0..2] == [0x8b, 0xd4] && s.eip + 0 == s.eip;
    DecodeShort(s.mem, s.eip);
    StepBy(s, MovEdxEsp, 2);
    assert Run(Step(s).value, 0) == Step(s);
  }

  lemma StubParts(m: Memory, a: int, widths: seq<U8>, host: U32)
    requires Emittable(widths) && CodeAt(m, a, StubCode(widths, host))
    ensures CodeAt(m, a + 2, ArgCode(widths, 4))
    ensures CodeAt(m, a + 2 + |ArgCode(widths, 4)|, CallCode(host))
    ensures CodeAt(m, a + 9 + |ArgCode(widths, 4)|, ReturnCode(|widths|, FrameSize(widths)))
    ensures |StubCode(widths, host)| == 9 + |ArgCode(widths, 4)| + |ReturnCode(|widths|, FrameSize(widths))|
  {
    hide CodeAt, ArgCode, ReturnCode, FrameSize, Encodable, CallCode;
    var args, call, ret := ArgCode(widths, 4), CallCode(host), ReturnCode(|widths|, FrameSize(widths));
    assert |call| == 7 by { CallSize(host); }
    CodeSplit(m, a, [0x8b, 0xd4] + args + call, ret);
    CodeSplit(m, a, [0x8b, 0xd4] + args, call);
    CodeSplit(m, a, [0x8b, 0xd4], args);
  }

  /** From the stub's first byte to the first instruction of the host routine. */
  lemma StubReachesHost(s: Cpu, widths: seq<U8>, host: U32)
    requires Emittable(widths) && AtStub(s, widths, host)
    ensures Run(s, HostSteps(widths)) == Some(AtHost(s, widths, host))
    ensures var c := AtHost(s, widths, host);
            c.eip == host && c.esp == s.esp - 4 * |widths| - 4 &&
            SameOutside(s.mem, c.mem, s.esp - 4 * |widths| - 4, s.esp) &&
            SeesArguments(c, FrameArgs(s.mem, s.esp + 4, widths)) &&
            Dword(c.mem, c.esp) == s.eip + |StubCode(widths, host)| - |ReturnCode(|widths|, FrameSize(widths))|
  {
    hide Step, Run, CodeAt, StubCode, ArgCode, CallCode, ReturnCode, FrameArgs, FrameSize, SameOutside, Encodable, Dword, SeesArguments;
    StubStarts(s, widths, host);
    StubParts(s.mem, s.eip, widths, host);
    var a := s.(edx := s.esp, eip := s.eip + 2);
    ArgsThenCall(a, widths, host);
    HostSeesArguments(a, widths, host);
    RunThen(s, 1, 2 * |widths| + 2);
  }

  /** The state a cdecl host routine may hand back: it returned to the address it was
      called from, and neither the stub nor the caller's return address was overwritten. */
  ghost predicate HostReturned(s: Cpu, r: Cpu, widths: seq<U8>, host: U32)
    requires Emittable(widths)
  {
    var c := AtHost(s, widths, host);
    r.eip == Dword(c.mem, c.esp) && r.esp == Wrap(c.esp + 4) &&
    CodeAt(r.mem, s.eip, StubCode(widths, host)) && Dword(r.mem, s.esp) == Dword(s.mem, s.esp)
  }

  function ReturnSteps(widths: seq<U8>): nat { if widths == [] then 1 else 2 }

  /** Bridge correctness: the host sees the widened arguments in cdecl order, and the guest
      resumes at its return address with the host's result and the packed frame popped. */
  lemma BridgeCorrect(s: Cpu, widths: seq<U8>, host: U32)
    requires Emittable(widths) && AtStub(s, widths, host)
    ensures Run(s, HostSteps(widths)) == Some(AtHost(s, widths, host))
    ensures var c := AtHost(s, widths, host);
            c.eip == host && SeesArguments(c, FrameArgs(s.mem, s.esp + 4, widths)) &&
            SameOutside(s.mem, c.mem, s.esp - 4 * |widths| - 4, s.esp)
    ensures forall r: Cpu :: HostReturned(s, r, widths, host) ==>
              Run(r, ReturnSteps(widths)) ==
              Some(r.(eip := Dword(s.mem, s.esp), esp := s.esp + 4 + FrameSize(widths)))
  {
    hide Step, Run, CodeAt, AtHost, HostReturned, StubCode, FrameArgs, FrameSize, SameOutside, Emittable, Dword, SeesArguments;
    StubReachesHost(s, widths, host);
    forall r: Cpu | HostReturned(s, r, widths, host)
      ensures Run(r, ReturnSteps(widths)) ==
              Some(r.(eip := Dword(s.mem, s.esp), esp := s.esp + 4 + FrameSize(widths)))
    {
      StubReturns(s, r, widths, host);
    }
  }

  lemma StubReturns(s: Cpu, r: Cpu, widths: seq<U8>, host: U32)
    requires Emittable(widths) && AtStub(s, widths, host) && HostReturned(s, r, widths, host)
    ensures Run(r, ReturnSteps(widths)) ==
            Some(r.(eip := Dword(s.mem, s.esp), esp := s.esp + 4 + FrameSize(widths)))
  {
    hide Step, Run, CodeAt, AtHost, StubCode, ReturnCode, FrameArgs, FrameSize, SameOutside, Encodable, Dword, SeesArguments;
    StubReachesHost(s, widths, host);
    StubParts(r.mem, s.eip, widths, host);
    ReturnRuns(r, |widths|, FrameSize(widths));
  }

  // ---- the patched helper ----------------------------------------------------

  /** The jump written over the original helper's first five bytes. */
  function HelperPatch(helper: U32, stub: U32): seq<U8> {
    [0xe9] + Le32(Wrap(stub - (helper + 5)))
  }

  /** A call of the original helper enters the stub with nothing else changed. */
  lemma HelperEntersStub(s: Cpu, stub: U32)
    requires CodeAt(s.mem, s.eip, HelperPatch(s.eip, stub)) && s.eip + 5 < TWO32
    ensures Step(s) == Some(s.(eip := stub))
  {
    hide Decode, Step, Bytes, CodeAt, Le32;
    var code := HelperPatch(s.eip, stub);
    BytesAt(s.mem, s.eip, code, 0, 5);
    assert code[0..5] == code && s.eip + 0 == s.eip;
    var rel := Wrap(stub - (s.eip + 5));
    DecodeImm(s.mem, s.eip, rel);
    StepBy(s, Jmp(rel), 5);
    assert Wrap(s.eip + 5 + rel) == stub;
  }
}
