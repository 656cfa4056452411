/** A small step semantics for the i386 subset the loader's stubs are made of. */
module Machine {
  import opened Options
  import opened Words

  type Memory = m: seq<U8> | |m| == 0x1_0000_0000
    ghost witness seq(0x1_0000_0000, _ => 0)

  datatype Cpu = Cpu(eax: U32, edx: U32, esp: U32, eip: U32, zf: bool, mem: Memory)

  // ---- memory ----------------------------------------------------------

  function Byte(m: Memory, a: int): U8 {
    m[Wrap(a)]
  }

  function Word(m: Memory, a: int): U32 {
    Join16(Byte(m, a), Byte(m, a + 1))
  }

  function Dword(m: Memory, a: int): U32 {
    Join32(Byte(m, a), Byte(m, a + 1), Byte(m, a + 2), Byte(m, a + 3))
  }

  function Put32(m: Memory, a: int, v: U32): Memory {
    var b := Le32(v);
    m[Wrap(a) := b[0]][Wrap(a + 1) := b[1]][Wrap(a + 2) := b[2]][Wrap(a + 3) := b[3]]
  }

  /** `code` occupies the addresses from `a` upwards. */
  ghost predicate CodeAt(m: Memory, a: int, code: seq<U8>) {
    0 <= a && a + |code| <= TWO32 &&
    forall i :: 0 <= i < |code| ==> m[a + i] == code[i]
  }

  /** The two memories hold the same bytes outside `lo..hi`. */
  ghost predicate SameOutside(m: Memory, n: Memory, lo: int, hi: int) {
    forall x :: 0 <= x < TWO32 && !(lo <= x < hi) ==> n[x] == m[x]
  }

  // ---- instructions ----------------------------------------------------

  datatype Instr =
    | MovEdxEsp
    | MovEdxArg                // mov edx,[esp+4]
    | LoadWord(disp: int)      // movzx eax,word [edx+disp8]
    | LoadDword(disp: int)     // mov eax,[edx+disp8]
    | PushEax
    | PushTarget               // push dword [esp+8]
    | MovEaxImm(imm: U32)
    | CallEax
    | AddEsp(imm8: int)
    | RetPop(count: U32)
    | Ret
    | CmpTarget(imm: U32)      // cmp dword [esp+8],imm32
    | Je(rel: U32)
    | Jmp(rel: U32)
    | Trap

  function Signed8(b: U8): int {
    if b < 0x80 then b else b - 0x100
  }

  /** The instruction at `a`, with its length in bytes. */
  function Decode(m: Memory, a: int): (Instr, int) {
    var b0 := Byte(m, a);
    var b1 := Byte(m, a + 1);
    var b2 := Byte(m, a + 2);
    var b3 := Byte(m, a + 3);
    if b0 == 0x8b then
      if b1 == 0xd4 then (MovEdxEsp, 2)
      else if b1 == 0x42 then (LoadDword(Signed8(b2)), 3)
      else if b1 == 0x54 && b2 == 0x24 && b3 == 0x04 then (MovEdxArg, 4)
      else (Trap, 1)
    else if b0 == 0x0f then
      if b1 == 0xb7 && b2 == 0x42 then (LoadWord(Signed8(b3)), 4)
      else if b1 == 0x84 then (Je(Dword(m, a + 2)), 6)
      else (Trap, 1)
    else if b0 == 0x50 then (PushEax, 1)
    else if b0 == 0xb8 then (MovEaxImm(Dword(m, a + 1)), 5)
    else if b0 == 0xff then
      if b1 == 0xd0 then (CallEax, 2)
      else if b1 == 0x74 && b2 == 0x24 && b3 == 0x08 then (PushTarget, 4)
      else (Trap, 1)
    else if b0 == 0x83 && b1 == 0xc4 then (AddEsp(Signed8(b2)), 3)
    else if b0 == 0xc2 then (RetPop(Word(m, a + 1)), 3)
    else if b0 == 0xc3 then (Ret, 1)
    else if b0 == 0x81 && b1 == 0x7c && b2 == 0x24 && b3 == 0x08 then (CmpTarget(Dword(m, a + 4)), 8)
    else if b0 == 0xe9 then (Jmp(Dword(m, a + 1)), 5)
    else (Trap, 1)
  }

  function Push(s: Cpu, v: U32): Cpu {
    s.(esp := Wrap(s.esp - 4), mem := Put32(s.mem, s.esp - 4, v))
  }

  /** The effect of `i`; `next` is the address after it. */
  function Exec(s: Cpu, i: Instr, next: U32): Option<Cpu> {
    var t := s.(eip := next);
    match i
    case MovEdxEsp => Some(t.(edx := s.esp))
    case MovEdxArg => Some(t.(edx := Dword(s.mem, s.esp + 4)))
    case LoadWord(d) => Some(t.(eax := Word(s.mem, s.edx + d)))
    case LoadDword(d) => Some(t.(eax := Dword(s.mem, s.edx + d)))
    case PushEax => Some(Push(t, s.eax))
    case PushTarget => Some(Push(t, Dword(s.mem, s.esp + 8)))
    case MovEaxImm(v) => Some(t.(eax := v))
    case CallEax => Some(Push(t, next).(eip := s.eax))
    case AddEsp(n) => Some(t.(esp := Wrap(s.esp + n)))
    case RetPop(n) => Some(t.(eip := Dword(s.mem, s.esp), esp := Wrap(s.esp + 4 + n)))
    case Ret => Some(t.(eip := Dword(s.mem, s.esp), esp := Wrap(s.esp + 4)))
    case CmpTarget(v) => Some(t.(zf := Dword(s.mem, s.esp + 8) == v))
    case Je(rel) => Some(if s.zf then t.(eip := Wrap(next + rel)) else t)
    case Jmp(rel) => Some(t.(eip := Wrap(next + rel)))
    case Trap => None
  }

  function Step(s: Cpu): Option<Cpu> {
    var (i, n) := Decode(s.mem, s.eip);
    Exec(s, i, Wrap(s.eip + n))
  }

  function Run(s: Cpu, steps: nat): Option<Cpu>
    decreases steps
  {
    if steps == 0 then Some(s)
    else match Step(s)
         case None => None
         case Some(t) => Run(t, steps - 1)
  }

  // ---- facts -----------------------------------------------------------

  lemma {:induction false} RunThen(s: Cpu, a: nat, b: nat)
    requires Run(s, a).Some?
    ensures Run(s, a + b) == Run(Run(s, a).value, b)
    decreases a
  {
    hide Step;
    if a > 0 {
      RunThen(Step(s).value, a - 1, b);
    }
  }

  lemma WrapId(x: int)
    requires 0 <= x < TWO32
    ensures Wrap(x) == x
  {
  }

  lemma StepBy(s: Cpu, i: Instr, n: nat)
    requires Decode(s.mem, s.eip) == (i, n) && s.eip + n < TWO32
    ensures Step(s) == Exec(s, i, s.eip + n)
  {
    hide Decode, Exec;
  }

  lemma StepPush(s: Cpu)
    requires Decode(s.mem, s.eip) == (PushEax, 1) && s.eip + 1 < TWO32 && 4 <= s.esp
    ensures Step(s) == Some(s.(eip := s.eip + 1, esp := s.esp - 4, mem := Put32(s.mem, s.esp - 4, s.eax)))
  {
    StepBy(s, PushEax, 1);
    hide Step, Decode, Put32;
  }

  lemma TwoSteps(s: Cpu, t: Cpu, u: Cpu)
    requires Step(s) == Some(t) && Step(t) == Some(u)
    ensures Run(s, 2) == Some(u)
  {
    hide Step;
    assert Run(t, 1) == Run(u, 0);
  }

  lemma Put32Facts(m: Memory, a: int, v: U32)
    requires 0 <= a && a + 4 <= TWO32
    ensures Dword(Put32(m, a, v), a) == v
    ensures SameOutside(m, Put32(m, a, v), a, a + 4)
  {
    JoinLe32(v);
  }

  lemma CodeSplit(m: Memory, a: int, c: seq<U8>, d: seq<U8>)
    requires CodeAt(m, a, c + d)
    ensures CodeAt(m, a, c) && CodeAt(m, a + |c|, d)
  {
    forall i | 0 <= i < |c| ensures m[a + i] == c[i] {
      assert (c + d)[i] == c[i];
    }
    forall i | 0 <= i < |d| ensures m[a + |c| + i] == d[i] {
      assert (c + d)[|c| + i] == d[i];
    }
  }

  lemma CodeKept(m: Memory, n: Memory, a: int, code: seq<U8>, lo: int, hi: int)
    requires CodeAt(m, a, code) && SameOutside(m, n, lo, hi)
    requires a + |code| <= lo || hi <= a
    ensures CodeAt(n, a, code)
  {
  }

  /** A memory that holds `code` reads it back byte by byte. */
  lemma Fetch(m: Memory, a: int, code: seq<U8>, k: int)
    requires CodeAt(m, a, code) && 0 <= k < |code|
    ensures Byte(m, a + k) == code[k]
  {
  }

  lemma DwordKept(m: Memory, n: Memory, a: int, lo: int, hi: int)
    requires SameOutside(m, n, lo, hi) && 0 <= a && a + 4 <= TWO32
    requires a + 4 <= lo || hi <= a
    ensures Dword(n, a) == Dword(m, a)
  {
  }

  // ---- what the stub instructions decode to ------------------------------

  /** The instruction `code` is what a fetch at `a` reads. */
  ghost predicate Bytes(m: Memory, a: int, code: seq<U8>) {
    1 <= |code| <= 8 &&
    Byte(m, a) == code[0] &&
    (|code| > 1 ==> Byte(m, a + 1) == code[1]) &&
    (|code| > 2 ==> Byte(m, a + 2) == code[2]) &&
    (|code| > 3 ==> Byte(m, a + 3) == code[3]) &&
    (|code| > 4 ==> Byte(m, a + 4) == code[4]) &&
    (|code| > 5 ==> Byte(m, a + 5) == code[5]) &&
    (|code| > 6 ==> Byte(m, a + 6) == code[6]) &&
    (|code| > 7 ==> Byte(m, a + 7) == code[7])
  }

  lemma BytesAt(m: Memory, a: int, code: seq<U8>, from: nat, to: nat)
    requires CodeAt(m, a, code) && from < to <= |code| && to - from <= 8
    ensures Bytes(m, a + from, code[from..to])
  {
    forall k | 0 <= k < to - from ensures Byte(m, a + from + k) == code[from..to][k] {
      Fetch(m, a, code, from + k);
    }
    hide Byte;
    assert Byte(m, a + from + 0) == code[from..to][0];
  }

  lemma DecodeShort(m: Memory, a: int)
    ensures Bytes(m, a, [0x8b, 0xd4]) ==> Decode(m, a) == (MovEdxEsp, 2)
    ensures Bytes(m, a, [0x50]) ==> Decode(m, a) == (PushEax, 1)
    ensures Bytes(m, a, [0xff, 0xd0]) ==> Decode(m, a) == (CallEax, 2)
    ensures Bytes(m, a, [0xc3]) ==> Decode(m, a) == (Ret, 1)
    ensures Bytes(m, a, [0x8b, 0x54, 0x24, 0x04]) ==> Decode(m, a) == (MovEdxArg, 4)
    ensures Bytes(m, a, [0xff, 0x74, 0x24, 0x08]) ==> Decode(m, a) == (PushTarget, 4)
  {
    hide Byte, Word, Dword;
  }

  lemma DecodeDisp(m: Memory, a: int, d: U8)
    ensures Bytes(m, a, [0x0f, 0xb7, 0x42, d]) ==> Decode(m, a) == (LoadWord(Signed8(d)), 4)
    ensures Bytes(m, a, [0x8b, 0x42, d]) ==> Decode(m, a) == (LoadDword(Signed8(d)), 3)
    ensures Bytes(m, a, [0x83, 0xc4, d]) ==> Decode(m, a) == (AddEsp(Signed8(d)), 3)
  {
    hide Byte, Word, Dword;
  }

  lemma DecodeImm(m: Memory, a: int, v: U32)
    ensures Bytes(m, a, [0xb8] + Le32(v)) ==> Decode(m, a) == (MovEaxImm(v), 5)
    ensures Bytes(m, a, [0xe9] + Le32(v)) ==> Decode(m, a) == (Jmp(v), 5)
    ensures Bytes(m, a, [0x0f, 0x84] + Le32(v)) ==> Decode(m, a) == (Je(v), 6)
    ensures Bytes(m, a, [0x81, 0x7c, 0x24, 0x08] + Le32(v)) ==> Decode(m, a) == (CmpTarget(v), 8)
  {
    hide Byte, Word, Le32, Join32;
    JoinLe32(v);
    assert a + 1 + 1 == a + 2 && a + 2 + 1 == a + 3;
  }

  lemma DecodeRetPop(m: Memory, a: int, lo: U8, hi: U8)
    ensures Bytes(m, a, [0xc2, lo, hi]) ==> Decode(m, a) == (RetPop(Join16(lo, hi)), 3)
  {
    hide Byte, Dword;
  }
}
