/** The loader's code generators, writing into executable buffers byte by byte. */
module StubEmitter {
  import opened Words
  import opened Far16Bridge

  /** The outcome of an emitter: the code length, or the loader's fatal diagnostic. */
  datatype Emitted = Code(size: nat) | Fatal(reason: string)

  const MAX_ARGS := 8

  predicate WidthsKnown(widths: seq<U8>) {
    forall i :: 0 <= i < |widths| ==> widths[i] == 2 || widths[i] == 4
  }

  // ---- facts about the generated code --------------------------------------

  lemma {:induction false} FrameSizeSnoc(widths: seq<U8>, w: U8)
    ensures FrameSize(widths + [w]) == FrameSize(widths) + w
    decreases |widths|
  {
    if widths == [] {
      assert [w][1..] == [];
    } else {
      assert (widths + [w])[1..] == widths[1..] + [w];
      FrameSizeSnoc(widths[1..], w);
    }
  }

  lemma {:induction false} ArgCodeSnoc(widths: seq<U8>, w: U8, off: nat)
    requires Encodable(widths, off) && (w == 2 || w == 4) && off + FrameSize(widths) <= 127
    ensures Encodable(widths + [w], off)
    ensures ArgCode(widths + [w], off) == ArgCode(widths, off) + LoadPush(w, off + FrameSize(widths))
    decreases |widths|
  {
    hide ArgCode, FrameSize, Encodable, LoadPush;
    if widths == [] {
      assert widths + [w] == [w];
      OneArg(w, off);
    } else {
      var first, more := widths[0], widths[1..];
      assert widths == [first] + more;
      ConsFacts(first, more, off);
      ArgCodeSnoc(more, w, off + first);
      EncodableCons(first, more + [w], off);
      ConsFacts(first, more + [w], off);
      assert widths + [w] == [first] + (more + [w]);
      var l, a, z := LoadPush(first, off), ArgCode(more, off + first), LoadPush(w, off + FrameSize(widths));
      assert l + (a + z) == (l + a) + z;
    }
  }

  lemma OneArg(w: U8, off: nat)
    requires (w == 2 || w == 4) && off <= 127
    ensures Encodable([w], off) && Encodable([], off) && FrameSize([]) == 0
    ensures ArgCode([w], off) == ArgCode([], off) + LoadPush(w, off)
  {
    hide LoadPush;
    assert [w][1..] == [];
  }

  lemma EncodableCons(first: U8, more: seq<U8>, off: nat)
    requires (first == 2 || first == 4) && off <= 127 && Encodable(more, off + first)
    ensures Encodable([first] + more, off)
  {
    assert ([first] + more)[1..] == more;
  }

  lemma {:induction false} FrameSizeBound(widths: seq<U8>)
    requires WidthsKnown(widths)
    ensures 2 * |widths| <= FrameSize(widths) <= 4 * |widths|
    decreases |widths|
  {
    if widths != [] {
      FrameSizeBound(widths[1..]);
    }
  }

  /** A descriptor of at most eight arguments compiles exactly when every width is 2 or 4. */
  lemma {:induction false} EncodableIff(widths: seq<U8>, off: nat)
    requires off + 4 * |widths| <= 127
    ensures Encodable(widths, off) <==> WidthsKnown(widths)
    decreases |widths|
  {
    if widths != [] {
      assert WidthsKnown(widths) <==> (widths[0] == 2 || widths[0] == 4) && WidthsKnown(widths[1..]) by {
        if WidthsKnown(widths[1..]) {
          forall i | 1 <= i < |widths| ensures widths[i] == 2 || widths[i] == 4 {
            assert widths[i] == widths[1..][i - 1];
          }
        }
      }
      if widths[0] == 2 || widths[0] == 4 {
        EncodableIff(widths[1..], off + widths[0]);
      }
    }
  }

  lemma {:induction false} ArgCodeSize(widths: seq<U8>, off: nat)
    requires Encodable(widths, off)
    ensures 4 * |widths| <= |ArgCode(widths, off)| <= 5 * |widths|
    decreases |widths|
  {
    if widths != [] {
      ArgCodeSize(widths[1..], off + widths[0]);
    }
  }

  // ---- byte writers ----------------------------------------------------------

  /** `stub[p++] = ...` for each byte of `code`. */
  method Append(stub: array<U8>, p: nat, code: seq<U8>) returns (q: nat)
    requires p + |code| <= stub.Length
    modifies stub
    ensures q == p + |code| && stub[..q] == old(stub[..p]) + code
    ensures forall k :: q <= k < stub.Length ==> stub[k] == old(stub[k])
  {
    q := p;
    for i := 0 to |code|
      invariant q == p + i
      invariant stub[..p] == old(stub[..p])
      invariant stub[p..q] == code[..i]
      invariant forall k :: q <= k < stub.Length ==> stub[k] == old(stub[k])
    {
      stub[q] := code[i];
      q := q + 1;
      assert stub[p..q] == stub[p..q - 1] + [code[i]];
    }
    assert stub[..q] == stub[..p] + stub[p..q];
  }

  /** `wr32`: overwrite four bytes in place. */
  method Wr32(stub: array<U8>, at: nat, v: U32)
    requires at + 4 <= stub.Length
    modifies stub
    ensures stub[..] == old(stub[..at]) + Le32(v) + old(stub[at + 4..])
  {
    var b := Le32(v);
    stub[at], stub[at + 1], stub[at + 2], stub[at + 3] := b[0], b[1], b[2], b[3];
  }

  /** Widen one frame slot into EAX and push it. */
  method EmitLoadPush(stub: array<U8>, start: nat, width: U8, frameOff: U8) returns (r: Emitted)
    requires start + 5 <= stub.Length && frameOff <= 127
    modifies stub
    ensures r.Code? <==> width == 2 || width == 4
    ensures r.Code? ==> r.size == start + |LoadPush(width, frameOff)|
    ensures r.Code? ==> stub[..r.size] == old(stub[..start]) + LoadPush(width, frameOff)
  {
    var p: nat;
    if width == 2 {
      p := Append(stub, start, [0x0f, 0xb7, 0x42, frameOff]);
    } else if width == 4 {
      p := Append(stub, start, [0x8b, 0x42, frameOff]);
    } else {
      return Fatal("C/386 far16 descriptor has unsupported argument width");
    }
    p := Append(stub, p, [0x50]);
    r := Code(p);
  }

  /** The argument loop shared by the emitters: widen and push each frame slot. */
  method EmitArguments(stub: array<U8>, start: nat, widths: seq<U8>) returns (r: Emitted, frameOff: nat, pushed: nat)
    requires |widths| <= MAX_ARGS && start + 40 <= stub.Length
    modifies stub
    ensures r.Code? <==> WidthsKnown(widths)
    ensures r.Code? ==> Encodable(widths, 4) && frameOff == 4 + FrameSize(widths) && pushed == 4 * |widths|
    ensures r.Code? ==> start <= r.size <= start + 40 && r.size == start + |ArgCode(widths, 4)|
    ensures r.Code? ==> stub[..r.size] == old(stub[..start]) + ArgCode(widths, 4)
  {
    var p := start;
    frameOff, pushed := 4, 0;
    ghost var before := stub[..start];
    assert widths[..0] == [] && stub[..p] == before + [];
    for ai := 0 to |widths|
      invariant WidthsKnown(widths[..ai]) && Encodable(widths[..ai], 4)
      invariant start <= p <= start + 5 * ai && p == start + |ArgCode(widths[..ai], 4)|
      invariant frameOff == 4 + FrameSize(widths[..ai]) && pushed == 4 * ai && frameOff <= 4 + 4 * ai
      invariant stub[..p] == before + ArgCode(widths[..ai], 4)
    {
      hide LoadPush, ArgCode, FrameSize, Encodable;
      var width := widths[ai];
      var one := EmitLoadPush(stub, p, width, frameOff);
      if one.Fatal? {
        return one, frameOff, pushed;
      }
      p := one.size;
      assert widths[..ai + 1] == widths[..ai] + [width];
      ArgumentAdded(before, widths[..ai], width);
      frameOff := frameOff + width;
      pushed := pushed + 4;
    }
    assert widths[..|widths|] == widths;
    r := Code(p);
  }

  lemma ArgumentAdded(before: seq<U8>, widths: seq<U8>, w: U8)
    requires Encodable(widths, 4) && (w == 2 || w == 4) && FrameSize(widths) <= 123
    ensures Encodable(widths + [w], 4) && FrameSize(widths + [w]) == FrameSize(widths) + w
    ensures before + ArgCode(widths + [w], 4) ==
            (before + ArgCode(widths, 4)) + LoadPush(w, 4 + FrameSize(widths))
    ensures |ArgCode(widths + [w], 4)| == |ArgCode(widths, 4)| + |LoadPush(w, 4 + FrameSize(widths))|
    ensures |LoadPush(w, 4 + FrameSize(widths))| <= 5
  {
    hide ArgCode, FrameSize, Encodable;
    ArgCodeSnoc(widths, w, 4);
    FrameSizeSnoc(widths, w);
  }

  /** `mov eax,host` and `call eax`. */
  method EmitCall(stub: array<U8>, start: nat, host: U32) returns (p: nat)
    requires start + 7 <= stub.Length
    modifies stub
    ensures p == start + 7 && stub[..p] == old(stub[..start]) + CallCode(host)
  {
    p := Append(stub, start, [0xb8]);
    p := Append(stub, p, Le32(host));
    p := Append(stub, p, [0xff, 0xd0]);
  }

  /** Drop the pushed words, if there are any. */
  method EmitCleanup(stub: array<U8>, start: nat, pushed: nat) returns (p: nat)
    requires start + 3 <= stub.Length && pushed % 4 == 0 && pushed <= 127
    modifies stub
    ensures p <= start + 3 && p == start + |CleanupCode(pushed / 4)|
    ensures stub[..p] == old(stub[..start]) + CleanupCode(pushed / 4)
  {
    p := start;
    if pushed != 0 {
      p := Append(stub, p, [0x83, 0xc4, pushed]);
    }
  }

  /** The stub of one C/386 far16 bridge, in its 128-byte buffer. */
  method EmitBridgeStub(stub: array<U8>, widths: seq<U8>, host: U32) returns (r: Emitted)
    requires |widths| <= MAX_ARGS && stub.Length == 128
    modifies stub
    ensures r.Code? <==> WidthsKnown(widths)
    ensures r.Code? ==> Emittable(widths) && r.size <= 128 && stub[..r.size] == StubCode(widths, host)
  {
    hide ArgCode, CallCode, CleanupCode, Encodable, FrameSize;
    var p := Append(stub, 0, [0x8b, 0xd4]);
    var emitted, frameOff, pushed := EmitArguments(stub, p, widths);
    if emitted.Fatal? {
      return emitted;
    }
    FrameSizeBound(widths);
    p := EmitCall(stub, emitted.size, host);
    p := EmitCleanup(stub, p, pushed);
    p := Append(stub, p, [0xc2]);
    p := Append(stub, p, Le16(frameOff - 4));
    assert stub[..p] == StubCode(widths, host);
    r := Code(p);
  }

  /** The adapter for direct DOSCALLS.14 (five slots) and DOSCALLS.89 (three slots) calls,
      whose arguments all occupy 32-bit slots. Other ordinals get none. */
  method EmitSignalAdapter(stub: array<U8>, ordinal: U32, host: U32) returns (made: bool, size: nat)
    requires stub.Length == 96
    modifies stub
    ensures made <==> ordinal == 14 || ordinal == 89
    ensures made ==> var slots := seq(SignalSlots(ordinal), _ => 4);
                     Emittable(slots) && size <= 96 && stub[..size] == StubCode(slots, host)
  {
    hide ArgCode, CallCode, CleanupCode, FrameSize, LoadPush;
    var argc: nat;
    if ordinal == 14 {
      argc := 5;
    } else if ordinal == 89 {
      argc := 3;
    } else {
      return false, 0;
    }
    var p := Append(stub, 0, [0x8b, 0xd4]);
    var frameOff, pushed := 4, 0;
    SlotsFacts(0, 4);
    for i := 0 to argc
      invariant frameOff == 4 + pushed && pushed == 4 * i && p == 2 + 4 * i
      invariant Encodable(seq(i, _ => 4), 4) && FrameSize(seq(i, _ => 4)) == 4 * i
      invariant stub[..p] == [0x8b, 0xd4] + ArgCode(seq(i, _ => 4), 4)
    {
      var one := EmitLoadPush(stub, p, 4, frameOff);
      p := one.size;
      SlotsFacts(i + 1, 4);
      frameOff := frameOff + 4;
      pushed := pushed + 4;
    }
    p := EmitCall(stub, p, host);
    p := EmitCleanup(stub, p, pushed);
    p := Append(stub, p, [0xc2]);
    p := Append(stub, p, Le16(pushed));
    assert stub[..p] == StubCode(seq(argc, _ => 4), host);
    return true, p;
  }

  function SignalSlots(ordinal: U32): nat {
    if ordinal == 14 then 5 else if ordinal == 89 then 3 else 0
  }

  lemma SlotsFacts(n: nat, off: nat)
    requires n <= 8 && off == 4
    ensures Encodable(seq(n, _ => 4), off) && FrameSize(seq(n, _ => 4)) == 4 * n
    ensures n > 0 ==> Encodable(seq(n - 1, _ => 4), off) &&
                      ArgCode(seq(n, _ => 4), off) ==
                      ArgCode(seq(n - 1, _ => 4), off) + LoadPush(4, off + 4 * (n - 1))
    ensures |ArgCode(seq(n, _ => 4), off)| == 4 * n
  {
    if n > 0 {
      var w: seq<U8> := seq(n - 1, _ => 4);
      SlotsFacts(n - 1, off);
      assert seq(n, _ => 4) == w + [4];
      ArgCodeSnoc(w, 4, off);
      FrameSizeSnoc(w, 4);
    }
  }
}
