/** The file fingerprint: SHA-256 computed block by block without storing the padded text. */
module Fingerprint {
  import opened Words
  import opened Sha256

  // ---- blocks ----------------------------------------------------------------------------------------

  /** The number of blocks the code makes of a file. */
  function Blocks(size: nat): nat {
    size / 64 + if size % 64 < 56 then 1 else 2
  }

  /** The last five bytes of the last block, from 32-bit words. */
  function Tail(size: U32, i: nat): U8
    requires 59 <= i < 64
  {
    if i == 59 then size / 0x2000_0000 else ShiftBytes(Wrap(8 * size), 63 - i) % 0x100
  }

  /** The buffer for one block: the file's bytes from a 32-bit position on, the 0x80 byte if the
      file ends in it, zeros, and in the last block the length. */
  function Filled(data: seq<U8>, block: nat): Block
    requires |data| < TWO32 && block < Blocks(|data|)
  {
    var pos := Wrap(64 * block);
    seq(64, i requires 0 <= i < 64 =>
      if block == Blocks(|data|) - 1 && i >= 59 then Tail(|data|, i)
      else if pos + i < |data| then data[pos + i]
      else if pos + i == |data| then 0x80
      else 0)
  }

  lemma BlockCount(data: seq<U8>)
    ensures 64 * Blocks(|data|) == |Pad(data)|
  {
  }

  /** Where each byte of the padded text comes from. */
  lemma PadAt(data: seq<U8>, i: nat)
    requires i < |Pad(data)|
    ensures Pad(data)[i] ==
            if i < |data| then data[i]
            else if i == |data| then 0x80
            else if i < |Pad(data)| - 8 then 0
            else LengthByte(|data|, i - (|Pad(data)| - 8))
  {
    hide LengthByte;
  }

  lemma LengthBytes(size: U32)
    ensures forall i :: 59 <= i < 64 ==> LengthByte(size, i - 56) == Tail(size, i)
    ensures forall i :: 0 <= i < 3 ==> LengthByte(size, i) == 0
  {
    hide ShiftBytes, Wrap;
    HighByte(size);
    Shifted(8 * size);
    forall i | 59 <= i < 64 ensures LengthByte(size, i - 56) == Tail(size, i) {
      assert 7 - (i - 56) == 63 - i;
    }
  }

  lemma Down(x: nat, y: nat, w: nat)
    requires x == y + 0x100 * w
    ensures x / 0x100 == y / 0x100 + w && x % 0x100 == y % 0x100
  {
  }

  /** The low four bytes survive reduction to a word; the fifth is the carry. */
  lemma Shifted(b: nat)
    requires b < 0x100_0000_0000
    ensures forall k :: 0 <= k < 4 ==> ShiftBytes(b, k) % 0x100 == ShiftBytes(Wrap(b), k) % 0x100
    ensures ShiftBytes(b, 4) % 0x100 == b / 0x1_0000_0000
    ensures forall k :: 4 < k < 8 ==> ShiftBytes(b, k) == 0
  {
    var q, n := b / 0x1_0000_0000, Wrap(b);
    assert b == n + 0x1_0000_0000 * q && q < 0x100;
    Shifts(b);
    Shifts(n);
    Down(b, n, 0x100_0000 * q);
    Down(ShiftBytes(b, 1), ShiftBytes(n, 1), 0x1_0000 * q);
    Down(ShiftBytes(b, 2), ShiftBytes(n, 2), 0x100 * q);
    Down(ShiftBytes(b, 3), ShiftBytes(n, 3), q);
    WordShifted(n);
    assert ShiftBytes(b, 4) == q;
    assert ShiftBytes(b, 5) == 0 && ShiftBytes(b, 6) == 0 && ShiftBytes(b, 7) == 0;
  }

  lemma Shifts(n: nat)
    ensures ShiftBytes(n, 0) == n && forall k :: 0 <= k < 7 ==> ShiftBytes(n, k + 1) == ShiftBytes(n, k) / 0x100
  {
  }

  lemma WordShifted(n: U32)
    ensures ShiftBytes(n, 4) == 0
  {
    Shifts(n);
    assert ShiftBytes(n, 1) < 0x100_0000;
    assert ShiftBytes(n, 2) < 0x1_0000;
    assert ShiftBytes(n, 3) < 0x100;
  }

  lemma HighByte(size: U32)
    ensures 8 * size / 0x1_0000_0000 == size / 0x2000_0000 < 8
  {
  }

  function PaddedBlock(data: seq<U8>, block: nat): (b: Block)
    requires block < Blocks(|data|)
  {
    BlockCount(data);
    Pad(data)[64 * block..64 * block + 64]
  }

  lemma PaddedAt(data: seq<U8>, block: nat, i: nat)
    requires |data| < TWO32 && block < Blocks(|data|) && i < 64
    ensures PaddedBlock(data, block)[i] ==
            if 64 * block + i < |data| then data[64 * block + i]
            else if 64 * block + i == |data| then 0x80
            else if block == Blocks(|data|) - 1 && i >= 59 then Tail(|data|, i)
            else 0
    ensures block == Blocks(|data|) - 1 && i >= 56 ==> 64 * block + i > |data|
  {
    hide Pad, LengthByte, Tail;
    BlockCount(data);
    PadAt(data, 64 * block + i);
    LengthBytes(|data|);
  }

  /** A position that fits a 32-bit word gives the block of the padded text. */
  lemma FilledIsPadded(data: seq<U8>, block: nat)
    requires |data| < TWO32 && block < Blocks(|data|) && 64 * block < TWO32
    ensures Filled(data, block) == PaddedBlock(data, block)
  {
    hide PaddedBlock, Tail;
    forall i | 0 <= i < 64 ensures Filled(data, block)[i] == PaddedBlock(data, block)[i] {
      PaddedAt(data, block, i);
    }
  }

  predicate StartsZero(data: seq<U8>) {
    forall i :: 0 <= i < 59 && i < |data| ==> data[i] == 0
  }

  /** A position that wraps starts the file again instead of padding it. */
  lemma WrappedBlock(data: seq<U8>, block: nat)
    requires |data| < TWO32 && block < Blocks(|data|) && 64 * block >= TWO32
    ensures |data| >= TWO32 - 8 && block == Blocks(|data|) - 1
    ensures Filled(data, block) == PaddedBlock(data, block) <==> StartsZero(data)
  {
    hide PaddedBlock, Tail;
    assert Wrap(64 * block) == 0;
    forall i | 0 <= i < 64
      ensures Filled(data, block)[i] == if i >= 59 then Tail(|data|, i) else data[i]
      ensures PaddedBlock(data, block)[i] == if i >= 59 then Tail(|data|, i) else 0
    {
      PaddedAt(data, block, i);
    }
    if StartsZero(data) {
      assert forall i :: 0 <= i < 64 ==> Filled(data, block)[i] == PaddedBlock(data, block)[i];
    } else {
      var i :| 0 <= i < 59 && data[i] != 0;
      assert Filled(data, block)[i] != PaddedBlock(data, block)[i];
    }
  }

  /** The code hashes the padded text of section 5.1.1 of FIPS 180-4 exactly when its length fits
      32-bit positions, or else the file starts with 59 zero bytes. */
  lemma PaddingExact(data: seq<U8>)
    requires |data| < TWO32
    ensures (forall block :: 0 <= block < Blocks(|data|) ==> Filled(data, block) == PaddedBlock(data, block)) <==>
            |data| < TWO32 - 8 || StartsZero(data)
  {
    hide PaddedBlock, Filled, StartsZero;
    forall block | 0 <= block < Blocks(|data|)
      ensures Filled(data, block) == PaddedBlock(data, block) <==> 64 * block < TWO32 || StartsZero(data)
      ensures 64 * block >= TWO32 ==> |data| >= TWO32 - 8
    {
      if 64 * block < TWO32 {
        FilledIsPadded(data, block);
      } else {
        WrappedBlock(data, block);
      }
    }
    if |data| >= TWO32 - 8 {
      assert 64 * (Blocks(|data|) - 1) >= TWO32;
    }
  }

  // ---- the whole -----------------------------------------------------------------------------------------

  function AbsorbFilled(data: seq<U8>, n: nat): Hash
    requires |data| < TWO32 && n <= Blocks(|data|)
  {
    if n == 0 then INITIAL else Compress(AbsorbFilled(data, n - 1), Filled(data, n - 1))
  }

  function Computed(data: seq<U8>): seq<U8>
    requires |data| < TWO32
  {
    var last := AbsorbFilled(data, Blocks(|data|));
    seq(32, i requires 0 <= i < 32 => DigestByte(last, i))
  }

  lemma {:induction false} SameAbsorbed(data: seq<U8>, n: nat)
    requires |data| < TWO32 && n <= Blocks(|data|)
    requires forall block :: 0 <= block < Blocks(|data|) ==> Filled(data, block) == PaddedBlock(data, block)
    ensures 64 * n <= |Pad(data)| && AbsorbFilled(data, n) == Absorb(Pad(data), n)
    decreases n
  {
    hide Filled, Pad, Compress, Blocks;
    BlockCount(data);
    if n > 0 {
      SameAbsorbed(data, n - 1);
      assert Filled(data, n - 1) == PaddedBlock(data, n - 1);
    }
  }

  /** The fingerprint is SHA-256, for every file whose padded length fits 32-bit positions. */
  lemma FingerprintIsSha256(data: seq<U8>)
    requires |data| < TWO32 && (|data| < TWO32 - 8 || StartsZero(data))
    ensures Computed(data) == Digest(data)
  {
    hide Filled, Pad, PaddedBlock, AbsorbFilled, Absorb, DigestByte;
    PaddingExact(data);
    SameAbsorbed(data, Blocks(|data|));
    BlockCount(data);
  }

  lemma TailValue(size: U32)
    ensures 8 * size == 0x1_0000_0000 * Tail(size, 59) + 0x100_0000 * Tail(size, 60) + 0x1_0000 * Tail(size, 61) +
                        0x100 * Tail(size, 62) + Tail(size, 63)
  {
    var n := Wrap(8 * size);
    HighByte(size);
    assert 8 * size == 0x1_0000_0000 * (size / 0x2000_0000) + n;
    WordDigits(n);
  }

  lemma WordDigits(n: U32)
    ensures n == 0x100_0000 * (ShiftBytes(n, 3) % 0x100) + 0x1_0000 * (ShiftBytes(n, 2) % 0x100) + 0x100 * (ShiftBytes(n, 1) % 0x100) + n % 0x100
  {
    WordShifted(n);
    Shifts(n);
    var n1, n2, n3 := ShiftBytes(n, 1), ShiftBytes(n, 2), ShiftBytes(n, 3);
    assert n == 0x100 * n1 + n % 0x100 && n1 == 0x100 * n2 + n1 % 0x100 && n2 == 0x100 * n3 + n2 % 0x100;
    assert n3 < 0x100;
  }

  lemma PadTail(data: seq<U8>, i: nat)
    requires |data| < TWO32 && 59 <= i < 64
    ensures |Pad(data)| >= 64 && Pad(data)[|Pad(data)| - 64 + i] == Tail(|data|, i)
  {
    hide Tail;
    BlockCount(data);
    PaddedAt(data, Blocks(|data|) - 1, i);
  }

  /** Padding can be undone: different files have different padded texts. */
  lemma PadInjective(a: seq<U8>, b: seq<U8>)
    requires |a| < TWO32 && |b| < TWO32 && Pad(a) == Pad(b)
    ensures a == b
  {
    hide Tail, Pad;
    assert |a| == |b| by {
      forall i | 59 <= i < 64 ensures Tail(|a|, i) == Tail(|b|, i) {
        PadTail(a, i);
        PadTail(b, i);
      }
      TailValue(|a|);
      TailValue(|b|);
    }
    forall i | 0 <= i < |a| ensures a[i] == b[i] {
      BlockCount(a);
      PadAt(a, i);
      PadAt(b, i);
    }
  }

  // ---- as it runs -----------------------------------------------------------------------------------------

  /** Clears the buffer, copies the file's next bytes, ends the text, and in the last block
      stores the length. */
  method FillBuffer(data: seq<U8>, buf: array<U8>, block: nat, blocks: nat)
    requires |data| < TWO32 && blocks == Blocks(|data|) && block < blocks && buf.Length == 64
    modifies buf
    ensures buf[..] == Filled(data, block)
  {
    hide Tail;
    var size := |data|;
    forall i | 0 <= i < 64 {
      buf[i] := 0;
    }
    var pos := Wrap(64 * block);
    if pos < size {
      var n := if size - pos > 64 then 64 else size - pos;
      forall i | 0 <= i < n {
        buf[i] := data[pos + i];
      }
    }
    if pos <= size && size - pos < 64 {
      buf[size - pos] := 0x80;
    }
    if block == blocks - 1 {
      StoreLength(size, buf);
    }
  }

  method StoreLength(size: U32, buf: array<U8>)
    requires buf.Length == 64
    modifies buf
    ensures forall i :: 0 <= i < 64 ==> buf[i] == if i >= 59 then Tail(size, i) else old(buf[i])
  {
    hide ShiftBytes;
    buf[59] := size / 0x2000_0000;
    var n, i := Wrap(8 * size), 0;
    while i < 4
      invariant 0 <= i <= 4
      invariant forall j :: 0 <= j < 64 ==> buf[j] == if j == 59 || j > 63 - i then Tail(size, j) else old(buf[j])
    {
      buf[63 - i] := ShiftBytes(n, i) % 0x100;
      i := i + 1;
    }
  }

  lemma PlusCommutes(x: U32, y: U32)
    ensures Plus(x, y) == Plus(y, x)
  {
  }

  lemma PlusAssociates(x: U32, y: U32, z: U32)
    ensures Plus(Plus(x, y), z) == Plus(x, Plus(y, z))
  {
  }

  /** The code adds the four terms of the schedule in another order. */
  lemma Shuffled(p: U32, q: U32, r: U32, s: U32)
    ensures Plus(Plus(Plus(p, q), r), s) == Plus(Plus(Plus(s, r), q), p)
  {
    hide Plus;
    PlusCommutes(Plus(Plus(p, q), r), s);
    PlusCommutes(Plus(p, q), r);
    PlusCommutes(p, q);
    PlusAssociates(s, r, Plus(q, p));
    PlusAssociates(Plus(s, r), q, p);
  }

  /** The message schedule. */
  method Schedule(buf: array<U8>, w: array<U32>)
    requires buf.Length == 64 && w.Length == 64
    modifies w
    ensures forall t :: 0 <= t < 64 ==> w[t] == W(buf[..], t)
  {
    hide SmallSigma0, SmallSigma1, Plus, Join32;
    ghost var block: Block := buf[..];
    var i := 0;
    while i < 16
      invariant 0 <= i <= 16 && forall t :: 0 <= t < i ==> w[t] == W(block, t)
    {
      w[i] := Join32(buf[4 * i + 3], buf[4 * i + 2], buf[4 * i + 1], buf[4 * i]);
      i := i + 1;
    }
    while i < 64
      invariant 16 <= i <= 64 && forall t :: 0 <= t < i ==> w[t] == W(block, t)
    {
      Shuffled(w[i - 16], SmallSigma0(w[i - 15]), w[i - 7], SmallSigma1(w[i - 2]));
      w[i] := Plus(Plus(Plus(w[i - 16], SmallSigma0(w[i - 15])), w[i - 7]), SmallSigma1(w[i - 2]));
      i := i + 1;
    }
  }

  ghost function HashOf(h: array<U32>): Hash
    requires h.Length == 8
    reads h
  {
    Hash(h[0], h[1], h[2], h[3], h[4], h[5], h[6], h[7])
  }

  /** The rounds over eight working variables. */
  method RunRounds(s: Hash, w: array<U32>, ghost block: Block) returns (r: Hash)
    requires w.Length == 64 && forall t :: 0 <= t < 64 ==> w[t] == W(block, t)
    ensures r == Rounds(s, block, 64)
  {
    hide BigSigma0, BigSigma1, Ch, Maj, W, Plus;
    var a, b, c, d, e, f, g, j := s.a, s.b, s.c, s.d, s.e, s.f, s.g, s.h;
    var i := 0;
    while i < 64
      invariant 0 <= i <= 64 && Hash(a, b, c, d, e, f, g, j) == Rounds(s, block, i)
    {
      var t1 := Plus(Plus(Plus(Plus(j, BigSigma1(e)), Ch(e, f, g)), K[i]), w[i]);
      var t2 := Plus(BigSigma0(a), Maj(a, b, c));
      j, g, f, e, d, c, b, a := g, f, e, Plus(d, t1), c, b, a, Plus(t1, t2);
      i := i + 1;
    }
    r := Hash(a, b, c, d, e, f, g, j);
  }

  /** One block: the rounds, and their sum with the hash so far. */
  method Mix(h: array<U32>, w: array<U32>, ghost block: Block)
    requires h.Length == 8 && w.Length == 64 && h != w && forall t :: 0 <= t < 64 ==> w[t] == W(block, t)
    modifies h
    ensures HashOf(h) == Compress(old(HashOf(h)), block)
  {
    hide Rounds, Plus, W;
    var s := Hash(h[0], h[1], h[2], h[3], h[4], h[5], h[6], h[7]);
    var r := RunRounds(s, w, block);
    Sums(s, r);
    h[0], h[1], h[2], h[3] := Plus(s.a, r.a), Plus(s.b, r.b), Plus(s.c, r.c), Plus(s.d, r.d);
    h[4], h[5], h[6], h[7] := Plus(s.e, r.e), Plus(s.f, r.f), Plus(s.g, r.g), Plus(s.h, r.h);
  }

  lemma Sums(s: Hash, r: Hash)
    ensures Plus(s.a, r.a) == Plus(r.a, s.a) && Plus(s.b, r.b) == Plus(r.b, s.b) && Plus(s.c, r.c) == Plus(r.c, s.c)
    ensures Plus(s.d, r.d) == Plus(r.d, s.d) && Plus(s.e, r.e) == Plus(r.e, s.e) && Plus(s.f, r.f) == Plus(r.f, s.f)
    ensures Plus(s.g, r.g) == Plus(r.g, s.g) && Plus(s.h, r.h) == Plus(r.h, s.h)
  {
  }

  /** `tp_sha256`. */
  method TpSha256(data: seq<U8>, digest: array<U8>)
    requires |data| < TWO32 && digest.Length == 32
    modifies digest
    ensures digest[..] == Computed(data)
  {
    hide Filled, Compress, W, DigestByte;
    var h := new U32[8];
    h[0], h[1], h[2], h[3] := 0x6a09e667, 0xbb67ae85, 0x3c6ef372, 0xa54ff53a;
    h[4], h[5], h[6], h[7] := 0x510e527f, 0x9b05688c, 0x1f83d9ab, 0x5be0cd19;
    var w := new U32[64];
    var buf := new U8[64];
    var blocks, block := Blocks(|data|), 0;
    while block < blocks
      invariant 0 <= block <= blocks && HashOf(h) == AbsorbFilled(data, block)
    {
      FillBuffer(data, buf, block, blocks);
      Schedule(buf, w);
      Mix(h, w, Filled(data, block));
      block := block + 1;
    }
    forall i | 0 <= i < 32 {
      digest[i] := DigestByte(Hash(h[0], h[1], h[2], h[3], h[4], h[5], h[6], h[7]), i);
    }
  }
}
