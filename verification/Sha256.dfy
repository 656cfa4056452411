/** SHA-256 as FIPS 180-4 defines it. */
module Sha256 {
  import opened Words

  // ---- section 4: functions and constants ---------------------------------------------------------

  /** Addition modulo 2^32. */
  function Plus(x: U32, y: U32): U32 { Wrap(x + y) }

  /** ROTR. */
  function Ror(v: bv32, n: nat): bv32
    requires 0 < n < 32
  {
    (v >> n) | (v << (32 - n))
  }

  function Ch(x: U32, y: U32, z: U32): U32 {
    (((x as bv32) & (y as bv32)) ^ (!(x as bv32) & (z as bv32))) as int
  }

  function Maj(x: U32, y: U32, z: U32): U32 {
    (((x as bv32) & (y as bv32)) ^ ((x as bv32) & (z as bv32)) ^ ((y as bv32) & (z as bv32))) as int
  }

  function BigSigma0(x: U32): U32 {
    var v := x as bv32;
    (Ror(v, 2) ^ Ror(v, 13) ^ Ror(v, 22)) as int
  }

  function BigSigma1(x: U32): U32 {
    var v := x as bv32;
    (Ror(v, 6) ^ Ror(v, 11) ^ Ror(v, 25)) as int
  }

  function SmallSigma0(x: U32): U32 {
    var v := x as bv32;
    (Ror(v, 7) ^ Ror(v, 18) ^ (v >> 3)) as int
  }

  function SmallSigma1(x: U32): U32 {
    var v := x as bv32;
    (Ror(v, 17) ^ Ror(v, 19) ^ (v >> 10)) as int
  }

  const K: seq<U32> := [
    0x428a2f98, 0x71374491, 0xb5c0fbcf, 0xe9b5dba5, 0x3956c25b, 0x59f111f1, 0x923f82a4, 0xab1c5ed5,
    0xd807aa98, 0x12835b01, 0x243185be, 0x550c7dc3, 0x72be5d74, 0x80deb1fe, 0x9bdc06a7, 0xc19bf174,
    0xe49b69c1, 0xefbe4786, 0x0fc19dc6, 0x240ca1cc, 0x2de92c6f, 0x4a7484aa, 0x5cb0a9dc, 0x76f988da,
    0x983e5152, 0xa831c66d, 0xb00327c8, 0xbf597fc7, 0xc6e00bf3, 0xd5a79147, 0x06ca6351, 0x14292967,
    0x27b70a85, 0x2e1b2138, 0x4d2c6dfc, 0x53380d13, 0x650a7354, 0x766a0abb, 0x81c2c92e, 0x92722c85,
    0xa2bfe8a1, 0xa81a664b, 0xc24b8b70, 0xc76c51a3, 0xd192e819, 0xd6990624, 0xf40e3585, 0x106aa070,
    0x19a4c116, 0x1e376c08, 0x2748774c, 0x34b0bcb5, 0x391c0cb3, 0x4ed8aa4a, 0x5b9cca4f, 0x682e6ff3,
    0x748f82ee, 0x78a5636f, 0x84c87814, 0x8cc70208, 0x90befffa, 0xa4506ceb, 0xbef9a3f7, 0xc67178f2]

  // ---- section 5.1.1: padding --------------------------------------------------------------------------

  /** The least number of zero bytes after the 0x80 byte that leaves room for eight more in the
      last block of 64. */
  function ZeroBytes(size: nat): (z: nat)
    ensures (size + 1 + z + 8) % 64 == 0 && z < 64
  {
    (64 - (size + 9) % 64) % 64
  }

  function Zeros(n: nat): (s: seq<U8>)
    ensures |s| == n && forall i :: 0 <= i < n ==> s[i] == 0
  {
    seq(n, _ => 0)
  }

  /** `n` shifted right by `k` bytes. */
  function ShiftBytes(n: nat, k: nat): nat {
    if k == 0 then n else ShiftBytes(n, k - 1) / 0x100
  }

  /** Byte `i` of the length in bits, as a 64-bit number with its largest byte first. */
  function LengthByte(size: nat, i: nat): U8
    requires i < 8
  {
    ShiftBytes(8 * size, 7 - i) % 0x100
  }

  function Pad(data: seq<U8>): (p: seq<U8>)
    ensures |p| % 64 == 0
  {
    data + [0x80] + Zeros(ZeroBytes(|data|)) + seq(8, i requires 0 <= i < 8 => LengthByte(|data|, i))
  }

  // ---- section 6.2.2: the hash computation -------------------------------------------------------------

  type Block = b: seq<U8> | |b| == 64 witness seq(64, _ => 0)

  /** Word `t` of a block, its first byte the largest. */
  function Message(b: Block, t: nat): U32
    requires t < 16
  {
    Join32(b[4 * t + 3], b[4 * t + 2], b[4 * t + 1], b[4 * t])
  }

  /** The message schedule. */
  function W(b: Block, t: nat): U32 {
    if t < 16 then Message(b, t)
    else Plus(Plus(Plus(SmallSigma1(W(b, t - 2)), W(b, t - 7)), SmallSigma0(W(b, t - 15))), W(b, t - 16))
  }

  datatype Hash = Hash(a: U32, b: U32, c: U32, d: U32, e: U32, f: U32, g: U32, h: U32)

  const INITIAL := Hash(0x6a09e667, 0xbb67ae85, 0x3c6ef372, 0xa54ff53a, 0x510e527f, 0x9b05688c, 0x1f83d9ab, 0x5be0cd19)

  function Round(s: Hash, b: Block, t: nat): Hash
    requires t < 64
  {
    var t1 := Plus(Plus(Plus(Plus(s.h, BigSigma1(s.e)), Ch(s.e, s.f, s.g)), K[t]), W(b, t));
    var t2 := Plus(BigSigma0(s.a), Maj(s.a, s.b, s.c));
    Hash(Plus(t1, t2), s.a, s.b, s.c, Plus(s.d, t1), s.e, s.f, s.g)
  }

  /** The first `t` rounds. */
  function Rounds(s: Hash, b: Block, t: nat): Hash
    requires t <= 64
  {
    if t == 0 then s else Round(Rounds(s, b, t - 1), b, t - 1)
  }

  function Compress(s: Hash, b: Block): Hash {
    var r := Rounds(s, b, 64);
    Hash(Plus(r.a, s.a), Plus(r.b, s.b), Plus(r.c, s.c), Plus(r.d, s.d),
         Plus(r.e, s.e), Plus(r.f, s.f), Plus(r.g, s.g), Plus(r.h, s.h))
  }

  /** The hash after the first `n` blocks. */
  function Absorb(text: seq<U8>, n: nat): Hash
    requires 64 * n <= |text|
  {
    if n == 0 then INITIAL else Compress(Absorb(text, n - 1), text[64 * (n - 1)..64 * n])
  }

  function Words8(s: Hash): (w: seq<U32>)
    ensures |w| == 8
  {
    [s.a, s.b, s.c, s.d, s.e, s.f, s.g, s.h]
  }

  function DigestByte(s: Hash, i: nat): U8
    requires i < 32
  {
    ShiftBytes(Words8(s)[i / 4], 3 - i % 4) % 0x100
  }

  function Digest(data: seq<U8>): seq<U8> {
    var padded := Pad(data);
    var last := Absorb(padded, |padded| / 64);
    seq(32, i requires 0 <= i < 32 => DigestByte(last, i))
  }
}
