/**
 SHA-256 as FIPS 180-4 states it: the functions of section 4.1.2, padding (5.1.1), parsing (5.2.1) and the
 hash computation (6.2.2), over words and bytes as plain numbers.
 */
module Sha256Spec {
  import opened Hexadecimal
  import opened Int32

  /** The constants of section 4.2.2, eight to a row. */
  const K: seq<Word> := K0 + K1 + K2 + K3 + K4 + K5 + K6 + K7

  type Row = r: seq<Word> | |r| == 8 witness seq(8, _ => 0)

  const K0: Row := [
    0x428a2f98, 0x71374491, 0xb5c0fbcf, 0xe9b5dba5, 0x3956c25b, 0x59f111f1, 0x923f82a4, 0xab1c5ed5
  ]
  const K1: Row := [
    0xd807aa98, 0x12835b01, 0x243185be, 0x550c7dc3, 0x72be5d74, 0x80deb1fe, 0x9bdc06a7, 0xc19bf174
  ]
  const K2: Row := [
    0xe49b69c1, 0xefbe4786, 0x0fc19dc6, 0x240ca1cc, 0x2de92c6f, 0x4a7484aa, 0x5cb0a9dc, 0x76f988da
  ]
  const K3: Row := [
    0x983e5152, 0xa831c66d, 0xb00327c8, 0xbf597fc7, 0xc6e00bf3, 0xd5a79147, 0x06ca6351, 0x14292967
  ]
  const K4: Row := [
    0x27b70a85, 0x2e1b2138, 0x4d2c6dfc, 0x53380d13, 0x650a7354, 0x766a0abb, 0x81c2c92e, 0x92722c85
  ]
  const K5: Row := [
    0xa2bfe8a1, 0xa81a664b, 0xc24b8b70, 0xc76c51a3, 0xd192e819, 0xd6990624, 0xf40e3585, 0x106aa070
  ]
  const K6: Row := [
    0x19a4c116, 0x1e376c08, 0x2748774c, 0x34b0bcb5, 0x391c0cb3, 0x4ed8aa4a, 0x5b9cca4f, 0x682e6ff3
  ]
  const K7: Row := [
    0x748f82ee, 0x78a5636f, 0x84c87814, 0x8cc70208, 0x90befffa, 0xa4506ceb, 0xbef9a3f7, 0xc67178f2
  ]

  function RoundConstant(t: nat): Word
    requires t < 64
  {
    K[t]
  }

  /** Circular right shift: the low n bits become the high n bits. */
  function Rotr(x: Word, n: nat): Word
    requires n <= 32
  {
    RotrBounded(x, n);
    Halved(x, n) + Scaled(LowBits(x, n), 32 - n)
  }

  lemma RotrBounded(x: Word, n: nat)
    requires n <= 32
    ensures Halved(x, n) < Pow2(32 - n)
    ensures Halved(x, n) + Scaled(LowBits(x, n), 32 - n) < TWO32
  {
    hide Halved, Scaled, LowBits;
    ScaledByBytes(1);
    SplitBits(x, n);
    HalvedBounded(x, n, 32);
    ScaledBounded(LowBits(x, n), 32 - n, n);
  }

  function Ch(x: Word, y: Word, z: Word): Word {
    WordGate(Xor, WordGate(And, x, y), WordGate(And, WordNot(x), z))
  }

  function Maj(x: Word, y: Word, z: Word): Word {
    WordGate(Xor, WordGate(Xor, WordGate(And, x, y), WordGate(And, x, z)), WordGate(And, y, z))
  }

  function Xor3(x: Word, y: Word, z: Word): Word {
    WordGate(Xor, WordGate(Xor, x, y), z)
  }

  function BigSigma0(x: Word): Word { Xor3(Rotr(x, 2), Rotr(x, 13), Rotr(x, 22)) }
  function BigSigma1(x: Word): Word { Xor3(Rotr(x, 6), Rotr(x, 11), Rotr(x, 25)) }
  function SmallSigma0(x: Word): Word { Xor3(Rotr(x, 7), Rotr(x, 18), JsShr(x, 3)) }
  function SmallSigma1(x: Word): Word { Xor3(Rotr(x, 17), Rotr(x, 19), JsShr(x, 10)) }

  /** Four bytes as a big-endian word. */
  function BigEndian(b: seq<Byte>): Word
    requires |b| == 4
  {
    b[0] as int * 0x100_0000 + b[1] as int * 0x1_0000 + b[2] as int * 0x100 + b[3]
  }

  type Block = b: seq<Byte> | |b| == 64 witness seq(64, _ => 0)
  type Hash = h: seq<Word> | |h| == 8 witness seq(8, _ => 0)

  /** Word t of the message schedule. */
  function Schedule(m: Block, t: nat): Word {
    if t < 16 then BigEndian(m[4 * t..4 * t + 4])
    else
      (SmallSigma1(Schedule(m, t - 2)) + Schedule(m, t - 7)
       + SmallSigma0(Schedule(m, t - 15)) + Schedule(m, t - 16)) % TWO32
  }

  datatype Vars = Vars(a: Word, b: Word, c: Word, d: Word, e: Word, f: Word, g: Word, h: Word)

  function Round(v: Vars, k: Word, w: Word): Vars {
    var t1 := (v.h + BigSigma1(v.e) + Ch(v.e, v.f, v.g) + k + w) % TWO32;
    var t2 := (BigSigma0(v.a) + Maj(v.a, v.b, v.c)) % TWO32;
    Vars((t1 + t2) % TWO32, v.a, v.b, v.c, (v.d + t1) % TWO32, v.e, v.f, v.g)
  }

  /** The working variables after t rounds. */
  function Rounds(s: Hash, m: Block, t: nat): Vars
    requires t <= 64
  {
    if t == 0 then Vars(s[0], s[1], s[2], s[3], s[4], s[5], s[6], s[7])
    else Round(Rounds(s, m, t - 1), RoundConstant(t - 1), Schedule(m, t - 1))
  }

  function AddVars(s: Hash, v: Vars): Hash {
    [(s[0] + v.a) % TWO32, (s[1] + v.b) % TWO32, (s[2] + v.c) % TWO32, (s[3] + v.d) % TWO32,
     (s[4] + v.e) % TWO32, (s[5] + v.f) % TWO32, (s[6] + v.g) % TWO32, (s[7] + v.h) % TWO32]
  }

  function CompressBlock(s: Hash, m: Block): Hash {
    AddVars(s, Rounds(s, m, 64))
  }

  const H0: Hash := [
    0x6a09e667, 0xbb67ae85, 0x3c6ef372, 0xa54ff53a, 0x510e527f, 0x9b05688c, 0x1f83d9ab, 0x5be0cd19
  ]

  /** The chaining value after the blocks of m: H(i) is computed from H(i-1) and block i. */
  function HashBlocks(m: seq<Byte>): Hash
    requires |m| % 64 == 0
  {
    if m == [] then H0 else CompressBlock(HashBlocks(m[..|m| - 64]), m[|m| - 64..])
  }

  function Zeros(n: nat): seq<Byte> { seq(n, _ => 0) }

  /** The number of zero BYTES: with the 0x80 byte it brings the length to 56 modulo 64. */
  function ZeroCount(length: nat): nat {
    (119 - length % 64) % 64
  }

  lemma PadLength(length: nat)
    ensures (length + 1 + ZeroCount(length) + 8) % 64 == 0
  {
    var q, r := length / 64, length % 64;
    assert length + 9 + ZeroCount(length) == 64 * (if r <= 55 then q + 1 else q + 2);
  }

  /** n as big-endian bytes. */
  function BytesOf(n: nat, width: nat): (b: seq<Byte>)
    ensures |b| == width
  {
    if width == 0 then [] else BytesOf(n / 0x100, width - 1) + [n % 0x100]
  }

  /** A 1 bit, then the fewest zero bits, then the bit length in 64 bits. */
  function Pad(m: seq<Byte>): (p: seq<Byte>)
    ensures |p| % 64 == 0
  {
    PadLength(|m|);
    m + [0x80] + Zeros(ZeroCount(|m|)) + BytesOf(8 * |m|, 8)
  }

  function HexOfWords(words: seq<Word>): string {
    if words == [] then "" else HexOfWords(words[..|words| - 1]) + Hex(words[|words| - 1], 8)
  }

  /** The message digest, in hexadecimal. */
  function Sha256Hex(m: seq<Byte>): string {
    HexOfWords(HashBlocks(Pad(m)))
  }

  /** ZeroCount is the smallest count that satisfies the equation of section 5.1.1. */
  lemma ZeroCountIsLeast(length: nat, k: nat)
    ensures (length + 1 + ZeroCount(length)) % 64 == 56
    ensures (length + 1 + k) % 64 == 56 ==> ZeroCount(length) <= k
  {
    PadLength(length);
    var r := length % 64;
    assert (length + 1 + k) % 64 == (r + 1 + k) % 64;
    assert (r + 1 + k) % 64 == 56 ==> r + 1 + k == 56 || r + 1 + k >= 120;
  }
}
