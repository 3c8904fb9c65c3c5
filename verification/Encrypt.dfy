/** Sealing a file chunk by chunk in the browser: chunk boundaries, sizes, IVs, and opening again. */
module Encrypt {
  import opened Hexadecimal
  import opened Int32
  import opened Wrappers

  const CIPHER_CHUNK_BYTES: nat := 0x80_0000
  const GCM_TAG_BYTES: nat := 16
  /** One full chunk with its tag. */
  const SEALED_CHUNK_BYTES: nat := 0x80_0010
  /** The largest file an asset may be registered with. */
  const MAX_BYTE_SIZE: nat := 0x100_0000_0000

  // ------------------------------------------------------------- AES-GCM, abstractly

  type Bytes = seq<Byte>
  type Key = seq<Byte>

  datatype Gcm = Gcm(seal: (Key, Bytes, Bytes) -> Bytes, open: (Key, Bytes, Bytes) -> Option<Bytes>)

  /** What is assumed of AES-GCM: the tag's length, and that opening undoes sealing. */
  ghost predicate Lawful(g: Gcm) {
    forall k: Key, iv: Bytes, p: Bytes ::
      |g.seal(k, iv, p)| == |p| + GCM_TAG_BYTES && g.open(k, iv, g.seal(k, iv, p)) == Some(p)
  }

  // ------------------------------------------------------------- IVs

  /** 16 lower-case hexadecimal characters. */
  predicate IsIvBase(s: string) {
    |s| == 16 && IsHex(s)
  }

  function BaseByte(base: string, i: nat): Byte
    requires IsIvBase(base) && i < 8
  {
    var two := base[2 * i..2 * i + 2];
    ParseBounded(two);
    assert Pow16(2) == 16 * Pow16(1);
    ParseHex(two)
  }

  /** Byte i, from the low end, of the big-endian counter. */
  function CounterByte(index: nat, i: nat): Byte {
    LowBits8(Halved(ToUint32(index), 8 * i));
    LowBits(Halved(ToUint32(index), 8 * i), 8)
  }

  lemma LowBits8(x: nat)
    ensures LowBits(x, 8) < 0x100
  {
    SplitBits(x, 8);
    ScaledByBytes(1);
  }

  /** The IV of a chunk: the 8 base bytes and the chunk counter in the last 4. */
  function ChunkIv(base: string, index: nat): Bytes
    requires IsIvBase(base)
  {
    seq(8, i requires 0 <= i < 8 => BaseByte(base, i))
    + [CounterByte(index, 3), CounterByte(index, 2), CounterByte(index, 1), CounterByte(index, 0)]
  }

  /** Masking with 2^n - 1 keeps the low n bits. */
  lemma {:induction false} MaskKeepsLowBits(x: nat, n: nat)
    ensures Combine(And, x, Pow2(n) - 1) == LowBits(x, n)
    decreases n
  {
    if n == 0 {
      AndWithZero(x);
    } else {
      assert (Pow2(n) - 1) / 2 == Pow2(n - 1) - 1 && (Pow2(n) - 1) % 2 == 1;
      MaskKeepsLowBits(x / 2, n - 1);
    }
  }

  lemma {:induction false} AndWithZero(x: nat)
    ensures Combine(And, x, 0) == 0
  {
    if x > 0 { AndWithZero(x / 2); }
  }

  /** `(index >>> shift) & 0xff`, with JavaScript's operators. */
  function JsByteOf(index: nat, shift: nat): int
    requires shift < 32
  {
    JsGate(And, JsShr(index, shift), 0xff)
  }

  lemma JsByteOfIs(index: nat, i: nat)
    requires i < 4
    ensures JsByteOf(index, 8 * i) == CounterByte(index, i)
  {
    hide Combine, Halved, LowBits, Scaled;
    ScaledByBytes(1);
    MaskKeepsLowBits(JsShr(index, 8 * i), 8);
    LowBits8(Halved(ToUint32(index), 8 * i));
  }

  method FillIv(base: string, index: nat) returns (iv: array<Byte>)
    requires IsIvBase(base)
    ensures iv[..] == ChunkIv(base, index)
  {
    hide CounterByte, BaseByte, JsByteOf;
    iv := new Byte[12](_ => 0);
    for i := 0 to 8
      invariant forall j :: 0 <= j < i ==> iv[j] == BaseByte(base, j)
    {
      iv[i] := BaseByte(base, i);
    }
    JsByteOfIs(index, 3);
    JsByteOfIs(index, 2);
    JsByteOfIs(index, 1);
    JsByteOfIs(index, 0);
    iv[8] := JsByteOf(index, 24);
    iv[9] := JsByteOf(index, 16);
    iv[10] := JsByteOf(index, 8);
    iv[11] := JsByteOf(index, 0);
  }

  lemma {:induction false} HalvedTwice(x: nat, m: nat, n: nat)
    ensures Halved(Halved(x, m), n) == Halved(x, m + n)
    decreases m
  {
    if m > 0 { HalvedTwice(x / 2, m - 1, n); }
  }

  lemma CounterStep(x: nat, i: nat)
    ensures Halved(x, 8 * i) == Scaled(Halved(x, 8 * (i + 1)), 8) + LowBits(Halved(x, 8 * i), 8)
  {
    HalvedTwice(x, 8 * i, 8);
    SplitBits(Halved(x, 8 * i), 8);
  }

  /** The four counter bytes determine the counter. */
  lemma CounterDetermined(i: nat, j: nat)
    requires forall k :: 0 <= k < 4 ==> CounterByte(i, k) == CounterByte(j, k)
    ensures ToUint32(i) == ToUint32(j)
  {
    hide Halved, Scaled, LowBits, ToUint32;
    var x, y := ToUint32(i), ToUint32(j);
    ScaledByBytes(1);
    HalvedBounded(x, 32, 32);
    HalvedBounded(y, 32, 32);
    CounterStep(x, 3); CounterStep(x, 2); CounterStep(x, 1); CounterStep(x, 0);
    CounterStep(y, 3); CounterStep(y, 2); CounterStep(y, 1); CounterStep(y, 0);
    assert Pow2(0) == 1 && Halved(x, 0) == x && Halved(y, 0) == y by { HalvedByNone(x); HalvedByNone(y); }
    assert CounterByte(i, 3) == CounterByte(j, 3) && CounterByte(i, 2) == CounterByte(j, 2);
    assert CounterByte(i, 1) == CounterByte(j, 1) && CounterByte(i, 0) == CounterByte(j, 0);
  }

  lemma HalvedByNone(x: nat)
    ensures Halved(x, 0) == x && Pow2(0) == 1
  {
  }

  lemma BaseDetermined(b: string, c: string, i: nat)
    requires IsIvBase(b) && IsIvBase(c) && i < 8 && BaseByte(b, i) == BaseByte(c, i)
    ensures b[2 * i] == c[2 * i] && b[2 * i + 1] == c[2 * i + 1]
  {
    hide ParseHex, Hex;
    var p, q := b[2 * i..2 * i + 2], c[2 * i..2 * i + 2];
    PrintParsed(p);
    PrintParsed(q);
    assert p[0] == b[2 * i] && p[1] == b[2 * i + 1] && q[0] == c[2 * i] && q[1] == c[2 * i + 1];
  }

  /** Printed in hexadecimal the first eight bytes are the base, and the last four are the counter, big-endian. */
  lemma IvIsBaseAndCounter(base: string, index: nat, i: nat)
    requires IsIvBase(base) && i < 8
    ensures
      var v := ChunkIv(base, index);
      && |v| == 12 && Hex(v[i], 2) == base[2 * i..2 * i + 2]
      && v[8] as int * 0x100_0000 + v[9] as int * 0x1_0000 + v[10] as int * 0x100 + v[11] == index % TWO32
  {
    hide Halved, Scaled, LowBits, ParseHex, Hex, CounterByte;
    PrintParsed(base[2 * i..2 * i + 2]);
    CounterIsBigEndian(index);
  }

  lemma CounterIsBigEndian(index: nat)
    ensures CounterByte(index, 3) as int * 0x100_0000 + CounterByte(index, 2) as int * 0x1_0000
            + CounterByte(index, 1) as int * 0x100 + CounterByte(index, 0) == index % TWO32
  {
    hide Halved, Scaled, LowBits;
    var x := ToUint32(index);
    ScaledByBytes(1);
    HalvedBounded(x, 32, 32);
    CounterStep(x, 3); CounterStep(x, 2); CounterStep(x, 1); CounterStep(x, 0);
    ScaledBy8(Halved(x, 32)); ScaledBy8(Halved(x, 24)); ScaledBy8(Halved(x, 16)); ScaledBy8(Halved(x, 8));
    HalvedByNone(x);
  }

  /** Two IVs are equal exactly when base and 32-bit counter are. */
  lemma IvsAreDistinct(b: string, i: nat, c: string, j: nat)
    requires IsIvBase(b) && IsIvBase(c)
    ensures ChunkIv(b, i) == ChunkIv(c, j) <==> b == c && i % TWO32 == j % TWO32
  {
    hide BaseByte;
    if ChunkIv(b, i) == ChunkIv(c, j) {
      var v, w := ChunkIv(b, i), ChunkIv(c, j);
      assert v[8] == CounterByte(i, 3) && v[9] == CounterByte(i, 2);
      assert v[10] == CounterByte(i, 1) && v[11] == CounterByte(i, 0);
      assert w[8] == CounterByte(j, 3) && w[9] == CounterByte(j, 2);
      assert w[10] == CounterByte(j, 1) && w[11] == CounterByte(j, 0);
      assert forall k :: 0 <= k < 4 ==> CounterByte(i, k) == CounterByte(j, k);
      CounterDetermined(i, j);
      forall k | 0 <= k < 16
        ensures b[k] == c[k]
      {
        assert v[k / 2] == BaseByte(b, k / 2) && w[k / 2] == BaseByte(c, k / 2);
        BaseDetermined(b, c, k / 2);
      }
      assert b == c;
    }
  }

  // ------------------------------------------------------------- sizes

  function ChunkCount(byteSize: nat): nat {
    var ceiling := (byteSize + CIPHER_CHUNK_BYTES - 1) / CIPHER_CHUNK_BYTES;
    if ceiling > 1 then ceiling else 1
  }

  function CiphertextSize(byteSize: nat): nat {
    byteSize + ChunkCount(byteSize) * GCM_TAG_BYTES
  }

  function Min(a: nat, b: nat): nat { if a < b then a else b }

  /** The plaintext of chunk i: `file.slice(start, min(start + CIPHER_CHUNK_BYTES, file.size))`. */
  function PlainChunk(file: Bytes, i: nat): Bytes
    requires i < ChunkCount(|file|)
  {
    file[i * CIPHER_CHUNK_BYTES..Min((i + 1) * CIPHER_CHUNK_BYTES, |file|)]
  }

  /** n chunks hold the file, and n - 1 do not, unless one holds everything. */
  lemma ChunksCover(size: nat)
    ensures ChunkCount(size) >= 1 && size <= ChunkCount(size) * CIPHER_CHUNK_BYTES
    ensures ChunkCount(size) > 1 ==> (ChunkCount(size) - 1) * CIPHER_CHUNK_BYTES < size
  {
  }

  /** Every chunk but the last is full, and the last holds the rest of the file. */
  lemma PlainChunkSize(file: Bytes, i: nat)
    requires i < ChunkCount(|file|)
    ensures i * CIPHER_CHUNK_BYTES <= |file|
    ensures i + 1 < ChunkCount(|file|) ==> |PlainChunk(file, i)| == CIPHER_CHUNK_BYTES
    ensures i + 1 == ChunkCount(|file|) ==> |PlainChunk(file, i)| == |file| - i * CIPHER_CHUNK_BYTES
    ensures PlainChunk(file, i) + (if i + 1 < ChunkCount(|file|) then file[(i + 1) * CIPHER_CHUNK_BYTES..] else [])
            == file[i * CIPHER_CHUNK_BYTES..]
  {
    hide ChunkCount;
    ChunksCover(|file|);
  }

  function SealedChunk(g: Gcm, key: Key, base: string, file: Bytes, i: nat): Bytes
    requires IsIvBase(base) && i < ChunkCount(|file|)
  {
    g.seal(key, ChunkIv(base, i), PlainChunk(file, i))
  }

  /** The first n sealed chunks of a file. */
  function SealedChunks(g: Gcm, key: Key, base: string, file: Bytes, n: nat): (chunks: seq<Bytes>)
    requires IsIvBase(base) && n <= ChunkCount(|file|)
    ensures |chunks| == n
  {
    if n == 0 then [] else SealedChunks(g, key, base, file, n - 1) + [SealedChunk(g, key, base, file, n - 1)]
  }

  function Flatten(chunks: seq<Bytes>): Bytes {
    if chunks == [] then [] else Flatten(chunks[..|chunks| - 1]) + chunks[|chunks| - 1]
  }

  lemma FlattenAppends(chunks: seq<Bytes>, c: Bytes)
    ensures Flatten(chunks + [c]) == Flatten(chunks) + c
  {
    assert (chunks + [c])[..|chunks|] == chunks;
  }

  lemma SealedChunkOpens(g: Gcm, key: Key, base: string, file: Bytes, i: nat)
    requires Lawful(g) && IsIvBase(base) && i < ChunkCount(|file|)
    ensures
      var c := SealedChunk(g, key, base, file, i);
      |c| == |PlainChunk(file, i)| + GCM_TAG_BYTES && g.open(key, ChunkIv(base, i), c) == Some(PlainChunk(file, i))
  {
    hide ChunkCount, PlainChunk, ChunkIv;
  }

  lemma NothingFlattens()
    ensures Flatten([]) == []
  {
  }

  /** n sealed chunks take n full chunk sizes while chunks remain, and the declared total at the end. */
  lemma {:induction false} SealedLength(g: Gcm, key: Key, base: string, file: Bytes, n: nat)
    requires Lawful(g) && IsIvBase(base) && n <= ChunkCount(|file|)
    ensures n < ChunkCount(|file|) ==> |Flatten(SealedChunks(g, key, base, file, n))| == n * SEALED_CHUNK_BYTES
    ensures n == ChunkCount(|file|) ==> |Flatten(SealedChunks(g, key, base, file, n))| == CiphertextSize(|file|)
  {
    hide ChunkCount, PlainChunk, Flatten, Lawful, ChunkIv, SealedChunk;
    ChunksCover(|file|);
    if n == 0 {
      assert Flatten([]) == [] by { NothingFlattens(); }
    } else {
      SealedLength(g, key, base, file, n - 1);
      FlattenAppends(SealedChunks(g, key, base, file, n - 1), SealedChunk(g, key, base, file, n - 1));
      PlainChunkSize(file, n - 1);
      SealedChunkOpens(g, key, base, file, n - 1);
    }
  }

  /** A file within the registration cap never brings the counter near 2^32. */
  lemma CounterNeverWraps(byteSize: nat)
    requires byteSize <= MAX_BYTE_SIZE
    ensures ChunkCount(byteSize) <= 0x2_0000 < TWO32
  {
  }

  // ------------------------------------------------------------- opening

  /** Chunks i.. of a file, sealed and joined. */
  function SealedFrom(g: Gcm, key: Key, base: string, file: Bytes, i: nat): Bytes
    requires IsIvBase(base) && i < ChunkCount(|file|)
    decreases ChunkCount(|file|) - i
  {
    var c := SealedChunk(g, key, base, file, i);
    if i + 1 == ChunkCount(|file|) then c else c + SealedFrom(g, key, base, file, i + 1)
  }

  lemma {:induction false} PrefixAndRest(g: Gcm, key: Key, base: string, file: Bytes, n: nat)
    requires IsIvBase(base) && n < ChunkCount(|file|)
    ensures Flatten(SealedChunks(g, key, base, file, n)) + SealedFrom(g, key, base, file, n)
            == Flatten(SealedChunks(g, key, base, file, ChunkCount(|file|)))
    decreases ChunkCount(|file|) - n
  {
    hide SealedChunk, ChunkCount;
    var p, c := SealedChunks(g, key, base, file, n), SealedChunk(g, key, base, file, n);
    FlattenAppends(p, c);
    if n + 1 < ChunkCount(|file|) {
      PrefixAndRest(g, key, base, file, n + 1);
      var rest := SealedFrom(g, key, base, file, n + 1);
      assert Flatten(p) + (c + rest) == (Flatten(p) + c) + rest;
    }
  }

  /** Opens a ciphertext cut at every full chunk size, counting from chunk i. */
  function OpenFrom(g: Gcm, key: Key, base: string, ct: Bytes, i: nat): Option<Bytes>
    requires IsIvBase(base)
    decreases |ct|
  {
    if |ct| <= SEALED_CHUNK_BYTES then g.open(key, ChunkIv(base, i), ct)
    else
      match (g.open(key, ChunkIv(base, i), ct[..SEALED_CHUNK_BYTES]),
             OpenFrom(g, key, base, ct[SEALED_CHUNK_BYTES..], i + 1))
      case (Some(p), Some(rest)) => Some(p + rest)
      case _ => None
  }

  /** The last chunk is the rest of the file, no longer than a full chunk. */
  lemma LastIsWhole(file: Bytes, i: nat)
    requires i + 1 == ChunkCount(|file|)
    ensures i * CIPHER_CHUNK_BYTES <= |file|
    ensures PlainChunk(file, i) == file[i * CIPHER_CHUNK_BYTES..] && |PlainChunk(file, i)| <= CIPHER_CHUNK_BYTES
  {
    hide ChunkCount;
    ChunksCover(|file|);
  }

  lemma {:induction false} OpensFrom(g: Gcm, key: Key, base: string, file: Bytes, i: nat)
    requires Lawful(g) && IsIvBase(base) && i < ChunkCount(|file|)
    ensures OpenFrom(g, key, base, SealedFrom(g, key, base, file, i), i) == Some(file[i * CIPHER_CHUNK_BYTES..])
    ensures |SealedFrom(g, key, base, file, i)| > 0
    decreases ChunkCount(|file|) - i
  {
    hide ChunkCount, PlainChunk, ChunkIv;
    PlainChunkSize(file, i);
    SealedChunkOpens(g, key, base, file, i);
    var c := SealedChunk(g, key, base, file, i);
    if i + 1 < ChunkCount(|file|) {
      OpensFrom(g, key, base, file, i + 1);
      hide SealedChunk;
      var rest := SealedFrom(g, key, base, file, i + 1);
      assert (c + rest)[..|c|] == c && (c + rest)[|c|..] == rest;
    } else {
      LastIsWhole(file, i);
    }
  }

  /** All sealed chunks of a file, joined, open to the file. */
  lemma SealedFileOpens(g: Gcm, key: Key, base: string, file: Bytes)
    requires Lawful(g) && IsIvBase(base)
    ensures OpenFrom(g, key, base, Flatten(SealedChunks(g, key, base, file, ChunkCount(|file|))), 0) == Some(file)
  {
    hide OpenFrom, SealedFrom;
    PrefixAndRest(g, key, base, file, 0);
    OpensFrom(g, key, base, file, 0);
    assert Flatten([]) + SealedFrom(g, key, base, file, 0) == SealedFrom(g, key, base, file, 0);
    assert file[0..] == file;
  }
}
