/** The incremental hasher of the upload page: it never holds more than one block of the file. */
module Sha256Stream {
  import opened Int32
  import opened Hexadecimal
  import opened Sha256Spec
  import opened Wrappers

  // ------------------------------------------------------------- expressions of the compression loop

  function JsRotr(value: int, bits: nat): Word
    requires 0 < bits < 32
  {
    ToUint32(JsGate(Or, JsShr(value, bits), JsShl(value, 32 - bits)))
  }

  /** The two shifts and the OR of rotr are a circular shift, whatever sign `<<` gave its operand. */
  lemma JsRotrIsRotr(x: Word, n: nat)
    requires 0 < n < 32
    ensures JsRotr(x, n) == Rotr(x, n)
  {
    hide Combine, Pow2, JsGate, ToInt32, Scaled, Halved, LowBits;
    var low, high := Halved(x, n), LowBits(x, n);
    RotrBounded(x, n);
    ShlOverflow(x, n);
    OrOfDisjoint(low, high, 32 - n);
    SignDoesNotMatter(Or, JsShr(x, n), JsShl(x, 32 - n));
  }

  /** `x << (32 - n)` keeps the low n bits, moved to the top. */
  lemma ShlOverflow(x: Word, n: nat)
    requires 0 < n < 32
    ensures ToUint32(JsShl(x, 32 - n)) == Scaled(LowBits(x, n), 32 - n)
  {
    hide Pow2, Scaled, Halved, LowBits, ToInt32, ToUint32;
    RotrBounded(x, n);
    SplitBits(x, n);
    ScaledAdds(Scaled(Halved(x, n), n), LowBits(x, n), 32 - n);
    ScaledTwice(Halved(x, n), n, 32 - n);
    ScaledByBytes(Halved(x, n));
    WordsAreKept(x);
    OverflowIsLost(Scaled(x, 32 - n), Halved(x, n), Scaled(LowBits(x, n), 32 - n));
  }

  function JsXor3(x: int, y: int, z: int): int {
    JsGate(Xor, JsGate(Xor, x, y), z)
  }

  lemma JsXor3IsXor3(x: int, y: int, z: int)
    ensures ToUint32(JsXor3(x, y, z)) == Xor3(ToUint32(x), ToUint32(y), ToUint32(z))
  {
    hide WordGate, JsGate, ToUint32;
    SignDoesNotMatter(Xor, x, y);
    SignDoesNotMatter(Xor, JsGate(Xor, x, y), z);
  }

  lemma JsSigmas(x: Word)
    ensures ToUint32(JsXor3(JsRotr(x, 2), JsRotr(x, 13), JsRotr(x, 22))) == BigSigma0(x)
    ensures ToUint32(JsXor3(JsRotr(x, 6), JsRotr(x, 11), JsRotr(x, 25))) == BigSigma1(x)
    ensures ToUint32(JsXor3(JsRotr(x, 7), JsRotr(x, 18), JsShr(x, 3))) == SmallSigma0(x)
    ensures ToUint32(JsXor3(JsRotr(x, 17), JsRotr(x, 19), JsShr(x, 10))) == SmallSigma1(x)
  {
    hide Xor3, JsXor3, Rotr, JsRotr, JsShr;
    JsRotrIsRotr(x, 2); JsRotrIsRotr(x, 13); JsRotrIsRotr(x, 22);
    JsRotrIsRotr(x, 6); JsRotrIsRotr(x, 11); JsRotrIsRotr(x, 25);
    JsRotrIsRotr(x, 7); JsRotrIsRotr(x, 18);
    JsRotrIsRotr(x, 17); JsRotrIsRotr(x, 19);
    JsXor3IsXor3(Rotr(x, 2), Rotr(x, 13), Rotr(x, 22));
    JsXor3IsXor3(Rotr(x, 6), Rotr(x, 11), Rotr(x, 25));
    JsXor3IsXor3(Rotr(x, 7), Rotr(x, 18), JsShr(x, 3));
    JsXor3IsXor3(Rotr(x, 17), Rotr(x, 19), JsShr(x, 10));
  }

  lemma JsChIsCh(x: Word, y: Word, z: Word)
    ensures ToUint32(JsGate(Xor, JsGate(And, x, y), JsGate(And, JsNot(x), z))) == Ch(x, y, z)
  {
    hide WordGate, JsGate, WordNot, JsNot;
    SignDoesNotMatter(And, x, y);
    SignDoesNotMatter(And, JsNot(x), z);
    SignDoesNotMatter(Xor, JsGate(And, x, y), JsGate(And, JsNot(x), z));
  }

  lemma JsMajIsMaj(x: Word, y: Word, z: Word)
    ensures ToUint32(JsXor3(JsGate(And, x, y), JsGate(And, x, z), JsGate(And, y, z))) == Maj(x, y, z)
  {
    hide WordGate, JsGate, JsXor3;
    SignDoesNotMatter(And, x, y);
    SignDoesNotMatter(And, x, z);
    SignDoesNotMatter(And, y, z);
    JsXor3IsXor3(JsGate(And, x, y), JsGate(And, x, z), JsGate(And, y, z));
  }

  /** The sums of one round, taken over signed intermediates and cut once, are the round of the standard. */
  lemma JsRound(v: Vars, k: Word, w: Word, s1: int, ch: int, s0: int, maj: int)
    requires ToUint32(s1) == BigSigma1(v.e) && ToUint32(ch) == Ch(v.e, v.f, v.g)
    requires ToUint32(s0) == BigSigma0(v.a) && ToUint32(maj) == Maj(v.a, v.b, v.c)
    ensures
      var temp1 := ToUint32(v.h as int + s1 + ch + k + w);
      var temp2 := ToUint32(s0 + maj);
      Round(v, k, w)
      == Vars(ToUint32(temp1 as int + temp2), v.a, v.b, v.c, ToUint32(v.d as int + temp1), v.e, v.f, v.g)
  {
    hide BigSigma1, BigSigma0, Ch, Maj;
    CutSum(v.h as int + k + w, s1, ch);
    CutSum(0, s0, maj);
  }

  /** The signed OR of four shifted bytes is the big-endian word. */
  function JsLoad(b0: Byte, b1: Byte, b2: Byte, b3: Byte): int {
    JsGate(Or, JsGate(Or, JsGate(Or, JsShl(b0, 24), JsShl(b1, 16)), JsShl(b2, 8)), b3)
  }

  lemma OrAdds(x: int, y: int, low: Word, high: nat, n: nat)
    requires low < Pow2(n) && Scaled(high, n) < TWO32
    requires ToUint32(x) == Scaled(high, n) && ToUint32(y) == low
    ensures ToUint32(JsGate(Or, x, y)) == Scaled(high, n) + low
  {
    hide Pow2, Scaled, JsGate, ToUint32, Combine;
    SignDoesNotMatter(Or, x, y);
    OrOfDisjoint(low, high, n);
  }

  lemma JsLoadIsBigEndian(b0: Byte, b1: Byte, b2: Byte, b3: Byte)
    ensures ToUint32(JsLoad(b0, b1, b2, b3)) == BigEndian([b0, b1, b2, b3])
  {
    hide JsGate, JsShl, Scaled;
    ScaledByBytes(1);
    var b01, b012 := b0 as int * 0x100 + b1, b0 as int * 0x1_0000 + b1 as int * 0x100 + b2;
    ScaledBytes(b0); ScaledBytes(b1); ScaledBytes(b2); ScaledBytes(b01); ScaledBytes(b012);
    var s0, s1, s2 := JsShl(b0, 24), JsShl(b1, 16), JsShl(b2, 8);
    OrAdds(s0, s1, b1 * 0x1_0000, b0, 24);
    OrAdds(JsGate(Or, s0, s1), s2, b2 * 0x100, b01, 16);
    OrAdds(JsGate(Or, JsGate(Or, s0, s1), s2), b3, b3, b012, 8);
  }

  lemma ScaledBytes(x: Word)
    ensures Scaled(x, 8) == x * 0x100 && Scaled(x, 16) == x * 0x1_0000 && Scaled(x, 24) == x * 0x100_0000
    ensures x < 0x100 ==> ToUint32(JsShl(x, 24)) == Scaled(x, 24)
    ensures x < 0x1_0000 ==> ToUint32(JsShl(x, 16)) == Scaled(x, 16)
    ensures x < 0x100_0000 ==> ToUint32(JsShl(x, 8)) == Scaled(x, 8)
  {
    hide ToInt32, ToUint32, Scaled;
    ScaledByBytes(x);
    WordsAreKept(x);
    if x < 0x100 { WordsAreKept(Scaled(x, 24)); }
    if x < 0x1_0000 { WordsAreKept(Scaled(x, 16)); }
    if x < 0x100_0000 { WordsAreKept(Scaled(x, 8)); }
  }

  lemma ScheduleLoads(m: Block, t: nat)
    requires t < 16
    ensures Schedule(m, t) == BigEndian([m[4 * t], m[4 * t + 1], m[4 * t + 2], m[4 * t + 3]])
  {
    assert m[4 * t..4 * t + 4] == [m[4 * t], m[4 * t + 1], m[4 * t + 2], m[4 * t + 3]];
  }

  lemma ScheduleExpands(m: Block, t: nat, s0: int, s1: int)
    requires t >= 16
    requires ToUint32(s0) == SmallSigma0(Schedule(m, t - 15))
    requires ToUint32(s1) == SmallSigma1(Schedule(m, t - 2))
    ensures Schedule(m, t) == ToUint32(Schedule(m, t - 16) as int + s0 + Schedule(m, t - 7) as int + s1)
  {
    hide SmallSigma0, SmallSigma1;
    CutSum(Schedule(m, t - 16) as int + Schedule(m, t - 7), s0, s1);
  }

  // ------------------------------------------------------------- the state machine

  lemma HashStep(m: seq<Byte>, block: Block)
    requires |m| % 64 == 0
    ensures HashBlocks(m + block) == CompressBlock(HashBlocks(m), block)
  {
    assert (m + block)[..|m|] == m && (m + block)[|m|..] == block;
  }

  /** high * 256^k. */
  function Lifted(high: nat, k: nat): nat {
    if k == 0 then high else 0x100 * Lifted(high, k - 1)
  }

  lemma {:induction false} BytesJoin(high: nat, low: nat, k: nat)
    requires low < Lifted(1, k)
    ensures BytesOf(Lifted(high, k) + low, 4 + k) == BytesOf(high, 4) + BytesOf(low, k)
  {
    if k > 0 {
      BytesJoin(high, low / 0x100, k - 1);
      assert (Lifted(high, k) + low) / 0x100 == Lifted(high, k - 1) + low / 0x100;
    }
  }

  /** The 64-bit length as the two 32-bit halves that `setUint32` writes. */
  lemma LengthHalves(n: nat)
    ensures BytesOf(n, 8) == BytesOf(n / TWO32, 4) + BytesOf(n % TWO32, 4)
  {
    hide BytesOf;
    var high := n / TWO32;
    assert Lifted(high, 2) == 0x100 * Lifted(high, 1) == high * 0x1_0000;
    assert Lifted(1, 2) == 0x100 * Lifted(1, 1) == 0x1_0000;
    BytesJoin(high, n % TWO32, 4);
  }

  /** `view.setUint32(at, v)`, big-endian. */
  method SetUint32(a: array<Byte>, at: nat, v: int)
    requires at + 4 <= a.Length
    modifies a
    ensures a[..] == old(a[..at]) + BytesOf(ToUint32(v), 4) + old(a[at + 4..])
  {
    var u := ToUint32(v);
    a[at] := u / 0x100_0000 % 0x100;
    a[at + 1] := u / 0x1_0000 % 0x100;
    a[at + 2] := u / 0x100 % 0x100;
    a[at + 3] := u % 0x100;
    assert BytesOf(u / 0x1_0000, 2) == [a[at], a[at + 1]];
    assert BytesOf(u / 0x100, 3) == [a[at], a[at + 1], a[at + 2]];
    assert BytesOf(u, 4) == [a[at], a[at + 1], a[at + 2], a[at + 3]];
  }

  /** Where `padding` has room for the length, it is exactly the padded end of the message. */
  lemma PaddedEnd(m: seq<Byte>, blocks: seq<Byte>, tail: seq<Byte>, padding: seq<Byte>)
    requires m == blocks + tail && |blocks| % 64 == 0 && |tail| < 64
    requires
      var size := if |tail| <= 55 then 64 else 128;
      var bits := 8 * |m|;
      padding == tail + [0x80] + Zeros(size - 9 - |tail|) + BytesOf(bits / TWO32, 4) + BytesOf(bits % TWO32, 4)
    ensures blocks + padding == Pad(m)
  {
    hide BytesOf;
    LengthHalves(8 * |m|);
    var size := if |tail| <= 55 then 64 else 128;
    assert ZeroCount(|m|) == size - 9 - |tail|;
  }

  /** Every word printed by `toString(16).padStart(8, "0")`, joined. */
  function HexDump(words: seq<Word>): (s: string)
    ensures s == HexOfWords(words)
  {
    if words == [] then "" else
      var last := words[|words| - 1];
      assert last < Pow16(8) by { assert Pow16(4) == 0x1_0000; }
      PadStartIsHex(last, 8);
      HexDump(words[..|words| - 1]) + PadStart(ToString16(last), 8)
  }

  /** The largest byte count a JavaScript number holds exactly: `totalBytes` is right up to it. */
  const MAX_SAFE_BYTES: nat := 0x20_0000_0000_0000

  class Sha256Stream {
    const state: array<Word>
    const buffer: array<Byte>
    const words: array<Word>
    var buffered: nat
    var totalBytes: nat
    var finished: bool
    /** Everything absorbed so far. */
    ghost var message: seq<Byte>
    /** The part of it that has been compressed. */
    ghost var blocks: seq<Byte>

    ghost predicate Shape()
      reads this
    {
      state.Length == 8 && buffer.Length == 64 && words.Length == 64 && state != words
    }

    /** The fields are those of a hasher that has absorbed m: whole blocks compressed, the rest buffered. */
    ghost predicate Holds(m: seq<Byte>)
      requires Shape()
      reads this, state, buffer
    {
      && buffered < 64 && |blocks| % 64 == 0
      && m == blocks + buffer[..buffered]
      && (!finished ==> state[..] == HashBlocks(blocks))
    }

    ghost predicate Valid()
      reads this, state, buffer
    {
      && Shape()
      && state as object != buffer && words as object != buffer
      && totalBytes == |message|
      && Holds(message)
    }

    constructor ()
      ensures Valid() && !finished && message == []
      ensures fresh(state) && fresh(buffer) && fresh(words)
    {
      state := new Word[8](i requires 0 <= i < 8 => H0[i]);
      buffer := new Byte[64](_ => 0);
      words := new Word[64](_ => 0);
      buffered, totalBytes, finished := 0, 0, false;
      message, blocks := [], [];
      new;
      assert state[..] == H0;
    }

    /** The first half of a compression: `words` is overwritten, whatever an earlier block left in it. */
    method FillWords(block: array<Byte>, offset: nat, ghost m: Block)
      requires Shape()
      requires offset + 64 <= block.Length && m == block[offset..offset + 64]
      requires block as object != words
      modifies words
      ensures forall t :: 0 <= t < 64 ==> words[t] == Schedule(m, t)
    {
      hide Schedule, BigEndian, JsRotr, JsShr, JsXor3, JsLoad, SmallSigma0, SmallSigma1;
      var w := words;
      for i := 0 to 16
        invariant forall t :: 0 <= t < i ==> w[t] == Schedule(m, t)
      {
        var j := offset + i * 4;
        JsLoadIsBigEndian(block[j], block[j + 1], block[j + 2], block[j + 3]);
        ScheduleLoads(m, i);
        w[i] := ToUint32(JsLoad(block[j], block[j + 1], block[j + 2], block[j + 3]));
      }
      for i := 16 to 64
        invariant forall t :: 0 <= t < i ==> w[t] == Schedule(m, t)
      {
        var s0 := JsXor3(JsRotr(w[i - 15], 7), JsRotr(w[i - 15], 18), JsShr(w[i - 15], 3));
        var s1 := JsXor3(JsRotr(w[i - 2], 17), JsRotr(w[i - 2], 19), JsShr(w[i - 2], 10));
        JsSigmas(w[i - 15]);
        JsSigmas(w[i - 2]);
        ScheduleExpands(m, i, s0, s1);
        w[i] := ToUint32(w[i - 16] as int + s0 + w[i - 7] as int + s1);
      }
    }

    /** The 64 rounds, on eight rotating locals. */
    method RunRounds(ghost m: Block) returns (v: Vars)
      requires Shape()
      requires forall t :: 0 <= t < 64 ==> words[t] == Schedule(m, t)
      ensures v == Rounds(state[..], m, 64)
    {
      hide Schedule, WordGate, WordNot, JsRotr, JsShr, JsGate, JsNot, JsXor3, Round, RoundConstant;
      hide BigSigma0, BigSigma1, Ch, Maj;
      var a, b, c, d := state[0], state[1], state[2], state[3];
      var e, f, g, h := state[4], state[5], state[6], state[7];
      for i := 0 to 64
        invariant Vars(a, b, c, d, e, f, g, h) == Rounds(state[..], m, i)
      {
        var S1 := JsXor3(JsRotr(e, 6), JsRotr(e, 11), JsRotr(e, 25));
        var ch := JsGate(Xor, JsGate(And, e, f), JsGate(And, JsNot(e), g));
        var temp1 := ToUint32(h as int + S1 + ch + RoundConstant(i) + words[i]);
        var S0 := JsXor3(JsRotr(a, 2), JsRotr(a, 13), JsRotr(a, 22));
        var maj := JsXor3(JsGate(And, a, b), JsGate(And, a, c), JsGate(And, b, c));
        var temp2 := ToUint32(S0 + maj);
        JsSigmas(e);
        JsSigmas(a);
        JsChIsCh(e, f, g);
        JsMajIsMaj(a, b, c);
        JsRound(Vars(a, b, c, d, e, f, g, h), RoundConstant(i), words[i], S1, ch, S0, maj);
        h := g;
        g := f;
        f := e;
        e := ToUint32(d as int + temp1);
        d := c;
        c := b;
        b := a;
        a := ToUint32(temp1 as int + temp2);
      }
      v := Vars(a, b, c, d, e, f, g, h);
    }

    /** One block, in place. */
    method Compress(block: array<Byte>, offset: nat)
      requires Shape()
      requires offset + 64 <= block.Length
      requires block as object !in {state as object, words}
      modifies state, words
      ensures state[..] == CompressBlock(old(state[..]), block[offset..offset + 64])
    {
      hide Schedule, Rounds;
      ghost var m: Block := block[offset..offset + 64];
      FillWords(block, offset, m);
      ghost var s: Hash := state[..];
      var v := RunRounds(m);
      state[0] := ToUint32(state[0] as int + v.a);
      state[1] := ToUint32(state[1] as int + v.b);
      state[2] := ToUint32(state[2] as int + v.c);
      state[3] := ToUint32(state[3] as int + v.d);
      state[4] := ToUint32(state[4] as int + v.e);
      state[5] := ToUint32(state[5] as int + v.f);
      state[6] := ToUint32(state[6] as int + v.g);
      state[7] := ToUint32(state[7] as int + v.h);
      assert state[..] == AddVars(s, v);
    }

    /** One more block on top of the blocks of `done`. */
    method Absorb(block: array<Byte>, offset: nat, ghost done: seq<Byte>, ghost next: seq<Byte>)
      requires Shape()
      requires offset + 64 <= block.Length
      requires block as object !in {state as object, words}
      requires next == done + block[offset..offset + 64]
      requires |done| % 64 == 0 && |next| % 64 == 0 && state[..] == HashBlocks(done)
      modifies state, words
      ensures state[..] == HashBlocks(next)
    {
      hide HashBlocks, CompressBlock;
      HashStep(done, block[offset..offset + 64]);
      Compress(block, offset);
    }

    /** `buffer.set(chunk.subarray(0, take), buffered)`. */
    method CopyIn(chunk: array<Byte>, take: nat)
      requires chunk != buffer && take <= chunk.Length && buffered + take <= buffer.Length
      modifies this`buffered, buffer
      ensures buffered == old(buffered) + take
      ensures buffer[..buffered] == old(buffer[..buffered]) + chunk[..take]
    {
      forall i | 0 <= i < take { buffer[buffered + i] := chunk[i]; }
      buffered := buffered + take;
    }

    /** Tops up a started block; compresses it when that fills it. */
    method TopUp(chunk: array<Byte>, take: nat, ghost m: seq<Byte>, ghost c: seq<Byte>)
      requires Shape() && state as object != buffer && words as object != buffer
      requires chunk as object !in {state as object, buffer, words}
      requires Holds(m) && !finished
      requires take <= chunk.Length && buffered + take <= 64 && c == chunk[..take]
      modifies this`buffered, this`blocks, state, buffer, words
      ensures Holds(m + c)
      ensures buffered == if old(buffered) + take == 64 then 0 else old(buffered) + take
    {
      hide HashBlocks;
      CopyIn(chunk, take);
      assert m + c == blocks + buffer[..buffered];
      if buffered == 64 {
        Absorb(buffer, 0, blocks, m + c);
        buffered, blocks := 0, m + c;
      }
    }

    /** Keeps what is left of a piece, less than a block, in the empty buffer. */
    method Stash(chunk: array<Byte>, offset: nat, ghost m: seq<Byte>)
      requires Shape() && state as object != buffer && words as object != buffer
      requires chunk as object !in {state as object, buffer, words}
      requires Holds(m) && buffered == 0
      requires offset <= chunk.Length < offset + 64
      modifies this`buffered, buffer
      ensures Holds(m + old(chunk[offset..]))
    {
      hide HashBlocks;
      forall i | 0 <= i < chunk.Length - offset { buffer[i] := chunk[offset + i]; }
      buffered := chunk.Length - offset;
      assert buffer[..buffered] == old(chunk[offset..]);
    }

    /** Compresses the whole blocks of a piece from `start` on, straight from the piece. */
    method WholeBlocks(chunk: array<Byte>, start: nat, ghost m: seq<Byte>) returns (offset: nat)
      requires Shape() && chunk as object !in {state as object, buffer, words}
      requires state as object != buffer && words as object != buffer
      requires !finished && start <= chunk.Length && (start < chunk.Length ==> buffered == 0)
      requires Holds(m + chunk[..start])
      modifies this`blocks, state, words
      ensures start <= offset <= chunk.Length < offset + 64
      ensures Holds(m + chunk[..offset])
    {
      hide HashBlocks;
      offset := start;
      while offset + 64 <= chunk.Length
        invariant start <= offset <= chunk.Length
        invariant offset < chunk.Length ==> buffered == 0
        invariant Holds(m + chunk[..offset])
      {
        ghost var next := m + chunk[..offset + 64];
        assert next == m + chunk[..offset] + chunk[offset..offset + 64];
        Absorb(chunk, offset, blocks, next);
        blocks := next;
        offset := offset + 64;
      }
    }

    /** Absorbs one piece, of any length. A finished hasher refuses. */
    method Update(chunk: array<Byte>) returns (ok: bool)
      requires Valid()
      requires chunk as object !in {state as object, buffer, words}
      modifies this, state, buffer, words
      ensures Valid()
      ensures ok == !old(finished) && finished == old(finished)
      ensures message == if ok then old(message) + chunk[..] else old(message)
    {
      hide HashBlocks;
      if finished { return false; }
      totalBytes := totalBytes + chunk.Length;
      ghost var before, c := message, chunk[..];
      message := before + c;
      var offset := 0;
      assert before + c[..0] == before;
      if buffered > 0 {
        var take := if 64 - buffered <= chunk.Length then 64 - buffered else chunk.Length;
        TopUp(chunk, take, before, c[..take]);
        offset := take;
      }
      offset := WholeBlocks(chunk, offset, before);
      assert chunk[..offset] == c[..offset];
      assert message == before + c[..offset] + c[offset..];
      if offset < chunk.Length {
        Stash(chunk, offset, before + c[..offset]);
      }
      return true;
    }

    /** The padding before its length is written: what is buffered, 0x80, and zeros to the end of a block. */
    method StartPadding() returns (padding: array<Byte>)
      requires Shape() && buffered < 64
      ensures fresh(padding) && padding.Length == if buffered <= 55 then 64 else 128
      ensures padding[..] == buffer[..buffered] + [0x80] + Zeros(padding.Length - 1 - buffered)
    {
      padding := new Byte[if buffered <= 55 then 64 else 128](_ => 0);
      forall i | 0 <= i < buffered { padding[i] := buffer[i]; }
      padding[buffered] := 0x80;
    }

    /** The last one or two blocks: what is buffered, 0x80, zeros, and the bit length in two halves. */
    method LastBlocks() returns (padding: array<Byte>)
      requires Valid() && |message| <= MAX_SAFE_BYTES
      ensures fresh(padding) && padding.Length % 64 == 0
      ensures blocks + padding[..] == Pad(message)
    {
      hide HashBlocks, BytesOf;
      var bitLength := totalBytes * 8;
      ghost var tail := buffer[..buffered];
      padding := StartPadding();
      SetUint32(padding, padding.Length - 8, bitLength / TWO32);
      SetUint32(padding, padding.Length - 4, bitLength);
      PaddedEnd(message, blocks, tail, padding[..]);
    }

    /** Compresses the padding on top of the blocks of `done`. */
    method AbsorbPadding(padding: array<Byte>, ghost done: seq<Byte>, ghost whole: seq<Byte>)
      requires Shape() && padding as object !in {state as object, words}
      requires padding.Length % 64 == 0
      requires whole == done + padding[..] && |whole| % 64 == 0
      requires |done| % 64 == 0 && state[..] == HashBlocks(done)
      modifies state, words
      ensures state[..] == HashBlocks(whole)
    {
      hide HashBlocks;
      var offset := 0;
      ghost var absorbed := done;
      while offset < padding.Length
        invariant offset % 64 == 0 && 0 <= offset <= padding.Length
        invariant absorbed == done + padding[..offset] && |absorbed| % 64 == 0
        invariant state[..] == HashBlocks(absorbed)
      {
        ghost var next := absorbed + padding[offset..offset + 64];
        assert next == done + padding[..offset + 64];
        Absorb(padding, offset, absorbed, next);
        absorbed := next;
        offset := offset + 64;
      }
      assert absorbed == whole;
    }

    /** The digest of everything absorbed, in hexadecimal; only once. */
    method Digest() returns (hex: Option<string>)
      requires Valid()
      requires |message| <= MAX_SAFE_BYTES
      modifies this, state, words
      ensures Valid() && finished && message == old(message)
      ensures hex == if old(finished) then None else Some(Sha256Hex(message))
    {
      hide HashBlocks, BytesOf, Pad;
      if finished { return None; }
      finished := true;
      var padding := LastBlocks();
      AbsorbPadding(padding, blocks, Pad(message));
      hex := Some(HexDump(state[..]));
    }
  }

  /** The bytes of a stream of pieces, in order. */
  function Joined(pieces: seq<seq<Byte>>): seq<Byte> {
    if pieces == [] then [] else Joined(pieces[..|pieces| - 1]) + pieces[|pieces| - 1]
  }

  /**
   Hashing a file from its stream: however the stream cuts the bytes, empty pieces included, the result is the
   digest of the whole.
   */
  method HashStreamed(pieces: seq<seq<Byte>>) returns (hex: string)
    requires |Joined(pieces)| <= MAX_SAFE_BYTES
    ensures hex == Sha256Hex(Joined(pieces))
  {
    hide HashBlocks, Sha256Hex, Pad;
    var hasher := new Sha256Stream();
    for i := 0 to |pieces|
      invariant hasher.Valid() && !hasher.finished
      invariant fresh(hasher) && fresh(hasher.state) && fresh(hasher.buffer) && fresh(hasher.words)
      invariant hasher.message == Joined(pieces[..i])
    {
      assert pieces[..i + 1][..i] == pieces[..i];
      var piece := pieces[i];
      var value := new Byte[|piece|](k requires 0 <= k < |piece| => piece[k]);
      assert value[..] == piece;
      var _ := hasher.Update(value);
    }
    assert pieces[..|pieces|] == pieces;
    var digest := hasher.Digest();
    hex := digest.value;
  }
}
