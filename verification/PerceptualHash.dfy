/** 64-bit perceptual hashes: packing bits into hexadecimal, the distance between two hashes, the median threshold. */
module PerceptualHash {
  import opened Hexadecimal
  import opened Int32
  import opened Wrappers

  type Bits = b: seq<bool> | |b| == 64 witness seq(64, _ => false)

  predicate IsHash(h: string) {
    |h| == 16 && IsHex(h)
  }

  function BitValue(b: bool): nat { if b then 1 else 0 }

  /** Four bits, the first one highest. */
  function Nibble(a: bool, b: bool, c: bool, d: bool): (n: nat)
    ensures n < 16
  {
    8 * BitValue(a) + 4 * BitValue(b) + 2 * BitValue(c) + BitValue(d)
  }

  function NibbleAt(bits: Bits, n: nat): nat
    requires n < 16
  {
    Nibble(bits[4 * n], bits[4 * n + 1], bits[4 * n + 2], bits[4 * n + 3])
  }

  function HexOfBits(bits: Bits): (h: string)
    ensures IsHash(h)
  {
    seq(16, n requires 0 <= n < 16 => HexDigit(NibbleAt(bits, n)))
  }

  /** `(value << 1) | bit` on a value of at most three bits. */
  lemma ShiftedIn(value: nat, b: bool)
    requires value < 8
    ensures JsGate(Or, JsShl(value, 1), BitValue(b)) == 2 * value + BitValue(b)
  {
    hide Combine, Scaled, ToInt32, ToUint32;
    OneShift(value);
    SmallIsKept(value);
    SmallIsKept(BitValue(b));
    SmallIsKept(2 * value);
    SmallIsKept(2 * value + BitValue(b));
    OrOfDisjoint(BitValue(b), value, 1);
  }

  lemma OneShift(value: nat)
    ensures Scaled(value, 1) == 2 * value && Pow2(1) == 2
  {
  }

  /** `bitsToHex`. */
  method BitsToHex(bits: Bits) returns (hex: string)
    ensures hex == HexOfBits(bits)
  {
    hide JsGate, JsShl;
    hex := "";
    for nibble := 0 to 16
      invariant hex == HexOfBits(bits)[..nibble]
    {
      var value := 0;
      ShiftedIn(0, bits[4 * nibble]);
      value := JsGate(Or, JsShl(value, 1), BitValue(bits[4 * nibble]));
      ShiftedIn(value, bits[4 * nibble + 1]);
      value := JsGate(Or, JsShl(value, 1), BitValue(bits[4 * nibble + 1]));
      ShiftedIn(value, bits[4 * nibble + 2]);
      value := JsGate(Or, JsShl(value, 1), BitValue(bits[4 * nibble + 2]));
      ShiftedIn(value, bits[4 * nibble + 3]);
      value := JsGate(Or, JsShl(value, 1), BitValue(bits[4 * nibble + 3]));
      hex := hex + [HexDigit(value)];
    }
  }

  // ------------------------------------------------------------- distance

  function PopCount(x: nat): nat {
    if x == 0 then 0 else x % 2 + PopCount(x / 2)
  }

  /** What hammingDistance64 adds up: the set bits of the XOR of each pair of digits. */
  function Distance(a: string, b: string): nat
    requires IsHex(a) && IsHex(b) && |a| == |b|
  {
    if a == "" then 0 else
      Distance(a[..|a| - 1], b[..|b| - 1])
      + PopCount(Combine(Xor, DigitValue(a[|a| - 1]), DigitValue(b[|b| - 1])))
  }

  /** `hammingDistance64`; anything but two hashes is refused. */
  method HammingDistance64(a: string, b: string) returns (r: Option<nat>)
    ensures r == if IsHash(a) && IsHash(b) then Some(Distance(a, b)) else None
  {
    hide Combine, JsGate, ToInt32;
    if !IsHash(a) || !IsHash(b) { return None; }
    var distance := 0;
    for i := 0 to 16
      invariant distance == Distance(a[..i], b[..i])
    {
      var x, y := DigitValue(a[i]), DigitValue(b[i]);
      SmallXor(x, y);
      var xor: nat := JsGate(Xor, x, y);
      ghost var total := distance + PopCount(xor);
      while xor != 0
        invariant distance + PopCount(xor) == total
      {
        distance := distance + xor % 2;
        xor := xor / 2;
      }
      assert a[..i + 1][..i] == a[..i] && b[..i + 1][..i] == b[..i];
    }
    assert a[..16] == a && b[..16] == b;
    r := Some(distance);
  }

  lemma SmallXor(x: nat, y: nat)
    requires x < 16 && y < 16
    ensures JsGate(Xor, x, y) == Combine(Xor, x, y)
  {
    hide Combine, Scaled;
    Sixteen();
    CombineBounded(Xor, x, y, 4);
  }

  lemma Sixteen()
    ensures Pow2(4) == 16
  {
    assert Scaled(1, 2) == 4;
  }

  /** The number of positions where two bit strings differ. */
  function DiffCount(x: seq<bool>, y: seq<bool>): nat
    requires |x| == |y|
  {
    if x == [] then 0
    else DiffCount(x[..|x| - 1], y[..|y| - 1]) + BitValue(x[|x| - 1] != y[|y| - 1])
  }

  lemma XorStep(x: nat, y: nat, p: bool, q: bool)
    ensures PopCount(Combine(Xor, 2 * x + BitValue(p), 2 * y + BitValue(q)))
            == BitValue(p != q) + PopCount(Combine(Xor, x, y))
  {
    var a, b := 2 * x + BitValue(p), 2 * y + BitValue(q);
    assert a / 2 == x && b / 2 == y && a % 2 == BitValue(p) && b % 2 == BitValue(q);
    if a != 0 || b != 0 {
      var c := Combine(Xor, a, b);
      assert c == BitValue(p != q) + 2 * Combine(Xor, x, y);
      assert c / 2 == Combine(Xor, x, y) && c % 2 == BitValue(p != q);
    }
  }

  lemma NibbleDistance(a: bool, b: bool, c: bool, d: bool, e: bool, f: bool, g: bool, h: bool)
    ensures PopCount(Combine(Xor, Nibble(a, b, c, d), Nibble(e, f, g, h)))
            == BitValue(a != e) + BitValue(b != f) + BitValue(c != g) + BitValue(d != h)
  {
    hide Combine, PopCount;
    XorStep(4 * BitValue(a) + 2 * BitValue(b) + BitValue(c), 4 * BitValue(e) + 2 * BitValue(f) + BitValue(g), d, h);
    XorStep(2 * BitValue(a) + BitValue(b), 2 * BitValue(e) + BitValue(f), c, g);
    XorStep(BitValue(a), BitValue(e), b, f);
    XorStep(0, 0, a, e);
    assert PopCount(Combine(Xor, 0, 0)) == 0 by { NoBits(); }
  }

  lemma NoBits()
    ensures PopCount(Combine(Xor, 0, 0)) == 0
  {
  }

  lemma FourMore(x: seq<bool>, y: seq<bool>, n: nat)
    requires |x| == |y| && 4 * n + 4 <= |x|
    ensures DiffCount(x[..4 * n + 4], y[..4 * n + 4])
            == DiffCount(x[..4 * n], y[..4 * n])
               + BitValue(x[4 * n] != y[4 * n]) + BitValue(x[4 * n + 1] != y[4 * n + 1])
               + BitValue(x[4 * n + 2] != y[4 * n + 2]) + BitValue(x[4 * n + 3] != y[4 * n + 3])
  {
    OneMore(x, y, 4 * n);
    OneMore(x, y, 4 * n + 1);
    OneMore(x, y, 4 * n + 2);
    OneMore(x, y, 4 * n + 3);
  }

  lemma OneMore(x: seq<bool>, y: seq<bool>, i: nat)
    requires |x| == |y| && i < |x|
    ensures DiffCount(x[..i + 1], y[..i + 1]) == DiffCount(x[..i], y[..i]) + BitValue(x[i] != y[i])
  {
    assert x[..i + 1][..i] == x[..i] && y[..i + 1][..i] == y[..i];
  }

  /** One digit of each hash contributes the differences among its four bits. */
  lemma DigitDistance(x: Bits, y: Bits, n: nat)
    requires n < 16
    ensures PopCount(Combine(Xor, DigitValue(HexOfBits(x)[n]), DigitValue(HexOfBits(y)[n])))
            == BitValue(x[4 * n] != y[4 * n]) + BitValue(x[4 * n + 1] != y[4 * n + 1])
               + BitValue(x[4 * n + 2] != y[4 * n + 2]) + BitValue(x[4 * n + 3] != y[4 * n + 3])
  {
    hide Combine, PopCount, Nibble, HexDigit, DigitValue;
    DigitOfNibble(NibbleAt(x, n));
    DigitOfNibble(NibbleAt(y, n));
    NibbleDistance(x[4 * n], x[4 * n + 1], x[4 * n + 2], x[4 * n + 3],
                   y[4 * n], y[4 * n + 1], y[4 * n + 2], y[4 * n + 3]);
  }

  lemma {:induction false} DistanceOfPrefix(x: Bits, y: Bits, n: nat)
    requires n <= 16
    ensures Distance(HexOfBits(x)[..n], HexOfBits(y)[..n]) == DiffCount(x[..4 * n], y[..4 * n])
  {
    hide Combine, PopCount, HexOfBits, DigitValue, DiffCount;
    var a, b := HexOfBits(x), HexOfBits(y);
    if n == 0 {
      assert DiffCount(x[..0], y[..0]) == 0 by { NoDiff(); }
    } else {
      var i := n - 1;
      DistanceOfPrefix(x, y, i);
      assert a[..n][..i] == a[..i] && b[..n][..i] == b[..i];
      DigitDistance(x, y, i);
      FourMore(x, y, i);
    }
  }

  lemma NoDiff()
    ensures DiffCount([], []) == 0
  {
  }

  lemma DigitOfNibble(d: nat)
    requires d < 16
    ensures DigitValue(HexDigit(d)) == d
  {
  }

  /** The distance of two packed hashes is the number of bits in which they differ. */
  lemma DistanceCountsBits(x: Bits, y: Bits)
    ensures Distance(HexOfBits(x), HexOfBits(y)) == DiffCount(x, y)
  {
    hide Distance, DiffCount, HexOfBits;
    DistanceOfPrefix(x, y, 16);
    assert HexOfBits(x)[..16] == HexOfBits(x) && HexOfBits(y)[..16] == HexOfBits(y);
    assert x[..64] == x && y[..64] == y;
  }

  /** The bits behind a hash. */
  function BitsOfHex(h: string): Bits
    requires IsHash(h)
  {
    seq(64, i requires 0 <= i < 64 => BitAt(DigitValue(h[i / 4]), 3 - i % 4))
  }

  lemma BitShift(d: nat, i: nat)
    ensures BitAt(d, i + 1) == BitAt(d / 2, i)
  {
  }

  lemma LowBit(d: nat)
    ensures BitAt(d, 0) <==> d % 2 == 1
  {
  }

  lemma NibbleOfDigit(d: nat)
    requires d < 16
    ensures Nibble(BitAt(d, 3), BitAt(d, 2), BitAt(d, 1), BitAt(d, 0)) == d
  {
    hide BitAt;
    BitShift(d, 0);
    BitShift(d, 1);
    BitShift(d, 2);
    BitShift(d / 2, 0);
    BitShift(d / 2, 1);
    BitShift(d / 2 / 2, 0);
    LowBit(d);
    LowBit(d / 2);
    LowBit(d / 2 / 2);
    LowBit(d / 2 / 2 / 2);
  }

  lemma DigitOfHex(c: char)
    requires IsHexDigit(c)
    ensures HexDigit(DigitValue(c)) == c
  {
  }

  /** Every hash is the packing of its bits. */
  lemma HashIsPacked(h: string)
    requires IsHash(h)
    ensures HexOfBits(BitsOfHex(h)) == h
  {
    hide HexOfBits, BitsOfHex;
    forall n | 0 <= n < 16
      ensures HexOfBits(BitsOfHex(h))[n] == h[n]
    {
      DigitIsPacked(h, n);
    }
  }

  lemma DigitIsPacked(h: string, n: nat)
    requires IsHash(h) && n < 16
    ensures HexOfBits(BitsOfHex(h))[n] == h[n]
  {
    hide BitAt, Nibble, HexDigit, DigitValue;
    assert (4 * n) / 4 == n && (4 * n + 1) / 4 == n && (4 * n + 2) / 4 == n && (4 * n + 3) / 4 == n;
    NibbleOfDigit(DigitValue(h[n]));
    DigitOfHex(h[n]);
  }

  // the metric laws, on bits and so on hashes

  lemma {:induction false} DiffIsMetric(x: seq<bool>, y: seq<bool>, z: seq<bool>)
    requires |x| == |y| == |z|
    ensures DiffCount(x, y) == 0 <==> x == y
    ensures DiffCount(x, y) == DiffCount(y, x)
    ensures DiffCount(x, z) <= DiffCount(x, y) + DiffCount(y, z)
    ensures DiffCount(x, y) <= |x|
  {
    if x != [] {
      var n := |x| - 1;
      DiffIsMetric(x[..n], y[..n], z[..n]);
      assert x == x[..n] + [x[n]] && y == y[..n] + [y[n]];
    }
  }

  /** Hamming distance is a metric on hashes: zero only on equal ones, symmetric, and never longer by a detour. */
  lemma DistanceIsMetric(a: string, b: string, c: string)
    requires IsHash(a) && IsHash(b) && IsHash(c)
    ensures Distance(a, b) == 0 <==> a == b
    ensures Distance(a, b) == Distance(b, a) <= 64
    ensures Distance(a, c) <= Distance(a, b) + Distance(b, c)
  {
    hide Distance, DiffCount, HexOfBits, BitsOfHex;
    var x, y, z := BitsOfHex(a), BitsOfHex(b), BitsOfHex(c);
    HashIsPacked(a); HashIsPacked(b); HashIsPacked(c);
    DistanceCountsBits(x, y); DistanceCountsBits(y, x);
    DistanceCountsBits(x, z); DistanceCountsBits(y, z);
    DiffIsMetric(x, y, z);
  }

  // ------------------------------------------------------------- the median threshold of phash64

  function Insert(v: real, s: seq<real>): seq<real> {
    if s == [] then [v] else if v <= s[0] then [v] + s else [s[0]] + Insert(v, s[1..])
  }

  /** Numeric sort. */
  function Sort(s: seq<real>): seq<real> {
    if s == [] then [] else Insert(s[0], Sort(s[1..]))
  }

  function CountAbove(s: seq<real>, m: real): nat {
    if s == [] then 0 else (if s[0] > m then 1 else 0) + CountAbove(s[1..], m)
  }

  ghost predicate Ordered(s: seq<real>) {
    forall i, j :: 0 <= i < j < |s| ==> s[i] <= s[j]
  }

  lemma {:induction false} InsertOrders(v: real, s: seq<real>, m: real)
    requires Ordered(s)
    ensures Ordered(Insert(v, s)) && |Insert(v, s)| == |s| + 1
    ensures CountAbove(Insert(v, s), m) == CountAbove(s, m) + if v > m then 1 else 0
    ensures s != [] ==> Insert(v, s)[0] == if v <= s[0] then v else s[0]
  {
    if s != [] {
      if v <= s[0] {
        assert ([v] + s)[1..] == s;
      } else {
        var rest := Insert(v, s[1..]);
        InsertOrders(v, s[1..], m);
        assert rest[0] >= s[0];
        assert ([s[0]] + rest)[1..] == rest;
      }
    } else {
      assert [v][1..] == [];
    }
  }

  lemma {:induction false} SortOrders(s: seq<real>, m: real)
    ensures Ordered(Sort(s)) && |Sort(s)| == |s| && CountAbove(Sort(s), m) == CountAbove(s, m)
  {
    hide Insert;
    if s != [] {
      SortOrders(s[1..], m);
      InsertOrders(s[0], Sort(s[1..]), m);
    }
  }

  lemma {:induction false} CountIsTail(s: seq<real>, m: real, k: nat)
    requires Ordered(s) && k <= |s|
    requires forall i :: 0 <= i < k ==> s[i] <= m
    ensures CountAbove(s, m) <= |s| - k
    ensures (forall i :: k <= i < |s| ==> s[i] > m) ==> CountAbove(s, m) == |s| - k
  {
    if s != [] {
      assert forall i :: 0 <= i < |s[1..]| ==> s[1..][i] == s[i + 1];
      CountIsTail(s[1..], m, if k > 0 then k - 1 else 0);
    }
  }

  /** The bits of phash64, from the 63 coefficients without the DC term. */
  function Threshold(ac: seq<real>): Bits
    requires |ac| == 63
  {
    SortOrders(ac, 0.0);
    var sorted := Sort(ac);
    var median := (sorted[31] + sorted[32]) / 2.0;
    [false] + seq(63, i requires 0 <= i < 63 => ac[i] > median)
  }

  function SetBits(b: seq<bool>): nat {
    if b == [] then 0 else BitValue(b[0]) + SetBits(b[1..])
  }

  lemma {:induction false} SetBitsCount(ac: seq<real>, m: real, b: seq<bool>)
    requires |b| == |ac| && forall i :: 0 <= i < |ac| ==> b[i] == (ac[i] > m)
    ensures SetBits(b) == CountAbove(ac, m)
  {
    if ac != [] { SetBitsCount(ac[1..], m, b[1..]); }
  }

  /**
   Every phash has its first bit clear and at most 31 bits set; it has exactly 31 when, and only when, the two
   middle sorted values differ.
   */
  lemma ThresholdBalances(ac: seq<real>)
    requires |ac| == 63
    ensures !Threshold(ac)[0] && SetBits(Threshold(ac)) <= 31
    ensures |Sort(ac)| == 63
    ensures SetBits(Threshold(ac)) == 31 <==> Sort(ac)[31] < Sort(ac)[32]
  {
    hide Sort, CountAbove, SetBits;
    SortOrders(ac, 0.0);
    var sorted := Sort(ac);
    var median := (sorted[31] + sorted[32]) / 2.0;
    var bits := Threshold(ac);
    SortOrders(ac, median);
    SetBitsCount(ac, median, bits[1..]);
    ClearBit(bits);
    CountIsTail(sorted, median, 32);
    if sorted[31] == sorted[32] {
      CountIsTail(sorted, median, 33);
    }
  }

  lemma ClearBit(b: seq<bool>)
    requires b != [] && !b[0]
    ensures SetBits(b) == SetBits(b[1..])
  {
  }
}
