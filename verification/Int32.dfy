/**
 The 32-bit integer operators of JavaScript, on mathematical integers.

 A JavaScript bitwise operator reads each operand modulo 2^32 and gives back a SIGNED 32-bit result; only
 `>>>` gives an unsigned one. Additions are ordinary number additions, exact below 2^53.
 */
module Int32 {
  const TWO32: nat := 0x1_0000_0000
  const TWO31: nat := 0x8000_0000

  type Byte = x: int | 0 <= x < 0x100
  type Word = x: int | 0 <= x < 0x1_0000_0000

  /** x * 2^n. */
  function Scaled(x: nat, n: nat): (r: nat)
    ensures r >= x
  {
    if n == 0 then x else 2 * Scaled(x, n - 1)
  }

  function Pow2(n: nat): nat {
    Scaled(1, n)
  }

  /** x / 2^n. */
  function Halved(x: nat, n: nat): nat {
    if n == 0 then x else Halved(x / 2, n - 1)
  }

  /** x % 2^n. */
  function LowBits(x: nat, n: nat): nat {
    if n == 0 then 0 else x % 2 + 2 * LowBits(x / 2, n - 1)
  }

  lemma {:induction false} SplitBits(x: nat, n: nat)
    ensures x == Scaled(Halved(x, n), n) + LowBits(x, n)
    ensures LowBits(x, n) < Pow2(n) && Halved(x, n) <= x
  {
    if n > 0 { SplitBits(x / 2, n - 1); }
  }

  lemma {:induction false} HalvedBounded(x: nat, n: nat, m: nat)
    requires n <= m && x < Pow2(m)
    ensures Halved(x, n) < Pow2(m - n)
  {
    if n > 0 { HalvedBounded(x / 2, n - 1, m - 1); }
  }

  lemma {:induction false} ScaledBounded(x: nat, n: nat, m: nat)
    requires x < Pow2(m)
    ensures Scaled(x, n) + Pow2(n) <= Pow2(m + n)
  {
    if n > 0 { ScaledBounded(x, n - 1, m); }
  }

  lemma {:induction false} ScaledAdds(x: nat, y: nat, n: nat)
    ensures Scaled(x + y, n) == Scaled(x, n) + Scaled(y, n)
  {
    if n > 0 { ScaledAdds(x, y, n - 1); }
  }

  lemma {:induction false} ScaledTwice(x: nat, m: nat, n: nat)
    ensures Scaled(Scaled(x, m), n) == Scaled(x, m + n)
  {
    if n > 0 { ScaledTwice(x, m, n - 1); }
  }

  datatype Gate = And | Or | Xor {
    predicate On(p: bool, q: bool) {
      match this
      case And => p && q
      case Or => p || q
      case Xor => p != q
    }
  }

  /** Bit i of the binary expansion of x. */
  predicate BitAt(x: nat, i: nat) {
    if i == 0 then x % 2 == 1 else BitAt(x / 2, i - 1)
  }

  /** Applies a gate to two numbers bit by bit. */
  function Combine(g: Gate, x: nat, y: nat): nat
    decreases x + y
  {
    if x == 0 && y == 0 then 0
    else (if g.On(x % 2 == 1, y % 2 == 1) then 1 else 0) + 2 * Combine(g, x / 2, y / 2)
  }

  lemma {:induction false} ZeroHasNoBits(i: nat)
    ensures !BitAt(0, i)
  {
    if i > 0 { ZeroHasNoBits(i - 1); }
  }

  lemma {:induction false} CombineIsBitwise(g: Gate, x: nat, y: nat, i: nat)
    ensures BitAt(Combine(g, x, y), i) == g.On(BitAt(x, i), BitAt(y, i))
    decreases i
  {
    if x == 0 && y == 0 {
      ZeroHasNoBits(i);
    } else {
      assert Combine(g, x, y) / 2 == Combine(g, x / 2, y / 2);
      if i > 0 { CombineIsBitwise(g, x / 2, y / 2, i - 1); }
    }
  }

  lemma {:induction false} CombineBounded(g: Gate, x: nat, y: nat, n: nat)
    requires x < Pow2(n) && y < Pow2(n)
    ensures Combine(g, x, y) < Pow2(n)
    decreases n
  {
    if n > 0 { CombineBounded(g, x / 2, y / 2, n - 1); }
  }

  /** Numbers with no bit in common are joined by addition. */
  lemma {:induction false} OrOfDisjoint(low: nat, high: nat, n: nat)
    requires low < Pow2(n)
    ensures Combine(Or, low, Scaled(high, n)) == low + Scaled(high, n)
    ensures Combine(Or, Scaled(high, n), low) == low + Scaled(high, n)
    decreases n
  {
    if n == 0 {
      OrWithZero(high);
    } else {
      OrOfDisjoint(low / 2, high, n - 1);
    }
  }

  lemma {:induction false} OrWithZero(x: nat)
    ensures Combine(Or, x, 0) == x == Combine(Or, 0, x)
  {
    if x > 0 { OrWithZero(x / 2); }
  }

  lemma ScaledBy8(x: nat)
    ensures Scaled(x, 8) == x * 0x100
  {
    assert Scaled(x, 1) == x * 0x2;
    assert Scaled(x, 2) == x * 0x4;
    assert Scaled(x, 3) == x * 0x8;
    assert Scaled(x, 4) == x * 0x10;
    assert Scaled(x, 5) == x * 0x20;
    assert Scaled(x, 6) == x * 0x40;
    assert Scaled(x, 7) == x * 0x80;
  }

  lemma ScaledByBytes(x: nat)
    ensures Scaled(x, 8) == x * 0x100 && Scaled(x, 16) == x * 0x1_0000
    ensures Scaled(x, 24) == x * 0x100_0000 && Scaled(x, 32) == x * TWO32
  {
    hide Scaled;
    ScaledBy8(x);
    ScaledBy8(x * 0x100);
    ScaledBy8(x * 0x1_0000);
    ScaledBy8(x * 0x100_0000);
    ScaledTwice(x, 8, 8);
    ScaledTwice(x, 16, 8);
    ScaledTwice(x, 24, 8);
  }

  /** A gate over whole words. */
  function WordGate(g: Gate, x: Word, y: Word): Word {
    ScaledByBytes(1);
    CombineBounded(g, x, y, 32);
    Combine(g, x, y)
  }

  function WordNot(x: Word): Word {
    TWO32 - 1 - x
  }

  // ------------------------------------------------------------- the JavaScript operators

  function ToUint32(x: int): Word {
    x % TWO32
  }

  function ToInt32(x: int): int {
    var u := ToUint32(x);
    if u < TWO31 then u else u - TWO32
  }

  function JsGate(g: Gate, x: int, y: int): int {
    ToInt32(WordGate(g, ToUint32(x), ToUint32(y)))
  }

  function JsNot(x: int): int {
    ToInt32(WordNot(ToUint32(x)))
  }

  /** `x << n`: the word shifted, its upper bits lost, read as signed. JavaScript takes the count modulo 32. */
  function JsShl(x: int, n: nat): int
    requires n < 32
  {
    ToInt32(Scaled(ToUint32(x), n))
  }

  /** `x >>> n`. */
  function JsShr(x: int, n: nat): Word
    requires n < 32
  {
    SplitBits(ToUint32(x), n);
    Halved(ToUint32(x), n)
  }

  lemma WordsAreKept(x: Word)
    ensures ToUint32(x) == x == ToUint32(ToInt32(x))
  {
  }

  lemma SmallIsKept(x: nat)
    requires x < TWO31
    ensures ToUint32(x) == ToInt32(x) == x
  {
  }

  lemma OverflowIsLost(x: nat, k: nat, low: Word)
    requires x == k * TWO32 + low
    ensures ToUint32(ToInt32(x)) == low
  {
    assert ToUint32(x) == low;
  }

  /** Two signed terms of a sum may be cut to words before the sum is. */
  lemma CutSum(x: int, y: int, z: int)
    ensures ToUint32(x + y + z) == ToUint32(x + ToUint32(y) + ToUint32(z))
  {
    var k := y / TWO32 + z / TWO32;
    assert x + y + z == x + ToUint32(y) + ToUint32(z) + TWO32 * k;
  }

  lemma SignDoesNotMatter(g: Gate, x: int, y: int)
    ensures ToUint32(ToInt32(x)) == ToUint32(x)
    ensures ToUint32(JsGate(g, x, y)) == WordGate(g, ToUint32(x), ToUint32(y))
    ensures ToUint32(JsNot(x)) == WordNot(ToUint32(x))
  {
  }
}
