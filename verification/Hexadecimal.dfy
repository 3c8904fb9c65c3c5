/** Fixed-width lower-case hexadecimal: `n.toString(16).padStart(width, "0")` and `parseInt(s, 16)`. */
module Hexadecimal {
  function Pow16(n: nat): (p: nat)
    ensures p > 0
  {
    if n == 0 then 1 else 16 * Pow16(n - 1)
  }

  function HexDigit(d: nat): (c: char)
    requires d < 16
    ensures IsHexDigit(c)
  {
    (if d < 10 then '0' as int + d else 'a' as int + (d - 10)) as char
  }

  lemma DigitsInOrder(d: nat)
    requires d < 16
    ensures HexDigit(d) == "0123456789abcdef"[d]
  {
  }

  predicate IsHexDigit(c: char) {
    '0' <= c <= '9' || 'a' <= c <= 'f'
  }

  predicate IsHex(s: string) {
    forall c :: c in s ==> IsHexDigit(c)
  }

  function DigitValue(c: char): (d: nat)
    requires IsHexDigit(c)
    ensures d < 16 && HexDigit(d) == c
  {
    if c <= '9' then c as int - '0' as int else c as int - 'a' as int + 10
  }

  /** The low `width` hexadecimal digits of n, most significant first. */
  function Hex(n: nat, width: nat): (s: string)
    ensures |s| == width && IsHex(s)
  {
    if width == 0 then "" else Hex(n / 16, width - 1) + [HexDigit(n % 16)]
  }

  /** `parseInt(s, 16)`. */
  function ParseHex(s: string): nat
    requires IsHex(s)
  {
    if s == "" then 0 else 16 * ParseHex(s[..|s| - 1]) + DigitValue(s[|s| - 1])
  }

  lemma {:induction false} ParseBounded(s: string)
    requires IsHex(s)
    ensures ParseHex(s) < Pow16(|s|)
  {
    if s != "" { ParseBounded(s[..|s| - 1]); }
  }

  lemma {:induction false} ParsePrinted(n: nat, width: nat)
    requires n < Pow16(width)
    ensures ParseHex(Hex(n, width)) == n
  {
    if width > 0 {
      var s := Hex(n / 16, width - 1);
      assert Hex(n, width)[..width - 1] == s;
      ParsePrinted(n / 16, width - 1);
    }
  }

  lemma {:induction false} PrintParsed(s: string)
    requires IsHex(s)
    ensures Hex(ParseHex(s), |s|) == s
  {
    if s != "" {
      var front, last := s[..|s| - 1], s[|s| - 1];
      PrintParsed(front);
      assert s == front + [last];
      var n := 16 * ParseHex(front) + DigitValue(last);
      assert n / 16 == ParseHex(front) && n % 16 == DigitValue(last);
    }
  }

  /** `n.toString(16)`: no leading zero. */
  function ToString16(n: nat): string {
    if n < 16 then [HexDigit(n)] else ToString16(n / 16) + [HexDigit(n % 16)]
  }

  /** `s.padStart(width, "0")`. */
  function PadStart(s: string, width: nat): string
    decreases width - |s|
  {
    if |s| >= width then s else PadStart("0" + s, width)
  }

  lemma {:induction false} PadStartOf(s: string, c: char, width: nat)
    ensures PadStart(s + [c], width + 1) == PadStart(s, width) + [c]
    decreases width - |s|
  {
    if |s| < width {
      assert "0" + (s + [c]) == ("0" + s) + [c];
      PadStartOf("0" + s, c, width);
    }
  }

  lemma {:induction false} PadZero(width: nat)
    ensures PadStart("", width) == Hex(0, width)
    decreases width
  {
    if width > 0 {
      PadZero(width - 1);
      PadStartOf("", '0', width - 1);
      assert "" + ['0'] == "0" == "0" + "";
    }
  }

  /** Padding the shortest printing gives the fixed-width one. */
  lemma {:induction false} PadStartIsHex(n: nat, width: nat)
    requires width > 0 && n < Pow16(width)
    ensures PadStart(ToString16(n), width) == Hex(n, width)
    decreases width
  {
    if n < 16 {
      PadZero(width - 1);
      PadStartOf("", HexDigit(n), width - 1);
      assert "" + [HexDigit(n)] == [HexDigit(n)];
    } else {
      assert Pow16(1) == 16;
      PadStartIsHex(n / 16, width - 1);
      PadStartOf(ToString16(n / 16), HexDigit(n % 16), width - 1);
    }
  }
}
