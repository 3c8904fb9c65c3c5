/** JavaScript strings as sequences of UTF-16 code units, and the way `JSON.stringify` quotes them. */
module JsText {
  import opened Wrappers

  type Unit = u: int | 0 <= u < 0x1_0000
  type Text = seq<Unit>

  const QUOTE: Unit := 0x22
  const BACKSLASH: Unit := 0x5c

  predicate IsLead(u: Unit) { 0xd800 <= u < 0xdc00 }
  predicate IsTrail(u: Unit) { 0xdc00 <= u < 0xe000 }

  function HexUnit(d: nat): Unit
    requires d < 16
  {
    if d < 10 then 0x30 + d else 0x57 + d
  }

  function HexValue(u: Unit): Option<nat> {
    if 0x30 <= u < 0x3a then Some(u - 0x30)
    else if 0x61 <= u < 0x67 then Some(u - 0x57)
    else if 0x41 <= u < 0x47 then Some(u - 0x37)
    else None
  }

  /** The letter after a backslash for the units that have one. */
  function ShortEscape(u: Unit): Option<Unit> {
    match u
    case 0x08 => Some(0x62)
    case 0x09 => Some(0x74)
    case 0x0a => Some(0x6e)
    case 0x0c => Some(0x66)
    case 0x0d => Some(0x72)
    case 0x22 => Some(0x22)
    case 0x5c => Some(0x5c)
    case _ => None
  }

  /** A reader also knows the escaped solidus, which is never written. */
  function FromShortEscape(c: Unit): Option<Unit> {
    match c
    case 0x2f => Some(0x2f)
    case 0x62 => Some(0x08)
    case 0x74 => Some(0x09)
    case 0x6e => Some(0x0a)
    case 0x66 => Some(0x0c)
    case 0x72 => Some(0x0d)
    case 0x22 => Some(0x22)
    case 0x5c => Some(0x5c)
    case _ => None
  }

  /** `\u` and four hexadecimal digits. */
  function LongEscape(u: Unit): Text {
    [BACKSLASH, 0x75, HexUnit(u / 0x1000), HexUnit(u / 0x100 % 0x10), HexUnit(u / 0x10 % 0x10), HexUnit(u % 0x10)]
  }

  /** One unit on its own: a surrogate here has lost its partner. */
  function EscapeUnit(u: Unit): Text {
    var short := ShortEscape(u);
    if short.Some? then [BACKSLASH, short.value]
    else if u < 0x20 || IsLead(u) || IsTrail(u) then LongEscape(u)
    else [u]
  }

  function Escape(s: Text): Text {
    if s == [] then []
    else if |s| > 1 && IsLead(s[0]) && IsTrail(s[1]) then s[..2] + Escape(s[2..])
    else EscapeUnit(s[0]) + Escape(s[1..])
  }

  /** `JSON.stringify` of a string. */
  function Quote(s: Text): Text {
    [QUOTE] + Escape(s) + [QUOTE]
  }

  // ------------------------------------------------------------- reading a quoted string

  /** The unit an escape stands for, and how long the escape is. */
  function ReadEscape(t: Text): Option<(Unit, nat)>
    requires t != [] && t[0] == BACKSLASH
  {
    if |t| < 2 then None
    else if FromShortEscape(t[1]).Some? then Some((FromShortEscape(t[1]).value, 2))
    else if |t| < 6 || t[1] != 0x75 then None
    else
      match (HexValue(t[2]), HexValue(t[3]), HexValue(t[4]), HexValue(t[5]))
      case (Some(a), Some(b), Some(c), Some(d)) =>
        var n := a * 0x1000 + b * 0x100 + c * 0x10 + d;
        if n < 0x1_0000 then Some((n, 6)) else None
      case _ => None
  }

  /** The string up to the closing quote, and what follows it; a bare control character is an error. */
  function ReadString(t: Text): (r: Option<(Text, Text)>)
    ensures r.Some? ==> |r.value.1| < |t|
    decreases |t|
  {
    if t == [] || t[0] < 0x20 then None
    else if t[0] == QUOTE then Some(([], t[1..]))
    else if t[0] == BACKSLASH then
      match ReadEscape(t)
      case None => None
      case Some((u, n)) =>
        if n > |t| || n == 0 then None else
        match ReadString(t[n..])
        case None => None
        case Some((s, rest)) => Some(([u] + s, rest))
    else
      match ReadString(t[1..])
      case None => None
      case Some((s, rest)) => Some(([t[0]] + s, rest))
  }

  lemma EscapeReads(u: Unit, t: Text)
    requires EscapeUnit(u) != [u]
    ensures
      var e := EscapeUnit(u);
      |e| in {2, 6} && e[0] == BACKSLASH && ReadEscape(e + t) == Some((u, |e|))
  {
    if ShortEscape(u).None? {
      var e := LongEscape(u) + t;
      assert e[2] == HexUnit(u / 0x1000) && e[3] == HexUnit(u / 0x100 % 0x10);
      assert e[4] == HexUnit(u / 0x10 % 0x10) && e[5] == HexUnit(u % 0x10);
      LongEscapeReads(u);
    }
  }

  lemma LongEscapeReads(u: Unit)
    ensures HexValue(HexUnit(u / 0x1000)) == Some(u / 0x1000)
    ensures HexValue(HexUnit(u / 0x100 % 0x10)) == Some(u / 0x100 % 0x10)
    ensures HexValue(HexUnit(u / 0x10 % 0x10)) == Some(u / 0x10 % 0x10)
    ensures HexValue(HexUnit(u % 0x10)) == Some(u % 0x10)
    ensures u / 0x1000 * 0x1000 + u / 0x100 % 0x10 * 0x100 + u / 0x10 % 0x10 * 0x10 + u % 0x10 == u
  {
    assert u / 0x1000 == u / 0x100 / 0x10;
    assert u / 0x100 == u / 0x10 / 0x10;
  }

  /** One literal unit in front of a readable string. */
  lemma LiteralReads(u: Unit, t: Text)
    requires u != QUOTE && u != BACKSLASH && u >= 0x20 && ReadString(t).Some?
    ensures ReadString([u] + t) == Some(([u] + ReadString(t).value.0, ReadString(t).value.1))
  {
    assert ([u] + t)[1..] == t;
  }

  lemma UnitReads(u: Unit, t: Text)
    requires ReadString(t).Some?
    ensures ReadString(EscapeUnit(u) + t) == Some(([u] + ReadString(t).value.0, ReadString(t).value.1))
  {
    hide EscapeUnit, ReadEscape;
    var e := EscapeUnit(u);
    if e == [u] {
      UnescapedIsPlain(u);
      LiteralReads(u, t);
    } else {
      EscapeReads(u, t);
      assert (e + t)[|e|..] == t;
    }
  }

  lemma UnescapedIsPlain(u: Unit)
    requires EscapeUnit(u) == [u]
    ensures u != QUOTE && u != BACKSLASH && u >= 0x20
  {
  }

  /** t reads as s with `rest` left over. */
  ghost predicate ReadsAs(t: Text, s: Text, rest: Text) {
    ReadString(t) == Some((s, rest))
  }

  lemma PairReads(lead: Unit, trail: Unit, t: Text, s: Text, rest: Text)
    requires IsLead(lead) && IsTrail(trail) && ReadsAs(t, s, rest)
    ensures ReadsAs([lead, trail] + t, [lead, trail] + s, rest)
  {
    hide ReadString;
    LiteralReads(trail, t);
    LiteralReads(lead, [trail] + t);
    assert [lead, trail] + t == [lead] + ([trail] + t) && [lead, trail] + s == [lead] + ([trail] + s);
  }

  /** A quoted string reads back, whatever follows it: control characters, quotes and broken surrogates included. */
  lemma {:induction false} QuoteReads(s: Text, rest: Text)
    ensures ReadString(Escape(s) + [QUOTE] + rest) == Some((s, rest))
    decreases |s|
  {
    hide ReadString, EscapeUnit;
    if s == [] {
      EmptyReads(rest);
      assert Escape(s) + [QUOTE] + rest == [QUOTE] + rest;
    } else if |s| > 1 && IsLead(s[0]) && IsTrail(s[1]) {
      QuoteReads(s[2..], rest);
      var t := Escape(s[2..]) + [QUOTE] + rest;
      PairReads(s[0], s[1], t, s[2..], rest);
      assert s[..2] == [s[0], s[1]] && s == s[..2] + s[2..];
      assert Escape(s) + [QUOTE] + rest == s[..2] + t;
    } else {
      QuoteReads(s[1..], rest);
      var t := Escape(s[1..]) + [QUOTE] + rest;
      UnitReads(s[0], t);
      assert Escape(s) + [QUOTE] + rest == EscapeUnit(s[0]) + t;
      assert s == [s[0]] + s[1..];
    }
  }

  lemma EmptyReads(rest: Text)
    ensures ReadString([QUOTE] + rest) == Some(([], rest))
  {
    assert ([QUOTE] + rest)[1..] == rest;
  }

  // ------------------------------------------------------------- which of the readable texts is written

  /** Well-formed UTF-16: every surrogate stands in a pair. */
  predicate Paired(t: Text) {
    if t == [] then true
    else if IsLead(t[0]) then |t| > 1 && IsTrail(t[1]) && Paired(t[2..])
    else !IsTrail(t[0]) && Paired(t[1..])
  }

  predicate IsUpperHex(u: Unit) { 0x41 <= u < 0x47 }

  /** No `\u` escape is written with an upper-case digit. */
  predicate LowerCased(t: Text) {
    if t == [] then true
    else if t[0] != BACKSLASH || |t| < 2 then LowerCased(t[1..])
    else if t[1] == 0x75 && |t| >= 6 then
      !IsUpperHex(t[2]) && !IsUpperHex(t[3]) && !IsUpperHex(t[4]) && !IsUpperHex(t[5]) && LowerCased(t[6..])
    else LowerCased(t[2..])
  }

  lemma HexDigitIs(c: Unit, d: nat)
    requires HexValue(c) == Some(d) && !IsUpperHex(c)
    ensures d < 16 && c == HexUnit(d)
  {
  }

  lemma DigitsOf(a: nat, b: nat, c: nat, d: nat)
    requires a < 16 && b < 16 && c < 16 && d < 16
    ensures
      var u := a * 0x1000 + b * 0x100 + c * 0x10 + d;
      u / 0x1000 == a && u / 0x100 % 0x10 == b && u / 0x10 % 0x10 == c && u % 0x10 == d
  {
    var high, most := a * 0x10 + b, (a * 0x10 + b) * 0x10 + c;
    DigitSplit(high, c * 0x10 + d);
    OneDigit(a, b);
    OneDigit(high, c);
    OneDigit(most, d);
    assert (a * 0x10 + b) * 0x100 + (c * 0x10 + d) == most * 0x10 + d;
    TopDigit(a, b * 0x100 + c * 0x10 + d);
  }

  lemma OneDigit(x: nat, d: nat)
    requires d < 16
    ensures (x * 0x10 + d) / 0x10 == x && (x * 0x10 + d) % 0x10 == d
  {
  }

  lemma DigitSplit(x: nat, r: nat)
    requires r < 0x100
    ensures (x * 0x100 + r) / 0x100 == x
  {
  }

  lemma TopDigit(x: nat, r: nat)
    requires r < 0x1000
    ensures (x * 0x1000 + r) / 0x1000 == x
  {
  }

  /** Every escape that reads as u is at least as long as the one written, and as long only if it is that one. */
  lemma EscapeIsLeast(t: Text, u: Unit, n: nat)
    requires t != [] && t[0] == BACKSLASH && ReadEscape(t) == Some((u, n))
    ensures n in {2, 6} && n <= |t| && |EscapeUnit(u)| <= n
    ensures forall i :: 0 <= i < n ==> !IsLead(t[i]) && !IsTrail(t[i])
    ensures n == |EscapeUnit(u)| && LowerCased(t) ==> t[..n] == EscapeUnit(u)
  {
    if FromShortEscape(t[1]).Some? {
      assert t[..2] == [BACKSLASH, t[1]];
    } else {
      LongIsLeast(t, u);
    }
  }

  lemma LongIsLeast(t: Text, u: Unit)
    requires |t| >= 6 && t[0] == BACKSLASH && t[1] == 0x75 && ReadEscape(t) == Some((u, 6))
    ensures forall i :: 0 <= i < 6 ==> !IsLead(t[i]) && !IsTrail(t[i])
    ensures |EscapeUnit(u)| == 6 && LowerCased(t) ==> t[..6] == EscapeUnit(u)
  {
    if LowerCased(t) {
      var a, b, c, d := HexValue(t[2]).value, HexValue(t[3]).value, HexValue(t[4]).value, HexValue(t[5]).value;
      HexDigitIs(t[2], a); HexDigitIs(t[3], b); HexDigitIs(t[4], c); HexDigitIs(t[5], d);
      DigitsOf(a, b, c, d);
      assert t[..6] == LongEscape(u);
    }
  }

  lemma PairSaves(s: Text)
    requires s != []
    ensures |Escape(s)| <= |EscapeUnit(s[0])| + |Escape(s[1..])|
    ensures |s| > 1 && IsLead(s[0]) && IsTrail(s[1]) ==>
      |Escape(s)| < |EscapeUnit(s[0])| + |Escape(s[1..])| && Escape(s) == s[..2] + Escape(s[2..])
    ensures !(|s| > 1 && IsLead(s[0]) && IsTrail(s[1])) ==> Escape(s) == EscapeUnit(s[0]) + Escape(s[1..])
  {
    if |s| > 1 && IsLead(s[0]) && IsTrail(s[1]) { assert s[1..][1..] == s[2..]; }
  }

  /** t reads, up to a closing quote, as s. */
  ghost predicate Spells(t: Text, s: Text) {
    ReadString(t + [QUOTE]) == Some((s, []))
  }

  lemma SpellsRaw(t: Text, s: Text)
    requires Spells(t, s) && t != [] && t[0] != BACKSLASH
    ensures t[0] != QUOTE && t[0] >= 0x20 && s != [] && s[0] == t[0] && Spells(t[1..], s[1..])
  {
    assert (t + [QUOTE])[1..] == t[1..] + [QUOTE];
    if t[0] != QUOTE && t[0] >= 0x20 { assert ([t[0]] + s[1..])[1..] == s[1..]; }
  }

  lemma SpellsEscape(t: Text, s: Text) returns (n: nat)
    requires Spells(t, s) && t != [] && t[0] == BACKSLASH
    ensures n in {2, 6} && n <= |t| && s != [] && ReadEscape(t) == Some((s[0], n)) && Spells(t[n..], s[1..])
  {
    var all := t + [QUOTE];
    n := ReadEscape(all).value.1;
    assert all[n..] == t[n..] + [QUOTE];
    EscapeWithin(t, n);
  }

  lemma EscapeWithin(t: Text, n: nat)
    requires t != [] && t[0] == BACKSLASH && ReadEscape(t + [QUOTE]).Some?
    requires n == ReadEscape(t + [QUOTE]).value.1 <= |t|
    ensures ReadEscape(t) == ReadEscape(t + [QUOTE])
  {
  }

  lemma PairedRest(t: Text, n: nat)
    requires Paired(t) && n <= |t| && forall i :: 0 <= i < n ==> !IsLead(t[i]) && !IsTrail(t[i])
    ensures Paired(t[n..])
    decreases n
  {
    if n > 0 {
      PairedRest(t[1..], n - 1);
      assert t[1..][n - 1..] == t[n..];
    } else {
      assert t[0..] == t;
    }
  }

  lemma LowerRest(t: Text, n: nat)
    requires t != [] && t[0] == BACKSLASH && ReadEscape(t).Some? && ReadEscape(t).value.1 == n && LowerCased(t)
    ensures n <= |t| && LowerCased(t[n..])
  {
  }

  /**
   Of all well-formed texts that read as s, `JSON.stringify` writes a shortest one; with lower-case digits in its
   escapes there is no other as short.
   */
  lemma {:induction false} EscapeIsShortest(s: Text, t: Text)
    requires Paired(t) && Spells(t, s)
    ensures |Escape(s)| <= |t|
    ensures |t| == |Escape(s)| && LowerCased(t) ==> t == Escape(s)
    decreases |t|
  {
    hide Spells, EscapeUnit, ReadEscape, Escape;
    if t == [] {
      assert s == [] && Escape(s) == [] by { NothingSpelled(s); }
    } else if t[0] == BACKSLASH {
      var n := SpellsEscape(t, s);
      EscapeIsLeast(t, s[0], n);
      PairedRest(t, n);
      EscapeIsShortest(s[1..], t[n..]);
      PairSaves(s);
      if LowerCased(t) { LowerRest(t, n); }
      assert t == t[..n] + t[n..];
    } else {
      SpellsRaw(t, s);
      if IsLead(t[0]) {
        RawPair(t, s);
        EscapeIsShortest(s[2..], t[2..]);
        PairSaves(s);
        assert t == s[..2] + t[2..];
      } else {
        RawUnit(t[0]);
        EscapeIsShortest(s[1..], t[1..]);
        PairSaves(s);
        assert t == [t[0]] + t[1..];
      }
    }
  }

  lemma NothingSpelled(s: Text)
    requires Spells([], s)
    ensures s == [] && Escape(s) == []
  {
    EmptyReads([]);
    assert [] + [QUOTE] == [QUOTE] + [];
  }

  lemma RawUnit(u: Unit)
    requires u >= 0x20 && u != QUOTE && u != BACKSLASH && !IsLead(u) && !IsTrail(u)
    ensures EscapeUnit(u) == [u]
  {
  }

  lemma RawPair(t: Text, s: Text)
    requires Paired(t) && Spells(t, s) && t != [] && IsLead(t[0])
    ensures |t| > 1 && |s| > 1 && s[..2] == t[..2] && IsLead(s[0]) && IsTrail(s[1])
    ensures Paired(t[2..]) && Spells(t[2..], s[2..]) && (LowerCased(t) ==> LowerCased(t[2..]))
  {
    hide Spells;
    SpellsRaw(t, s);
    SpellsRaw(t[1..], s[1..]);
    assert t[1..][1..] == t[2..] && s[1..][1..] == s[2..];
    if LowerCased(t) { assert LowerCased(t[1..]) && LowerCased(t[1..][1..]); }
  }

  /** What is written is itself well formed and in lower case. */
  lemma {:induction false} EscapeIsWellFormed(s: Text)
    ensures Paired(Escape(s)) && LowerCased(Escape(s)) && Spells(Escape(s), s)
    decreases |s|
  {
    QuoteReads(s, []);
    assert Escape(s) + [QUOTE] + [] == Escape(s) + [QUOTE];
    if s != [] {
      if |s| > 1 && IsLead(s[0]) && IsTrail(s[1]) {
        EscapeIsWellFormed(s[2..]);
        var e := Escape(s);
        assert e[2..] == Escape(s[2..]) && e[1..][1..] == e[2..];
      } else {
        EscapeIsWellFormed(s[1..]);
        UnitIsWellFormed(s[0], Escape(s[1..]));
      }
    }
  }

  lemma UnitIsWellFormed(u: Unit, rest: Text)
    requires Paired(rest) && LowerCased(rest)
    ensures Paired(EscapeUnit(u) + rest) && LowerCased(EscapeUnit(u) + rest)
  {
    var e := EscapeUnit(u) + rest;
    if |EscapeUnit(u)| == 1 {
      assert e[1..] == rest;
    } else if |EscapeUnit(u)| == 2 {
      assert e[1..][1..] == rest && e[2..] == rest;
    } else {
      assert e[1..][1..][1..][1..][1..][1..] == rest && e[6..] == rest;
      SixPaired(e);
    }
  }

  lemma SixPaired(e: Text)
    requires |e| >= 6 && (forall i :: 0 <= i < 6 ==> !IsLead(e[i]) && !IsTrail(e[i])) && Paired(e[6..])
    ensures Paired(e)
  {
    Prepended(e, 5); Prepended(e, 4); Prepended(e, 3); Prepended(e, 2); Prepended(e, 1); Prepended(e, 0);
    assert e[0..] == e;
  }

  lemma Prepended(e: Text, i: nat)
    requires i < |e| && !IsLead(e[i]) && !IsTrail(e[i]) && Paired(e[i + 1..])
    ensures Paired(e[i..])
  {
    assert e[i..][1..] == e[i + 1..];
  }

  // ------------------------------------------------------------- order of keys

  /** `a < b`: code unit by code unit, the shorter first when one begins the other. */
  predicate Less(a: Text, b: Text) {
    if b == [] then false
    else if a == [] then true
    else if a[0] != b[0] then a[0] < b[0]
    else Less(a[1..], b[1..])
  }

  lemma {:induction false} LessIsStrict(a: Text, b: Text)
    ensures !(Less(a, b) && Less(b, a))
  {
    if a != [] && b != [] && a[0] == b[0] { LessIsStrict(a[1..], b[1..]); }
  }

  lemma {:induction false} LessIsTotal(a: Text, b: Text)
    ensures a == b || Less(a, b) || Less(b, a)
  {
    if a != [] && b != [] && a[0] == b[0] {
      LessIsTotal(a[1..], b[1..]);
      assert a == [a[0]] + a[1..] && b == [b[0]] + b[1..];
    }
  }

  lemma {:induction false} LessIsTransitive(a: Text, b: Text, c: Text)
    requires Less(a, b) && Less(b, c)
    ensures Less(a, c)
  {
    if a != [] && a[0] == b[0] && b[0] == c[0] { LessIsTransitive(a[1..], b[1..], c[1..]); }
  }

  /** The first k units agree, and at k one string ends or has the smaller unit. */
  predicate DiffersAt(a: Text, b: Text, k: nat) {
    && k <= |a| && k < |b| && a[..k] == b[..k]
    && (k == |a| || a[k] < b[k])
  }

  /** The order is lexicographic, ascending, by UTF-16 code units. */
  lemma {:induction false} LessIsLexicographic(a: Text, b: Text)
    ensures Less(a, b) <==> exists k: nat :: DiffersAt(a, b, k)
  {
    if b == [] {
    } else if a == [] {
      assert DiffersAt(a, b, 0);
    } else if a[0] != b[0] {
      if a[0] < b[0] { assert DiffersAt(a, b, 0); }
      forall k: nat | DiffersAt(a, b, k) ensures k == 0 {}
    } else {
      LessIsLexicographic(a[1..], b[1..]);
      if Less(a[1..], b[1..]) {
        var k: nat :| DiffersAt(a[1..], b[1..], k);
        assert a[..k + 1] == [a[0]] + a[1..][..k] && b[..k + 1] == [b[0]] + b[1..][..k];
        assert DiffersAt(a, b, k + 1);
      }
      if k: nat :| DiffersAt(a, b, k) {
        assert k > 0;
        assert a[1..][..k - 1] == a[..k][1..] && b[1..][..k - 1] == b[..k][1..];
        assert DiffersAt(a[1..], b[1..], k - 1);
      }
    }
  }

  // ------------------------------------------------------------- fixed texts

  /** The text is this ASCII string. */
  predicate IsWord(t: Text, s: string) {
    |t| == |s| && forall i :: 0 <= i < |s| ==> t[i] == s[i] as int
  }
}
