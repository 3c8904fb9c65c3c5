/** `trim` and the ASCII part of `toLowerCase`. */
module JsStrings {
  /** The characters JavaScript's trim removes: white space and line terminators. */
  predicate IsSpace(c: char) {
    var n := c as int;
    9 <= n <= 13 || n == 32 || n == 160 || n == 0x1680 || 0x2000 <= n <= 0x200a
    || n in {0x2028, 0x2029, 0x202f, 0x205f, 0x3000, 0xfeff}
  }

  function TrimStart(s: string): string {
    if s == "" || !IsSpace(s[0]) then s else TrimStart(s[1..])
  }

  function TrimEnd(s: string): string {
    if s == "" || !IsSpace(s[|s| - 1]) then s else TrimEnd(s[..|s| - 1])
  }

  function Trim(s: string): string {
    TrimEnd(TrimStart(s))
  }

  predicate Trimmed(s: string) {
    s == "" || (!IsSpace(s[0]) && !IsSpace(s[|s| - 1]))
  }

  lemma {:induction false} TrimStartStarts(s: string)
    ensures TrimStart(s) == "" || !IsSpace(TrimStart(s)[0])
  {
    if s != "" && IsSpace(s[0]) { TrimStartStarts(s[1..]); }
  }

  lemma {:induction false} TrimEndEnds(s: string)
    ensures TrimEnd(s) == "" || (s != "" && TrimEnd(s)[0] == s[0] && !IsSpace(TrimEnd(s)[|TrimEnd(s)| - 1]))
  {
    if s != "" && IsSpace(s[|s| - 1]) { TrimEndEnds(s[..|s| - 1]); }
  }

  /** Trimming gives a trimmed string, and only a trimmed string is left as it is. */
  lemma TrimTrims(s: string)
    ensures Trimmed(Trim(s))
    ensures Trim(s) == s <==> Trimmed(s)
  {
    TrimStartStarts(s);
    TrimEndEnds(TrimStart(s));
  }

  /** `length`: a character outside the basic multilingual plane is two UTF-16 units. */
  function Utf16Length(s: string): nat {
    if s == "" then 0 else Utf16Length(s[..|s| - 1]) + if s[|s| - 1] as int > 0xffff then 2 else 1
  }

  function ToLower(s: string): string {
    seq(|s|, i requires 0 <= i < |s| => LowerChar(s[i]))
  }

  function LowerChar(c: char): char {
    if 'A' <= c <= 'Z' then (c as int + 32) as char else c
  }

  /** Each capital becomes its small letter; lower-casing twice is doing it once, and leaves no capital. */
  lemma LowerIsLower(s: string)
    ensures ToLower("ABCDEFGHIJKLMNOPQRSTUVWXYZ") == "abcdefghijklmnopqrstuvwxyz"
    ensures ToLower(ToLower(s)) == ToLower(s) && |ToLower(s)| == |s|
    ensures forall c :: c in ToLower(s) ==> !('A' <= c <= 'Z')
  {
  }
}
