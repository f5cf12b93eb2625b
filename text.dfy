/**
 * The handful of Python `str` operations the simulator and the generator rely on:
 * `isspace`, `strip`/`lstrip`/`rstrip` (with and without a character set), `split()`,
 * `lower()`, `isdigit()`, `int(s)` in base 10 and 16, and `str(n)` for integers.
 */
module Text {
  import opened Wrappers

  /** `str.isspace` for one character: the characters Python's `str.split()` and `str.strip()` drop. */
  predicate IsSpace(c: char)
  {
    c == ' ' || ('\t' <= c <= '\r') || ('\U{1c}' <= c <= '\U{1f}') || c == '\U{85}' || c == '\U{a0}'
    || c == '\U{1680}' || ('\U{2000}' <= c <= '\U{200a}') || c == '\U{2028}' || c == '\U{2029}'
    || c == '\U{202f}' || c == '\U{205f}' || c == '\U{3000}'
  }

  /** `s.lstrip(chars)` where `drop` tells which characters belong to `chars`. */
  function LStrip(s: string, drop: char -> bool): (r: string)
    ensures |r| <= |s|
    ensures r != [] ==> !drop(r[0])
    decreases |s|
  {
    if s != [] && drop(s[0]) then LStrip(s[1..], drop) else s
  }

  /** `lstrip` removes a prefix, and only characters of the set. */
  lemma {:induction false} LStripSuffix(s: string, drop: char -> bool)
    ensures var r := LStrip(s, drop);
      r == s[|s| - |r|..] && forall i :: 0 <= i < |s| - |r| ==> drop(s[i])
    decreases |s|
  {
    if s != [] && drop(s[0]) {
      LStripSuffix(s[1..], drop);
    }
  }

  /** `s.rstrip(chars)` where `drop` tells which characters belong to `chars`. */
  function RStrip(s: string, drop: char -> bool): (r: string)
    ensures |r| <= |s|
    ensures r != [] ==> !drop(r[|r| - 1])
    decreases |s|
  {
    if s != [] && drop(s[|s| - 1]) then RStrip(s[..|s| - 1], drop) else s
  }

  /** `rstrip` removes a suffix, and only characters of the set. */
  lemma {:induction false} RStripPrefix(s: string, drop: char -> bool)
    ensures var r := RStrip(s, drop);
      r == s[..|r|] && forall i :: |r| <= i < |s| ==> drop(s[i])
    decreases |s|
  {
    if s != [] && drop(s[|s| - 1]) {
      RStripPrefix(s[..|s| - 1], drop);
    }
  }

  /** `s.strip()`: no white space is left at either end, and only white space was removed. */
  function Strip(s: string): (r: string)
    ensures r == [] || (!IsSpace(r[0]) && !IsSpace(r[|r| - 1]))
    ensures |r| <= |s|
  {
    var l := LStrip(s, IsSpace);
    RStripPrefix(l, IsSpace);
    RStrip(l, IsSpace)
  }

  /** `s.strip(chars)` for a set of characters. */
  function StripChars(s: string, chars: set<char>): string
  {
    RStrip(LStrip(s, c => c in chars), c => c in chars)
  }

  /** A string that neither starts nor ends with white space is left alone by `strip()`. */
  lemma StripTrimmed(t: string)
    requires t == [] || (!IsSpace(t[0]) && !IsSpace(t[|t| - 1]))
    ensures Strip(t) == t
  {
    if t != [] {
      assert LStrip(t, IsSpace) == t;
      assert RStrip(t, IsSpace) == t;
    }
  }

  lemma StripIdempotent(s: string)
    ensures Strip(Strip(s)) == Strip(s)
  {
    StripTrimmed(Strip(s));
  }

  /** The length of the leading run of non-space characters of `t`. */
  function WordLength(t: string): (n: nat)
    ensures n <= |t|
    ensures forall i :: 0 <= i < n ==> !IsSpace(t[i])
    ensures n < |t| ==> IsSpace(t[n])
    ensures t != [] && !IsSpace(t[0]) ==> n > 0
  {
    if t == [] || IsSpace(t[0]) then 0 else 1 + WordLength(t[1..])
  }

  /** `s.split()`: the maximal runs of non-space characters, in order. */
  function Words(s: string): (ws: seq<string>)
    decreases |s|
  {
    if s == [] then []
    else if IsSpace(s[0]) then Words(s[1..])
    else
      var n := WordLength(s);
      [s[..n]] + Words(s[n..])
  }

  /** A word without white space is one whole word of `split()`. */
  lemma {:induction false} WordLengthOfWord(t: string)
    requires forall i :: 0 <= i < |t| ==> !IsSpace(t[i])
    ensures WordLength(t) == |t|
    decreases |t|
  {
    if t != [] {
      WordLengthOfWord(t[1..]);
    }
  }

  lemma WordsOfWord(t: string)
    requires t != [] && forall i :: 0 <= i < |t| ==> !IsSpace(t[i])
    ensures Words(t) == [t]
  {
    WordLengthOfWord(t);
    assert t[..|t|] == t && t[|t|..] == [];
  }

  /** `str.lower()` restricted to ASCII letters. */
  function LowerChar(c: char): char
  {
    if 'A' <= c <= 'Z' then (c as int + 32) as char else c
  }

  function Lower(s: string): (r: string)
    ensures |r| == |s| && forall i :: 0 <= i < |s| ==> r[i] == LowerChar(s[i])
  {
    seq(|s|, i requires 0 <= i < |s| => LowerChar(s[i]))
  }

  predicate StartsWith(s: string, prefix: string)
  {
    |prefix| <= |s| && s[..|prefix|] == prefix
  }

  predicate EndsWith(s: string, suffix: string)
  {
    |suffix| <= |s| && s[|s| - |suffix|..] == suffix
  }

  predicate IsDigit(c: char) { '0' <= c <= '9' }

  predicate IsHexDigit(c: char) { IsDigit(c) || 'a' <= c <= 'f' || 'A' <= c <= 'F' }

  /** `s.isdigit()` on ASCII: at least one character, all of them digits. */
  predicate IsDigits(s: string)
  {
    |s| > 0 && forall i :: 0 <= i < |s| ==> IsDigit(s[i])
  }

  /** The value of one decimal or hexadecimal digit (0 for any other character). */
  function HexValue(c: char): (v: nat)
    ensures v < 16
    ensures IsDigit(c) ==> v < 10
  {
    if IsDigit(c) then c as int - '0' as int
    else if 'a' <= c <= 'f' then c as int - 'a' as int + 10
    else if 'A' <= c <= 'F' then c as int - 'A' as int + 10
    else 0
  }

  /**
   * Python's digit-group grammar for `int()`: digits with single underscores between them,
   * `digit ("_"? digit)*`, or `("_"? digit)+` after a base prefix (`leadingUnderscore`).
   */
  predicate WellGrouped(s: string, digit: char -> bool, leadingUnderscore: bool)
  {
    |s| > 0 && digit(s[|s| - 1]) && (leadingUnderscore || digit(s[0]))
    && (forall i :: 0 <= i < |s| ==> digit(s[i]) || s[i] == '_')
    && (forall i :: 0 <= i < |s| - 1 && s[i] == '_' ==> digit(s[i + 1]))
  }

  /** The value of a digit string in `base`, underscores skipped. */
  function DigitsValue(s: string, base: nat): nat
    decreases |s|
  {
    if s == [] then 0
    else if s[|s| - 1] == '_' then DigitsValue(s[..|s| - 1], base)
    else DigitsValue(s[..|s| - 1], base) * base + HexValue(s[|s| - 1])
  }

  /** An optional sign followed by a digit group in `base`, as `int()` reads it once white space is gone. */
  function ParseSigned(t: string, base: nat, digit: char -> bool, prefixed: bool): Option<int>
  {
    var signed := |t| > 0 && (t[0] == '-' || t[0] == '+');
    var u := if signed then t[1..] else t;
    var body := if prefixed && |u| >= 2 && u[0] == '0' && (u[1] == 'x' || u[1] == 'X') then u[2..] else u;
    if WellGrouped(body, digit, body != u) then
      var v: int := DigitsValue(body, base);
      Some(if signed && t[0] == '-' then -v else v)
    else None
  }

  /** Python's `int(s)`: surrounding white space, an optional sign, then a decimal digit group. */
  function ParseInt(s: string): Option<int>
  {
    ParseSigned(Strip(s), 10, IsDigit, false)
  }

  /** Python's `int(s, 16)`: as `ParseInt`, with hexadecimal digits and an optional `0x`/`0X` prefix. */
  function ParseHexInt(s: string): Option<int>
  {
    ParseSigned(Strip(s), 16, IsHexDigit, true)
  }

  /** `str(n)` for a natural number: decimal digits without leading zeros. */
  function NatToString(n: nat): (s: string)
    ensures IsDigits(s)
    ensures |s| > 1 ==> s[0] != '0'
    decreases n
  {
    var d := [('0' as int + n % 10) as char];
    if n < 10 then d else NatToString(n / 10) + d
  }

  /** `str(n)` for an integer. */
  function IntToString(n: int): string
  {
    if n < 0 then "-" + NatToString(-n) else NatToString(n)
  }

  lemma {:induction false} NatToStringValue(n: nat)
    ensures DigitsValue(NatToString(n), 10) == n
    decreases n
  {
    var s := NatToString(n);
    if n >= 10 {
      NatToStringValue(n / 10);
      assert s[..|s| - 1] == NatToString(n / 10);
    }
  }

  lemma ParseSignedUnsigned(t: string, base: nat, digit: char -> bool)
    requires WellGrouped(t, digit, false) && t[0] != '-' && t[0] != '+'
    ensures ParseSigned(t, base, digit, false) == Some(DigitsValue(t, base) as int)
  {
  }

  /** `int()` on an unsigned digit string without surrounding white space. */
  lemma ParseIntOfDigits(t: string)
    requires IsDigits(t)
    ensures ParseInt(t) == Some(DigitsValue(t, 10) as int)
  {
    assert WellGrouped(t, IsDigit, false) && t[0] != '-' && t[0] != '+';
    ParseSignedUnsigned(t, 10, IsDigit);
    StripTrimmed(t);
  }

  lemma ParseSignedNegative(t: string, base: nat, digit: char -> bool)
    requires |t| > 0 && t[0] == '-' && WellGrouped(t[1..], digit, false)
    ensures ParseSigned(t, base, digit, false) == Some(-(DigitsValue(t[1..], base) as int))
  {
  }

  /** `int()` on a minus sign followed by a digit string. */
  lemma ParseIntOfMinus(s: string)
    requires |s| >= 2 && s[0] == '-' && IsDigits(s[1..])
    ensures ParseInt(s) == Some(-(DigitsValue(s[1..], 10) as int))
  {
    assert s[|s| - 1] == s[1..][|s| - 2];
    assert WellGrouped(s[1..], IsDigit, false);
    ParseSignedNegative(s, 10, IsDigit);
    StripTrimmed(s);
  }

  lemma ParseIntOfNegative(t: string)
    requires IsDigits(t)
    ensures ParseInt("-" + t) == Some(-(DigitsValue(t, 10) as int))
  {
    var s := "-" + t;
    assert s[0] == '-' && s[1..] == t && s[|s| - 1] == t[|t| - 1];
    assert WellGrouped(t, IsDigit, false);
    ParseSignedNegative(s, 10, IsDigit);
    StripTrimmed(s);
  }

  /** `int(str(n)) == n` for every integer. */
  lemma ParseIntToString(n: int)
    ensures ParseInt(IntToString(n)) == Some(n)
  {
    if n < 0 {
      var m: nat := -n;
      var t := NatToString(m);
      assert IntToString(n) == "-" + t;
      NatToStringValue(m);
      ParseIntOfNegative(t);
    } else {
      var t := NatToString(n);
      assert IntToString(n) == t;
      NatToStringValue(n);
      ParseIntOfDigits(t);
    }
  }

  /** `str(n).lower() == str(n)`: printed integers hold no letters. */
  lemma LowerIntToString(n: int)
    ensures Lower(IntToString(n)) == IntToString(n)
  {
    var s := IntToString(n);
    assert forall i :: 0 <= i < |s| ==> s[i] == '-' || IsDigit(s[i]);
  }

  /** `str(n) == "1"` exactly for the integer 1. */
  lemma IntToStringIsOne(n: int)
    ensures IntToString(n) == "1" <==> n == 1
  {
    if n >= 10 {
      assert |NatToString(n)| == |NatToString(n / 10)| + 1;
    }
  }
}
