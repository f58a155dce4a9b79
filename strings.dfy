/**
 * The pieces of JavaScript's string library that the modelled code relies on:
 * `split` with a literal separator, `join`, `includes`, `startsWith`, ASCII
 * `toLowerCase`, `trim` and decimal rendering of integers.
 */
module Strings {

  /** `sub` occurs in `s` starting at index `i`. */
  predicate OccursAt(s: string, sub: string, i: int) {
    0 <= i && i + |sub| <= |s| && s[i..i + |sub|] == sub
  }

  /** `s.includes(sub)` */
  predicate Contains(s: string, sub: string) {
    exists i | 0 <= i <= |s| - |sub| :: OccursAt(s, sub, i)
  }

  /** `s.startsWith(prefix)` */
  predicate StartsWith(s: string, prefix: string) {
    |prefix| <= |s| && s[..|prefix|] == prefix
  }

  /**
   * `s.split(sep)` for a non-empty literal separator: the string is scanned
   * from the left, and every match found ends the current part; matches do
   * not overlap.
   */
  function Split(s: string, sep: string): (parts: seq<string>)
    requires sep != []
    ensures |parts| >= 1
    decreases |s|
  {
    if |s| < |sep| then [s]
    else if s[..|sep|] == sep then [""] + Split(s[|sep|..], sep)
    else
      var rest := Split(s[1..], sep);
      [[s[0]] + rest[0]] + rest[1..]
  }

  /** `parts.join(sep)` */
  function Join(parts: seq<string>, sep: string): string {
    if |parts| == 0 then ""
    else if |parts| == 1 then parts[0]
    else parts[0] + sep + Join(parts[1..], sep)
  }

  /** Joining after an empty first part puts the separator in front. */
  lemma JoinEmptyHead(rest: seq<string>, sep: string)
    requires |rest| >= 1
    ensures Join([""] + rest, sep) == sep + Join(rest, sep)
  {
    assert ([""] + rest)[1..] == rest;
  }

  /** Joining after a character is prepended to the first part puts the character in front. */
  lemma JoinPrepend(c: char, rest: seq<string>, sep: string)
    requires |rest| >= 1
    ensures Join([[c] + rest[0]] + rest[1..], sep) == [c] + Join(rest, sep)
  {
    var parts := [[c] + rest[0]] + rest[1..];
    if |rest| > 1 {
      assert parts[1..] == rest[1..];
    }
  }

  /** Joining the parts of a split with the same separator gives back the string. */
  lemma {:induction false} JoinSplit(s: string, sep: string)
    requires sep != []
    ensures Join(Split(s, sep), sep) == s
    decreases |s|
  {
    if |s| < |sep| {
    } else if s[..|sep|] == sep {
      var rest := Split(s[|sep|..], sep);
      assert Split(s, sep) == [""] + rest;
      JoinSplit(s[|sep|..], sep);
      JoinEmptyHead(rest, sep);
      assert s == sep + s[|sep|..];
    } else {
      var rest := Split(s[1..], sep);
      assert Split(s, sep) == [[s[0]] + rest[0]] + rest[1..];
      JoinSplit(s[1..], sep);
      JoinPrepend(s[0], rest, sep);
      assert s == [s[0]] + s[1..];
    }
  }

  /** A string in which the separator never occurs is not split. */
  lemma {:induction false} SplitWithoutSeparator(s: string, sep: string)
    requires sep != []
    requires forall j :: !OccursAt(s, sep, j)
    ensures Split(s, sep) == [s]
    decreases |s|
  {
    if |s| < |sep| {
    } else {
      assert !OccursAt(s, sep, 0);
      forall j ensures !OccursAt(s[1..], sep, j) {
        if OccursAt(s[1..], sep, j) {
          assert s[1..][j..j + |sep|] == s[j + 1..j + 1 + |sep|];
          assert OccursAt(s, sep, j + 1);
        }
      }
      SplitWithoutSeparator(s[1..], sep);
      assert [s[0]] + s[1..] == s;
    }
  }

  /**
   * When the leftmost occurrence of the separator is at `i`, the first part is
   * everything before it and the rest is the split of what follows it.
   */
  lemma {:induction false} SplitAtFirst(s: string, sep: string, i: nat)
    requires sep != []
    requires OccursAt(s, sep, i)
    requires forall j :: 0 <= j < i ==> !OccursAt(s, sep, j)
    ensures Split(s, sep) == [s[..i]] + Split(s[i + |sep|..], sep)
    decreases i
  {
    if i == 0 {
      assert s[..|sep|] == sep;
    } else {
      assert !OccursAt(s, sep, 0);
      var t := s[1..];
      assert OccursAt(t, sep, i - 1) by {
        assert t[i - 1..i - 1 + |sep|] == s[i..i + |sep|];
      }
      forall j | 0 <= j < i - 1 ensures !OccursAt(t, sep, j) {
        assert !OccursAt(s, sep, j + 1);
        if j + |sep| <= |t| {
          assert t[j..j + |sep|] == s[j + 1..j + 1 + |sep|];
        }
      }
      SplitAtFirst(t, sep, i - 1);
      assert t[i - 1 + |sep|..] == s[i + |sep|..];
      assert [s[0]] + t[..i - 1] == s[..i];
    }
  }

  /** No part of a split on a one-character separator contains that character. */
  lemma {:induction false} SplitPartsAvoidSeparator(s: string, c: char)
    ensures forall p | p in Split(s, [c]) :: c !in p
    decreases |s|
  {
    if |s| < 1 {
    } else if s[..1] == [c] {
      SplitPartsAvoidSeparator(s[1..], c);
    } else {
      SplitPartsAvoidSeparator(s[1..], c);
      var rest := Split(s[1..], [c]);
      assert rest[0] in rest;
      assert s[0] != c;
      forall p | p in [[s[0]] + rest[0]] + rest[1..] ensures c !in p {
        if p != [s[0]] + rest[0] {
          assert p in rest;
        }
      }
    }
  }

  /** Every part of a split is a run of characters of the string. */
  lemma {:induction false} SplitPartsInside(s: string, sep: string)
    requires sep != []
    ensures forall p, ch | p in Split(s, sep) && ch in p :: ch in s
    decreases |s|
  {
    if |s| < |sep| {
    } else if s[..|sep|] == sep {
      SplitPartsInside(s[|sep|..], sep);
      forall p, ch | p in Split(s, sep) && ch in p ensures ch in s {
        if p != "" {
          assert p in Split(s[|sep|..], sep);
          assert ch in s[|sep|..];
        }
      }
    } else {
      SplitPartsInside(s[1..], sep);
      var rest := Split(s[1..], sep);
      assert rest[0] in rest;
      forall p, ch | p in Split(s, sep) && ch in p ensures ch in s {
        if p == [s[0]] + rest[0] {
          if ch != s[0] {
            assert ch in rest[0];
            assert ch in s[1..];
          }
        } else {
          assert p in rest;
          assert ch in s[1..];
        }
      }
    }
  }

  /** `parts.filter(Boolean)` for strings: the non-empty parts, in order. */
  function NonEmpty(parts: seq<string>): (r: seq<string>)
    ensures forall p | p in r :: p != "" && p in parts
    ensures |r| <= |parts|
  {
    if parts == [] then []
    else if parts[0] == "" then NonEmpty(parts[1..])
    else [parts[0]] + NonEmpty(parts[1..])
  }

  /** ASCII `toLowerCase` of one character. */
  function LowerChar(c: char): char {
    if 'A' <= c <= 'Z' then (c as int + 32) as char else c
  }

  /** ASCII `toLowerCase` of a string. */
  function Lower(s: string): string {
    seq(|s|, i requires 0 <= i < |s| => LowerChar(s[i]))
  }

  /** The characters of JavaScript's WhiteSpace and LineTerminator classes (`\s`, `trim`). */
  predicate IsSpace(c: char) {
    c == '\t' || c == '\n' || c == '\U{000B}' || c == '\U{000C}' || c == '\r' || c == ' '
    || c == '\U{00A0}' || c == '\U{1680}' || ('\U{2000}' <= c <= '\U{200A}')
    || c == '\U{2028}' || c == '\U{2029}' || c == '\U{202F}' || c == '\U{205F}'
    || c == '\U{3000}' || c == '\U{FEFF}'
  }

  function TrimStart(s: string): (r: string)
    ensures |r| <= |s| && r == s[|s| - |r|..]
    ensures r == [] || !IsSpace(r[0])
  {
    if s != [] && IsSpace(s[0]) then TrimStart(s[1..]) else s
  }

  function TrimEnd(s: string): (r: string)
    ensures |r| <= |s| && r == s[..|r|]
    ensures r == [] || !IsSpace(r[|r| - 1])
  {
    if s != [] && IsSpace(s[|s| - 1]) then TrimEnd(s[..|s| - 1]) else s
  }

  /** `s.trim()`: the result neither starts nor ends with white space, and is a run of `s`. */
  function Trim(s: string): (r: string)
    ensures r == [] || (!IsSpace(r[0]) && !IsSpace(r[|r| - 1]))
    ensures forall i | 0 <= i < |r| :: r[i] in s
  {
    var t := TrimStart(s);
    var r := TrimEnd(t);
    assert forall i | 0 <= i < |r| :: r[i] == s[|s| - |t| + i];
    r
  }

  /**
   * `s.length`: the number of UTF-16 code units, two for a character outside
   * the Basic Multilingual Plane (a surrogate pair) and one for any other.
   * It is the number of characters exactly when all of them lie in that plane.
   */
  function Utf16Length(s: string): (n: nat)
    ensures |s| <= n <= 2 * |s|
    ensures n == |s| <==> forall i | 0 <= i < |s| :: s[i] as int < 0x1_0000
  {
    if s == [] then 0
    else
      var init := s[..|s| - 1];
      assert forall i | 0 <= i < |init| :: init[i] == s[i];
      Utf16Length(init) + (if s[|s| - 1] as int < 0x1_0000 then 1 else 2)
  }

  /** A text made only of characters outside the Basic Multilingual Plane has twice their number of code units. */
  lemma {:induction false} Utf16AllAstral(s: string)
    requires forall i | 0 <= i < |s| :: s[i] as int >= 0x1_0000
    ensures Utf16Length(s) == 2 * |s|
  {
    if s != [] {
      var init := s[..|s| - 1];
      assert forall i | 0 <= i < |init| :: init[i] == s[i];
      Utf16AllAstral(init);
    }
  }

  predicate IsDigit(c: char) {
    '0' <= c <= '9'
  }

  function DigitChar(d: nat): (c: char)
    requires d < 10
    ensures IsDigit(c) && c as int - '0' as int == d
  {
    (d + '0' as int) as char
  }

  /** `String(n)` for a non-negative integer. */
  function NatToString(n: nat): (r: string)
    ensures r != [] && forall c | c in r :: IsDigit(c)
  {
    if n < 10 then [DigitChar(n)] else NatToString(n / 10) + [DigitChar(n % 10)]
  }

  /** `String(n)` for an integer. */
  function IntToString(n: int): string {
    if n < 0 then "-" + NatToString(-n) else NatToString(n)
  }

  /** The value of a string of decimal digits. */
  function DigitsValue(s: string): nat
    requires forall c | c in s :: IsDigit(c)
  {
    if s == [] then 0
    else
      assert IsDigit(s[|s| - 1]) by { assert s[|s| - 1] in s; }
      DigitsValue(s[..|s| - 1]) * 10 + (s[|s| - 1] as int - '0' as int)
  }

  /** Rendering a natural number in decimal loses nothing: reading the digits back gives it. */
  lemma {:induction false} NatToStringRoundTrip(n: nat)
    ensures DigitsValue(NatToString(n)) == n
  {
    if n >= 10 {
      NatToStringRoundTrip(n / 10);
      var s := NatToString(n);
      assert s[..|s| - 1] == NatToString(n / 10);
    }
  }
}
