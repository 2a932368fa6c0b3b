/**
  The handful of JavaScript string operations the application relies on
  (`split`, `startsWith`, `replace` with a string pattern, `trim`,
  number-to-string interpolation and `toUpperCase`), written over Dafny
  strings (sequences of Unicode scalar values).
 */
module Strings {
  import opened Wrappers

  /** Number of occurrences of `c` in `s`. */
  function Count(s: string, c: char): (n: nat)
    decreases |s|
  {
    if |s| == 0 then 0 else (if s[0] == c then 1 else 0) + Count(s[1..], c)
  }

  // ---------------------------------------------------------------------------
  // String.prototype.split with a one-character separator
  // ---------------------------------------------------------------------------

  /** `s.split(sep)`: the maximal separator-free pieces between separators, in order. */
  function Split(s: string, sep: char): (parts: seq<string>)
    ensures |parts| >= 1
    decreases |s|
  {
    if |s| == 0 then [""]
    else
      var rest := Split(s[1..], sep);
      if s[0] == sep then [""] + rest
      else [[s[0]] + rest[0]] + rest[1..]
  }

  /** `parts.join(sep)`. */
  function Join(parts: seq<string>, sep: char): (joined: string)
    decreases |parts|
  {
    if |parts| == 0 then ""
    else if |parts| == 1 then parts[0]
    else parts[0] + [sep] + Join(parts[1..], sep)
  }

  /** Splitting yields one piece more than there are separators. */
  lemma {:induction false} SplitLength(s: string, sep: char)
    ensures |Split(s, sep)| == Count(s, sep) + 1
    decreases |s|
  {
    if |s| > 0 {
      SplitLength(s[1..], sep);
    }
  }

  /** No piece of a split contains the separator. */
  lemma {:induction false} SplitPiecesFree(s: string, sep: char)
    ensures forall k :: 0 <= k < |Split(s, sep)| ==> sep !in Split(s, sep)[k]
    decreases |s|
  {
    if |s| > 0 {
      SplitPiecesFree(s[1..], sep);
      var rest := Split(s[1..], sep);
      if s[0] != sep {
        assert sep !in [s[0]] + rest[0];
      }
    }
  }

  /** Joining the pieces with the separator gives back the original string. */
  lemma {:induction false} JoinSplit(s: string, sep: char)
    ensures Join(Split(s, sep), sep) == s
    decreases |s|
  {
    if |s| > 0 {
      JoinSplit(s[1..], sep);
      var rest := Split(s[1..], sep);
      if s[0] == sep {
        if |rest| == 1 {
          assert Join([""] + rest, sep) == "" + [sep] + rest[0];
        } else {
          assert ([""] + rest)[1..] == rest;
        }
      } else {
        var first := [s[0]] + rest[0];
        if |rest| == 1 {
          assert Join([first] + rest[1..], sep) == first;
        } else {
          assert ([first] + rest[1..])[1..] == rest[1..];
          assert Join(rest, sep) == rest[0] + [sep] + Join(rest[1..], sep);
        }
      }
      assert s == [s[0]] + s[1..];
    }
  }

  /** A string without the separator splits into itself alone. */
  lemma {:induction false} SplitWithoutSeparator(s: string, sep: char)
    requires sep !in s
    ensures Split(s, sep) == [s]
    decreases |s|
  {
    if |s| > 0 {
      SplitWithoutSeparator(s[1..], sep);
      assert s == [s[0]] + s[1..];
    }
  }

  /** The text before the first separator is the first piece; the rest is split on its own. */
  lemma {:induction false} SplitAtFirst(a: string, sep: char, b: string)
    requires sep !in a
    ensures Split(a + [sep] + b, sep) == [a] + Split(b, sep)
    decreases |a|
  {
    if |a| == 0 {
      assert a + [sep] + b == [sep] + b;
      assert ([sep] + b)[1..] == b;
    } else {
      assert (a + [sep] + b)[1..] == a[1..] + [sep] + b;
      SplitAtFirst(a[1..], sep, b);
      assert a == [a[0]] + a[1..];
    }
  }

  /** Splitting a join of separator-free pieces gives the pieces back. */
  lemma {:induction false} SplitJoin(parts: seq<string>, sep: char)
    requires |parts| >= 1
    requires forall k :: 0 <= k < |parts| ==> sep !in parts[k]
    ensures Split(Join(parts, sep), sep) == parts
    decreases |parts|
  {
    if |parts| == 1 {
      SplitWithoutSeparator(parts[0], sep);
    } else {
      SplitJoin(parts[1..], sep);
      SplitAtFirst(parts[0], sep, Join(parts[1..], sep));
    }
  }

  // ---------------------------------------------------------------------------
  // startsWith, indexOf and replace with a string pattern
  // ---------------------------------------------------------------------------

  predicate StartsWith(s: string, prefix: string) {
    |prefix| <= |s| && s[..|prefix|] == prefix
  }

  predicate OccursAt(s: string, pattern: string, i: nat) {
    i + |pattern| <= |s| && s[i..i + |pattern|] == pattern
  }

  /** `s.indexOf(pattern, from)`, or None where JavaScript gives -1. */
  function IndexOfFrom(s: string, pattern: string, from: nat): (r: Option<nat>)
    ensures r.Some? ==> from <= r.value && OccursAt(s, pattern, r.value)
    ensures r.Some? ==> forall j :: from <= j < r.value ==> !OccursAt(s, pattern, j)
    ensures r.None? ==> forall j :: from <= j ==> !OccursAt(s, pattern, j)
    decreases |s| - from
  {
    if from + |pattern| > |s| then None
    else if OccursAt(s, pattern, from) then Some(from)
    else IndexOfFrom(s, pattern, from + 1)
  }

  /** `s.replace(pattern, replacement)` for a string pattern: only the first occurrence is replaced. */
  function ReplaceFirst(s: string, pattern: string, replacement: string): (replaced: string) {
    match IndexOfFrom(s, pattern, 0)
    case None => s
    case Some(i) => s[..i] + replacement + s[i + |pattern|..]
  }

  /** Replacing the prefix a string starts with by nothing strips that prefix. */
  lemma ReplaceLeadingPrefix(s: string, prefix: string)
    requires StartsWith(s, prefix)
    ensures ReplaceFirst(s, prefix, "") == s[|prefix|..]
  {
    assert OccursAt(s, prefix, 0);
  }

  // ---------------------------------------------------------------------------
  // trim
  // ---------------------------------------------------------------------------

  /** The characters `String.prototype.trim` removes: WhiteSpace and LineTerminator of ECMA-262. */
  predicate IsJsWhitespace(c: char) {
    c == '\t' || c == '\n' || c == '\U{000B}' || c == '\U{000C}' || c == '\r' || c == ' '
    || c == '\U{00A0}' || c == '\U{1680}' || ('\U{2000}' <= c <= '\U{200A}')
    || c == '\U{2028}' || c == '\U{2029}' || c == '\U{202F}' || c == '\U{205F}'
    || c == '\U{3000}' || c == '\U{FEFF}'
  }

  function TrimStart(s: string): (r: string)
    decreases |s|
  {
    if |s| > 0 && IsJsWhitespace(s[0]) then TrimStart(s[1..]) else s
  }

  function TrimEnd(s: string): (r: string)
    decreases |s|
  {
    if |s| > 0 && IsJsWhitespace(s[|s| - 1]) then TrimEnd(s[..|s| - 1]) else s
  }

  /** `s.trim()`. */
  function Trim(s: string): (trimmed: string) {
    TrimEnd(TrimStart(s))
  }

  predicate AllWhitespace(s: string) {
    forall k :: 0 <= k < |s| ==> IsJsWhitespace(s[k])
  }

  lemma {:induction false} TrimStartEmpty(s: string)
    ensures TrimStart(s) == "" <==> AllWhitespace(s)
    decreases |s|
  {
    if |s| > 0 {
      TrimStartEmpty(s[1..]);
      if IsJsWhitespace(s[0]) {
        assert AllWhitespace(s) <==> AllWhitespace(s[1..]) by {
          if AllWhitespace(s[1..]) {
            forall k | 0 <= k < |s| ensures IsJsWhitespace(s[k]) {
              if k > 0 { assert s[k] == s[1..][k - 1]; }
            }
          }
        }
      }
    }
  }

  lemma {:induction false} TrimEndEmpty(s: string)
    ensures TrimEnd(s) == "" <==> AllWhitespace(s)
    decreases |s|
  {
    if |s| > 0 {
      var init := s[..|s| - 1];
      TrimEndEmpty(init);
      if IsJsWhitespace(s[|s| - 1]) {
        assert AllWhitespace(s) <==> AllWhitespace(init) by {
          if AllWhitespace(init) {
            forall k | 0 <= k < |s| ensures IsJsWhitespace(s[k]) {
              if k < |s| - 1 { assert s[k] == init[k]; }
            }
          }
        }
      }
    }
  }

  /** `s.trim() === ''` holds exactly for strings made only of whitespace. */
  lemma TrimEmpty(s: string)
    ensures Trim(s) == "" <==> AllWhitespace(s)
  {
    TrimStartEmpty(s);
    TrimEndEmpty(TrimStart(s));
    if AllWhitespace(s) {
      assert TrimStart(s) == "";
    } else {
      TrimStartKeepsSuffix(s);
      assert !AllWhitespace(TrimStart(s));
    }
  }

  lemma {:induction false} TrimStartKeepsSuffix(s: string)
    ensures |TrimStart(s)| <= |s| && TrimStart(s) == s[|s| - |TrimStart(s)|..]
    ensures TrimStart(s) == "" || !IsJsWhitespace(TrimStart(s)[0])
    decreases |s|
  {
    if |s| > 0 && IsJsWhitespace(s[0]) {
      TrimStartKeepsSuffix(s[1..]);
    }
  }

  // ---------------------------------------------------------------------------
  // Number interpolation: `${n}` for a non-negative integer
  // ---------------------------------------------------------------------------

  predicate IsDigit(c: char) { '0' <= c <= '9' }

  function DigitChar(d: nat): (c: char)
    requires d < 10
    ensures IsDigit(c)
  {
    ['0', '1', '2', '3', '4', '5', '6', '7', '8', '9'][d]
  }

  function DigitValue(c: char): (d: nat)
    requires IsDigit(c)
  {
    c as int - '0' as int
  }

  /** Decimal rendering of `n` with no leading zeros, as template literals print it. */
  function NatToString(n: nat): (s: string)
    ensures |s| >= 1
    ensures forall k :: 0 <= k < |s| ==> IsDigit(s[k])
    decreases n
  {
    if n < 10 then [DigitChar(n)] else NatToString(n / 10) + [DigitChar(n % 10)]
  }

  /** Value of a string of decimal digits. */
  function DigitsValue(s: string): (value: nat)
    requires forall k :: 0 <= k < |s| ==> IsDigit(s[k])
    decreases |s|
  {
    if |s| == 0 then 0 else DigitsValue(s[..|s| - 1]) * 10 + DigitValue(s[|s| - 1])
  }

  /** Reading the digits back gives the number: the rendering loses nothing. */
  lemma {:induction false} NatToStringValue(n: nat)
    ensures DigitsValue(NatToString(n)) == n
    decreases n
  {
    var s := NatToString(n);
    if n < 10 {
      assert DigitValue(DigitChar(n)) == n;
    } else {
      NatToStringValue(n / 10);
      assert s[..|s| - 1] == NatToString(n / 10);
      assert DigitValue(DigitChar(n % 10)) == n % 10;
    }
  }

  /** Distinct numbers are printed differently. */
  lemma NatToStringInjective(m: nat, n: nat)
    requires NatToString(m) == NatToString(n)
    ensures m == n
  {
    NatToStringValue(m);
    NatToStringValue(n);
  }

  // ---------------------------------------------------------------------------
  // toUpperCase
  // ---------------------------------------------------------------------------

  /** Upper-case mapping of one character for ASCII and Latin-1 (the letters of Spanish included). */
  function UpperChar(c: char): (r: string)
    ensures |r| >= 1
  {
    if 'a' <= c <= 'z' then [(c as int - 32) as char]
    else if ('\U{00E0}' <= c <= '\U{00FE}') && c != '\U{00F7}' then [(c as int - 32) as char]
    else if c == '\U{00DF}' then "SS"
    else if c == '\U{00FF}' then ['\U{0178}']
    else if c == '\U{00B5}' then ['\U{039C}']
    else [c]
  }

  /** `s.toUpperCase()`, character by character (the sharp s expands to two letters). */
  function ToUpperCase(s: string): (upper: string)
    decreases |s|
  {
    if |s| == 0 then "" else UpperChar(s[0]) + ToUpperCase(s[1..])
  }

  lemma {:induction false} ToUpperCaseLength(s: string)
    ensures |ToUpperCase(s)| == |s| + Count(s, '\U{00DF}')
    decreases |s|
  {
    if |s| > 0 {
      ToUpperCaseLength(s[1..]);
    }
  }

}
