/** Option, the usual Some/None wrapper. */
module Wrappers {
  datatype Option<+T> = None | Some(value: T)
}

/**
 * The few string operations the converter relies on: JavaScript's
 * parseInt on decimal text, rendering a number as decimal text,
 * suffix tests, searching for the last occurrence of a character, and
 * joining and splitting text on line breaks.
 */
module Text {
  import opened Wrappers

  predicate IsDigit(c: char) {
    '0' <= c <= '9'
  }

  predicate AllDigits(s: string) {
    forall i :: 0 <= i < |s| ==> IsDigit(s[i])
  }

  function DigitChar(n: nat): (c: char)
    requires n < 10
    ensures IsDigit(c)
  {
    ('0' as int + n) as char
  }

  function DigitValue(c: char): (n: nat)
    requires IsDigit(c)
    ensures n < 10 && DigitChar(n) == c
  {
    c as int - '0' as int
  }

  /** The longest prefix of `s` made only of decimal digits. */
  function LeadingDigits(s: string): (d: string)
    ensures d <= s && AllDigits(d)
    ensures |d| < |s| ==> !IsDigit(s[|d|])
  {
    if s == [] || !IsDigit(s[0]) then [] else [s[0]] + LeadingDigits(s[1..])
  }

  /** The number a non-empty run of decimal digits denotes. */
  function DigitsValue(d: string): nat
    requires AllDigits(d)
  {
    if d == [] then 0 else 10 * DigitsValue(d[..|d| - 1]) + DigitValue(d[|d| - 1])
  }

  /**
   * JavaScript's parseInt on decimal text: the value of the leading run of
   * digits, or None where JavaScript yields NaN (no leading digit).
   */
  function ParseInt(s: string): (r: Option<nat>)
    ensures r.None? <==> s == [] || !IsDigit(s[0])
  {
    var d := LeadingDigits(s);
    if d == [] then None else Some(DigitsValue(d))
  }

  /** Decimal text of a natural number, without leading zeros. */
  function NatToString(n: nat): (s: string)
    ensures s != [] && AllDigits(s)
    ensures |s| > 1 ==> s[0] != '0'
  {
    if n < 10 then [DigitChar(n)] else NatToString(n / 10) + [DigitChar(n % 10)]
  }

  lemma {:induction false} DigitsValueOfNatToString(n: nat)
    ensures DigitsValue(NatToString(n)) == n
  {
    var s := NatToString(n);
    if n >= 10 {
      DigitsValueOfNatToString(n / 10);
      assert s[..|s| - 1] == NatToString(n / 10);
    }
  }

  /** Distinct numbers have distinct decimal texts. */
  lemma NatToStringInjective(m: nat, n: nat)
    ensures NatToString(m) == NatToString(n) <==> m == n
  {
    DigitsValueOfNatToString(m);
    DigitsValueOfNatToString(n);
  }

  /** Digits followed by text that does not start with a digit: the digits are the leading run. */
  lemma {:induction false} LeadingDigitsOfDigitsThen(d: string, rest: string)
    requires AllDigits(d)
    requires rest == [] || !IsDigit(rest[0])
    ensures LeadingDigits(d + rest) == d
  {
    if d == [] {
      assert d + rest == rest;
    } else {
      LeadingDigitsOfDigitsThen(d[1..], rest);
      assert (d + rest)[1..] == d[1..] + rest;
      assert [d[0]] + d[1..] == d;
    }
  }

  /**
   * parseInt reads back what NatToString renders, also when text such as a
   * unit suffix follows: parseInt("150k") is 150.
   */
  lemma ParseIntNatToString(n: nat, rest: string)
    requires rest == [] || !IsDigit(rest[0])
    ensures ParseInt(NatToString(n) + rest) == Some(n)
  {
    LeadingDigitsOfDigitsThen(NatToString(n), rest);
    DigitsValueOfNatToString(n);
  }

  /** Index of the last occurrence of `c` in `s`, if any. */
  function LastIndexOf(s: string, c: char): (r: Option<nat>)
    ensures r.None? <==> c !in s
    ensures r.Some? ==> r.value < |s| && s[r.value] == c && c !in s[r.value + 1..]
  {
    if s == [] then None
    else if s[|s| - 1] == c then Some(|s| - 1)
    else
      var r := LastIndexOf(s[..|s| - 1], c);
      assert s == s[..|s| - 1] + [s[|s| - 1]];
      if r.Some? then assert s[r.value + 1..] == s[..|s| - 1][r.value + 1..] + [s[|s| - 1]]; r
      else r
  }

  /** The last `c` is the one placed before text that holds none. */
  lemma {:induction false} LastIndexOfAfter(a: string, c: char, b: string)
    requires c !in b
    ensures LastIndexOf(a + [c] + b, c) == Some(|a|)
  {
    var s := a + [c] + b;
    if b != [] {
      var front := b[..|b| - 1];
      assert b == front + [b[|b| - 1]];
      assert c !in front;
      LastIndexOfAfter(a, c, front);
      assert s[..|s| - 1] == a + [c] + front;
      assert s[|s| - 1] == b[|b| - 1] != c;
    }
  }

  /** JavaScript's String.prototype.endsWith. */
  predicate EndsWith(s: string, suffix: string) {
    |suffix| <= |s| && s[|s| - |suffix|..] == suffix
  }

  /** The text from position `d` on, when no `c` follows that position. */
  lemma SuffixFrom(s: string, d: nat, c: char)
    requires d < |s| && c !in s[d + 1..]
    ensures EndsWith(s, s[d..])
    ensures c !in s[d..][1..]
  {
    assert s[d..][1..] == s[d + 1..];
  }

  /** The text before a suffix, which lacks whatever the whole text lacks. */
  lemma SplitBeforeSuffix(s: string, suffix: string, c: char)
    requires EndsWith(s, suffix) && c !in s
    ensures s[..|s| - |suffix|] + suffix == s
    ensures c !in s[..|s| - |suffix|]
  {
    var front := s[..|s| - |suffix|];
    assert s == front + s[|s| - |suffix|..];
    forall i | 0 <= i < |front|
      ensures front[i] != c
    {
      assert front[i] == s[i];
    }
  }

  /** A character missing from a text is missing from each of its suffixes. */
  lemma NotInSuffix(s: string, suffix: string, c: char)
    requires EndsWith(s, suffix) && c !in s
    ensures c !in suffix
  {
    forall i | 0 <= i < |suffix|
      ensures suffix[i] != c
    {
      assert suffix[i] == s[|s| - |suffix| + i];
    }
  }

  /** JavaScript's Array.prototype.join("\n") over lines. */
  function JoinLines(lines: seq<string>): string {
    if |lines| == 0 then ""
    else if |lines| == 1 then lines[0]
    else lines[0] + "\n" + JoinLines(lines[1..])
  }

  /** JavaScript's String.prototype.split("\n"): always at least one piece. */
  function SplitLines(s: string): (lines: seq<string>)
    ensures |lines| >= 1
  {
    if s == [] then [""]
    else
      var rest := SplitLines(s[1..]);
      if s[0] == '\n' then [""] + rest else [[s[0]] + rest[0]] + rest[1..]
  }

  predicate NoLineBreak(s: string) {
    '\n' !in s
  }

  lemma {:induction false} SplitLinesSingle(a: string)
    requires NoLineBreak(a)
    ensures SplitLines(a) == [a]
  {
    if a != [] {
      SplitLinesSingle(a[1..]);
      assert [a[0]] + a[1..] == a;
    }
  }

  lemma {:induction false} SplitLinesAfter(a: string, b: string)
    requires NoLineBreak(a)
    ensures SplitLines(a + "\n" + b) == [a] + SplitLines(b)
  {
    if a == [] {
      assert a + "\n" + b == "\n" + b;
      assert ("\n" + b)[1..] == b;
    } else {
      SplitLinesAfter(a[1..], b);
      assert (a + "\n" + b)[1..] == a[1..] + "\n" + b;
      assert [a[0]] + a[1..] == a;
    }
  }

  /** Splitting joined lines gives the lines back when none holds a line break. */
  lemma {:induction false} SplitJoinLines(lines: seq<string>)
    requires |lines| >= 1
    requires forall i :: 0 <= i < |lines| ==> NoLineBreak(lines[i])
    ensures SplitLines(JoinLines(lines)) == lines
  {
    if |lines| == 1 {
      SplitLinesSingle(lines[0]);
    } else {
      SplitJoinLines(lines[1..]);
      SplitLinesAfter(lines[0], JoinLines(lines[1..]));
      assert [lines[0]] + lines[1..] == lines;
    }
  }

  /** Joining the pieces of a split gives the text back. */
  lemma {:induction false} JoinSplitLines(s: string)
    ensures JoinLines(SplitLines(s)) == s
  {
    if s != [] {
      JoinSplitLines(s[1..]);
      var rest := SplitLines(s[1..]);
      if s[0] == '\n' {
        assert JoinLines([""] + rest) == "" + "\n" + JoinLines(rest);
        assert s == "\n" + s[1..];
      } else {
        var pieces := [[s[0]] + rest[0]] + rest[1..];
        assert pieces[1..] == rest[1..];
        if |rest| == 1 {
          assert JoinLines(pieces) == [s[0]] + rest[0];
        } else {
          assert JoinLines(rest) == rest[0] + "\n" + JoinLines(rest[1..]);
          assert JoinLines(pieces) == [s[0]] + rest[0] + "\n" + JoinLines(rest[1..]);
        }
        assert s == [s[0]] + s[1..];
      }
    }
  }

  /** The lines a0, b0, a1, b1, ... */
  function Interleave(a: seq<string>, b: seq<string>): (lines: seq<string>)
    requires |a| == |b|
    ensures |lines| == 2 * |a|
    ensures forall i :: 0 <= i < |a| ==> lines[2 * i] == a[i] && lines[2 * i + 1] == b[i]
  {
    if a == [] then []
    else
      var rest := Interleave(a[1..], b[1..]);
      InterleaveStep(a, b, rest);
      [a[0], b[0]] + rest
  }

  lemma InterleaveStep(a: seq<string>, b: seq<string>, rest: seq<string>)
    requires |a| == |b| > 0 && |rest| == 2 * (|a| - 1)
    requires forall i :: 0 <= i < |a| - 1 ==> rest[2 * i] == a[1..][i] && rest[2 * i + 1] == b[1..][i]
    ensures forall i :: 0 <= i < |a| ==> ([a[0], b[0]] + rest)[2 * i] == a[i] && ([a[0], b[0]] + rest)[2 * i + 1] == b[i]
  {
    var lines := [a[0], b[0]] + rest;
    forall i | 0 <= i < |a|
      ensures lines[2 * i] == a[i] && lines[2 * i + 1] == b[i]
    {
      if i > 0 {
        assert lines[2 * i] == rest[2 * (i - 1)] && lines[2 * i + 1] == rest[2 * (i - 1) + 1];
        assert a[1..][i - 1] == a[i] && b[1..][i - 1] == b[i];
      }
    }
  }

  /** Interleaving lines without line breaks gives lines without line breaks. */
  lemma {:induction false} InterleaveNoLineBreak(a: seq<string>, b: seq<string>)
    requires |a| == |b|
    requires forall i :: 0 <= i < |a| ==> NoLineBreak(a[i]) && NoLineBreak(b[i])
    ensures forall j :: 0 <= j < |Interleave(a, b)| ==> NoLineBreak(Interleave(a, b)[j])
  {
    if a != [] {
      InterleaveNoLineBreak(a[1..], b[1..]);
      var rest := Interleave(a[1..], b[1..]);
      assert Interleave(a, b) == [a[0], b[0]] + rest;
      forall j | 0 <= j < |Interleave(a, b)|
        ensures NoLineBreak(Interleave(a, b)[j])
      {
        if j >= 2 {
          assert Interleave(a, b)[j] == rest[j - 2];
        }
      }
    }
  }

  /** The two-line strings a0 + "\n" + b0, a1 + "\n" + b1, ... */
  function PairUp(a: seq<string>, b: seq<string>): (pairs: seq<string>)
    requires |a| == |b|
    ensures |pairs| == |a|
    ensures forall i :: 0 <= i < |a| ==> pairs[i] == a[i] + "\n" + b[i]
  {
    seq(|a|, i requires 0 <= i < |a| => a[i] + "\n" + b[i])
  }

  lemma JoinLinesCons(a: string, rest: seq<string>)
    requires rest != []
    ensures JoinLines([a] + rest) == a + "\n" + JoinLines(rest)
  {
    assert ([a] + rest)[1..] == rest;
  }

  lemma JoinLinesCons2(a: string, b: string, rest: seq<string>)
    requires rest != []
    ensures a + "\n" + b + "\n" + JoinLines(rest) == JoinLines([a, b] + rest)
  {
    JoinLinesCons(b, rest);
    JoinLinesCons(a, [b] + rest);
    assert [a, b] + rest == [a] + ([b] + rest);
  }

  /** Joining two-line pairs gives the same text as joining their lines one by one. */
  lemma {:induction false} JoinPairUp(a: seq<string>, b: seq<string>)
    requires |a| == |b| >= 1
    ensures JoinLines(PairUp(a, b)) == JoinLines(Interleave(a, b))
  {
    var pairs, lines := PairUp(a, b), Interleave(a, b);
    if |a| == 1 {
      assert lines == [a[0]] + [b[0]];
      JoinLinesCons(a[0], [b[0]]);
    } else {
      JoinPairUp(a[1..], b[1..]);
      var restLines := Interleave(a[1..], b[1..]);
      assert pairs == [a[0] + "\n" + b[0]] + PairUp(a[1..], b[1..]);
      JoinLinesCons(a[0] + "\n" + b[0], PairUp(a[1..], b[1..]));
      assert lines == [a[0]] + ([b[0]] + restLines);
      JoinLinesCons(a[0], [b[0]] + restLines);
      JoinLinesCons(b[0], restLines);
    }
  }
}
