/** Character-level stand-ins for the Python string built-ins (`str.lower`, `str.replace`,
    `str.split`, `str.join`, `str(int)`, `int(str)`) and for the character classes `\d` and
    `\s` of the regular expressions the import scripts use. */
module Strings {
  import opened Wrappers

  /** `\d`, restricted to the ASCII digits. */
  predicate IsDigit(c: char) { '0' <= c <= '9' }

  predicate AllDigits(s: string) { forall i :: 0 <= i < |s| ==> IsDigit(s[i]) }

  /** Python's `str.isspace`, which is also the class `\s` matches in a str pattern. */
  predicate IsSpace(c: char) {
    || c == ' ' || '\t' <= c <= '\r' || '\U{1c}' <= c <= '\U{1f}'
    || c == '\U{85}' || c == '\U{a0}' || c == '\U{1680}' || '\U{2000}' <= c <= '\U{200a}'
    || c == '\U{2028}' || c == '\U{2029}' || c == '\U{202f}' || c == '\U{205f}' || c == '\U{3000}'
  }

  predicate AllSpaces(s: string) { forall i :: 0 <= i < |s| ==> IsSpace(s[i]) }

  /** Length of the longest run of digits in `s` from index `i` on (what a greedy `\d*`
      consumes there). */
  function DigitRun(s: string, i: nat): (n: nat)
    requires i <= |s|
    ensures i + n <= |s|
    ensures i + n < |s| ==> !IsDigit(s[i + n])
    decreases |s| - i
  {
    if i == |s| || !IsDigit(s[i]) then 0 else 1 + DigitRun(s, i + 1)
  }

  /** Length of the longest run of whitespace in `s` from index `i` on (what a greedy `\s*`
      consumes there). */
  function SpaceRun(s: string, i: nat): (n: nat)
    requires i <= |s|
    ensures i + n <= |s|
    ensures i + n < |s| ==> !IsSpace(s[i + n])
    decreases |s| - i
  {
    if i == |s| || !IsSpace(s[i]) then 0 else 1 + SpaceRun(s, i + 1)
  }

  /** Everything the digit run covers is a digit. */
  lemma {:induction false} DigitRunDigits(s: string, i: nat)
    requires i <= |s|
    ensures forall j :: i <= j < i + DigitRun(s, i) ==> IsDigit(s[j])
    decreases |s| - i
  {
    if i < |s| && IsDigit(s[i]) {
      DigitRunDigits(s, i + 1);
    }
  }

  /** Everything the whitespace run covers is whitespace. */
  lemma {:induction false} SpaceRunSpaces(s: string, i: nat)
    requires i <= |s|
    ensures forall j :: i <= j < i + SpaceRun(s, i) ==> IsSpace(s[j])
    decreases |s| - i
  {
    if i < |s| && IsSpace(s[i]) {
      SpaceRunSpaces(s, i + 1);
    }
  }

  /** `s` holds `n` digits from `i` on, followed by a non-digit or by the end of `s`. */
  predicate IsDigitRun(s: string, i: nat, n: nat) {
    && i + n <= |s|
    && (forall j :: i <= j < i + n ==> IsDigit(s[j]))
    && (i + n == |s| || !IsDigit(s[i + n]))
  }

  /** `s` holds `n` whitespace characters from `i` on, followed by something else or by the
      end of `s`. */
  predicate IsSpaceRun(s: string, i: nat, n: nat) {
    && i + n <= |s|
    && (forall j :: i <= j < i + n ==> IsSpace(s[j]))
    && (i + n == |s| || !IsSpace(s[i + n]))
  }

  /** A maximal run of `n` digits from `i` is the digit run there. */
  lemma {:induction false} DigitRunIs(s: string, i: nat, n: nat)
    requires IsDigitRun(s, i, n)
    ensures DigitRun(s, i) == n
    decreases n
  {
    if n > 0 {
      DigitRunIs(s, i + 1, n - 1);
    }
  }

  /** A maximal run of `n` whitespace characters from `i` is the whitespace run there. */
  lemma {:induction false} SpaceRunIs(s: string, i: nat, n: nat)
    requires IsSpaceRun(s, i, n)
    ensures SpaceRun(s, i) == n
    decreases n
  {
    if n > 0 {
      SpaceRunIs(s, i + 1, n - 1);
    }
  }

  /** Runs do not depend on what comes before their start. */
  lemma {:induction false} DigitRunShift(s: string, k: nat, i: nat)
    requires k + i <= |s|
    ensures DigitRun(s[k..], i) == DigitRun(s, k + i)
  {
    var t := s[k..];
    var n := DigitRun(s, k + i);
    DigitRunDigits(s, k + i);
    assert forall j :: i <= j < i + n ==> t[j] == s[k + j];
    assert i + n < |t| ==> t[i + n] == s[k + i + n];
    DigitRunIs(t, i, n);
  }

  lemma {:induction false} SpaceRunShift(s: string, k: nat, i: nat)
    requires k + i <= |s|
    ensures SpaceRun(s[k..], i) == SpaceRun(s, k + i)
  {
    var t := s[k..];
    var n := SpaceRun(s, k + i);
    SpaceRunSpaces(s, k + i);
    assert forall j :: i <= j < i + n ==> t[j] == s[k + j];
    assert i + n < |t| ==> t[i + n] == s[k + i + n];
    SpaceRunIs(t, i, n);
  }

  predicate StartsWith(s: string, prefix: string) { prefix <= s }

  predicate EndsWith(s: string, suffix: string) {
    |suffix| <= |s| && s[|s| - |suffix|..] == suffix
  }

  function LowerChar(c: char): char {
    if 'A' <= c <= 'Z' then (c as int + 32) as char else c
  }

  /** `str.lower`, restricted to the ASCII letters. */
  function Lower(s: string): (r: string)
    ensures |r| == |s|
    ensures forall i :: 0 <= i < |s| ==> r[i] == LowerChar(s[i])
  {
    seq(|s|, i requires 0 <= i < |s| => LowerChar(s[i]))
  }

  /** `s.replace(from, to)` for one-character `from` and `to`. */
  function ReplaceChar(s: string, from: char, to: char): (r: string)
    ensures |r| == |s|
    ensures forall i :: 0 <= i < |s| ==> r[i] == if s[i] == from then to else s[i]
  {
    seq(|s|, i requires 0 <= i < |s| => if s[i] == from then to else s[i])
  }

  /** `s.replace(c, "")`: every occurrence of `c` removed, the rest kept in order. */
  function RemoveChar(s: string, c: char): (r: string)
    ensures |r| <= |s|
    ensures forall i :: 0 <= i < |r| ==> r[i] != c
    ensures (forall i :: 0 <= i < |s| ==> s[i] != c) ==> r == s
  {
    if s == [] then []
    else if s[0] == c then RemoveChar(s[1..], c)
    else [s[0]] + RemoveChar(s[1..], c)
  }

  /** Index of the first occurrence of `c` in `s` (`str.find` when it is not -1). */
  function IndexOf(s: string, c: char): (r: Option<nat>)
    ensures r.Some? ==> r.value < |s| && s[r.value] == c && forall j :: 0 <= j < r.value ==> s[j] != c
    ensures r.None? ==> forall j :: 0 <= j < |s| ==> s[j] != c
  {
    if s == [] then None
    else if s[0] == c then Some(0)
    else match IndexOf(s[1..], c)
      case None => None
      case Some(k) => Some(k + 1)
  }

  /** Number of occurrences of `c` in `s`. */
  function CountChar(s: string, c: char): nat {
    if s == [] then 0 else (if s[0] == c then 1 else 0) + CountChar(s[1..], c)
  }

  lemma {:induction false} CountCharAppend(a: string, b: string, c: char)
    ensures CountChar(a + b, c) == CountChar(a, c) + CountChar(b, c)
  {
    if a == [] {
      assert a + b == b;
    } else {
      assert (a + b)[1..] == a[1..] + b;
      CountCharAppend(a[1..], b, c);
    }
  }

  /** A string without `c` holds it zero times. */
  lemma {:induction false} CountCharAbsent(s: string, c: char)
    requires c !in s
    ensures CountChar(s, c) == 0
    decreases |s|
  {
    if s != [] {
      assert c !in s[1..];
      CountCharAbsent(s[1..], c);
    }
  }

  /** Joining parts and a separator none of which holds `c` gives a string without `c`. */
  lemma {:induction false} JoinAbsent(parts: seq<string>, sep: string, c: char)
    requires forall i :: 0 <= i < |parts| ==> c !in parts[i]
    requires c !in sep
    ensures c !in Join(parts, sep)
    decreases |parts|
  {
    if |parts| > 1 {
      JoinAbsent(parts[1..], sep, c);
    }
  }

  /** `sep.join(parts)`. */
  function Join(parts: seq<string>, sep: string): string {
    if |parts| == 0 then ""
    else if |parts| == 1 then parts[0]
    else parts[0] + sep + Join(parts[1..], sep)
  }

  /** `[s] * n`. */
  function Repeat(s: string, n: nat): (r: seq<string>)
    ensures |r| == n
    ensures forall i :: 0 <= i < n ==> r[i] == s
  {
    if n == 0 then [] else [s] + Repeat(s, n - 1)
  }

  /** Joining `n` copies of an item that holds `c` once, with a separator that does not hold
      it, gives a string that holds `c` exactly `n` times. */
  lemma {:induction false} CountCharJoinRepeat(item: string, sep: string, n: nat, c: char)
    requires n > 0
    requires CountChar(item, c) == 1 && CountChar(sep, c) == 0
    ensures CountChar(Join(Repeat(item, n), sep), c) == n
  {
    var parts := Repeat(item, n);
    if n == 1 {
      assert Join(parts, sep) == item;
    } else {
      assert parts[1..] == Repeat(item, n - 1);
      assert Join(parts, sep) == item + sep + Join(Repeat(item, n - 1), sep);
      CountCharAppend(item + sep, Join(Repeat(item, n - 1), sep), c);
      CountCharAppend(item, sep, c);
      CountCharJoinRepeat(item, sep, n - 1, c);
    }
  }

  function DigitChar(d: nat): (c: char)
    requires d < 10
    ensures IsDigit(c)
  {
    ('0' as int + d) as char
  }

  function DigitValue(c: char): (d: nat)
    requires IsDigit(c)
    ensures d < 10
  {
    c as int - '0' as int
  }

  /** `str(n)` for a natural number: its decimal digits, no leading zero. */
  function NatToString(n: nat): (r: string)
    ensures |r| > 0 && AllDigits(r)
  {
    if n < 10 then [DigitChar(n)] else NatToString(n / 10) + [DigitChar(n % 10)]
  }

  /** `str(i)` for a Python int. */
  function IntToString(i: int): (r: string)
    ensures |r| > 0
  {
    if i < 0 then "-" + NatToString(-i) else NatToString(i)
  }

  /** The number a string of decimal digits denotes. */
  function DigitsValue(s: string): nat
    requires AllDigits(s)
  {
    if s == [] then 0 else DigitsValue(s[..|s| - 1]) * 10 + DigitValue(s[|s| - 1])
  }

  lemma {:induction false} NatToStringValue(n: nat)
    ensures DigitsValue(NatToString(n)) == n
  {
    if n >= 10 {
      var s := NatToString(n);
      assert s[..|s| - 1] == NatToString(n / 10);
      NatToStringValue(n / 10);
    }
  }

  /** `s.strip()`: leading and trailing whitespace removed. */
  function Strip(s: string): (r: string)
    ensures |r| <= |s|
    ensures r == [] || (!IsSpace(r[0]) && !IsSpace(r[|r| - 1]))
    ensures (s == [] || (!IsSpace(s[0]) && !IsSpace(s[|s| - 1]))) ==> r == s
    decreases |s|
  {
    if s != [] && IsSpace(s[0]) then Strip(s[1..])
    else if s != [] && IsSpace(s[|s| - 1]) then Strip(s[..|s| - 1])
    else s
  }

  /** Digits, possibly grouped by single underscores, as Python's `int` accepts them. */
  predicate IsDigitGroups(s: string) {
    && |s| > 0 && IsDigit(s[0]) && IsDigit(s[|s| - 1])
    && (forall i :: 0 <= i < |s| ==> IsDigit(s[i]) || s[i] == '_')
    && (forall i :: 0 <= i < |s| - 1 ==> !UnderscorePair(s, i))
  }

  /** Two underscores in a row at `i`. */
  predicate UnderscorePair(s: string, i: nat)
    requires i + 1 < |s|
  {
    s[i] == '_' && s[i + 1] == '_'
  }

  /** The digits of a digit-group string with the underscores dropped. */
  function DropUnderscores(s: string): (r: string)
    requires forall i :: 0 <= i < |s| ==> IsDigit(s[i]) || s[i] == '_'
    ensures AllDigits(r)
    ensures AllDigits(s) ==> r == s
  {
    if s == [] then []
    else if s[0] == '_' then DropUnderscores(s[1..])
    else [s[0]] + DropUnderscores(s[1..])
  }

  function GroupsValue(s: string): nat
    requires IsDigitGroups(s)
  {
    DigitsValue(DropUnderscores(s))
  }

  /** Python's `int(s)` for a str: surrounding whitespace, an optional sign and decimal digit
      groups; `None` where Python raises `ValueError`. */
  function ParseInt(s: string): Option<int> {
    var t := Strip(s);
    if |t| > 0 && (t[0] == '+' || t[0] == '-') then
      if IsDigitGroups(t[1..]) then
        var v: int := GroupsValue(t[1..]);
        Some(if t[0] == '-' then -v else v)
      else None
    else if IsDigitGroups(t) then Some(GroupsValue(t))
    else None
  }

  /** A plain run of decimal digits is a digit-group string worth its digits. */
  lemma {:induction false} DigitsAreGroups(d: string)
    requires |d| > 0 && AllDigits(d)
    ensures IsDigitGroups(d) && GroupsValue(d) == DigitsValue(d)
  {
  }

  /** A minus sign, then digit groups, and no whitespace at the end. */
  predicate NegativeGroups(t: string) {
    |t| > 1 && !IsSpace(t[|t| - 1]) && t[0] == '-' && IsDigitGroups(t[1..])
  }

  /** A string with nothing to strip that is a minus sign and digit groups parses to the
      negated value of the groups. */
  lemma {:induction false} ParseIntSigned(t: string)
    requires NegativeGroups(t)
    ensures ParseInt(t) == Some(-(GroupsValue(t[1..]) as int))
  {
    assert Strip(t) == t;
  }

  /** A plain run of decimal digits parses to the number it denotes. */
  lemma {:induction false} ParseIntDigits(t: string)
    requires |t| > 0 && AllDigits(t)
    ensures ParseInt(t) == Some(DigitsValue(t))
  {
    assert !IsSpace(t[0]) && !IsSpace(t[|t| - 1]);
    DigitsAreGroups(t);
  }

  /** A minus sign before a run of decimal digits negates the number. */
  lemma {:induction false} ParseIntNegative(d: string)
    requires |d| > 0 && AllDigits(d)
    ensures ParseInt("-" + d) == Some(-(DigitsValue(d) as int))
  {
    SignedForm(d);
    ParseIntSigned("-" + d);
  }

  lemma {:induction false} SignedForm(d: string)
    requires |d| > 0 && AllDigits(d)
    ensures NegativeGroups("-" + d) && GroupsValue(("-" + d)[1..]) == DigitsValue(d)
  {
    var t := "-" + d;
    assert t[1..] == d;
    assert t[|t| - 1] == d[|d| - 1];
    DigitsAreGroups(d);
  }

  /** Stripping whitespace never removes a character that is not whitespace. */
  lemma {:induction false} StripKeeps(s: string, c: char)
    requires !IsSpace(c) && c in s
    ensures c in Strip(s)
    decreases |s|
  {
    if s != [] && IsSpace(s[0]) {
      assert c in s[1..];
      StripKeeps(s[1..], c);
    } else if s != [] && IsSpace(s[|s| - 1]) {
      assert c in s[..|s| - 1];
      StripKeeps(s[..|s| - 1], c);
    }
  }

  /** Python's `int` refuses every str holding a dot, such as `str` of a float. */
  lemma {:induction false} ParseIntRejectsDot(s: string)
    requires '.' in s
    ensures ParseInt(s) == None
  {
    StripKeeps(s, '.');
    var t := Strip(s);
    var k :| 0 <= k < |t| && t[k] == '.';
    assert !IsDigitGroups(t);
    if |t| > 0 && (t[0] == '+' || t[0] == '-') {
      assert t[1..][k - 1] == '.';
      assert !IsDigitGroups(t[1..]);
    }
  }

  /** `int(str(i)) == i`. */
  lemma {:induction false} ParseIntToString(i: int)
    ensures ParseInt(IntToString(i)) == Some(i)
  {
    var n: nat := if i < 0 then -i else i;
    var d := NatToString(n);
    NatToStringValue(n);
    assert DigitsValue(d) == n;
    if i < 0 {
      ParseIntNegative(d);
      assert ParseInt("-" + d) == Some(-(n as int));
    } else {
      ParseIntDigits(d);
    }
  }
}
