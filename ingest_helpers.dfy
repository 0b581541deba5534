/** The helpers of the `ingest` package (import/ingest/convert_helpers.py). */
module IngestHelpers {
  import opened Wrappers
  import opened Strings
  import opened Values
  import LegacyHelpers

  /** Whether `name` starts with a two-level ordinal `\d+\.\d+\.`. */
  predicate HasTwoLevelPrefix(name: string) {
    var n := DigitRun(name, 0);
    && 0 < n < |name| && name[n] == '.'
    && var m := DigitRun(name, n + 1);
       0 < m && n + 1 + m < |name| && name[n + 1 + m] == '.'
  }

  /** Length of the match of `^\d+(\.\d+)?\.\s*` at the start of `name`, if it matches. The
      optional group is taken when a second dot follows the second digit run; otherwise the
      regular expression engine backtracks to the single-level form. */
  function PrefixMatch(name: string): (r: Option<nat>)
    ensures r.Some? ==> 2 <= r.value <= |name|
  {
    var n := DigitRun(name, 0);
    if n == 0 || n == |name| || name[n] != '.' then None
    else if HasTwoLevelPrefix(name) then
      var k := n + 1 + DigitRun(name, n + 1) + 1;
      Some(k + SpaceRun(name, k))
    else Some(n + 1 + SpaceRun(name, n + 1))
  }

  /** The match of a two-level ordinal once its runs are known. */
  lemma {:induction false} PrefixMatchTwoLevelAt(name: string, n: nat, m: nat, w: nat)
    requires DigitRun(name, 0) == n && 0 < n < |name| && name[n] == '.'
    requires DigitRun(name, n + 1) == m && 0 < m && n + 1 + m < |name| && name[n + 1 + m] == '.'
    requires SpaceRun(name, n + 1 + m + 1) == w
    ensures PrefixMatch(name) == Some(n + 1 + m + 1 + w)
  {
    assert HasTwoLevelPrefix(name);
  }

  /** `re.sub(r'^\d+(\.\d+)?\.\s*', '', name)`: a leading ordinal "N." or "N.M." and the
      whitespace after it removed. */
  function StripPrefix(name: string): (r: string)
    ensures |r| <= |name| && r == name[|name| - |r|..]
    ensures (name == [] || !IsDigit(name[0])) ==> r == name
  {
    match PrefixMatch(name)
    case None => name
    case Some(k) => name[k..]
  }

  /** The ingest version removes what the legacy version removes, and once more when the
      ordinal has two levels. */
  lemma {:induction false} StripPrefixVersusLegacy(name: string)
    ensures StripPrefix(name) ==
      if HasTwoLevelPrefix(name) then LegacyHelpers.StripPrefix(LegacyHelpers.StripPrefix(name))
      else LegacyHelpers.StripPrefix(name)
  {
    if HasTwoLevelPrefix(name) {
      StripPrefixTwoLevelTwice(name);
    } else {
      assert PrefixMatch(name) == LegacyHelpers.PrefixMatch(name);
    }
  }

  lemma {:induction false} StripPrefixTwoLevelTwice(name: string)
    requires HasTwoLevelPrefix(name)
    ensures StripPrefix(name) == LegacyHelpers.StripPrefix(LegacyHelpers.StripPrefix(name))
  {
    var n := DigitRun(name, 0);
    var m := DigitRun(name, n + 1);
    var w := SpaceRun(name, n + 1 + m + 1);
    LegacyStripFirstLevel(name, n);
    LegacyStripSecondLevel(name, n, m, w);
    PrefixMatchTwoLevelAt(name, n, m, w);
  }

  /** The legacy pattern stops at the first dot when a digit follows it. */
  lemma {:induction false} LegacyStripFirstLevel(name: string, n: nat)
    requires DigitRun(name, 0) == n && 0 < n && n + 1 < |name| && name[n] == '.' && IsDigit(name[n + 1])
    ensures LegacyHelpers.StripPrefix(name) == name[n + 1..]
  {
    SpaceRunIs(name, n + 1, 0);
    LegacyHelpers.PrefixMatchAt(name, n, 0);
  }

  /** On what the first pass leaves, the legacy pattern takes the second level. */
  lemma {:induction false} LegacyStripSecondLevel(name: string, n: nat, m: nat, w: nat)
    requires n + 1 <= |name|
    requires DigitRun(name, n + 1) == m && 0 < m && n + 1 + m < |name| && name[n + 1 + m] == '.'
    requires SpaceRun(name, n + 1 + m + 1) == w
    ensures LegacyHelpers.StripPrefix(name[n + 1..]) == name[n + 1 + m + 1 + w..]
  {
    var t := name[n + 1..];
    DigitRunShift(name, n + 1, 0);
    SpaceRunShift(name, n + 1, m + 1);
    LegacyHelpers.PrefixMatchAt(t, m, w);
    assert t[m + 1 + w..] == name[n + 1 + m + 1 + w..];
  }

  /** A two-level ordinal and the whitespace after it are removed as a whole. */
  lemma {:induction false} StripPrefixTwoLevelOf(d1: string, d2: string, w: string, rest: string)
    requires |d1| > 0 && AllDigits(d1) && |d2| > 0 && AllDigits(d2) && AllSpaces(w)
    requires rest == [] || !IsSpace(rest[0])
    ensures StripPrefix(d1 + "." + d2 + "." + w + rest) == rest
  {
    var s := d1 + "." + d2 + "." + w + rest;
    var n, m := |d1|, |d2|;
    var k := n + 1 + m + 1;
    assert forall j :: 0 <= j < n ==> s[j] == d1[j];
    assert forall j :: n + 1 <= j < n + 1 + m ==> s[j] == d2[j - n - 1];
    assert forall j :: k <= j < k + |w| ==> s[j] == w[j - k];
    assert s[k + |w|..] == rest;
    assert |rest| > 0 ==> s[k + |w|] == rest[0];
    StripTwoLevelAt(s, n, m, |w|);
  }

  /** Digits, a dot, digits, a dot and whitespace, followed by something else or by the end,
      are removed as a whole. */
  lemma {:induction false} StripTwoLevelAt(s: string, n: nat, m: nat, w: nat)
    requires 0 < n && 0 < m
    requires IsDigitRun(s, 0, n) && n < |s| && s[n] == '.'
    requires IsDigitRun(s, n + 1, m) && n + 1 + m < |s| && s[n + 1 + m] == '.'
    requires IsSpaceRun(s, n + 1 + m + 1, w)
    ensures StripPrefix(s) == s[n + 1 + m + 1 + w..]
  {
    DigitRunIs(s, 0, n);
    DigitRunIs(s, n + 1, m);
    SpaceRunIs(s, n + 1 + m + 1, w);
    PrefixMatchTwoLevelAt(s, n, m, w);
  }

  /** A one-level ordinal and the whitespace after it are removed when no digit follows the
      dot. */
  lemma {:induction false} StripPrefixOneLevelOf(d: string, w: string, rest: string)
    requires |d| > 0 && AllDigits(d) && AllSpaces(w)
    requires rest == [] || !IsSpace(rest[0])
    requires |w| > 0 || rest == [] || !IsDigit(rest[0])
    ensures StripPrefix(d + "." + w + rest) == rest
  {
    var s := d + "." + w + rest;
    var n := |d|;
    assert forall j :: 0 <= j < n ==> s[j] == d[j];
    assert s[n] == '.';
    assert forall j :: n + 1 <= j < n + 1 + |w| ==> s[j] == w[j - n - 1];
    assert s[n + 1 + |w|..] == rest;
    assert |rest| > 0 ==> s[n + 1 + |w|] == rest[0];
    StripOneLevelAt(s, n, |w|);
  }

  /** Digits, a dot and whitespace, followed by something else or by the end, are removed
      when no digit follows the dot. */
  lemma {:induction false} StripOneLevelAt(s: string, n: nat, w: nat)
    requires 0 < n && IsDigitRun(s, 0, n) && n < |s| && s[n] == '.'
    requires IsDigitRun(s, n + 1, 0) && IsSpaceRun(s, n + 1, w)
    ensures StripPrefix(s) == s[n + 1 + w..]
  {
    DigitRunIs(s, 0, n);
    DigitRunIs(s, n + 1, 0);
    assert !HasTwoLevelPrefix(s);
    SpaceRunIs(s, n + 1, w);
    assert PrefixMatch(s) == Some(n + 1 + w);
  }

  lemma StripPrefixFieldOfStudy()
    ensures StripPrefix("2. Engineering and Technology") == "Engineering and Technology"
  {
    var rest := "Engineering and Technology";
    assert "2. " + rest == "2. Engineering and Technology";
    assert "2. " + rest == "2" + "." + " " + rest;
    StripPrefixOneLevelOf("2", " ", rest);
  }

  lemma StripPrefixTwoLevel()
    ensures StripPrefix("1.2. X") == "X"
  {
    assert "1.2. X" == "1" + "." + "2" + "." + " " + "X";
    StripPrefixTwoLevelOf("1", "2", " ", "X");
  }

  /** With a space after the first dot the second level is not part of the ordinal. */
  lemma StripPrefixSpacedLevels()
    ensures StripPrefix("1. 2. X") == "2. X"
  {
    assert "1. 2. X" == "1" + "." + " " + "2. X";
    StripPrefixOneLevelOf("1", " ", "2. X");
  }

  /** `str(value)`, cut to `max_length` characters when it is longer. */
  function TruncateString(value: Value, maxLength: nat): (r: string)
    ensures |r| <= maxLength
    ensures r <= PyStr(value)
    ensures r == PyStr(value) <==> |PyStr(value)| <= maxLength
  {
    var s := PyStr(value);
    if |s| > maxLength then s[..maxLength] else s
  }

  /** Truncating an already truncated value with the same bound changes nothing. */
  lemma {:induction false} TruncateStringIdempotent(value: Value, maxLength: nat)
    ensures TruncateString(Str(TruncateString(value, maxLength)), maxLength) == TruncateString(value, maxLength)
  {
  }

  /** On a str the two generations' `truncate_string` agree. */
  lemma {:induction false} TruncateStringVersusLegacy(s: string, maxLength: nat)
    ensures TruncateString(Str(s), maxLength) == LegacyHelpers.TruncateString(s, maxLength)
  {
  }
}
