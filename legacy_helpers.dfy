/** The helpers of the older flat import scripts (import/convert_helpers.py). */
module LegacyHelpers {
  import opened Wrappers
  import opened Strings
  import opened Values

  /** Length of the match of `^\d+\.\s*` at the start of `name`, if it matches. */
  function PrefixMatch(name: string): (r: Option<nat>)
    ensures r.Some? ==> 2 <= r.value <= |name|
  {
    var n := DigitRun(name, 0);
    if n == 0 || n == |name| || name[n] != '.' then None
    else Some(n + 1 + SpaceRun(name, n + 1))
  }

  /** The match once the digit run and the whitespace run after the dot are known. */
  lemma {:induction false} PrefixMatchAt(name: string, n: nat, w: nat)
    requires DigitRun(name, 0) == n && 0 < n < |name| && name[n] == '.'
    requires SpaceRun(name, n + 1) == w
    ensures PrefixMatch(name) == Some(n + 1 + w)
  {
  }

  /** `re.sub(r'^\d+\.\s*', '', name)`: a leading ordinal "N." and the whitespace after it
      removed. */
  function StripPrefix(name: string): (r: string)
    ensures |r| <= |name| && r == name[|name| - |r|..]
    ensures (name == [] || !IsDigit(name[0])) ==> r == name
  {
    if PrefixMatch(name).None? then name else name[PrefixMatch(name).value..]
  }

  /** A string of the form `\d+\.\s*`. */
  ghost predicate IsOrdinalPrefix(p: string) {
    exists k :: 0 < k < |p| && AllDigits(p[..k]) && p[k] == '.' && AllSpaces(p[k + 1..])
  }

  /** Digits, a dot and whitespace in front of a text that does not begin with whitespace are
      exactly what is removed. */
  lemma {:induction false} StripPrefixOf(d: string, w: string, rest: string)
    requires |d| > 0 && AllDigits(d) && AllSpaces(w)
    requires rest == [] || !IsSpace(rest[0])
    ensures StripPrefix(d + "." + w + rest) == rest
  {
    var s := d + "." + w + rest;
    var n := |d|;
    assert forall j :: 0 <= j < n ==> s[j] == d[j];
    assert s[n] == '.';
    DigitRunIs(s, 0, n);
    assert forall j :: n + 1 <= j < n + 1 + |w| ==> s[j] == w[j - n - 1];
    assert s[n + 1 + |w|..] == rest;
    assert |rest| > 0 ==> s[n + 1 + |w|] == rest[0];
    SpaceRunIs(s, n + 1, |w|);
    PrefixMatchAt(s, n, |w|);
  }

  /** Whatever is removed has the form `\d+\.\s*`, and what is left does not start with
      whitespace. */
  lemma {:induction false} StripPrefixRemoves(name: string)
    ensures var r := StripPrefix(name);
      r != name ==> IsOrdinalPrefix(name[..|name| - |r|]) && (r == [] || !IsSpace(r[0]))
  {
    var r := StripPrefix(name);
    if r != name {
      var n := DigitRun(name, 0);
      var k := n + 1 + SpaceRun(name, n + 1);
      DigitRunDigits(name, 0);
      SpaceRunSpaces(name, n + 1);
      var p := name[..k];
      assert p == name[..|name| - |r|];
      assert 0 < n < |p| && AllDigits(p[..n]) && p[n] == '.' && AllSpaces(p[n + 1..]);
      assert r == name[k..];
    }
  }

  /** `1 if value.lower() == 'e' else 0`; a value without `lower` raises. */
  function ConvertCzechOrSlovak(value: Value): (r: Result<int, Error>)
    ensures r.Success? <==> value.Str?
    ensures r.Success? ==> r.value == 0 || r.value == 1
    ensures r == Success(1) <==> value == Str("e") || value == Str("E")
  {
    if !value.Str? then Failure(AttributeError("lower"))
    else if Lower(value.s) == "e" then Success(1)
    else Success(0)
  }

  /** `value[:max_length]` when the str is longer than `max_length`, else the str itself. */
  function TruncateString(value: string, maxLength: nat): (r: string)
    ensures |r| <= maxLength
    ensures r <= value
    ensures r == value <==> |value| <= maxLength
  {
    if |value| > maxLength then value[..maxLength] else value
  }

  lemma {:induction false} TruncateStringIdempotent(value: string, maxLength: nat)
    ensures TruncateString(TruncateString(value, maxLength), maxLength) == TruncateString(value, maxLength)
  {
  }

  lemma StripPrefixFieldOfStudy()
    ensures StripPrefix("2. Engineering and Technology") == "Engineering and Technology"
  {
    var rest := "Engineering and Technology";
    assert "2. " + rest == "2. Engineering and Technology";
    assert "2. " + rest == "2" + "." + " " + rest;
    StripPrefixOf("2", " ", rest);
  }

  /** Only one ordinal is removed: "1.2. X" keeps its second level. */
  lemma StripPrefixOneLevel()
    ensures StripPrefix("1.2. X") == "2. X"
  {
    assert "1.2. X" == "1" + "." + "" + "2. X";  // no whitespace after the first dot
    StripPrefixOf("1", "", "2. X");
  }

  lemma ConvertCzechOrSlovakExamples()
    ensures ConvertCzechOrSlovak(Str("E")) == Success(1)
    ensures ConvertCzechOrSlovak(Str("NE")) == Success(0)
    ensures ConvertCzechOrSlovak(Int(1)).Failure?
  {
  }
}
