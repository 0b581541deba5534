/** The FORD classifier shared by every generation of the import: the pattern `^(\d+)\.(\d+)`
    on a FORD directory name, the numeric code `major * 10 + minor` (`fid`), the
    three-character `ford_num` and the zone column header it names. */
module Ford {
  import opened Wrappers
  import opened Strings
  import opened Values
  import IngestHelpers

  /** The two groups of a match of `^(\d+)\.(\d+)`. */
  datatype FordMatch = FordMatch(major: string, minor: string)

  /** `name` starts with digits, a dot and a digit: the pattern matches. */
  ghost predicate StartsWithCode(name: string) {
    exists k :: 0 < k && k + 1 < |name| && AllDigits(name[..k]) && name[k] == '.' && IsDigit(name[k + 1])
  }

  /** `re.match(r'^(\d+)\.(\d+)', name)`; both groups are greedy. */
  function MatchFord(name: string): (r: Option<FordMatch>)
    ensures r.Some? ==> |r.value.major| > 0 && AllDigits(r.value.major)
    ensures r.Some? ==> |r.value.minor| > 0 && AllDigits(r.value.minor)
    ensures r.Some? ==> r.value.major + "." + r.value.minor <= name
  {
    var n := DigitRun(name, 0);
    if n == 0 || n == |name| || name[n] != '.' then None
    else
      var m := DigitRun(name, n + 1);
      if m == 0 then None
      else
        DigitRunDigits(name, 0);
        DigitRunDigits(name, n + 1);
        Some(FordMatch(name[..n], name[n + 1..n + 1 + m]))
  }

  /** The pattern matches exactly when the name starts with digits, a dot and a digit. */
  lemma {:induction false} MatchFordIff(name: string)
    ensures MatchFord(name).Some? <==> StartsWithCode(name)
  {
    var n := DigitRun(name, 0);
    if MatchFord(name).Some? {
      assert name[..n] == MatchFord(name).value.major;
      assert 0 < n && n + 1 < |name| && AllDigits(name[..n]) && name[n] == '.' && IsDigit(name[n + 1]);
    }
    if StartsWithCode(name) {
      var k :| 0 < k && k + 1 < |name| && AllDigits(name[..k]) && name[k] == '.' && IsDigit(name[k + 1]);
      assert forall i :: 0 <= i < k ==> IsDigit(name[i]) by {
        forall i | 0 <= i < k ensures IsDigit(name[i]) {
          assert name[..k][i] == name[i];
        }
      }
      DigitRunIs(name, 0, k);
    }
  }

  /** The code of a FORD directory name: `int(major) * 10 + int(minor)`. */
  function Fid(m: FordMatch): int
    requires AllDigits(m.major) && AllDigits(m.minor)
  {
    DigitsValue(m.major) * 10 + DigitsValue(m.minor)
  }

  /** `truncate_string(major + '.' + minor, 3)`: the source's spreadsheets name their zone
      columns after only the first three characters of the code. */
  function FordNum(m: FordMatch): (r: string)
    ensures |r| <= 3
    ensures r <= m.major + "." + m.minor
  {
    IngestHelpers.TruncateString(Str(m.major + "." + m.minor), 3)
  }

  /** The header of the per-code zone column of an article sheet. */
  function ZoneColumn(fordNum: string): string {
    "Pásmo v " + fordNum
  }

  /** A name of the form digits, dot, digits, then anything that does not go on with a digit,
      matches with exactly those digit groups. */
  lemma {:induction false} MatchFordOf(major: string, minor: string, rest: string)
    requires |major| > 0 && AllDigits(major) && |minor| > 0 && AllDigits(minor)
    requires rest == [] || !IsDigit(rest[0])
    ensures MatchFord(major + "." + minor + rest) == Some(FordMatch(major, minor))
  {
    var name := major + "." + minor + rest;
    var n, m := |major|, |minor|;
    assert forall j :: 0 <= j < n ==> name[j] == major[j];
    assert name[n] == '.';
    DigitRunIs(name, 0, n);
    assert forall j :: n + 1 <= j < n + 1 + m ==> name[j] == minor[j - n - 1];
    assert |rest| > 0 ==> name[n + 1 + m] == rest[0];
    DigitRunIs(name, n + 1, m);
    assert name[..n] == major;
    assert name[n + 1..n + 1 + m] == minor;
  }

  /** `ford_num` is the first three characters of the FORD directory name itself. */
  lemma {:induction false} FordNumIsNamePrefix(name: string)
    requires MatchFord(name).Some?
    ensures |FordNum(MatchFord(name).value)| == 3
    ensures FordNum(MatchFord(name).value) == name[..3]
  {
    var m := MatchFord(name).value;
    var code := m.major + "." + m.minor;
    assert |code| >= 3;
    assert code[..3] == name[..3];
  }

  lemma FidNineNine()
    ensures MatchFord("9.9 X").Some? && Fid(MatchFord("9.9 X").value) == 99
  {
    assert "9.9 X" == "9" + "." + "9" + " X";
    MatchFordOf("9", "9", " X");
  }

  /** A two-digit minor is multiplied into the code as it stands: "3.12" gives 42, and the
      zone column is that of "3.1". */
  lemma FidTwoDigitMinor()
    ensures MatchFord("3.12 X").Some?
    ensures Fid(MatchFord("3.12 X").value) == 42
    ensures ZoneColumn(FordNum(MatchFord("3.12 X").value)) == "Pásmo v 3.1"
  {
    MatchThreeTwelve();
    assert DigitsValue("12") == 12 by {
      assert "12"[..1] == "1";
    }
    assert FordNum(FordMatch("3", "12")) == "3.1" by {
      assert ("3" + "." + "12")[..3] == "3.1";
    }
  }

  lemma MatchThreeTwelve()
    ensures MatchFord("3.12 X") == Some(FordMatch("3", "12"))
  {
    assert "3.12 X" == "3" + "." + "12" + " X";
    MatchFordOf("3", "12", " X");
  }

  /** The code is not injective: "2.11" (a two-digit minor) and "3.1" share the code 31. */
  lemma FidCollision()
    ensures MatchFord("2.11").Some? && MatchFord("3.1").Some?
    ensures MatchFord("2.11").value != MatchFord("3.1").value
    ensures Fid(MatchFord("2.11").value) == Fid(MatchFord("3.1").value) == 31
  {
    assert "2.11" == "2" + "." + "11" + "";
    MatchFordOf("2", "11", "");
    assert "3.1" == "3" + "." + "1" + "";
    MatchFordOf("3", "1", "");
    assert DigitsValue("11") == 11 by {
      assert "11"[..1] == "1";
    }
  }

  /** A name that does not start with a digit has no code. */
  lemma {:induction false} NoCodeWithoutDigit(name: string)
    requires name == [] || !IsDigit(name[0])
    ensures MatchFord(name).None?
  {
  }
}
