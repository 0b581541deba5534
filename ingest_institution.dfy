/** The institution import of the `ingest` package (import/ingest/institution.py): the
    pydantic `Institution` and its validators, the `INSERT` text, and the row loop. */
module IngestInstitution {
  import opened Wrappers
  import opened Strings
  import opened Values
  import opened Store
  import opened Institutions
  import H = Headers
  import IngestHelpers
  import opened Sql

  /** The caps `truncate_fields` applies, by field name. */
  const MaxLengths: map<string, nat> :=
    map["name" := 1000, "street" := 500, "town" := 200, "legal_form" := 500, "main_goal" := 2000]

  /** `truncate_fields`: a capped field becomes `str(value)` cut to its cap; any other field is
      passed through. */
  function TruncateFields(field: string, value: Value): (r: Value)
    ensures field in MaxLengths ==>
      && r.Str? && |r.s| <= MaxLengths[field] && r.s <= PyStr(value)
      && (r.s == PyStr(value) <==> |PyStr(value)| <= MaxLengths[field])
    ensures field !in MaxLengths ==> r == value
  {
    if field in MaxLengths then Str(IngestHelpers.TruncateString(value, MaxLengths[field])) else value
  }

  /** `remove_spaces_from_psc`: `int(str(value).replace(" ", ""))`. */
  function RemoveSpacesFromPsc(value: Value): (r: Result<int, Error>)
    ensures r.Success? <==> ParseInt(RemoveChar(PyStr(value), ' ')).Some?
    ensures r.Success? ==> r.value == ParseInt(RemoveChar(PyStr(value), ' ')).value
  {
    PyInt(Str(RemoveChar(PyStr(value), ' ')))
  }

  /** `Institution(...)` of one row: the cells are looked up in keyword order, then the
      validators and pydantic's field checks run in field order. */
  function MakeInstitution(row: Row): (r: Result<Institution, Error>)
    ensures r.Success? <==>
      && H.InstitutionName in row && H.Ico in row && H.Street in row && H.Psc in row && H.Town in row
      && H.LegalForm in row && H.MainGoal in row && H.Registered in row
      && IntField("ico", row[H.Ico]).Success? && RemoveSpacesFromPsc(row[H.Psc]).Success?
    ensures r.Success? ==>
      && r.value.name == IngestHelpers.TruncateString(row[H.InstitutionName], 1000)
      && r.value.street == IngestHelpers.TruncateString(row[H.Street], 500)
      && r.value.town == IngestHelpers.TruncateString(row[H.Town], 200)
      && r.value.legalForm == IngestHelpers.TruncateString(row[H.LegalForm], 500)
      && r.value.mainGoal == IngestHelpers.TruncateString(row[H.MainGoal], 2000)
      && r.value.ico == IntField("ico", row[H.Ico]).value
      && r.value.psc == RemoveSpacesFromPsc(row[H.Psc]).value
      && r.value.created == row[H.Registered]
  {
    var name :- GetItem(row, H.InstitutionName);
    var ico :- GetItem(row, H.Ico);
    var street :- GetItem(row, H.Street);
    var psc :- GetItem(row, H.Psc);
    var town :- GetItem(row, H.Town);
    var legalForm :- GetItem(row, H.LegalForm);
    var mainGoal :- GetItem(row, H.MainGoal);
    var created :- GetItem(row, H.Registered);
    // a capped field is a str once truncated, so pydantic's str check passes
    var nameField := TruncateFields("name", name).s;
    var icoField :- IntField("ico", ico);
    var streetField := TruncateFields("street", street).s;
    var pscField :- if RemoveSpacesFromPsc(psc).Success? then RemoveSpacesFromPsc(psc) else Failure(ValidationError("psc"));
    var townField := TruncateFields("town", town).s;
    var legalFormField := TruncateFields("legal_form", legalForm).s;
    var mainGoalField := TruncateFields("main_goal", mainGoal).s;
    Success(Institution(nameField, icoField, streetField, pscField, townField, legalFormField, mainGoalField, created))
  }

  /** `build_institution_insert_sql`; the column text is the table's column list joined by
      ", ", as the source spells it out. */
  function BuildInsertSql(schema: string, institution: Institution): string {
    InsertStatement(schema + ".institution", Join(Columns(InstitutionTable), ", "), Join(Repeat("?", 8), ", "))
  }

  /** The statement inserts into the schema's `institution` table, names the table's columns
      right after it, and its text depends on the schema alone. */
  lemma {:induction false} BuildInsertSqlShape(schema: string, a: Institution, b: Institution)
    ensures BuildInsertSql(schema, a) == BuildInsertSql(schema, b)
    ensures var head := "INSERT INTO " + (schema + ".institution") + " (";
      && head <= BuildInsertSql(schema, a)
      && Join(Columns(InstitutionTable), ", ") <= BuildInsertSql(schema, a)[|head|..]
  {
    var columns := Join(Columns(InstitutionTable), ", ");
    var placeholders := Join(Repeat("?", 8), ", ");
    assert BuildInsertSql(schema, a) == InsertStatement(schema + ".institution", columns, placeholders);
    InsertStatementParts(schema + ".institution", columns, placeholders);
  }

  /** No column name holds a "?". */
  lemma ColumnsWithoutPlaceholder()
    ensures CountChar(Join(Columns(InstitutionTable), ", "), '?') == 0
  {
    JoinAbsent(Columns(InstitutionTable), ", ", '?');
    CountCharAbsent(Join(Columns(InstitutionTable), ", "), '?');
  }

  /** The table name holds a "?" only where the schema name does. */
  lemma {:induction false} TableNameWithoutPlaceholder(schema: string)
    requires '?' !in schema
    ensures CountChar(schema + ".institution", '?') == 0
  {
    assert '?' !in ".institution";
    CountCharAbsent(schema + ".institution", '?');
  }

  /** The statement holds one "?" per column and no other, when the schema name holds none. */
  lemma {:induction false} BuildInsertSqlPlaceholders(schema: string, a: Institution)
    requires '?' !in schema
    ensures CountChar(BuildInsertSql(schema, a), '?') == |Columns(InstitutionTable)|
  {
    var columns := Join(Columns(InstitutionTable), ", ");
    var placeholders := Join(Repeat("?", 8), ", ");
    assert BuildInsertSql(schema, a) == InsertStatement(schema + ".institution", columns, placeholders);
    InsertStatementMarks(schema + ".institution", columns, placeholders);
    TableNameWithoutPlaceholder(schema);
    ColumnsWithoutPlaceholder();
    PlaceholdersCount();
  }

  /** `", ".join(["?"] * 8)` holds eight "?". */
  lemma PlaceholdersCount()
    ensures CountChar(Join(Repeat("?", 8), ", "), '?') == 8
  {
    assert CountChar("?", '?') == 1;
    CountCharAbsent(", ", '?');
    CountCharJoinRepeat("?", ", ", 8, '?');
  }

  function InstitutionRecord(row: Row): Result<Record, Error> {
    var inst :- MakeInstitution(row);
    Success(InsertInstitution(inst))
  }

  /** `import_institutions`: one `INSERT` per row in row order, one commit after the loop; an
      exception in a row is not caught and leaves the rows before it sent but not committed. */
  method ImportInstitutions(db: Database, rows: Sheet) returns (err: Option<Error>)
    modifies db
    ensures db.State() == Append(old(db.State()), SheetRun(rows, InstitutionRecord).emitted)
    ensures err == SheetRun(rows, InstitutionRecord).err
  {
    err := db.InsertSheet(rows, InstitutionRecord);
  }

  /** A PSC written with a space is read as one number. */
  lemma PscWithSpace()
    ensures RemoveSpacesFromPsc(Str("170 00")) == Success(17000)
  {
    var s := "170 00";
    assert RemoveChar(s, ' ') == "17000" by {
      assert s[1..][1..][1..] == " 00";
      assert s[1..][1..][1..][1..] == "00";
    }
    ParseSeventeenThousand();
  }

  lemma ParseSeventeenThousand()
    ensures ParseInt("17000") == Some(17000)
  {
    ParseIntDigits("17000");
    DigitsSeventeenThousand();
  }

  lemma DigitsSeventeenThousand()
    ensures DigitsValue("17000") == 17000
  {
    var t := "17000";
    assert DigitsValue("1") == 1 by { assert "1"[..0] == ""; }
    assert DigitsValue("17") == 17 by { assert "17"[..1] == "1"; }
    assert DigitsValue("170") == 170 by { assert "170"[..2] == "17"; }
    assert DigitsValue("1700") == 1700 by { assert "1700"[..3] == "170"; }
    assert DigitsValue(t) == 17000 by { assert t[..4] == "1700"; }
  }

  /** A PSC cell pandas already read as a number is kept. */
  lemma {:induction false} PscOfNumber(i: int)
    ensures RemoveSpacesFromPsc(Int(i)) == Success(i)
  {
    var s := IntToString(i);
    assert forall k :: 0 <= k < |s| ==> s[k] != ' ' by {
      var d := NatToString(if i < 0 then -i else i);
      assert i < 0 ==> s == "-" + d;
      assert forall k :: 0 <= k < |d| ==> IsDigit(d[k]);
    }
    ParseIntToString(i);
  }

  /** A PSC cell pandas read as a float (a PSC column with an empty cell) is refused: `str`
      of it ends in ".0", which `int` does not parse. */
  lemma {:induction false} PscOfFloatRaises(w: int)
    ensures RemoveSpacesFromPsc(Float(w)) == Failure(ValueError)
  {
    var s := PyStr(Float(w));
    var d := IntToString(w);
    assert s == d + ".0";
    assert forall k :: 0 <= k < |s| ==> s[k] != ' ' by {
      var n := NatToString(if w < 0 then -w else w);
      assert w < 0 ==> d == "-" + n;
      assert forall k :: 0 <= k < |n| ==> IsDigit(n[k]);
      assert forall k :: 0 <= k < |d| ==> s[k] == d[k];
      assert s[|d|] == '.' && s[|d| + 1] == '0';
    }
    assert s[|d|] == '.';
    ParseIntRejectsDot(s);
  }

  /** Every capped field of an imported institution is within its cap and a prefix of `str`
      of its cell, and equal to it when the cell fits. */
  lemma {:induction false} InstitutionCaps(row: Row)
    requires MakeInstitution(row).Success?
    ensures var inst := MakeInstitution(row).value;
      && |inst.name| <= 1000 && |inst.street| <= 500 && |inst.town| <= 200
      && |inst.legalForm| <= 500 && |inst.mainGoal| <= 2000
      && inst.name <= PyStr(row[H.InstitutionName]) && inst.street <= PyStr(row[H.Street])
      && inst.town <= PyStr(row[H.Town]) && inst.legalForm <= PyStr(row[H.LegalForm])
      && inst.mainGoal <= PyStr(row[H.MainGoal])
      && (|PyStr(row[H.InstitutionName])| <= 1000 ==> inst.name == PyStr(row[H.InstitutionName]))
      && (|PyStr(row[H.MainGoal])| <= 2000 ==> inst.mainGoal == PyStr(row[H.MainGoal]))
  {
  }

  /** A successful import sends exactly one record per row and a single commit; a failed one
      sends no commit at all. */
  lemma {:induction false} ImportInstitutionsCommitsOnce(rows: Sheet)
    ensures var run := SheetRun(rows, InstitutionRecord);
      && (run.err.None? ==> CountRecords(run.emitted) == |rows| && CountCommits(run.emitted) == 1)
      && (run.err.Some? ==> CountCommits(run.emitted) == 0)
  {
    var run := SheetRun(rows, InstitutionRecord);
    SheetRunShape(rows, InstitutionRecord);
    if run.err.None? {
      SheetRunCounts(rows, InstitutionRecord);
    } else {
      NoCommitBeforeFailure(rows, InstitutionRecord);
    }
  }
}
