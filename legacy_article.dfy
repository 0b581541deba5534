/** The legacy article import (import/article.py, and the copy in import/import.py that names
    the FORD table `fields_ford`): each cell converted inline, the journal branch checking the
    field of study and ensuring the FORD row, the result branch doing neither. */
module LegacyArticle {
  import opened Wrappers
  import opened Strings
  import opened Values
  import opened Store
  import H = Headers
  import LegacyHelpers
  import Ford
  import IngestHelpers
  import IngestArticle

  predicate IsJournalFile(fileName: string) {
    StartsWith(fileName, "Priloha_2_casopisy_") && EndsWith(fileName, ".xlsx")
  }

  predicate IsResultFile(fileName: string) {
    StartsWith(fileName, "Priloha_3_vysledky_") && EndsWith(fileName, ".xlsx")
  }

  /** `strip_prefix(parts[-2])` and `parts[-1]` of `root.split(os.sep)`: always the walk
      root's last two components. A file directly in the base directory has only one, and
      `parts[-2]` raises `IndexError`. */
  function PathFields(f: File): (r: Result<IngestArticle.Location, Error>)
    ensures r.Failure? <==> f.dirs == []
    ensures r.Failure? ==> r.error == IndexError
  {
    var parts := Components(f);
    if |parts| < 2 then Failure(IndexError)
    else Success(IngestArticle.Location(LegacyHelpers.StripPrefix(parts[|parts| - 2]), parts[|parts| - 1]))
  }

  /** `str(cell) if pd.notna(cell) else ''`. */
  function TextOrEmpty(cell: Value): (r: string)
    ensures IsNa(cell) <==> r == "" && !(cell.Str? && cell.s == "")
  {
    if IsNa(cell) then "" else PyStr(cell)
  }

  /** One iteration of the journal row loop: the locals in the order it computes them, the
      ISSN cut to ten characters, and the parameters of the `INSERT`. */
  function JournalRecord(row: Row, fid: int): (r: Result<Record, Error>)
    ensures r.Success? <==>
      && H.Year in row && PyInt(row[H.Year]).Success?
      && H.Title in row && H.Issn in row && H.EIssn in row && H.DocumentCount in row
      && H.Zone in row && H.CzechOrSlovakJournal in row
      && (IsNa(row[H.DocumentCount]) || PyInt(row[H.DocumentCount]).Success?)
    ensures r.Success? ==>
      && r.value.table == JournalTable && |r.value.params| == 8
      && r.value.params[0] == SqlInt(PyInt(row[H.Year]).value)
      && r.value.params[1] == SqlText(PyStr(row[H.Title]))
      && r.value.params[2] == SqlText(LegacyHelpers.TruncateString(TextOrEmpty(row[H.Issn]), 10))
      && r.value.params[3] == SqlText(TextOrEmpty(row[H.EIssn]))
      && r.value.params[4] == (if IsNa(row[H.DocumentCount]) then SqlText("NULL") else SqlInt(PyInt(row[H.DocumentCount]).value))
      && r.value.params[5] == SqlText(PyStr(row[H.Zone]))
      && r.value.params[6] == SqlText(PyStr(row[H.CzechOrSlovakJournal]))
      && r.value.params[7] == SqlInt(fid)
      && |r.value.params| == |Columns(JournalTable)|
  {
    var yearCell :- GetItem(row, H.Year);
    var year :- PyInt(yearCell);
    var nameCell :- GetItem(row, H.Title);
    var issnCell :- GetItem(row, H.Issn);
    var eissnCell :- GetItem(row, H.EIssn);
    var countCell :- GetItem(row, H.DocumentCount);
    var articleCount :- if IsNa(countCell) then Success(SqlText("NULL"))
                        else if PyInt(countCell).Success? then Success(SqlInt(PyInt(countCell).value))
                        else Failure(PyInt(countCell).error);
    var zoneCell :- GetItem(row, H.Zone);
    var czechOrSlovakCell :- GetItem(row, H.CzechOrSlovakJournal);
    var issn := TextOrEmpty(issnCell);
    var issnCut := if |issn| > 10 then issn[..10] else issn;
    Success(Record(JournalTable, [SqlInt(year), SqlText(PyStr(nameCell)), SqlText(issnCut), SqlText(TextOrEmpty(eissnCell)),
                                  articleCount, SqlText(PyStr(zoneCell)), SqlText(PyStr(czechOrSlovakCell)), SqlInt(fid)]))
  }

  /** `convert_czech_or_slovak(cell if pd.notna(cell) else 'NE')`. */
  function Flag(cell: Value): (r: Result<int, Error>)
    ensures IsNa(cell) ==> r == Success(0)
    ensures r.Success? ==> r.value == 0 || r.value == 1
  {
    LegacyHelpers.ConvertCzechOrSlovak(if IsNa(cell) then Str("NE") else cell)
  }

  /** The cells of a result row up to the corresponding author's VO, converted as the row
      loop converts them. */
  datatype LeadingCells = LeadingCells(
    year: int, utWos: string, name: string, typeDoc: string, journalName: string,
    issn: string, eissn: string, authors: string, correspondingVo: string)

  /** The first half of one iteration of the result row loop. */
  function ReadLeading(row: Row): Result<LeadingCells, Error> {
    var yearCell :- GetItem(row, H.Year);
    var year :- PyInt(yearCell);
    var utWos :- GetItem(row, H.UtWos);
    var resultCell :- GetItem(row, H.Result);
    var name := LegacyHelpers.TruncateString(PyStr(resultCell), 8000);
    var typeDoc :- GetItem(row, H.DocumentType);
    var journalName :- GetItem(row, H.JournalName);
    var issnCell :- GetItem(row, H.Issn);
    var eissnCell :- GetItem(row, H.EIssn);
    var authorsCell :- GetItem(row, H.Authors);
    var authors := LegacyHelpers.TruncateString(PyStr(authorsCell), 8000);
    var correspondingCell :- GetItem(row, H.CorrespondingAuthorVo);
    var correspondingVo := if IsNa(correspondingCell) then "" else LegacyHelpers.TruncateString(PyStr(correspondingCell), 8000);
    Success(LeadingCells(year, PyStr(utWos), name, PyStr(typeDoc), PyStr(journalName), TextOrEmpty(issnCell),
                         TextOrEmpty(eissnCell), authors, correspondingVo))
  }

  /** The leading cells are read when every one of their columns is present and the year is
      an int; the title, the authors and the corresponding author's VO are cut to 8000
      characters, a missing VO and missing ISSNs become empty strings. */
  lemma {:induction false} ReadLeadingSpec(row: Row)
    ensures ReadLeading(row).Success? <==>
      && H.Year in row && PyInt(row[H.Year]).Success?
      && H.UtWos in row && H.Result in row && H.DocumentType in row && H.JournalName in row
      && H.Issn in row && H.EIssn in row && H.Authors in row && H.CorrespondingAuthorVo in row
    ensures ReadLeading(row).Success? ==>
      var c := ReadLeading(row).value;
      && c.year == PyInt(row[H.Year]).value
      && c.name == LegacyHelpers.TruncateString(PyStr(row[H.Result]), 8000)
      && c.issn == TextOrEmpty(row[H.Issn]) && c.eissn == TextOrEmpty(row[H.EIssn])
      && c.authors == LegacyHelpers.TruncateString(PyStr(row[H.Authors]), 8000)
      && c.correspondingVo == LegacyHelpers.TruncateString(TextOrEmpty(row[H.CorrespondingAuthorVo]), 8000)
  {
  }

  /** One iteration of the result row loop, with `ford_num` already cut. */
  function ArticleRecord(row: Row, fid: int, fordNum: string): Result<Record, Error> {
    var c :- ReadLeading(row);
    var collaborationCell :- GetItem(row, H.InternationalCollaboration);
    var internationalCollaboration :- Flag(collaborationCell);
    var thirtyPlusCell :- GetItem(row, H.ThirtyPlusAuthors);
    var moreThan30Authors :- Flag(thirtyPlusCell);
    var authorCountCell :- GetItem(row, H.AuthorCount);
    var authorCount :- if IsNa(authorCountCell) then Success(0) else PyInt(authorCountCell);
    var czechOrSlovak :- GetItem(row, H.CzechOrSlovak);
    var voCell :- GetItem(row, H.CzechInstitutions);
    var vo := LegacyHelpers.TruncateString(PyStr(voCell), 4000);
    var zone :- GetItem(row, Ford.ZoneColumn(fordNum));
    Success(Record(ArticleTable, [SqlInt(c.year), SqlText(c.utWos), SqlText(c.name), SqlText(c.typeDoc),
                                  SqlText(c.journalName), SqlText(c.issn), SqlText(c.eissn), SqlInt(fid),
                                  SqlText(c.authors), SqlText(c.correspondingVo), SqlInt(authorCount),
                                  SqlText(PyStr(czechOrSlovak)), SqlText(vo), SqlInt(0), SqlText(PyStr(zone))]))
  }

  /** A result row converts when its leading cells do, both flags convert, the author count
      is missing or an int, and the remaining columns, the zone column of `ford_num` among
      them, are present. The two flags are computed (and can raise) but are not among the
      parameters of the `INSERT`; the institution count is always 0. */
  lemma {:induction false} ArticleRecordSpec(row: Row, fid: int, fordNum: string)
    ensures ArticleRecord(row, fid, fordNum).Success? <==>
      && ReadLeading(row).Success?
      && H.InternationalCollaboration in row && Flag(row[H.InternationalCollaboration]).Success?
      && H.ThirtyPlusAuthors in row && Flag(row[H.ThirtyPlusAuthors]).Success?
      && H.AuthorCount in row && (IsNa(row[H.AuthorCount]) || PyInt(row[H.AuthorCount]).Success?)
      && H.CzechOrSlovak in row && H.CzechInstitutions in row && Ford.ZoneColumn(fordNum) in row
    ensures ArticleRecord(row, fid, fordNum).Success? ==>
      var c := ReadLeading(row).value;
      && ArticleRecord(row, fid, fordNum).value == Record(ArticleTable, [
           SqlInt(c.year), SqlText(c.utWos), SqlText(c.name), SqlText(c.typeDoc), SqlText(c.journalName),
           SqlText(c.issn), SqlText(c.eissn), SqlInt(fid), SqlText(c.authors), SqlText(c.correspondingVo),
           SqlInt(if IsNa(row[H.AuthorCount]) then 0 else PyInt(row[H.AuthorCount]).value),
           SqlText(PyStr(row[H.CzechOrSlovak])),
           SqlText(LegacyHelpers.TruncateString(PyStr(row[H.CzechInstitutions]), 4000)),
           SqlInt(0), SqlText(PyStr(row[Ford.ZoneColumn(fordNum)]))])
  {
  }

  function JournalConverter(fid: int): Row -> Result<Record, Error> {
    row => JournalRecord(row, fid)
  }

  function ArticleConverter(fid: int, fordNum: string): Row -> Result<Record, Error> {
    row => ArticleRecord(row, fid, fordNum)
  }

  /** `ford_num` of a result file: the two groups joined by a dot, cut to three characters. */
  function CutFordNum(m: Ford.FordMatch): string {
    LegacyHelpers.TruncateString(m.major + "." + m.minor, 3)
  }

  /** One file of the legacy walk in the FORD table `t`. */
  function ImportFileSpec(t: FordTable, st: DbState, f: File): Outcome {
    if IsJournalFile(f.name) then
      match PathFields(f)
      case Failure(e) => Outcome(st, Some(e))
      case Success(loc) =>
        match Ford.MatchFord(loc.fordName)
        case None => Outcome(st, None)
        case Some(m) =>
          var fid := Ford.Fid(m);
          match Sid(st, loc.fieldOfStudy)
          case None => Outcome(st, None)
          case Some(sid) =>
            var st1 := EnsureFordSpec(st, t, fid, sid, loc.fordName);
            var run := SheetsRun(f.sheets, JournalConverter(fid));
            Outcome(Append(st1, run.emitted), run.err)
    else if IsResultFile(f.name) then
      match PathFields(f)
      case Failure(e) => Outcome(st, Some(e))
      case Success(loc) =>
        match Ford.MatchFord(loc.fordName)
        case None => Outcome(st, None)
        case Some(m) =>
          var run := SheetsRun(f.sheets, ArticleConverter(Ford.Fid(m), CutFordNum(m)));
          Outcome(Append(st, run.emitted), run.err)
    else Outcome(st, None)
  }

  function Step(t: FordTable): (DbState, File) -> Outcome {
    (st, f) => ImportFileSpec(t, st, f)
  }

  /** The row loop of one result sheet. `ford_num` is cut again on every row before the row
      is converted with `convertWith(ford_num)`; it enters the loop either whole or already
      cut, and cutting is idempotent, so every row reads the same zone column. The import
      passes `fordNum => ArticleConverter(fid, fordNum)` as `convertWith`. */
  method InsertResultSheet(db: Database, rows: Sheet, code: string, fordNum: string,
                           convertWith: string -> (Row -> Result<Record, Error>))
    returns (err: Option<Error>, fordNumAfter: string)
    requires fordNum == code || fordNum == LegacyHelpers.TruncateString(code, 3)
    modifies db
    ensures db.State() == Append(old(db.State()), SheetRun(rows, convertWith(LegacyHelpers.TruncateString(code, 3))).emitted)
    ensures err == SheetRun(rows, convertWith(LegacyHelpers.TruncateString(code, 3))).err
    ensures fordNumAfter == fordNum || fordNumAfter == LegacyHelpers.TruncateString(code, 3)
  {
    ghost var key := LegacyHelpers.TruncateString(code, 3);
    ghost var conv := convertWith(key);
    LegacyHelpers.TruncateStringIdempotent(code, 3);
    ghost var start := db.State();
    ghost var done: seq<Statement> := [];
    fordNumAfter := fordNum;
    var i := 0;
    while i < |rows|
      invariant 0 <= i <= |rows|
      invariant fordNumAfter == fordNum || fordNumAfter == key
      invariant db.State() == Append(start, done)
      invariant SheetRun(rows, conv) == Prepend(done, SheetRun(rows[i..], conv))
    {
      fordNumAfter := LegacyHelpers.TruncateString(fordNumAfter, 3);
      assert fordNumAfter == key;
      SheetRunStep(rows, i, conv);
      match convertWith(fordNumAfter)(rows[i])
      case Failure(e) =>
        assert done + [] == done;
        return Some(e), fordNumAfter;
      case Success(rec) =>
        db.Execute(rec);
        AppendTwice(start, done, [InsertRecord(rec)]);
        PrependTwice(done, [InsertRecord(rec)], SheetRun(rows[i + 1..], conv));
        done := done + [InsertRecord(rec)];
      i := i + 1;
    }
    assert rows[i..] == [];
    db.Commit();
    AppendTwice(start, done, [Statement.Commit]);
    done := done + [Statement.Commit];
    err := None;
  }

  /** The sheet loop of one result file; `ford_num` starts as the whole code. */
  method InsertResultSheets(db: Database, sheets: seq<Sheet>, code: string,
                            convertWith: string -> (Row -> Result<Record, Error>))
    returns (err: Option<Error>)
    modifies db
    ensures db.State() == Append(old(db.State()), SheetsRun(sheets, convertWith(LegacyHelpers.TruncateString(code, 3))).emitted)
    ensures err == SheetsRun(sheets, convertWith(LegacyHelpers.TruncateString(code, 3))).err
  {
    ghost var conv := convertWith(LegacyHelpers.TruncateString(code, 3));
    ghost var start := db.State();
    ghost var done: seq<Statement> := [];
    var fordNum := code;
    var j := 0;
    while j < |sheets|
      invariant 0 <= j <= |sheets|
      invariant fordNum == code || fordNum == LegacyHelpers.TruncateString(code, 3)
      invariant db.State() == Append(start, done)
      invariant SheetsRun(sheets, conv) == Prepend(done, SheetsRun(sheets[j..], conv))
    {
      ghost var r := SheetRun(sheets[j], conv);
      SheetsRunStep(sheets, j, conv);
      err, fordNum := InsertResultSheet(db, sheets[j], code, fordNum, convertWith);
      AppendTwice(start, done, r.emitted);
      if err.Some? {
        return;
      }
      PrependTwice(done, r.emitted, SheetsRun(sheets[j + 1..], conv));
      done := done + r.emitted;
      j := j + 1;
    }
    assert sheets[j..] == [];
    assert done + [] == done;
    err := None;
  }

  /** One iteration of the file loop of `import_articles`. */
  method ImportFile(db: Database, t: FordTable, f: File) returns (err: Option<Error>)
    modifies db
    ensures db.State() == ImportFileSpec(t, old(db.State()), f).st
    ensures err == ImportFileSpec(t, old(db.State()), f).err
  {
    if IsJournalFile(f.name) {
      var loc := PathFields(f);
      if loc.Failure? {
        return Some(loc.error);
      }
      var m := Ford.MatchFord(loc.value.fordName);
      if m.None? {
        return None;
      }
      var fid := Ford.Fid(m.value);
      var sid := db.LookupSid(loc.value.fieldOfStudy);
      if sid.None? {
        return None;
      }
      db.EnsureFord(t, fid, sid.value, loc.value.fordName);
      err := db.InsertSheets(f.sheets, JournalConverter(fid));
    } else if IsResultFile(f.name) {
      var loc := PathFields(f);
      if loc.Failure? {
        return Some(loc.error);
      }
      var m := Ford.MatchFord(loc.value.fordName);
      if m.None? {
        return None;
      }
      var fid := Ford.Fid(m.value);
      var convertWith := fordNum => ArticleConverter(fid, fordNum);
      assert convertWith(CutFordNum(m.value)) == ArticleConverter(fid, CutFordNum(m.value));
      err := InsertResultSheets(db, f.sheets, m.value.major + "." + m.value.minor, convertWith);
    } else {
      err := None;
    }
  }

  /** `import_articles` over the files of the walk, writing FORD rows into table `t`. */
  method ImportArticles(db: Database, t: FordTable, files: seq<File>) returns (err: Option<Error>)
    modifies db
    ensures db.State() == Walk(old(db.State()), files, Step(t)).st
    ensures err == Walk(old(db.State()), files, Step(t)).err
  {
    var i := 0;
    while i < |files|
      invariant 0 <= i <= |files|
      invariant Walk(old(db.State()), files, Step(t)) == Walk(db.State(), files[i..], Step(t))
    {
      assert files[i..][1..] == files[i + 1..];
      err := ImportFile(db, t, files[i]);
      if err.Some? {
        return;
      }
      i := i + 1;
    }
    assert files[i..] == [];
    err := None;
  }

  /** `ford_num` of a result file is the ingest generation's `ford_num`: the first three
      characters of the code. */
  lemma {:induction false} CutFordNumIsFordNum(m: Ford.FordMatch)
    ensures CutFordNum(m) == Ford.FordNum(m)
    ensures |CutFordNum(m)| <= 3
  {
    IngestHelpers.TruncateStringVersusLegacy(m.major + "." + m.minor, 3);
  }

  /** A journal or result workbook directly in the base directory has no parent directory
      name, and `parts[-2]` raises before anything is sent. */
  lemma {:induction false} FileInBaseDirectoryRaises(t: FordTable, st: DbState, f: File)
    requires IsJournalFile(f.name) || IsResultFile(f.name)
    requires f.dirs == []
    ensures ImportFileSpec(t, st, f) == Outcome(st, Some(IndexError))
  {
  }

  /** A file whose name matches neither pattern, whose FORD field has no code, or, for a
      journal file, whose field of study is unknown, is skipped without a statement. */
  lemma {:induction false} ImportFileSkips(t: FordTable, st: DbState, f: File)
    requires f.dirs != []
    requires
      || (!IsJournalFile(f.name) && !IsResultFile(f.name))
      || Ford.MatchFord(PathFields(f).value.fordName).None?
      || (IsJournalFile(f.name) && Sid(st, PathFields(f).value.fieldOfStudy).None?)
    ensures ImportFileSpec(t, st, f) == Outcome(st, None)
  {
  }

  /** There is no `WoS` case: the directory itself is the FORD field, "WoS" has no code, and
      such a file is skipped. */
  lemma {:induction false} WoSDirectorySkipped(t: FordTable, st: DbState, f: File)
    requires f.dirs != [] && f.dirs[|f.dirs| - 1] == "WoS"
    ensures ImportFileSpec(t, st, f) == Outcome(st, None)
  {
    var parts := Components(f);
    assert parts[|parts| - 1] == "WoS";
    Ford.NoCodeWithoutDigit("WoS");
    if IsJournalFile(f.name) || IsResultFile(f.name) {
      ImportFileSkips(t, st, f);
    }
  }

  /** An imported journal file: its FORD row is ensured in `t` (and the other FORD table is
      not touched), then every row of every sheet becomes one journal record, with one commit
      per sheet and one more when the FORD row is new; an exception in a row is the file's
      outcome. */
  lemma {:induction false} JournalFileShape(t: FordTable, st: DbState, f: File)
    requires IsJournalFile(f.name) && f.dirs != []
    requires Ford.MatchFord(PathFields(f).value.fordName).Some?
    requires Sid(st, PathFields(f).value.fieldOfStudy).Some?
    ensures var o := ImportFileSpec(t, st, f);
      var fid := Ford.Fid(Ford.MatchFord(PathFields(f).value.fordName).value);
      var added := o.st.log[|st.log|..];
      && Grows(st, o.st)
      && fid in FordRows(o.st, t)
      && FordRows(o.st, if t == FieldFord then FieldsFord else FieldFord) == FordRows(st, if t == FieldFord then FieldsFord else FieldFord)
      && (o.err.None? <==> AllConvert(f.sheets, JournalConverter(fid)))
      && RecordsIn(added, JournalTable)
      && (o.err.None? ==>
            && CountRecords(added) == TotalRows(f.sheets)
            && CountCommits(added) == |f.sheets| + (if fid in FordRows(st, t) then 0 else 1))
  {
    var loc := PathFields(f).value;
    var fid := Ford.Fid(Ford.MatchFord(loc.fordName).value);
    var sid := Sid(st, loc.fieldOfStudy).value;
    var conv := JournalConverter(fid);
    assert ImportFileSpec(t, st, f) == Outcome(EnsureThenSheets(st, t, fid, sid, loc.fordName, f.sheets, conv),
                                               SheetsRun(f.sheets, conv).err);
    EnsureFordIdempotent(st, t, fid, sid, loc.fordName);
    EnsureThenSheetsShape(st, t, fid, sid, loc.fordName, f.sheets, conv);
    SheetsRunCounts(f.sheets, conv);
    EnsureThenSheetsTable(st, t, fid, sid, loc.fordName, f.sheets, conv, JournalTable);
  }

  /** An imported result file: the field of study is not looked up and no FORD table is
      touched; every row of every sheet becomes one article record, with one commit per
      sheet. */
  lemma {:induction false} ResultFileShape(t: FordTable, st: DbState, f: File)
    requires IsResultFile(f.name) && !IsJournalFile(f.name) && f.dirs != []
    requires Ford.MatchFord(PathFields(f).value.fordName).Some?
    ensures var o := ImportFileSpec(t, st, f);
      var m := Ford.MatchFord(PathFields(f).value.fordName).value;
      var conv := ArticleConverter(Ford.Fid(m), CutFordNum(m));
      var added := o.st.log[|st.log|..];
      && o.st == Append(st, added)
      && (o.err.None? <==> AllConvert(f.sheets, conv))
      && RecordsIn(added, ArticleTable)
      && (o.err.None? ==> CountRecords(added) == TotalRows(f.sheets) && CountCommits(added) == |f.sheets|)
  {
    var m := Ford.MatchFord(PathFields(f).value.fordName).value;
    var conv := ArticleConverter(Ford.Fid(m), CutFordNum(m));
    ResultFileRuns(t, st, f);
    ArticleConverterTable(Ford.Fid(m), CutFordNum(m));
    AppendRunShape(st, f.sheets, conv);
  }

  /** The result converter fills the article table. */
  lemma {:induction false} ArticleConverterTable(fid: int, fordNum: string)
    ensures forall row :: ArticleConverter(fid, fordNum)(row).Success? ==>
      ArticleConverter(fid, fordNum)(row).value.table == ArticleTable
  {
  }

  /** A result file with a code runs its workbook on the state as it is. */
  lemma {:induction false} ResultFileRuns(t: FordTable, st: DbState, f: File)
    requires IsResultFile(f.name) && !IsJournalFile(f.name) && f.dirs != []
    requires Ford.MatchFord(PathFields(f).value.fordName).Some?
    ensures var m := Ford.MatchFord(PathFields(f).value.fordName).value;
      var run := SheetsRun(f.sheets, ArticleConverter(Ford.Fid(m), CutFordNum(m)));
      ImportFileSpec(t, st, f) == Outcome(Append(st, run.emitted), run.err)
  {
  }

  /** Running a workbook and keeping its statements: what is added is the run's output. */
  lemma {:induction false} AppendRunShape(st: DbState, sheets: seq<Sheet>, conv: Row -> Result<Record, Error>)
    requires forall row :: conv(row).Success? ==> conv(row).value.table == ArticleTable
    ensures var run := SheetsRun(sheets, conv);
      var added := Append(st, run.emitted).log[|st.log|..];
      && Append(st, run.emitted) == Append(st, added)
      && (run.err.None? <==> AllConvert(sheets, conv))
      && RecordsIn(added, ArticleTable)
      && (run.err.None? ==> CountRecords(added) == TotalRows(sheets) && CountCommits(added) == |sheets|)
  {
    var run := SheetsRun(sheets, conv);
    assert (st.log + run.emitted)[|st.log|..] == run.emitted;
    SheetsRunCounts(sheets, conv);
    SheetsRunTable(sheets, conv, ArticleTable);
  }

  /** A legacy file step only adds to the database and keeps each FORD row inserted at most
      once. */
  lemma {:induction false} ImportFileKeeps(t: FordTable, st: DbState, f: File)
    ensures Grows(st, ImportFileSpec(t, st, f).st)
    ensures FordLogged(st) ==> FordLogged(ImportFileSpec(t, st, f).st)
  {
    if f.dirs != [] {
      var loc := PathFields(f).value;
      var m := Ford.MatchFord(loc.fordName);
      if IsJournalFile(f.name) && m.Some? && Sid(st, loc.fieldOfStudy).Some? {
        EnsureThenSheetsShape(st, t, Ford.Fid(m.value), Sid(st, loc.fieldOfStudy).value, loc.fordName,
                              f.sheets, JournalConverter(Ford.Fid(m.value)));
      } else if !IsJournalFile(f.name) && IsResultFile(f.name) && m.Some? {
        var conv := ArticleConverter(Ford.Fid(m.value), CutFordNum(m.value));
        forall u: FordTable, g: int ensures FordInserts(SheetsRun(f.sheets, conv).emitted, u, g) == 0 {
          SheetsRunNoFord(f.sheets, conv, u, g);
        }
        AppendKeepsFordLogged(st, SheetsRun(f.sheets, conv).emitted);
      }
    }
  }

  /** However many journal files share a FORD code, the legacy walk inserts its row at most
      once and never changes a row that is there; `field_of_study` is only read. */
  lemma {:induction false} ImportArticlesKeeps(t: FordTable, st: DbState, files: seq<File>)
    ensures Grows(st, Walk(st, files, Step(t)).st)
    ensures FordLogged(st) ==> FordLogged(Walk(st, files, Step(t)).st)
  {
    forall s: DbState, f: File ensures Grows(s, Step(t)(s, f).st) && (FordLogged(s) ==> FordLogged(Step(t)(s, f).st)) {
      ImportFileKeeps(t, s, f);
    }
    WalkKeeps(st, files, Step(t));
  }
}
