/** The article import of the `ingest` package (import/ingest/article.py): the pydantic entries
    and their validators, the derivation of the field of study and FORD field from a file's
    directory, and the walk that ensures the FORD row and inserts every sheet's rows. */
module IngestArticle {
  import opened Wrappers
  import opened Strings
  import opened Values
  import opened Store
  import H = Headers
  import IngestHelpers
  import Ford

  /** A row of the `journal` table. */
  datatype JournalEntry = JournalEntry(
    year: int, name: string, issn: Option<string>, eissn: Option<string>,
    articleCount: Option<int>, zone: string, czechOrSlovak: string, fid: int)

  /** A row of the `article` table. */
  datatype ArticleEntry = ArticleEntry(
    year: int, utWos: string, name: string, typeDoc: string, journalName: string,
    issn: Option<string>, eissn: Option<string>, fid: int, authors: string,
    voCorrespondingAuthor: Option<string>, authorCount: Option<int>, czechOrSlovak: string,
    vo: Option<string>, institutionCount: int, zone: string)

  /** `truncate_issn`: NaN (and None) become None, anything else `str(value)` cut to ten
      characters. */
  function TruncateIssn(value: Value): (r: Option<string>)
    ensures r.None? <==> IsNa(value)
    ensures r.Some? ==> |r.value| <= 10 && r.value <= PyStr(value)
    ensures r.Some? ==> (r.value == PyStr(value) <==> |PyStr(value)| <= 10)
  {
    if IsNa(value) then None
    else
      var s := PyStr(value);
      Some(if |s| > 10 then s[..10] else s)
  }

  /** `handle_nan` on `author_count`: NaN becomes None, anything else is kept. */
  function HandleNan(value: Value): (r: Value)
    ensures IsNa(value) ==> r == PyNone
    ensures !IsNa(value) ==> r == value
  {
    if IsNa(value) then PyNone else value
  }

  /** The `JournalEntry(...)` of one row of a Priloha_2 sheet: the keyword arguments are
      evaluated in order (a missing column raises `KeyError`, a bad year `int()`'s error), then
      pydantic validates the fields. */
  function MakeJournalEntry(row: Row, fid: int): (r: Result<JournalEntry, Error>)
    ensures r.Success? <==>
      && H.Year in row && PyInt(row[H.Year]).Success?
      && H.Title in row && H.Issn in row && H.EIssn in row && H.Zone in row && H.CzechOrSlovakJournal in row
      && row[H.Title].Str? && row[H.Zone].Str? && row[H.CzechOrSlovakJournal].Str?
      && OptionalIntField("article_count", Get(row, H.DocumentCount, PyNone)).Success?
    ensures r.Success? ==>
      && r.value.year == PyInt(row[H.Year]).value
      && r.value.name == row[H.Title].s
      && r.value.issn == TruncateIssn(row[H.Issn])
      && r.value.eissn == TruncateIssn(row[H.EIssn])
      && r.value.zone == row[H.Zone].s
      && r.value.czechOrSlovak == row[H.CzechOrSlovakJournal].s
      && r.value.fid == fid
      && r.value.articleCount == OptionalIntField("article_count", Get(row, H.DocumentCount, PyNone)).value
  {
    var yearCell :- GetItem(row, H.Year);
    var year :- PyInt(yearCell);
    var name :- GetItem(row, H.Title);
    var issn :- GetItem(row, H.Issn);
    var eissn :- GetItem(row, H.EIssn);
    var count := Get(row, H.DocumentCount, PyNone);
    var zone :- GetItem(row, H.Zone);
    var czechOrSlovak :- GetItem(row, H.CzechOrSlovakJournal);
    var nameField :- StrField("name", name);
    var countField :- OptionalIntField("article_count", count);
    var zoneField :- StrField("zone", zone);
    var czechOrSlovakField :- StrField("czech_or_slovak", czechOrSlovak);
    Success(JournalEntry(year, nameField, TruncateIssn(issn), TruncateIssn(eissn), countField,
                         zoneField, czechOrSlovakField, fid))
  }

  /** The `ArticleEntry(...)` of one row of a Priloha_3 sheet. */
  function MakeArticleEntry(row: Row, fid: int, fordNum: string): (r: Result<ArticleEntry, Error>)
    ensures r.Success? <==>
      && H.Year in row && PyInt(row[H.Year]).Success?
      && H.UtWos in row && H.Result in row && H.DocumentType in row && H.JournalName in row
      && H.Issn in row && H.EIssn in row && H.Authors in row && H.CzechOrSlovak in row
      && H.CzechInstitutions in row && Ford.ZoneColumn(fordNum) in row
      && row[H.UtWos].Str? && row[H.DocumentType].Str? && row[H.JournalName].Str?
      && row[H.CzechOrSlovak].Str? && row[Ford.ZoneColumn(fordNum)].Str?
      && OptionalIntField("author_count", HandleNan(Get(row, H.AuthorCount, Int(0)))).Success?
    ensures H.Year !in row ==> r == Failure(KeyError(H.Year))
    ensures r.Success? ==>
      && r.value.year == PyInt(row[H.Year]).value
      && r.value.fid == fid
      && r.value.institutionCount == 0
      && r.value.utWos == row[H.UtWos].s && r.value.typeDoc == row[H.DocumentType].s
      && r.value.journalName == row[H.JournalName].s && r.value.czechOrSlovak == row[H.CzechOrSlovak].s
      && r.value.issn == TruncateIssn(row[H.Issn]) && r.value.eissn == TruncateIssn(row[H.EIssn])
      && r.value.name == IngestHelpers.TruncateString(row[H.Result], 8000) && |r.value.name| <= 8000
      && r.value.authors == IngestHelpers.TruncateString(row[H.Authors], 8000) && |r.value.authors| <= 8000
      && r.value.voCorrespondingAuthor == Some(IngestHelpers.TruncateString(Get(row, H.CorrespondingAuthorVo, PyNone), 8000))
      && r.value.vo == Some(IngestHelpers.TruncateString(row[H.CzechInstitutions], 4000)) && |r.value.vo.value| <= 4000
      && r.value.zone == row[Ford.ZoneColumn(fordNum)].s
      && r.value.authorCount == (if IsNa(Get(row, H.AuthorCount, Int(0))) then None
                                 else OptionalIntField("author_count", Get(row, H.AuthorCount, Int(0))).value)
  {
    var yearCell :- GetItem(row, H.Year);
    var year :- PyInt(yearCell);
    var utWos :- GetItem(row, H.UtWos);
    var result :- GetItem(row, H.Result);
    var name := IngestHelpers.TruncateString(result, 8000);
    var typeDoc :- GetItem(row, H.DocumentType);
    var journalName :- GetItem(row, H.JournalName);
    var issn :- GetItem(row, H.Issn);
    var eissn :- GetItem(row, H.EIssn);
    var authorsCell :- GetItem(row, H.Authors);
    var authors := IngestHelpers.TruncateString(authorsCell, 8000);
    var correspondingVo := IngestHelpers.TruncateString(Get(row, H.CorrespondingAuthorVo, PyNone), 8000);
    var authorCount := Get(row, H.AuthorCount, Int(0));
    var czechOrSlovak :- GetItem(row, H.CzechOrSlovak);
    var voCell :- GetItem(row, H.CzechInstitutions);
    var vo := IngestHelpers.TruncateString(voCell, 4000);
    var zone :- GetItem(row, Ford.ZoneColumn(fordNum));
    var utWosField :- StrField("ut_wos", utWos);
    var typeDocField :- StrField("type_doc", typeDoc);
    var journalNameField :- StrField("journal_name", journalName);
    var authorCountField :- OptionalIntField("author_count", HandleNan(authorCount));
    var czechOrSlovakField :- StrField("czech_or_slovak", czechOrSlovak);
    var zoneField :- StrField("zone", zone);
    Success(ArticleEntry(year, utWosField, name, typeDocField, journalNameField, TruncateIssn(issn),
                         TruncateIssn(eissn), fid, authors, Some(correspondingVo), authorCountField,
                         czechOrSlovakField, Some(vo), 0, zoneField))
  }

  /** The value `insert_journal` binds to a column of the statement, looked up by name. */
  function JournalColumn(e: JournalEntry, column: string): SqlValue {
    match column
    case "year" => SqlInt(e.year)
    case "name" => SqlText(e.name)
    case "issn" => OptionalText(e.issn)
    case "eissn" => OptionalText(e.eissn)
    case "article_count" => OptionalInt(e.articleCount)
    case "zone" => SqlText(e.zone)
    case "czech_or_slovak" => SqlText(e.czechOrSlovak)
    case "fid" => SqlInt(e.fid)
    case _ => SqlNull
  }

  /** The value `insert_article` binds to a column of the statement, looked up by name. */
  function ArticleColumn(e: ArticleEntry, column: string): SqlValue {
    match column
    case "year" => SqlInt(e.year)
    case "UT_WoS" => SqlText(e.utWos)
    case "name" => SqlText(e.name)
    case "type" => SqlText(e.typeDoc)
    case "journal_name" => SqlText(e.journalName)
    case "issn" => OptionalText(e.issn)
    case "eissn" => OptionalText(e.eissn)
    case "fid" => SqlInt(e.fid)
    case "authors" => SqlText(e.authors)
    case "VO_coresponding_author" => OptionalText(e.voCorrespondingAuthor)
    case "author_count" => OptionalInt(e.authorCount)
    case "czech_or_slovak" => SqlText(e.czechOrSlovak)
    case "VO" => OptionalText(e.vo)
    case "institution_count" => SqlInt(e.institutionCount)
    case "zone" => SqlText(e.zone)
    case _ => SqlNull
  }

  /** `insert_journal`: the parameters follow the statement's column list. */
  function InsertJournal(e: JournalEntry): (r: Record)
    ensures r.table == JournalTable && |r.params| == |Columns(JournalTable)|
    ensures forall i :: 0 <= i < |r.params| ==> r.params[i] == JournalColumn(e, Columns(JournalTable)[i])
  {
    Record(JournalTable, [SqlInt(e.year), SqlText(e.name), OptionalText(e.issn), OptionalText(e.eissn),
                     OptionalInt(e.articleCount), SqlText(e.zone), SqlText(e.czechOrSlovak), SqlInt(e.fid)])
  }

  /** `insert_article`: the parameters follow the statement's column list. */
  function InsertArticle(e: ArticleEntry): (r: Record)
    ensures r.table == ArticleTable && |r.params| == |Columns(ArticleTable)|
    ensures forall i :: 0 <= i < |r.params| ==> r.params[i] == ArticleColumn(e, Columns(ArticleTable)[i])
  {
    Record(ArticleTable, [SqlInt(e.year), SqlText(e.utWos), SqlText(e.name), SqlText(e.typeDoc),
                     SqlText(e.journalName), OptionalText(e.issn), OptionalText(e.eissn), SqlInt(e.fid),
                     SqlText(e.authors), OptionalText(e.voCorrespondingAuthor), OptionalInt(e.authorCount),
                     SqlText(e.czechOrSlovak), OptionalText(e.vo), SqlInt(e.institutionCount), SqlText(e.zone)])
  }

  function JournalRecord(row: Row, fid: int): Result<Record, Error> {
    var e :- MakeJournalEntry(row, fid);
    Success(InsertJournal(e))
  }

  function ArticleRecord(row: Row, fid: int, fordNum: string): Result<Record, Error> {
    var e :- MakeArticleEntry(row, fid, fordNum);
    Success(InsertArticle(e))
  }

  /** The per-row branch of the sheet loop, chosen by the file name. */
  function RowConverter(fileName: string, fid: int, fordNum: string): Row -> Result<Record, Error> {
    if StartsWith(fileName, "Priloha_2") then row => JournalRecord(row, fid)
    else row => ArticleRecord(row, fid, fordNum)
  }

  /** Only workbooks whose name starts with Priloha_2 or Priloha_3 are imported. */
  predicate IsCandidate(fileName: string) {
    (StartsWith(fileName, "Priloha_2") || StartsWith(fileName, "Priloha_3")) && EndsWith(fileName, ".xlsx")
  }

  /** The field of study and the FORD field a file belongs to. */
  datatype Location = Location(fieldOfStudy: string, fordName: string)

  /** Under a `WoS` directory the FORD field is the parent directory and the field of study the
      grandparent; otherwise the FORD field is the directory itself and the field of study its
      parent. The field of study loses its ordinal. */
  function ClassifyPath(f: File): Location {
    if Ancestor(f, 0) == "WoS" then Location(IngestHelpers.StripPrefix(Ancestor(f, 2)), Ancestor(f, 1))
    else Location(IngestHelpers.StripPrefix(Ancestor(f, 1)), Ancestor(f, 0))
  }

  /** One file of the walk. */
  function ImportFileSpec(st: DbState, f: File): Outcome {
    if !IsCandidate(f.name) then Outcome(st, None)
    else
      var loc := ClassifyPath(f);
      match Ford.MatchFord(loc.fordName)
      case None => Outcome(st, None)
      case Some(m) =>
        var fid := Ford.Fid(m);
        match Sid(st, loc.fieldOfStudy)
        case None => Outcome(st, None)
        case Some(sid) =>
          var st1 := EnsureFordSpec(st, FieldFord, fid, sid, loc.fordName);
          var run := SheetsRun(f.sheets, RowConverter(f.name, fid, Ford.FordNum(m)));
          Outcome(Append(st1, run.emitted), run.err)
  }

  /** One iteration of the file loop of `import_articles`. */
  method ImportFile(db: Database, f: File) returns (err: Option<Error>)
    modifies db
    ensures db.State() == ImportFileSpec(old(db.State()), f).st
    ensures err == ImportFileSpec(old(db.State()), f).err
  {
    if !IsCandidate(f.name) {
      return None;
    }
    var loc := ClassifyPath(f);
    var m := Ford.MatchFord(loc.fordName);
    if m.None? {
      return None;
    }
    var fid := Ford.Fid(m.value);
    var sid := db.LookupSid(loc.fieldOfStudy);
    if sid.None? {
      return None;
    }
    db.EnsureFord(FieldFord, fid, sid.value, loc.fordName);
    err := db.InsertSheets(f.sheets, RowConverter(f.name, fid, Ford.FordNum(m.value)));
  }

  /** `import_articles` over the files of the walk, in walk order. */
  method ImportArticles(db: Database, files: seq<File>) returns (err: Option<Error>)
    modifies db
    ensures db.State() == Walk(old(db.State()), files, ImportFileSpec).st
    ensures err == Walk(old(db.State()), files, ImportFileSpec).err
  {
    var i := 0;
    while i < |files|
      invariant 0 <= i <= |files|
      invariant Walk(old(db.State()), files, ImportFileSpec) == Walk(db.State(), files[i..], ImportFileSpec)
    {
      assert files[i..][1..] == files[i + 1..];
      err := ImportFile(db, files[i]);
      if err.Some? {
        return;
      }
      i := i + 1;
    }
    assert files[i..] == [];
    err := None;
  }

  /** The cases of import/tests/article_test.py, with floats given as the text `str` makes of
      them. */
  lemma TruncateIssnExamples()
    ensures TruncateIssn(Str("1234567890")) == Some("1234567890")
    ensures TruncateIssn(Str("12345678901")) == Some("1234567890")
    ensures TruncateIssn(Str("123456789022")) == Some("1234567890")
    ensures TruncateIssn(Str("098765432133")) == Some("0987654321")
    ensures TruncateIssn(Str("1525.5555")) == Some("1525.5555")
    ensures TruncateIssn(Str("123456.78901")) == Some("123456.789")
    ensures TruncateIssn(PyNone) == None && TruncateIssn(NaN) == None
  {
    assert "12345678901"[..10] == "1234567890";
    assert "123456789022"[..10] == "1234567890";
    assert "098765432133"[..10] == "0987654321";
    assert "123456.78901"[..10] == "123456.789";
  }

  /** A file under `<field of study>/<FORD field>/WoS` belongs to that FORD field. */
  lemma {:induction false} ClassifyPathWoS(parents: seq<string>, fieldOfStudy: string, fordName: string, name: string, sheets: seq<Sheet>)
    ensures ClassifyPath(File(parents + [fieldOfStudy, fordName, "WoS"], name, sheets))
      == Location(IngestHelpers.StripPrefix(fieldOfStudy), fordName)
  {
    var f := File(parents + [fieldOfStudy, fordName, "WoS"], name, sheets);
    var c := Components(f);
    assert c[|c| - 1] == "WoS" && c[|c| - 2] == fordName && c[|c| - 3] == fieldOfStudy;
  }

  /** A file directly in `<field of study>/<FORD field>` belongs to that FORD field. */
  lemma {:induction false} ClassifyPathPlain(parents: seq<string>, fieldOfStudy: string, fordName: string, name: string, sheets: seq<Sheet>)
    requires fordName != "WoS"
    ensures ClassifyPath(File(parents + [fieldOfStudy, fordName], name, sheets))
      == Location(IngestHelpers.StripPrefix(fieldOfStudy), fordName)
  {
    var f := File(parents + [fieldOfStudy, fordName], name, sheets);
    var c := Components(f);
    assert c[|c| - 1] == fordName && c[|c| - 2] == fieldOfStudy;
  }

  /** A file that is not a candidate, whose FORD field has no code, or whose field of study
      is unknown is skipped: nothing is read from it and nothing is sent. */
  lemma {:induction false} ImportFileSkips(st: DbState, f: File)
    requires
      || !IsCandidate(f.name)
      || Ford.MatchFord(ClassifyPath(f).fordName).None?
      || Sid(st, ClassifyPath(f).fieldOfStudy).None?
    ensures ImportFileSpec(st, f) == Outcome(st, None)
  {
  }

  /** Every branch of the per-row converter fills its own table. */
  lemma {:induction false} RowConverterTable(fileName: string, fid: int, fordNum: string)
    ensures var conv := RowConverter(fileName, fid, fordNum);
      forall row :: conv(row).Success? ==>
        conv(row).value.table == if StartsWith(fileName, "Priloha_2") then JournalTable else ArticleTable
  {
  }

  /** An imported file ensures its FORD row, then runs its workbook with the converter its
      name selects. */
  lemma {:induction false} ImportFileSpecImported(st: DbState, f: File)
    requires IsCandidate(f.name)
    requires Ford.MatchFord(ClassifyPath(f).fordName).Some?
    requires Sid(st, ClassifyPath(f).fieldOfStudy).Some?
    ensures var loc := ClassifyPath(f);
      var m := Ford.MatchFord(loc.fordName).value;
      var conv := RowConverter(f.name, Ford.Fid(m), Ford.FordNum(m));
      ImportFileSpec(st, f) == Outcome(
        EnsureThenSheets(st, FieldFord, Ford.Fid(m), Sid(st, loc.fieldOfStudy).value, loc.fordName, f.sheets, conv),
        SheetsRun(f.sheets, conv).err)
  {
  }

  /** An imported file: the FORD row is ensured first, then every row of every sheet becomes
      one record of the table its file name selects, with one commit per sheet (and one more
      when the FORD row is new); an exception in any row is the file's outcome. */
  lemma {:induction false} ImportFileShape(st: DbState, f: File)
    requires IsCandidate(f.name)
    requires Ford.MatchFord(ClassifyPath(f).fordName).Some?
    requires Sid(st, ClassifyPath(f).fieldOfStudy).Some?
    ensures var o := ImportFileSpec(st, f);
      var m := Ford.MatchFord(ClassifyPath(f).fordName).value;
      var conv := RowConverter(f.name, Ford.Fid(m), Ford.FordNum(m));
      var added := o.st.log[|st.log|..];
      && Grows(st, o.st)
      && Ford.Fid(m) in o.st.fieldFord
      && (o.err.None? <==> AllConvert(f.sheets, conv))
      && RecordsIn(added, if StartsWith(f.name, "Priloha_2") then JournalTable else ArticleTable)
      && (o.err.None? ==>
            && CountRecords(added) == TotalRows(f.sheets)
            && CountCommits(added) == |f.sheets| + (if Ford.Fid(m) in st.fieldFord then 0 else 1))
  {
    var loc := ClassifyPath(f);
    var m := Ford.MatchFord(loc.fordName).value;
    var fid := Ford.Fid(m);
    var sid := Sid(st, loc.fieldOfStudy).value;
    var conv := RowConverter(f.name, fid, Ford.FordNum(m));
    ImportFileSpecImported(st, f);
    EnsureThenSheetsShape(st, FieldFord, fid, sid, loc.fordName, f.sheets, conv);
    SheetsRunCounts(f.sheets, conv);
    RowConverterTable(f.name, fid, Ford.FordNum(m));
    EnsureThenSheetsTable(st, FieldFord, fid, sid, loc.fordName, f.sheets, conv,
                          if StartsWith(f.name, "Priloha_2") then JournalTable else ArticleTable);
  }

  /** A file step only adds to the database and keeps each FORD row inserted at most once. */
  lemma {:induction false} ImportFileKeeps(st: DbState, f: File)
    ensures Grows(st, ImportFileSpec(st, f).st)
    ensures FordLogged(st) ==> FordLogged(ImportFileSpec(st, f).st)
  {
    var loc := ClassifyPath(f);
    if IsCandidate(f.name) && Ford.MatchFord(loc.fordName).Some? && Sid(st, loc.fieldOfStudy).Some? {
      var m := Ford.MatchFord(loc.fordName).value;
      ImportFileSpecImported(st, f);
      EnsureThenSheetsShape(st, FieldFord, Ford.Fid(m), Sid(st, loc.fieldOfStudy).value, loc.fordName,
                            f.sheets, RowConverter(f.name, Ford.Fid(m), Ford.FordNum(m)));
    }
  }

  /** However many files share a FORD code, the walk inserts its row at most once and never
      changes a row that is there; `field_of_study` is only read. */
  lemma {:induction false} ImportArticlesKeeps(st: DbState, files: seq<File>)
    ensures Grows(st, Walk(st, files, ImportFileSpec).st)
    ensures FordLogged(st) ==> FordLogged(Walk(st, files, ImportFileSpec).st)
  {
    forall s: DbState, f: File ensures Grows(s, ImportFileSpec(s, f).st) && (FordLogged(s) ==> FordLogged(ImportFileSpec(s, f).st)) {
      ImportFileKeeps(s, f);
    }
    WalkKeeps(st, files, ImportFileSpec);
  }

  /** A missing corresponding-author column is stored as the text "None", an empty cell as
      "nan": `str()` is applied before the truncation, whatever the value. */
  lemma {:induction false} CorrespondingAuthorOfMissingCell(row: Row, fid: int, fordNum: string)
    requires MakeArticleEntry(row, fid, fordNum).Success?
    ensures H.CorrespondingAuthorVo !in row ==> MakeArticleEntry(row, fid, fordNum).value.voCorrespondingAuthor == Some("None")
    ensures H.CorrespondingAuthorVo in row && row[H.CorrespondingAuthorVo] == NaN ==>
      MakeArticleEntry(row, fid, fordNum).value.voCorrespondingAuthor == Some("nan")
  {
  }
}
