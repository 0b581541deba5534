/** The database as the import scripts use it through a cursor: the reference tables they
    read (`field_of_study`) or fill on demand (`field_ford`, or `fields_ford` in the monolithic
    script), and the statements they send, in order. The spreadsheet files the directory walk
    yields are given as values. */
module Store {
  import opened Wrappers
  import opened Values

  /** The rows of one sheet, in `iterrows` order. */
  type Sheet = seq<Row>

  /** A file found by the directory walk: the directories from the walk's base `.` down to
      it, its name, and the sheets of the workbook, in `sheet_names` order. */
  datatype File = File(dirs: seq<string>, name: string, sheets: seq<Sheet>)

  /** `root.split(os.sep)` for the walk root `./d1/.../dn` of the file. */
  function Components(f: File): (r: seq<string>)
    ensures |r| == |f.dirs| + 1 && r[0] == "."
  {
    ["."] + f.dirs
  }

  /** `os.path.basename` of the walk root after `k` applications of `os.path.dirname`;
      above the base `.` both give the empty string. */
  function Ancestor(f: File, k: nat): string {
    var c := Components(f);
    if k < |c| then c[|c| - 1 - k] else ""
  }

  /** The two names the FORD reference table has in the scripts. */
  datatype FordTable = FieldFord | FieldsFord

  function FordTableName(t: FordTable): string {
    match t
    case FieldFord => "field_ford"
    case FieldsFord => "fields_ford"
  }

  /** The tables the record rows go to. */
  datatype DataTable = JournalTable | ArticleTable | InstitutionTable

  /** The column list of each `INSERT`, in the order the statements name them. */
  function Columns(t: DataTable): (r: seq<string>)
    ensures t == JournalTable ==> |r| == 8
    ensures t == ArticleTable ==> |r| == 15
    ensures t == InstitutionTable ==> |r| == 8
  {
    match t
    case JournalTable => ["year", "name", "issn", "eissn", "article_count", "zone", "czech_or_slovak", "fid"]
    case ArticleTable => ["year", "UT_WoS", "name", "type", "journal_name", "issn", "eissn", "fid", "authors",
                     "VO_coresponding_author", "author_count", "czech_or_slovak", "VO", "institution_count", "zone"]
    case InstitutionTable => ["name", "ico", "street", "psc", "town", "legal_form", "main_goal", "created"]
  }

  /** One parameterised `INSERT` of a record row: its table and its parameters. */
  datatype Record = Record(table: DataTable, params: seq<SqlValue>)

  /** A `(sid, name)` row of the FORD table, keyed by `fid`. */
  datatype FordRow = FordRow(sid: int, name: string)

  /** A statement sent through the cursor. */
  datatype Statement =
    | InsertRecord(rec: Record)
    | InsertFord(ford: FordTable, fid: int, sid: int, name: string)
    | Commit

  /** The part of the database the import reads and writes, with every statement sent. */
  datatype DbState = DbState(
    fieldOfStudy: map<string, int>,
    fieldFord: map<int, FordRow>,
    fieldsFord: map<int, FordRow>,
    log: seq<Statement>)

  function FordRows(st: DbState, t: FordTable): map<int, FordRow> {
    match t
    case FieldFord => st.fieldFord
    case FieldsFord => st.fieldsFord
  }

  /** `SELECT sid FROM field_of_study WHERE name = ?` and `fetchone`. */
  function Sid(st: DbState, name: string): (r: Option<int>)
    ensures r.Some? <==> name in st.fieldOfStudy
    ensures r.Some? ==> r.value == st.fieldOfStudy[name]
  {
    if name in st.fieldOfStudy then Some(st.fieldOfStudy[name]) else None
  }

  /** The state after sending `stmts`, none of which writes a reference table. */
  function Append(st: DbState, stmts: seq<Statement>): DbState {
    st.(log := st.log + stmts)
  }

  lemma {:induction false} AppendTwice(st: DbState, a: seq<Statement>, b: seq<Statement>)
    ensures Append(Append(st, a), b) == Append(st, a + b)
  {
    assert st.log + a + b == st.log + (a + b);
  }

  /** Insert `(fid, sid, name)` into the FORD table and commit, unless `fid` is there. */
  function EnsureFordSpec(st: DbState, t: FordTable, fid: int, sid: int, name: string): DbState {
    if fid in FordRows(st, t) then st
    else
      var log := st.log + [InsertFord(t, fid, sid, name), Commit];
      match t
      case FieldFord => st.(fieldFord := st.fieldFord[fid := FordRow(sid, name)], log := log)
      case FieldsFord => st.(fieldsFord := st.fieldsFord[fid := FordRow(sid, name)], log := log)
  }

  /** What a run (a sheet, a workbook) sends, and the exception that ended it, if any. */
  datatype Run = Run(emitted: seq<Statement>, err: Option<Error>)

  function Prepend(done: seq<Statement>, r: Run): Run {
    Run(done + r.emitted, r.err)
  }

  lemma {:induction false} PrependTwice(a: seq<Statement>, b: seq<Statement>, r: Run)
    ensures Prepend(a, Prepend(b, r)) == Prepend(a + b, r)
  {
  }

  /** A workbook run, one sheet at a time. */
  lemma {:induction false} SheetsRunStep(sheets: seq<Sheet>, j: nat, conv: Row -> Result<Record, Error>)
    requires j < |sheets|
    ensures SheetRun(sheets[j], conv).err.Some? ==> SheetsRun(sheets[j..], conv) == SheetRun(sheets[j], conv)
    ensures SheetRun(sheets[j], conv).err.None? ==>
      SheetsRun(sheets[j..], conv) == Prepend(SheetRun(sheets[j], conv).emitted, SheetsRun(sheets[j + 1..], conv))
  {
    assert sheets[j..][1..] == sheets[j + 1..];
  }

  /** A sheet run, one row at a time. */
  lemma {:induction false} SheetRunStep(rows: Sheet, i: nat, conv: Row -> Result<Record, Error>)
    requires i < |rows|
    ensures conv(rows[i]).Failure? ==> SheetRun(rows[i..], conv) == Run([], Some(conv(rows[i]).error))
    ensures conv(rows[i]).Success? ==>
      SheetRun(rows[i..], conv) == Prepend([InsertRecord(conv(rows[i]).value)], SheetRun(rows[i + 1..], conv))
  {
    assert rows[i..][0] == rows[i];
    assert rows[i..][1..] == rows[i + 1..];
  }

  /** The row loop of a sheet followed by `conn.commit()`: one `INSERT` per row, in row
      order; an exception while converting a row ends the run before the commit. */
  function SheetRun(rows: Sheet, conv: Row -> Result<Record, Error>): Run
    decreases |rows|
  {
    if rows == [] then Run([Commit], None)
    else match conv(rows[0])
      case Failure(e) => Run([], Some(e))
      case Success(rec) => Prepend([InsertRecord(rec)], SheetRun(rows[1..], conv))
  }

  /** The sheet loop of a workbook: the sheets' runs one after another, up to the first
      exception. */
  function SheetsRun(sheets: seq<Sheet>, conv: Row -> Result<Record, Error>): Run
    decreases |sheets|
  {
    if sheets == [] then Run([], None)
    else
      var r := SheetRun(sheets[0], conv);
      if r.err.Some? then r else Prepend(r.emitted, SheetsRun(sheets[1..], conv))
  }

  function CountCommits(log: seq<Statement>): nat
    decreases |log|
  {
    if log == [] then 0 else (if log[0].Commit? then 1 else 0) + CountCommits(log[1..])
  }

  function CountRecords(log: seq<Statement>): nat
    decreases |log|
  {
    if log == [] then 0 else (if log[0].InsertRecord? then 1 else 0) + CountRecords(log[1..])
  }

  /** How many rows with key `fid` the statements insert into the FORD table `t`. */
  function FordInserts(log: seq<Statement>, t: FordTable, fid: int): nat
    decreases |log|
  {
    if log == [] then 0
    else (if log[0].InsertFord? && log[0].ford == t && log[0].fid == fid then 1 else 0) + FordInserts(log[1..], t, fid)
  }

  function TotalRows(sheets: seq<Sheet>): nat
    decreases |sheets|
  {
    if sheets == [] then 0 else |sheets[0]| + TotalRows(sheets[1..])
  }

  /** Every row of every sheet converts. */
  predicate AllConvert(sheets: seq<Sheet>, conv: Row -> Result<Record, Error>) {
    forall k, i :: 0 <= k < |sheets| && 0 <= i < |sheets[k]| ==> conv(sheets[k][i]).Success?
  }

  lemma {:induction false} CountsAppend(a: seq<Statement>, b: seq<Statement>, t: FordTable, fid: int)
    ensures CountCommits(a + b) == CountCommits(a) + CountCommits(b)
    ensures CountRecords(a + b) == CountRecords(a) + CountRecords(b)
    ensures FordInserts(a + b, t, fid) == FordInserts(a, t, fid) + FordInserts(b, t, fid)
    decreases |a|
  {
    if a == [] {
      assert a + b == b;
    } else {
      assert (a + b)[1..] == a[1..] + b;
      CountsAppend(a[1..], b, t, fid);
    }
  }

  /** A sheet whose rows all convert sends exactly one `INSERT` per row, in row order, each
      that row's record, then one commit; a sheet with a failing row ends at the first such
      row, with the records of the rows before it sent and no commit. */
  lemma {:induction false} SheetRunShape(rows: Sheet, conv: Row -> Result<Record, Error>)
    ensures SheetRun(rows, conv).err.None? <==> forall i :: 0 <= i < |rows| ==> conv(rows[i]).Success?
    ensures SheetRun(rows, conv).err.None? ==>
      && |SheetRun(rows, conv).emitted| == |rows| + 1
      && (forall i :: 0 <= i < |rows| ==> SheetRun(rows, conv).emitted[i] == InsertRecord(conv(rows[i]).value))
      && SheetRun(rows, conv).emitted[|rows|] == Commit
    ensures SheetRun(rows, conv).err.Some? ==>
      var k := |SheetRun(rows, conv).emitted|;
      && k < |rows|
      && conv(rows[k]) == Failure(SheetRun(rows, conv).err.value)
      && (forall i :: 0 <= i < k ==> conv(rows[i]).Success? && SheetRun(rows, conv).emitted[i] == InsertRecord(conv(rows[i]).value))
    decreases |rows|
  {
    if rows != [] {
      SheetRunShape(rows[1..], conv);
      var tail := SheetRun(rows[1..], conv);
      if conv(rows[0]).Success? {
        assert forall i :: 1 <= i < |rows| ==> rows[1..][i - 1] == rows[i];
        if tail.err.None? {
          assert forall i :: 0 <= i < |rows| ==> conv(rows[i]).Success? by {
            forall i | 0 <= i < |rows| ensures conv(rows[i]).Success? {
              if i > 0 { assert rows[1..][i - 1] == rows[i]; }
            }
          }
        } else {
          assert !conv(rows[|tail.emitted| + 1]).Success?;
        }
      }
    }
  }

  /** A sheet run that raised sends no commit. */
  lemma {:induction false} NoCommitBeforeFailure(rows: Sheet, conv: Row -> Result<Record, Error>)
    requires SheetRun(rows, conv).err.Some?
    ensures CountCommits(SheetRun(rows, conv).emitted) == 0
    decreases |rows|
  {
    if conv(rows[0]).Success? {
      NoCommitBeforeFailure(rows[1..], conv);
      CountsAppend([InsertRecord(conv(rows[0]).value)], SheetRun(rows[1..], conv).emitted, FieldFord, 0);
    }
  }

  /** On success a workbook sends one commit per sheet and one record per row. */
  lemma {:induction false} SheetsRunCounts(sheets: seq<Sheet>, conv: Row -> Result<Record, Error>)
    ensures SheetsRun(sheets, conv).err.None? <==> AllConvert(sheets, conv)
    ensures SheetsRun(sheets, conv).err.None? ==>
      && CountCommits(SheetsRun(sheets, conv).emitted) == |sheets|
      && CountRecords(SheetsRun(sheets, conv).emitted) == TotalRows(sheets)
    decreases |sheets|
  {
    if sheets != [] {
      var r := SheetRun(sheets[0], conv);
      SheetRunShape(sheets[0], conv);
      SheetsRunCounts(sheets[1..], conv);
      assert forall k :: 1 <= k < |sheets| ==> sheets[1..][k - 1] == sheets[k];
      if r.err.None? {
        SheetRunCounts(sheets[0], conv);
        CountsAppend(r.emitted, SheetsRun(sheets[1..], conv).emitted, FieldFord, 0);
        if !AllConvert(sheets, conv) {
          var k, i :| 0 <= k < |sheets| && 0 <= i < |sheets[k]| && !conv(sheets[k][i]).Success?;
          assert k > 0;
          assert sheets[1..][k - 1] == sheets[k];
        }
      } else {
        assert !AllConvert(sheets, conv) by {
          var i := |r.emitted|;
          assert !conv(sheets[0][i]).Success?;
        }
      }
    }
  }

  /** A successful sheet run sends one commit and one record per row. */
  lemma {:induction false} SheetRunCounts(rows: Sheet, conv: Row -> Result<Record, Error>)
    requires SheetRun(rows, conv).err.None?
    ensures CountCommits(SheetRun(rows, conv).emitted) == 1
    ensures CountRecords(SheetRun(rows, conv).emitted) == |rows|
    decreases |rows|
  {
    if rows != [] {
      SheetRunCounts(rows[1..], conv);
      var rec := conv(rows[0]).value;
      CountsAppend([InsertRecord(rec)], SheetRun(rows[1..], conv).emitted, FieldFord, 0);
    }
  }

  /** No statement of a sheet or workbook run writes a FORD table. */
  lemma {:induction false} SheetsRunNoFord(sheets: seq<Sheet>, conv: Row -> Result<Record, Error>, t: FordTable, fid: int)
    ensures FordInserts(SheetsRun(sheets, conv).emitted, t, fid) == 0
    decreases |sheets|
  {
    if sheets != [] {
      SheetRunNoFord(sheets[0], conv, t, fid);
      var r := SheetRun(sheets[0], conv);
      if r.err.None? {
        SheetsRunNoFord(sheets[1..], conv, t, fid);
        CountsAppend(r.emitted, SheetsRun(sheets[1..], conv).emitted, t, fid);
      }
    }
  }

  lemma {:induction false} SheetRunNoFord(rows: Sheet, conv: Row -> Result<Record, Error>, t: FordTable, fid: int)
    ensures FordInserts(SheetRun(rows, conv).emitted, t, fid) == 0
    decreases |rows|
  {
    if rows != [] && conv(rows[0]).Success? {
      SheetRunNoFord(rows[1..], conv, t, fid);
      CountsAppend([InsertRecord(conv(rows[0]).value)], SheetRun(rows[1..], conv).emitted, t, fid);
    }
  }

  /** Every record the statements insert goes to table `t`. */
  predicate RecordsIn(log: seq<Statement>, t: DataTable) {
    forall i :: 0 <= i < |log| && log[i].InsertRecord? ==> log[i].rec.table == t
  }

  /** A converter whose records all go to one table fills only that table. */
  lemma {:induction false} SheetsRunTable(sheets: seq<Sheet>, conv: Row -> Result<Record, Error>, t: DataTable)
    requires forall row :: conv(row).Success? ==> conv(row).value.table == t
    ensures RecordsIn(SheetsRun(sheets, conv).emitted, t)
    decreases |sheets|
  {
    if sheets != [] {
      SheetRunShape(sheets[0], conv);
      if SheetRun(sheets[0], conv).err.None? {
        SheetsRunTable(sheets[1..], conv, t);
      }
    }
  }

  /** The states a walk goes through: nothing is deleted or updated, statements are only
      added, and `field_of_study` is only read. */
  predicate Grows(a: DbState, b: DbState) {
    && b.fieldOfStudy == a.fieldOfStudy
    && a.fieldFord.Keys <= b.fieldFord.Keys && (forall fid :: fid in a.fieldFord ==> b.fieldFord[fid] == a.fieldFord[fid])
    && a.fieldsFord.Keys <= b.fieldsFord.Keys && (forall fid :: fid in a.fieldsFord ==> b.fieldsFord[fid] == a.fieldsFord[fid])
    && a.log <= b.log
  }

  /** Each FORD row the statements insert is inserted once, and is in the table. */
  ghost predicate FordLogged(st: DbState) {
    forall t: FordTable, fid: int :: FordInserts(st.log, t, fid) <= 1 && (FordInserts(st.log, t, fid) == 1 ==> fid in FordRows(st, t))
  }

  /** Ensuring a FORD row is idempotent, and inserts the row only when its key is absent. */
  lemma {:induction false} EnsureFordIdempotent(st: DbState, t: FordTable, fid: int, sid: int, name: string)
    ensures var st1 := EnsureFordSpec(st, t, fid, sid, name);
      && EnsureFordSpec(st1, t, fid, sid, name) == st1
      && fid in FordRows(st1, t)
      && (fid in FordRows(st, t) ==> FordRows(st1, t)[fid] == FordRows(st, t)[fid])
      && (fid !in FordRows(st, t) ==> FordRows(st1, t)[fid] == FordRow(sid, name))
      && Grows(st, st1)
      && FordRows(st1, if t == FieldFord then FieldsFord else FieldFord) == FordRows(st, if t == FieldFord then FieldsFord else FieldFord)
  {
  }

  /** The FORD-row invariant survives an ensure and any record or commit statements. */
  lemma {:induction false} EnsureFordKeepsFordLogged(st: DbState, t: FordTable, fid: int, sid: int, name: string)
    requires FordLogged(st)
    ensures FordLogged(EnsureFordSpec(st, t, fid, sid, name))
  {
    var st1 := EnsureFordSpec(st, t, fid, sid, name);
    if fid !in FordRows(st, t) {
      forall u: FordTable, g: int
        ensures FordInserts(st1.log, u, g) <= 1 && (FordInserts(st1.log, u, g) == 1 ==> g in FordRows(st1, u))
      {
        CountsAppend(st.log, [InsertFord(t, fid, sid, name), Commit], u, g);
        assert [InsertFord(t, fid, sid, name), Commit][1..] == [Commit];
        assert [Commit][1..] == [];
        assert FordInserts([InsertFord(t, fid, sid, name), Commit], u, g) == if u == t && g == fid then 1 else 0;
      }
    }
  }

  lemma {:induction false} AppendKeepsFordLogged(st: DbState, stmts: seq<Statement>)
    requires forall t: FordTable, fid: int :: FordInserts(stmts, t, fid) == 0
    ensures FordLogged(st) ==> FordLogged(Append(st, stmts))
    ensures Grows(st, Append(st, stmts))
  {
    forall t: FordTable, fid: int ensures FordInserts(st.log + stmts, t, fid) == FordInserts(st.log, t, fid) {
      CountsAppend(st.log, stmts, t, fid);
    }
  }

  /** The state after ensuring a FORD row and then running a workbook. */
  function EnsureThenSheets(st: DbState, t: FordTable, fid: int, sid: int, name: string,
                            sheets: seq<Sheet>, conv: Row -> Result<Record, Error>): DbState {
    Append(EnsureFordSpec(st, t, fid, sid, name), SheetsRun(sheets, conv).emitted)
  }

  /** Ensuring a FORD row and running a workbook: the row is there afterwards, on success one
      commit per sheet (one more when the row is new) and one record per row are sent, and
      nothing is removed or inserted into a FORD table twice. */
  lemma {:induction false} EnsureThenSheetsShape(st: DbState, t: FordTable, fid: int, sid: int, name: string,
                                                 sheets: seq<Sheet>, conv: Row -> Result<Record, Error>)
    ensures var st2 := EnsureThenSheets(st, t, fid, sid, name, sheets, conv);
      var added := st2.log[|st.log|..];
      && Grows(st, st2)
      && fid in FordRows(st2, t)
      && (SheetsRun(sheets, conv).err.None? ==>
            && CountRecords(added) == TotalRows(sheets)
            && CountCommits(added) == |sheets| + (if fid in FordRows(st, t) then 0 else 1))
      && (FordLogged(st) ==> FordLogged(st2))
  {
    EnsureThenSheetsKeeps(st, t, fid, sid, name, sheets, conv);
    if SheetsRun(sheets, conv).err.None? {
      EnsureThenSheetsCounts(st, t, fid, sid, name, sheets, conv);
    }
  }

  /** The log only grows, the FORD row is there afterwards and a duplicate-free FORD log stays
      duplicate-free. */
  lemma {:induction false} EnsureThenSheetsKeeps(st: DbState, t: FordTable, fid: int, sid: int, name: string,
                                                 sheets: seq<Sheet>, conv: Row -> Result<Record, Error>)
    ensures var st2 := EnsureThenSheets(st, t, fid, sid, name, sheets, conv);
      && Grows(st, st2)
      && fid in FordRows(st2, t)
      && (FordLogged(st) ==> FordLogged(st2))
  {
    var st1 := EnsureFordSpec(st, t, fid, sid, name);
    var run := SheetsRun(sheets, conv);
    EnsureFordIdempotent(st, t, fid, sid, name);
    forall u: FordTable, g: int ensures FordInserts(run.emitted, u, g) == 0 {
      SheetsRunNoFord(sheets, conv, u, g);
    }
    if FordLogged(st) {
      EnsureFordKeepsFordLogged(st, t, fid, sid, name);
    }
    AppendKeepsFordLogged(st1, run.emitted);
  }

  /** On success, one record per row and one commit per sheet, plus one for a new FORD row. */
  lemma {:induction false} EnsureThenSheetsCounts(st: DbState, t: FordTable, fid: int, sid: int, name: string,
                                                  sheets: seq<Sheet>, conv: Row -> Result<Record, Error>)
    requires SheetsRun(sheets, conv).err.None?
    ensures var added := EnsureThenSheets(st, t, fid, sid, name, sheets, conv).log[|st.log|..];
      && CountRecords(added) == TotalRows(sheets)
      && CountCommits(added) == |sheets| + (if fid in FordRows(st, t) then 0 else 1)
  {
    var st1 := EnsureFordSpec(st, t, fid, sid, name);
    var run := SheetsRun(sheets, conv);
    EnsureFordIdempotent(st, t, fid, sid, name);
    var ensured := st1.log[|st.log|..];
    assert st1.log == st.log + ensured;
    assert ensured == (if fid in FordRows(st, t) then [] else [InsertFord(t, fid, sid, name), Commit]);
    var added := EnsureThenSheets(st, t, fid, sid, name, sheets, conv).log[|st.log|..];
    assert added == ensured + run.emitted;
    SheetsRunCounts(sheets, conv);
    CountsAppend(ensured, run.emitted, t, fid);
    if fid !in FordRows(st, t) {
      assert [InsertFord(t, fid, sid, name), Commit][1..] == [Commit];
      assert [Commit][1..] == [];
    }
  }

  /** The records such a step sends all go to the converter's table. */
  lemma {:induction false} EnsureThenSheetsTable(st: DbState, t: FordTable, fid: int, sid: int, name: string,
                              sheets: seq<Sheet>, conv: Row -> Result<Record, Error>, table: DataTable)
    requires forall row :: conv(row).Success? ==> conv(row).value.table == table
    ensures RecordsIn(EnsureThenSheets(st, t, fid, sid, name, sheets, conv).log[|st.log|..], table)
  {
    var st1 := EnsureFordSpec(st, t, fid, sid, name);
    var run := SheetsRun(sheets, conv);
    EnsureFordIdempotent(st, t, fid, sid, name);
    var ensured := st1.log[|st.log|..];
    assert st1.log == st.log + ensured;
    var added := EnsureThenSheets(st, t, fid, sid, name, sheets, conv).log[|st.log|..];
    assert added == ensured + run.emitted;
    SheetsRunTable(sheets, conv, table);
    forall i | 0 <= i < |added| && added[i].InsertRecord?
      ensures added[i].rec.table == table
    {
      assert i >= |ensured| && added[i] == run.emitted[i - |ensured|];
    }
  }

  /** What a file step of a walk leaves behind. */
  datatype Outcome = Outcome(st: DbState, err: Option<Error>)

  /** The file loop of an import: the steps one after another, up to the first exception,
      which is not caught and ends the import. */
  function Walk(st: DbState, files: seq<File>, step: (DbState, File) -> Outcome): Outcome
    decreases |files|
  {
    if files == [] then Outcome(st, None)
    else
      var o := step(st, files[0]);
      if o.err.Some? then o else Walk(o.st, files[1..], step)
  }

  /** Walking two lists of files is walking the first and, unless it raised, the second
      from where the first left off: an exception in a row ends the whole walk. */
  lemma {:induction false} WalkAppend(st: DbState, a: seq<File>, b: seq<File>, step: (DbState, File) -> Outcome)
    ensures Walk(st, a + b, step) ==
      var o := Walk(st, a, step);
      if o.err.Some? then o else Walk(o.st, b, step)
    decreases |a|
  {
    if a == [] {
      assert a + b == b;
    } else {
      assert (a + b)[1..] == a[1..] + b;
      var o := step(st, a[0]);
      if o.err.None? {
        WalkAppend(o.st, a[1..], b, step);
      }
    }
  }

  /** A walk keeps whatever every step keeps. */
  lemma {:induction false} WalkKeeps(st: DbState, files: seq<File>, step: (DbState, File) -> Outcome)
    requires forall s: DbState, f: File :: Grows(s, step(s, f).st)
    requires forall s: DbState, f: File :: FordLogged(s) ==> FordLogged(step(s, f).st)
    ensures Grows(st, Walk(st, files, step).st)
    ensures FordLogged(st) ==> FordLogged(Walk(st, files, step).st)
    decreases |files|
  {
    if files != [] {
      var o := step(st, files[0]);
      if o.err.None? {
        WalkKeeps(o.st, files[1..], step);
      }
    }
  }

  /** The database the import works on. */
  class Database {
    var fieldOfStudy: map<string, int>
    var fieldFord: map<int, FordRow>
    var fieldsFord: map<int, FordRow>
    var log: seq<Statement>

    function State(): DbState
      reads this
    {
      DbState(fieldOfStudy, fieldFord, fieldsFord, log)
    }

    /** A database holding the given reference rows, before any statement. */
    constructor(fos: map<string, int>, ford: map<int, FordRow>, fords: map<int, FordRow>)
      ensures State() == DbState(fos, ford, fords, [])
    {
      fieldOfStudy, fieldFord, fieldsFord, log := fos, ford, fords, [];
    }

    /** `SELECT sid FROM field_of_study WHERE name = ?` and `fetchone()`. */
    method LookupSid(name: string) returns (sid: Option<int>)
      ensures sid == Sid(State(), name)
    {
      if name in fieldOfStudy {
        sid := Some(fieldOfStudy[name]);
      } else {
        sid := None;
      }
    }

    /** `SELECT fid FROM <table> WHERE fid = ?` and `fetchone()`. */
    method HasFord(t: FordTable, fid: int) returns (found: bool)
      ensures found <==> fid in FordRows(State(), t)
    {
      match t
      case FieldFord => found := fid in fieldFord;
      case FieldsFord => found := fid in fieldsFord;
    }

    method Execute(rec: Record)
      modifies this
      ensures State() == Append(old(State()), [InsertRecord(rec)])
    {
      log := log + [InsertRecord(rec)];
    }

    method Commit()
      modifies this
      ensures State() == Append(old(State()), [Statement.Commit])
    {
      log := log + [Statement.Commit];
    }

    /** The lookup of `fid` and, when it is absent, the `INSERT` and `conn.commit()`. */
    method EnsureFord(t: FordTable, fid: int, sid: int, name: string)
      modifies this
      ensures State() == EnsureFordSpec(old(State()), t, fid, sid, name)
    {
      var found := HasFord(t, fid);
      if !found {
        match t {
          case FieldFord => fieldFord := fieldFord[fid := FordRow(sid, name)];
          case FieldsFord => fieldsFord := fieldsFord[fid := FordRow(sid, name)];
        }
        log := log + [InsertFord(t, fid, sid, name), Statement.Commit];
      }
    }

    /** The row loop of one sheet and the commit after it. */
    method InsertSheet(rows: Sheet, conv: Row -> Result<Record, Error>) returns (err: Option<Error>)
      modifies this
      ensures State() == Append(old(State()), SheetRun(rows, conv).emitted)
      ensures err == SheetRun(rows, conv).err
    {
      ghost var start := State();
      ghost var done: seq<Statement> := [];
      var i := 0;
      while i < |rows|
        invariant 0 <= i <= |rows|
        invariant State() == Append(start, done)
        invariant SheetRun(rows, conv) == Prepend(done, SheetRun(rows[i..], conv))
      {
        SheetRunStep(rows, i, conv);
        match conv(rows[i])
        case Failure(e) =>
          assert done + [] == done;
          return Some(e);
        case Success(rec) =>
          Execute(rec);
          AppendTwice(start, done, [InsertRecord(rec)]);
          PrependTwice(done, [InsertRecord(rec)], SheetRun(rows[i + 1..], conv));
          done := done + [InsertRecord(rec)];
        i := i + 1;
      }
      assert rows[i..] == [];
      Commit();
      AppendTwice(start, done, [Statement.Commit]);
      done := done + [Statement.Commit];
      err := None;
    }

    /** The sheet loop of one workbook. */
    method InsertSheets(sheets: seq<Sheet>, conv: Row -> Result<Record, Error>) returns (err: Option<Error>)
      modifies this
      ensures State() == Append(old(State()), SheetsRun(sheets, conv).emitted)
      ensures err == SheetsRun(sheets, conv).err
    {
      ghost var start := State();
      ghost var done: seq<Statement> := [];
      var j := 0;
      while j < |sheets|
        invariant 0 <= j <= |sheets|
        invariant State() == Append(start, done)
        invariant SheetsRun(sheets, conv) == Prepend(done, SheetsRun(sheets[j..], conv))
      {
        ghost var r := SheetRun(sheets[j], conv);
        SheetsRunStep(sheets, j, conv);
        err := InsertSheet(sheets[j], conv);
        AppendTwice(start, done, r.emitted);
        if err.Some? {
          return;
        }
        PrependTwice(done, r.emitted, SheetsRun(sheets[j + 1..], conv));
        done := done + r.emitted;
        j := j + 1;
      }
      assert sheets[j..] == [];
      assert done + [] == done;
      err := None;
    }
  }
}
