/** The monolithic script import/import.py. Its `import_institutions`, `truncate_string`,
    `convert_czech_or_slovak` and `strip_prefix` are the legacy ones (`LegacyInstitution`,
    `LegacyHelpers`), and its `import_articles` is the legacy article import with the FORD
    table named `fields_ford`; this module states what that choice of table means for the
    other one. */
module Monolith {
  import opened Wrappers
  import opened Values
  import opened Store
  import LegacyArticle
  import Ford

  /** The FORD table a walk in `t` does not write. */
  function Other(t: FordTable): FordTable {
    if t == FieldFord then FieldsFord else FieldFord
  }

  /** No FORD row of table `u` is inserted by any of `stmts`. */
  ghost predicate NoInsertsInto(stmts: seq<Statement>, u: FordTable) {
    forall fid :: FordInserts(stmts, u, fid) == 0
  }

  /** From `a` to `b` the FORD table `u` is unchanged, statements are only appended, and
      none of them inserts into `u`. */
  ghost predicate KeepsTable(a: DbState, b: DbState, u: FordTable) {
    && FordRows(b, u) == FordRows(a, u)
    && a.log <= b.log
    && NoInsertsInto(b.log[|a.log|..], u)
  }

  lemma {:induction false} KeepsTableTrans(a: DbState, b: DbState, c: DbState, u: FordTable)
    requires KeepsTable(a, b, u) && KeepsTable(b, c, u)
    ensures KeepsTable(a, c, u)
  {
    var x, y := b.log[|a.log|..], c.log[|b.log|..];
    assert c.log[|a.log|..] == x + y;
    forall g ensures FordInserts(x + y, u, g) == 0 {
      CountsAppend(x, y, u, g);
    }
  }

  /** Running a workbook touches no FORD table. */
  lemma {:induction false} AppendRunKeeps(st: DbState, sheets: seq<Sheet>, conv: Row -> Result<Record, Error>, u: FordTable)
    ensures KeepsTable(st, Append(st, SheetsRun(sheets, conv).emitted), u)
  {
    var run := SheetsRun(sheets, conv);
    assert Append(st, run.emitted).log[|st.log|..] == run.emitted;
    forall g ensures FordInserts(run.emitted, u, g) == 0 {
      SheetsRunNoFord(sheets, conv, u, g);
    }
  }

  /** Ensuring a FORD row in `t` does not touch the other table. */
  lemma {:induction false} EnsureKeepsOther(st: DbState, t: FordTable, fid: int, sid: int, name: string)
    ensures KeepsTable(st, EnsureFordSpec(st, t, fid, sid, name), Other(t))
  {
    var st1 := EnsureFordSpec(st, t, fid, sid, name);
    EnsureFordIdempotent(st, t, fid, sid, name);
    if fid !in FordRows(st, t) {
      var added := [InsertFord(t, fid, sid, name), Commit];
      assert st1.log[|st.log|..] == added;
      forall g ensures FordInserts(added, Other(t), g) == 0 {
        assert added[1..] == [Commit];
        assert [Commit][1..] == [];
      }
    } else {
      assert st1.log[|st.log|..] == [];
    }
  }

  /** An imported journal file does not touch the other FORD table. */
  lemma {:induction false} JournalFileKeepsOther(t: FordTable, st: DbState, f: File)
    requires LegacyArticle.IsJournalFile(f.name) && f.dirs != []
    requires Ford.MatchFord(LegacyArticle.PathFields(f).value.fordName).Some?
    requires Sid(st, LegacyArticle.PathFields(f).value.fieldOfStudy).Some?
    ensures KeepsTable(st, LegacyArticle.ImportFileSpec(t, st, f).st, Other(t))
  {
    var loc := LegacyArticle.PathFields(f).value;
    var fid := Ford.Fid(Ford.MatchFord(loc.fordName).value);
    var sid := Sid(st, loc.fieldOfStudy).value;
    var conv := LegacyArticle.JournalConverter(fid);
    assert LegacyArticle.ImportFileSpec(t, st, f).st == EnsureThenSheets(st, t, fid, sid, loc.fordName, f.sheets, conv);
    var st1 := EnsureFordSpec(st, t, fid, sid, loc.fordName);
    EnsureKeepsOther(st, t, fid, sid, loc.fordName);
    AppendRunKeeps(st1, f.sheets, conv, Other(t));
    KeepsTableTrans(st, st1, Append(st1, SheetsRun(f.sheets, conv).emitted), Other(t));
  }

  /** An imported result file touches no FORD table. */
  lemma {:induction false} ResultFileKeepsOther(t: FordTable, st: DbState, f: File)
    requires LegacyArticle.IsResultFile(f.name) && !LegacyArticle.IsJournalFile(f.name) && f.dirs != []
    requires Ford.MatchFord(LegacyArticle.PathFields(f).value.fordName).Some?
    ensures KeepsTable(st, LegacyArticle.ImportFileSpec(t, st, f).st, Other(t))
  {
    var m := Ford.MatchFord(LegacyArticle.PathFields(f).value.fordName).value;
    LegacyArticle.ResultFileRuns(t, st, f);
    AppendRunKeeps(st, f.sheets, LegacyArticle.ArticleConverter(Ford.Fid(m), LegacyArticle.CutFordNum(m)), Other(t));
  }

  /** One file in table `t` leaves the other FORD table as it was and sends no `INSERT`
      into it. */
  lemma {:induction false} ImportFileKeepsOther(t: FordTable, st: DbState, f: File)
    ensures KeepsTable(st, LegacyArticle.ImportFileSpec(t, st, f).st, Other(t))
  {
    var o := LegacyArticle.ImportFileSpec(t, st, f);
    if f.dirs != [] {
      var loc := LegacyArticle.PathFields(f).value;
      var m := Ford.MatchFord(loc.fordName);
      if LegacyArticle.IsJournalFile(f.name) && m.Some? && Sid(st, loc.fieldOfStudy).Some? {
        JournalFileKeepsOther(t, st, f);
      } else if !LegacyArticle.IsJournalFile(f.name) && LegacyArticle.IsResultFile(f.name) && m.Some? {
        ResultFileKeepsOther(t, st, f);
      } else {
        LegacyArticle.ImportFileSkips(t, st, f);
        assert o.st.log[|st.log|..] == [];
      }
    } else {
      assert o.st.log[|st.log|..] == [];
    }
  }

  /** A whole walk in table `t` leaves the other FORD table as it was and sends no `INSERT`
      into it. */
  lemma {:induction false} WalkKeepsOther(t: FordTable, st: DbState, files: seq<File>)
    ensures KeepsTable(st, Walk(st, files, LegacyArticle.Step(t)).st, Other(t))
    decreases |files|
  {
    var o := Walk(st, files, LegacyArticle.Step(t));
    if files == [] {
      assert o.st.log[|st.log|..] == [];
    } else {
      var o1 := LegacyArticle.ImportFileSpec(t, st, files[0]);
      ImportFileKeepsOther(t, st, files[0]);
      if o1.err.None? {
        WalkKeepsOther(t, o1.st, files[1..]);
        KeepsTableTrans(st, o1.st, o.st, Other(t));
      }
    }
  }

  /** `import_articles` of the monolithic script: the legacy walk over `fields_ford`. */
  method ImportArticles(db: Database, files: seq<File>) returns (err: Option<Error>)
    modifies db
    ensures db.State() == Walk(old(db.State()), files, LegacyArticle.Step(FieldsFord)).st
    ensures err == Walk(old(db.State()), files, LegacyArticle.Step(FieldsFord)).err
    ensures db.fieldFord == old(db.fieldFord)
  {
    ghost var st := db.State();
    err := LegacyArticle.ImportArticles(db, FieldsFord, files);
    WalkKeepsOther(FieldsFord, st, files);
  }

  /** The monolithic walk never reads or writes `field_ford`: it sends no `INSERT` into it,
      whatever the files. */
  lemma {:induction false} MonolithLeavesFieldFord(st: DbState, files: seq<File>)
    ensures KeepsTable(st, Walk(st, files, LegacyArticle.Step(FieldsFord)).st, FieldFord)
    ensures Walk(st, files, LegacyArticle.Step(FieldsFord)).st.fieldFord == st.fieldFord
  {
    WalkKeepsOther(FieldsFord, st, files);
  }
}
