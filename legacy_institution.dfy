/** The legacy institution import (import/institution.py, and the identical copy in
    import/import.py): each field converted inline, one `INSERT` per row, one commit. */
module LegacyInstitution {
  import opened Wrappers
  import opened Strings
  import opened Values
  import opened Store
  import opened Institutions
  import H = Headers
  import LegacyHelpers
  import IngestHelpers
  import IngestInstitution

  /** `int(row['PSC'].replace(" ", ""))`: the cell must be a str. */
  function Psc(cell: Value): (r: Result<int, Error>)
    ensures !cell.Str? ==> r == Failure(AttributeError("replace"))
    ensures cell.Str? ==> (r.Success? <==> ParseInt(RemoveChar(cell.s, ' ')).Some?)
    ensures r.Success? ==> r.value == ParseInt(RemoveChar(cell.s, ' ')).value
  {
    var text :- PyRemoveSpaces(cell);
    PyInt(Str(text))
  }

  /** The locals of one iteration of the row loop, in the order the loop computes them. */
  function MakeInstitution(row: Row): (r: Result<Institution, Error>)
    ensures r.Success? <==>
      && H.InstitutionName in row && H.Ico in row && H.Street in row && H.Psc in row && H.Town in row
      && H.LegalForm in row && H.MainGoal in row && H.Registered in row
      && PyInt(row[H.Ico]).Success? && Psc(row[H.Psc]).Success?
    ensures r.Success? ==>
      && r.value.name == LegacyHelpers.TruncateString(PyStr(row[H.InstitutionName]), 1000)
      && r.value.street == LegacyHelpers.TruncateString(PyStr(row[H.Street]), 500)
      && r.value.town == LegacyHelpers.TruncateString(PyStr(row[H.Town]), 200)
      && r.value.legalForm == LegacyHelpers.TruncateString(PyStr(row[H.LegalForm]), 500)
      && r.value.mainGoal == LegacyHelpers.TruncateString(PyStr(row[H.MainGoal]), 2000)
      && r.value.ico == PyInt(row[H.Ico]).value
      && r.value.psc == Psc(row[H.Psc]).value
      && r.value.created == row[H.Registered]
  {
    var nameCell :- GetItem(row, H.InstitutionName);
    var name := LegacyHelpers.TruncateString(PyStr(nameCell), 1000);
    var icoCell :- GetItem(row, H.Ico);
    var ico :- PyInt(icoCell);
    var streetCell :- GetItem(row, H.Street);
    var street := LegacyHelpers.TruncateString(PyStr(streetCell), 500);
    var pscCell :- GetItem(row, H.Psc);
    var psc :- Psc(pscCell);
    var townCell :- GetItem(row, H.Town);
    var town := LegacyHelpers.TruncateString(PyStr(townCell), 200);
    var legalFormCell :- GetItem(row, H.LegalForm);
    var legalForm := LegacyHelpers.TruncateString(PyStr(legalFormCell), 500);
    var mainGoalCell :- GetItem(row, H.MainGoal);
    var mainGoal := LegacyHelpers.TruncateString(PyStr(mainGoalCell), 2000);
    var created :- GetItem(row, H.Registered);
    Success(Institution(name, ico, street, psc, town, legalForm, mainGoal, created))
  }

  function InstitutionRecord(row: Row): Result<Record, Error> {
    var inst :- MakeInstitution(row);
    Success(InsertInstitution(inst))
  }

  /** `import_institutions`: the row loop and the single commit after it. */
  method ImportInstitutions(db: Database, rows: Sheet) returns (err: Option<Error>)
    modifies db
    ensures db.State() == Append(old(db.State()), SheetRun(rows, InstitutionRecord).emitted)
    ensures err == SheetRun(rows, InstitutionRecord).err
  {
    err := db.InsertSheet(rows, InstitutionRecord);
  }

  /** A successful import sends exactly one record per row and a single commit; a failed one
      sends no commit at all. */
  lemma {:induction false} ImportInstitutionsCommitsOnce(rows: Sheet)
    ensures var run := SheetRun(rows, InstitutionRecord);
      && (run.err.None? ==> CountRecords(run.emitted) == |rows| && CountCommits(run.emitted) == 1)
      && (run.err.Some? ==> CountCommits(run.emitted) == 0)
  {
    if SheetRun(rows, InstitutionRecord).err.None? {
      SheetRunCounts(rows, InstitutionRecord);
    } else {
      NoCommitBeforeFailure(rows, InstitutionRecord);
    }
  }

  /** "170 00" is read as 17000, as by the ingest validator. */
  lemma PscWithSpace()
    ensures Psc(Str("170 00")) == Success(17000)
  {
    IngestInstitution.PscWithSpace();
  }

  /** The two generations build the same institution from a row whose PSC cell is a str;
      a numeric PSC cell only the ingest generation accepts. */
  lemma {:induction false} VersusIngest(row: Row)
    ensures H.Psc in row && row[H.Psc].Str? && MakeInstitution(row).Success? ==>
      IngestInstitution.MakeInstitution(row) == MakeInstitution(row)
    ensures H.Psc in row && row[H.Psc].Int? ==> MakeInstitution(row).Failure?
    ensures H.Psc in row && row[H.Psc].Int? && IngestInstitution.MakeInstitution(row).Success? ==>
      IngestInstitution.MakeInstitution(row).value.psc == row[H.Psc].i
  {
    if H.Psc in row && row[H.Psc].Int? {
      IngestInstitution.PscOfNumber(row[H.Psc].i);
    }
  }
}
