/** The `institution` row both generations of the institution import insert. */
module Institutions {
  import opened Values
  import opened Store

  /** The eight values of an institution row; the registration date is passed on as the cell
      it was parsed from. */
  datatype Institution = Institution(
    name: string, ico: int, street: string, psc: int, town: string,
    legalForm: string, mainGoal: string, created: Value)

  /** The value the `INSERT` binds to a column of the institution table, looked up by name. */
  function InstitutionColumn(inst: Institution, column: string): SqlValue {
    match column
    case "name" => SqlText(inst.name)
    case "ico" => SqlInt(inst.ico)
    case "street" => SqlText(inst.street)
    case "psc" => SqlInt(inst.psc)
    case "town" => SqlText(inst.town)
    case "legal_form" => SqlText(inst.legalForm)
    case "main_goal" => SqlText(inst.mainGoal)
    case "created" => SqlTimestamp(inst.created)
    case _ => SqlNull
  }

  /** The parameter tuple of the `INSERT`: it follows the statement's column list. */
  function InsertInstitution(inst: Institution): (r: Record)
    ensures r.table == InstitutionTable && |r.params| == |Columns(InstitutionTable)|
    ensures forall i :: 0 <= i < |r.params| ==> r.params[i] == InstitutionColumn(inst, Columns(InstitutionTable)[i])
  {
    Record(InstitutionTable, [SqlText(inst.name), SqlInt(inst.ico), SqlText(inst.street), SqlInt(inst.psc),
                         SqlText(inst.town), SqlText(inst.legalForm), SqlText(inst.mainGoal),
                         SqlTimestamp(inst.created)])
  }
}
