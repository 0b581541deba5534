/** The column headers of the spreadsheets the import reads, exactly as the sheets spell them. */
module Headers {
  // Journal sheets (Priloha_2)
  const Year := "Rok uplatnění"
  const Title := "Název"
  const Issn := "ISSN"
  const EIssn := "E-ISSN"
  const DocumentCount := "Počet dokumentů"
  const Zone := "Pásmo"
  const CzechOrSlovakJournal := "Český nebo slovenský časopis"

  // Result sheets (Priloha_3); they share Year, Issn and EIssn with the journal sheets
  const UtWos := "UT WoS"
  const Result := "Výsledek"
  const DocumentType := "Druh dokumentu"
  const JournalName := "Název časopisu"
  const Authors := "Autor/ka"
  const CorrespondingAuthorVo := "VO korespondenční/ho autora/autorky z ČR"
  const AuthorCount := "Celkový počet autorů/autorek"
  const CzechOrSlovak := "Český/slovenský časopis"
  const CzechInstitutions := "Seznam CZ institucí"
  const InternationalCollaboration := "Mezinárodní spolupráce"
  const ThirtyPlusAuthors := "30+ autorů/autorek"

  // The institution list
  const InstitutionName := "Nazev_vyzkumne_organizace"
  const Ico := "ICO"
  const Street := "Sidlo"
  const Psc := "PSC"
  const Town := "Mesto"
  const LegalForm := "Pravni_forma"
  const MainGoal := "Hlavni_cil_cinnosti"
  const Registered := "Datum_zapisu"
}
