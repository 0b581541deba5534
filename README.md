# RVVI import: record normalisation and classification

This project models the core of the RVVI import in Dafny. The import loads the Czech
research-evaluation spreadsheets into a SQL database:

- the institution list;
- the journal workbooks (`Priloha_2…`);
- the result workbooks (`Priloha_3…`), one per FORD field under each field of study.

The import exists in two generations, and both are modelled side by side:

- **ingest**: the `import/ingest` package (`convert_helpers.py`, `article.py`,
  `institution.py`) with its pydantic entry models. `import/pipeline_rvvi.py` drives it.
- **legacy**: the flat scripts `import/convert_helpers.py`, `import/article.py` and
  `import/institution.py`, and the monolithic copy `import/import.py`. That copy differs only
  in naming the FORD table `fields_ford`.

The modules follow the source:

| module | models |
|---|---|
| `Values` (values.dfy) | a spreadsheet cell (`PyNone`, `NaN`, `Str`, `Int`, and `Float` for a whole-number float, which is how pandas stores the numbers of a numeric column that has empty cells); a row as a map from column header to cell; the exceptions a row raises; `str()`, `int()`, `row[k]`, `row.get`; pydantic's checks of `str`, `int` and `Optional[int]` fields |
| `Strings` (strings.dfy) | the character-level pieces: the digit runs (ASCII digits, see below) and whitespace runs the regular expressions match, `str.lower`, `str.replace`, `str.strip`, `str(int)`, and `int(str)` with its sign, whitespace and `_` groups |
| `Headers` (headers.dfy) | the column headers the scripts read |
| `LegacyHelpers`, `IngestHelpers` | the two `convert_helpers.py` |
| `Ford` (ford.dfy) | `re.match(r'^(\d+)\.(\d+)', …)`, `fid = major * 10 + minor`, `ford_num`, and the zone column `"Pásmo v " + ford_num` that every generation shares |
| `Sql` (sql.dfy) | the f-string text of a parameterised `INSERT` and where its "?" marks can be |
| `Store` (store.dfy) | the database as seen through the cursor. A class `Database` holds `field_of_study`, `field_ford`, `fields_ford` and the log of statements sent (`INSERT`s and commits). Its pure mirror `DbState` comes with the specification functions of the loops: one sheet (`SheetRun`), one workbook (`SheetsRun`) and the file walk (`Walk`) |
| `Institutions`, `IngestInstitution`, `LegacyInstitution` | the institution import of both generations |
| `IngestArticle`, `LegacyArticle` | the article import of both generations |
| `Monolith` | `import/import.py`: the legacy walk over `fields_ford` |
| `Pipeline` | `parse_arguments` and `Config` of `import/pipeline_rvvi.py` |

Pure helpers are functions. The loops are methods on the `Database` class:

- the row loop and the commit after it;
- the sheet loop;
- the file loop;
- the legacy result loop, which cuts `ford_num` again on every row;
- the `kwargs` loop of `parse_arguments`.

Each method is proved equal to a specification function of the old state. The properties are
lemmas about those functions: counts of records and commits, FORD-row idempotence, what a
skipped file leaves alone, and what the two generations share and where they differ.

Modelling choices worth knowing:

- A row that raises ends the whole import: none of the loops catches an exception. In the
  ingest generation the exception reaches `main`'s `except` (import/pipeline_rvvi.py:75-76).
  The model returns it as the walk's error, with the statements sent before it kept.
- `fid` is computed as written: "3.12" gives 42, and "2.11" and "3.1" both give 31
  (`Ford.FidTwoDigitMinor`, `Ford.FidCollision`).
- `ford_num` is the first three characters of the code, so the zone column of "3.12" is that of
  "3.1".
- `str()` of a missing cell is "None" and of NaN is "nan". The ingest generation therefore
  stores "None" as the corresponding author of a row without that column
  (`IngestArticle.CorrespondingAuthorOfMissingCell`).
- The legacy generation reads the field of study and the FORD field from the last two
  directories, with no `WoS` case. A workbook directly in the base directory raises
  `IndexError`, and a `WoS` directory has no code and is skipped.
- The directory walk is given as a sequence of files, each with its directory components, its
  name and its sheets of rows.

## Model

| member | source | states |
|---|---|---|
| Values.PyInt | import/ingest/article.py:152 | `int(cell)`: an int is kept, a whole float gives its value, and a missing cell or NaN raises |
| Values.GetItem | import/article.py:88-94 | `row[key]` succeeds exactly when the column exists, with its cell; otherwise `KeyError(key)` |
| Values.Get | import/ingest/article.py:156 | `row.get(key, default)`: the cell when present, else the default |
| Values.PyRemoveSpaces | import/institution.py:33 | `.replace(" ", "")` on a cell succeeds exactly when the cell is a str |
| Values.StrField | import/ingest/article.py:18-19 | a pydantic `str` field accepts exactly a str and keeps it |
| Values.IntField | import/ingest/institution.py:11 | a pydantic `int` field keeps an int, takes a whole float as its value, and refuses a missing cell or NaN |
| Values.OptionalIntField | import/ingest/article.py:17 | an `Optional[int]` field keeps `None` as `None`, an int as itself and a whole float as its value, and refuses NaN |
| Values.PyIntOfPyStr | import/ingest/institution.py:34 | `int(str(i)) == i` for every int |
| Strings.Lower | import/convert_helpers.py:9 | `str.lower` keeps the length and lowers each character |
| Strings.ReplaceChar | import/pipeline_rvvi.py:24 | `str.replace` of one character by another keeps the length and changes exactly the replaced characters |
| Strings.RemoveChar | import/ingest/institution.py:34 | `str.replace(c, "")` leaves no `c` and changes nothing when there is none |
| Strings.IndexOf | import/pipeline_rvvi.py:23 | the index found holds the character and no earlier index does; none found means no occurrence |
| Strings.Strip | import/ingest/institution.py:34 | `str.strip` leaves no whitespace at either end and keeps an already stripped string |
| Strings.ParseIntToString | import/ingest/institution.py:34 | the `int` parser reads back every number `str` writes, negative ones included |
| Strings.ParseIntDigits | import/institution.py:33 | a run of decimal digits parses to its value |
| Strings.StripKeeps | import/ingest/institution.py:34 | `str.strip` never removes a character that is not whitespace |
| Strings.ParseIntRejectsDot | import/ingest/institution.py:34 | `int` refuses every str holding a ".", such as `str` of a float |
| LegacyHelpers.StripPrefix | import/convert_helpers.py:4-5 | the result is a suffix of the name, and the name itself when it does not start with a digit |
| LegacyHelpers.PrefixMatch | import/convert_helpers.py:5 | a match of `^\d+\.\s*` is at least two characters and within the name |
| LegacyHelpers.StripPrefixRemoves | import/convert_helpers.py:5 | what is removed is digits, a dot and whitespace, and the rest does not start with whitespace |
| LegacyHelpers.StripPrefixOf | import/convert_helpers.py:5 | digits, a dot and whitespace before any text not starting with whitespace are removed exactly |
| LegacyHelpers.StripPrefixFieldOfStudy | import/convert_helpers.py:5 | "2. Engineering and Technology" becomes "Engineering and Technology" |
| LegacyHelpers.StripPrefixOneLevel | import/convert_helpers.py:5 | only one level goes: "1.2. X" becomes "2. X" |
| LegacyHelpers.ConvertCzechOrSlovak | import/convert_helpers.py:8-9 | 1 exactly for "e" or "E", otherwise 0; a non-str raises |
| LegacyHelpers.ConvertCzechOrSlovakExamples | import/convert_helpers.py:8-9 | "E" gives 1, "NE" gives 0, an int raises |
| LegacyHelpers.TruncateString | import/convert_helpers.py:12-15 | a prefix of at most `max_length` characters, equal to the value exactly when it fits |
| LegacyHelpers.TruncateStringIdempotent | import/convert_helpers.py:12-15 | truncating twice with the same bound is truncating once |
| IngestHelpers.PrefixMatch | import/ingest/convert_helpers.py:5 | a match of the ordinal pattern is at least two characters and within the name |
| IngestHelpers.StripPrefix | import/ingest/convert_helpers.py:4-5 | the result is a suffix of the name, and the name itself when it does not start with a digit |
| IngestHelpers.StripPrefixVersusLegacy | import/ingest/convert_helpers.py:5 | the ingest pattern removes what the legacy one removes, applied twice when the ordinal has two levels |
| IngestHelpers.StripPrefixTwoLevelOf | import/ingest/convert_helpers.py:5 | "d.d." and whitespace before text not starting with whitespace are removed exactly |
| IngestHelpers.StripPrefixOneLevelOf | import/ingest/convert_helpers.py:5 | "d." and whitespace are removed exactly when no second level follows |
| IngestHelpers.StripPrefixFieldOfStudy | import/ingest/convert_helpers.py:5 | "2. Engineering and Technology" becomes "Engineering and Technology" |
| IngestHelpers.StripPrefixTwoLevel | import/ingest/convert_helpers.py:5 | "1.2. X" becomes "X" |
| IngestHelpers.StripPrefixSpacedLevels | import/ingest/convert_helpers.py:5 | "1. 2. X" becomes "2. X" |
| IngestHelpers.TruncateString | import/ingest/convert_helpers.py:12-16 | `str(value)` cut to a prefix of at most `max_length` characters, equal to `str(value)` exactly when it fits |
| IngestHelpers.TruncateStringIdempotent | import/ingest/convert_helpers.py:12-16 | truncating an already truncated value with the same bound changes nothing |
| IngestHelpers.TruncateStringVersusLegacy | import/ingest/convert_helpers.py:12-16 | on a str the two generations' `truncate_string` agree |
| Ford.MatchFord | import/ingest/article.py:125 | the groups are non-empty digit runs and "major.minor" is a prefix of the name |
| Ford.MatchFordIff | import/ingest/article.py:125-128 | the pattern matches exactly when the name starts with digits, a dot and a digit |
| Ford.MatchFordOf | import/ingest/article.py:125 | digits, a dot and digits followed by a non-digit match with exactly those groups |
| Ford.FordNum | import/ingest/article.py:131 | `ford_num` has at most three characters and is a prefix of "major.minor" |
| Ford.FordNumIsNamePrefix | import/ingest/article.py:131 | `ford_num` is exactly the first three characters of the FORD directory name |
| Ford.FidNineNine | import/ingest/article.py:130 | "9.9 X" gives 99 |
| Ford.FidTwoDigitMinor | import/ingest/article.py:130-131 | "3.12 X" gives 42, and its zone column is "Pásmo v 3.1" |
| Ford.MatchThreeTwelve | import/ingest/article.py:125 | "3.12 X" matches with groups "3" and "12" |
| Ford.FidCollision | import/article.py:62 | "2.11" and "3.1" are different codes with the same `fid` 31 |
| Ford.NoCodeWithoutDigit | import/ingest/article.py:125-128 | a name not starting with a digit has no code |
| Store.Components | import/article.py:54 | `root.split(os.sep)` starts with "." and has one entry per directory below it |
| Store.Columns | import/ingest/article.py:91 | the journal `INSERT` names 8 columns, the article one 15 and the institution one 8 |
| Store.Sid | import/ingest/article.py:132-137 | the `field_of_study` lookup finds a sid exactly when the name is there, and finds that row's sid |
| Store.SheetRunShape | import/ingest/article.py:148-182 | a sheet sends one `INSERT` per row in row order and then a commit; if a row raises, the rows before it are sent and nothing after |
| Store.NoCommitBeforeFailure | import/ingest/article.py:148-182 | a sheet whose row raises sends no commit |
| Store.SheetRunCounts | import/ingest/institution.py:48-71 | a sheet without an exception sends one record per row and one commit |
| Store.SheetsRunCounts | import/ingest/article.py:146-183 | a workbook runs through exactly when every row converts, and then sends one commit per sheet and one record per row |
| Store.SheetsRunNoFord | import/ingest/article.py:146-183 | the sheet loop inserts no FORD row |
| Store.SheetRunNoFord | import/ingest/article.py:148-182 | the row loop of one sheet inserts no FORD row |
| Store.SheetsRunTable | import/ingest/article.py:150-180 | every record goes to the table its converter names |
| Store.EnsureFordIdempotent | import/ingest/article.py:139-142 | ensuring a FORD row twice is ensuring it once; an existing row is kept as it is, a new one is `(fid, sid, name)`; the other FORD table and `field_of_study` are untouched |
| Store.EnsureFordKeepsFordLogged | import/ingest/article.py:139-142 | after an ensure, each FORD row is inserted at most once and is in its table |
| Store.EnsureThenSheetsShape | import/ingest/article.py:139-183 | after ensuring the row and running the workbook, the row is there; on success, one record per row and one commit per sheet are sent, plus one when the row was new |
| Store.EnsureThenSheetsKeeps | import/ingest/article.py:139-183 | ensuring the row and running the workbook only appends, leaves the row in its table and keeps each FORD row inserted at most once |
| Store.EnsureThenSheetsCounts | import/ingest/article.py:139-183 | on success, one record per row and one commit per sheet are added, plus one commit for a new FORD row |
| Store.EnsureThenSheetsTable | import/ingest/article.py:139-183 | the records of the workbook go to the converter's table |
| Store.WalkAppend | import/ingest/article.py:110-111 | walking two lists of files is walking the first and then, unless it raised, the second |
| Store.WalkKeeps | import/ingest/article.py:110-183 | a walk keeps what every file step keeps |
| Store.Database.constructor | import/ingest/article.py:108 | a cursor over given reference tables begins with an empty log |
| Store.Database.LookupSid | import/ingest/article.py:132-133 | the cursor's sid lookup returns `Sid` of the current state |
| Store.Database.HasFord | import/ingest/article.py:139-140 | the `fid` lookup finds a row exactly when the table holds `fid` |
| Store.Database.Execute | import/ingest/article.py:94 | an `INSERT` adds its record to the log and changes nothing else |
| Store.Database.Commit | import/ingest/article.py:182 | a commit is logged and changes nothing else |
| Store.Database.EnsureFord | import/ingest/article.py:139-142 | the lookup and conditional insert and commit produce `EnsureFordSpec` of the old state |
| Store.Database.InsertSheet | import/ingest/article.py:148-182 | the row loop and the commit after it produce `SheetRun` of the sheet |
| Store.Database.InsertSheets | import/ingest/article.py:146-183 | the sheet loop produces `SheetsRun` of the workbook |
| Institutions.InsertInstitution | import/ingest/institution.py:61-70 | the parameters are bound in the order of the column list, eight of them |
| IngestInstitution.TruncateFields | import/ingest/institution.py:19-30 | a capped field (name 1000, street 500, town 200, legal_form 500, main_goal 2000) is a prefix of `str(value)` within its cap, unchanged when it fits; other fields pass through |
| IngestInstitution.RemoveSpacesFromPsc | import/ingest/institution.py:32-34 | PSC is `int` of `str(value)` with every space removed, and raises exactly when that is not an integer |
| IngestInstitution.MakeInstitution | import/ingest/institution.py:9-38 | an institution is built exactly when every column is there and ICO and PSC are integers; then each field is its validator's value |
| Sql.InsertStatementParts | import/ingest/institution.py:44 | the statement starts with `INSERT INTO` and its table, and its column list follows straight after |
| Sql.InsertStatementMarks | import/ingest/institution.py:44 | every "?" of the statement lies in the table name, the column list or the placeholders |
| IngestInstitution.BuildInsertSqlShape | import/ingest/institution.py:40-45 | the statement depends on the schema alone, inserts into `<schema>.institution` and lists the table's columns right after it |
| IngestInstitution.BuildInsertSqlPlaceholders | import/ingest/institution.py:40-45 | when the schema name holds no "?", the statement holds exactly one "?" per column, eight |
| IngestInstitution.PlaceholdersCount | import/ingest/institution.py:43 | `", ".join(["?"] * 8)` holds eight "?" |
| IngestInstitution.ColumnsWithoutPlaceholder | import/ingest/institution.py:42 | no column name holds a "?" |
| IngestInstitution.TableNameWithoutPlaceholder | import/ingest/institution.py:41 | `<schema>.institution` holds a "?" only where the schema does |
| IngestInstitution.ImportInstitutions | import/ingest/institution.py:48-71 | the row loop and single commit produce `SheetRun` of the rows |
| IngestInstitution.ImportInstitutionsCommitsOnce | import/ingest/institution.py:48-71 | a successful import sends one record per row and one commit; a failed one sends no commit |
| IngestInstitution.InstitutionCaps | import/ingest/institution.py:19-30 | every capped field of a built institution is within its cap and a prefix of `str(cell)`, the cell itself when it fits |
| IngestInstitution.PscWithSpace | import/ingest/institution.py:32-34 | "170 00" gives 17000 |
| IngestInstitution.PscOfNumber | import/ingest/institution.py:32-34 | an int PSC cell is accepted as itself |
| IngestInstitution.PscOfFloatRaises | import/ingest/institution.py:32-34 | a PSC cell read as a float (a PSC column with an empty cell) raises `ValueError`, since `str` of it ends in ".0" |
| IngestInstitution.ParseSeventeenThousand | import/ingest/institution.py:34 | "17000" parses to 17000 |
| LegacyInstitution.Psc | import/institution.py:33 | a non-str PSC cell raises `AttributeError`; a str one is `int` of it with spaces removed |
| LegacyInstitution.MakeInstitution | import/institution.py:30-37 | the row converts exactly when every column is there, ICO is an int and PSC is valid; each field is cut to its cap |
| LegacyInstitution.ImportInstitutions | import/institution.py:28-44 | the row loop and single commit produce `SheetRun` of the rows |
| LegacyInstitution.ImportInstitutionsCommitsOnce | import/institution.py:29-44 | a successful import sends one record per row and exactly one commit; a failed one sends none |
| LegacyInstitution.PscWithSpace | import/institution.py:33 | "170 00" gives 17000 |
| LegacyInstitution.VersusIngest | import/ingest/institution.py:32-34 | with a str PSC cell the generations build the same institution; a numeric PSC is refused by legacy only |
| IngestArticle.TruncateIssn | import/ingest/article.py:23-28 | a missing ISSN becomes `None`; anything else is `str(value)` cut to at most ten characters, unchanged when it fits |
| IngestArticle.HandleNan | import/ingest/article.py:55-57 | a missing or NaN author count becomes `None`; anything else passes through |
| IngestArticle.MakeJournalEntry | import/ingest/article.py:151-160 | a journal entry is built exactly when the columns are there and the fields validate; year, name, ISSNs, zone, flag and `fid` are as read, and the article count is the `Optional[int]` field's value of `row.get`, so `None` without the column |
| IngestArticle.MakeArticleEntry | import/ingest/article.py:163-179 | an article entry is built exactly when the columns are there and validate; UT WoS, document type, journal name and the Czech/Slovak flag are the row's cells, `institution_count` is 0, name and authors are at most 8000, vo at most 4000, the zone comes from `"Pásmo v " + ford_num`; a missing year raises `KeyError` |
| IngestArticle.InsertJournal | import/ingest/article.py:89-94 | the journal parameters are bound in the order of the column list |
| IngestArticle.InsertArticle | import/ingest/article.py:97-105 | the article parameters are bound in the order of the column list |
| IngestArticle.ImportFile | import/ingest/article.py:111-183 | one file of the walk produces `ImportFileSpec` of the old state |
| IngestArticle.ImportArticles | import/ingest/article.py:108-183 | the file loop produces the `Walk` of the files, stopping at the first exception |
| IngestArticle.TruncateIssnExamples | import/ingest/article.py:23-28 | the ISSN cases of the tests: "12345678901" becomes "1234567890", "1525.5555" and short values stay, "123456.78901" becomes "123456.789", a missing value becomes `None` |
| IngestArticle.ClassifyPathWoS | import/ingest/article.py:117-119 | under `WoS` the FORD field is the parent and the field of study the stripped grandparent |
| IngestArticle.ClassifyPathPlain | import/ingest/article.py:120-122 | elsewhere the FORD field is the directory and the field of study its stripped parent |
| IngestArticle.ImportFileSkips | import/ingest/article.py:112-137 | a non-candidate name, a FORD field without a code or an unknown field of study leaves the database as it was |
| IngestArticle.RowConverterTable | import/ingest/article.py:150-180 | Priloha_2 rows become journal records and the others article records |
| IngestArticle.ImportFileSpecImported | import/ingest/article.py:130-183 | an imported file ensures its FORD row in `field_ford` and then runs its workbook |
| IngestArticle.ImportFileShape | import/ingest/article.py:130-183 | an imported file ensures its FORD row; it succeeds exactly when every row converts; its records go to the table its name selects; on success there is one record per row and one commit per sheet, plus one for a new FORD row |
| IngestArticle.ImportFileKeeps | import/ingest/article.py:111-183 | a file only adds, and inserts each FORD row at most once |
| IngestArticle.ImportArticlesKeeps | import/ingest/article.py:108-183 | the whole walk never changes an existing FORD row or `field_of_study`, and inserts each FORD row at most once however many files share its code |
| IngestArticle.CorrespondingAuthorOfMissingCell | import/ingest/article.py:173 | a missing corresponding-author column is stored as "None", a NaN one as "nan" |
| LegacyArticle.PathFields | import/article.py:54-56 | the last two directory components are read; a file in the base directory raises `IndexError` |
| LegacyArticle.TextOrEmpty | import/article.py:90-91 | a missing cell becomes "" |
| LegacyArticle.JournalRecord | import/article.py:88-106 | a journal row converts exactly when its columns are there, the year is an int and the count is missing or an int; ISSN is cut to ten, E-ISSN is not; a missing count is the text 'NULL' |
| LegacyArticle.Flag | import/article.py:146-149 | a missing flag is read as "NE", giving 0; any flag read is 0 or 1 |
| LegacyArticle.ReadLeadingSpec | import/article.py:135-145 | the leading cells of a result row: name and authors cut to 8000, ISSNs not cut, a missing corresponding author "" and otherwise cut to 8000 |
| LegacyArticle.ArticleRecordSpec | import/article.py:134-165 | a result row converts exactly when its cells are there and valid, flags included; the record has the 15 columns with a missing author count 0 and `institution_count` 0, and leaves out the two flags |
| LegacyArticle.InsertResultSheet | import/article.py:134-167 | the row loop cuts `ford_num` again on every row, yet every row reads the zone column of the cut code |
| LegacyArticle.InsertResultSheets | import/article.py:131-168 | the sheet loop of a result file produces `SheetsRun` with the cut `ford_num` |
| LegacyArticle.ImportFile | import/article.py:48-168 | one file produces `ImportFileSpec` of the old state in the given FORD table |
| LegacyArticle.ImportArticles | import/article.py:44-168 | the file loop produces the `Walk` of the files, stopping at the first exception |
| LegacyArticle.CutFordNumIsFordNum | import/article.py:155 | the legacy `ford_num` is the ingest one: at most three characters |
| LegacyArticle.FileInBaseDirectoryRaises | import/article.py:54-55 | a journal or result workbook in the base directory raises `IndexError` before anything is sent |
| LegacyArticle.ImportFileSkips | import/article.py:59-73 | a non-matching name, a FORD field without a code or, for a journal file, an unknown field of study leaves the database as it was |
| LegacyArticle.WoSDirectorySkipped | import/article.py:54-65 | a file in a `WoS` directory is skipped, since "WoS" has no code |
| LegacyArticle.JournalFileShape | import/article.py:49-109 | a journal file ensures its FORD row and leaves the other FORD table alone; it succeeds exactly when every row converts; its records are journal records, one per row, with one commit per sheet plus one for a new FORD row |
| LegacyArticle.ResultFileShape | import/article.py:111-168 | a result file neither looks up the field of study nor touches a FORD table; it succeeds exactly when every row converts; its records are article records, one per row, with one commit per sheet |
| LegacyArticle.ResultFileRuns | import/article.py:111-168 | a result file with a code runs its workbook on the state as it is, with no lookup and no FORD row |
| LegacyArticle.ArticleConverterTable | import/article.py:157-165 | every converted result row goes to the article table |
| LegacyArticle.ImportFileKeeps | import/article.py:48-168 | a file only adds, and inserts each FORD row at most once |
| LegacyArticle.ImportArticlesKeeps | import/article.py:44-168 | the whole walk never changes an existing FORD row or `field_of_study`, and inserts each FORD row at most once |
| Monolith.ImportFileKeepsOther | import/import.py:113-238 | a file of the walk in one FORD table leaves the other table as it was and inserts nothing into it |
| Monolith.EnsureKeepsOther | import/import.py:144-149 | ensuring a FORD row in one table leaves the other table as it was |
| Monolith.JournalFileKeepsOther | import/import.py:118-177 | an imported journal file leaves the other FORD table alone |
| Monolith.ResultFileKeepsOther | import/import.py:180-238 | an imported result file touches no FORD table |
| Monolith.WalkKeepsOther | import/import.py:116-117 | so does the whole walk |
| Monolith.ImportArticles | import/import.py:113-238 | the monolithic walk is the legacy walk over `fields_ford` and leaves `field_ford` as it was |
| Monolith.MonolithLeavesFieldFord | import/import.py:144-149 | the monolithic walk sends no `INSERT` into `field_ford` and leaves it unchanged |
| Pipeline.SplitKeyValue | import/pipeline_rvvi.py:23 | `split("=", 1)` unpacks exactly when there is a "=": the key has no "=" and key, "=" and value give back the text; otherwise `ValueError` |
| Pipeline.KeywordOf | import/pipeline_rvvi.py:24 | the keyword keeps the key's length and has no "-" |
| Pipeline.MakeConfig | import/pipeline_rvvi.py:11-16 | a `Config` is made exactly when all five `db_*` fields are given, each from its keyword; otherwise the error names a missing field |
| Pipeline.ParseArguments | import/pipeline_rvvi.py:18-25 | the argument loop produces `ParseSpec` of the arguments |
| Pipeline.CollectAppend | import/pipeline_rvvi.py:21-24 | reading two runs of arguments is reading the first and then, unless it raised, the second |
| Pipeline.NonOptionIgnored | import/pipeline_rvvi.py:21-22 | an argument not starting with "--" changes nothing, wherever it stands |
| Pipeline.OptionSets | import/pipeline_rvvi.py:23-24 | `--key=value` sets the keyword of `key` to all of the text after the first "=" and overwrites an earlier setting |
| Pipeline.SplitAtFirst | import/pipeline_rvvi.py:23 | splitting `key=value` with no "=" in the key gives back key and value, whatever the value holds |
| Pipeline.OptionWithoutValueRaises | import/pipeline_rvvi.py:23 | an option without "=" raises `ValueError`, whatever follows it |
| Pipeline.ParseSpecConfigures | import/pipeline_rvvi.py:25 | the arguments configure a run exactly when all five fields were set |
| Pipeline.KeywordOfDashed | import/pipeline_rvvi.py:24 | "-" in an option name becomes "_" in the keyword |
| Pipeline.CollectOptions | import/pipeline_rvvi.py:21-24 | a run of well-formed options sets their keywords left to right, so the last one wins |
| Pipeline.ParseOptions | import/pipeline_rvvi.py:18-25 | on well-formed options the result is the `Config` of the keywords they set in turn |
| Pipeline.KeywordsOfFields | import/pipeline_rvvi.py:12-16 | `--db-server` and the other option names become the five field names |

## Left out

- Downloads and archive extraction (`download_articles`, `download_institutions`). They are network and file I/O.
- The database connection, dotenv and the cursor and connection lifecycle (`db_connection`, the `finally` in `main`, `import/import_rvvi_data.py`). The cursor is the `Database` class.
- `main` of `import/pipeline_rvvi.py`. It is plumbing, and it catches every exception and prints it. It also takes the schema from the `DB_SCHEMA` environment variable, not from `Config.db_schema`.
- The schema script (`create_rvvi_script`). It reads and runs an SQL file.
- The schema name in the SQL text. A record names its table, and the statement text is not modelled, except the institution `INSERT` text.
- `pd.ExcelFile`, `read_excel`, and `os.walk` with its order. Files, sheets and rows are given in walk order.
- `print`. The log messages have no effect on the data.
- Date parsing of `Datum_zapisu`. The cell is passed on as it is.
- Values.Value: a cell holds no bool or date value, and a float with a fractional part has no cell of its own. Such a float can be given only as the text `str` makes of it, so `int()` of it raises in the model, where Python truncates it.
- Values.PyStr: `str` of a whole float is its digits followed by ".0". Python prints a float of 10^16 and more in exponent form, which the model does not.
- pydantic's general coercion. It is reduced to the cells a row holds: a `str` field takes only a str, and an `int` field takes an int, a whole float or an integer str. bool cells and pydantic's other input types are not modelled.
- The `author_count` case with a whitespace-only cell. `handle_nan` maps only NaN, so the code promises nothing for it.
- Strings.ParseInt: accepts ASCII digits only, not the other Unicode digits Python's `int` accepts.
- Strings.IsDigit: `\d` in a Python str pattern matches every Unicode decimal digit; the model takes only '0' to '9'. LegacyHelpers.PrefixMatch, IngestHelpers.PrefixMatch and Ford.MatchFord therefore find no ordinal or FORD code in a name that starts with another script's digits, where Python finds one.
- Strings.Lower: lowers only the ASCII letters. The values it meets ("E", "NE") are ASCII.
- Strings.IsSpace: the ASCII whitespace and the Unicode spaces of `str.isspace` that the model lists, not every Unicode category.
- Pipeline.MakeConfig: pydantic reports every missing field in one `ValidationError`. The model names the first missing field in declaration order.
- LegacyArticle: import/article.py:7 runs `from import_rvvi_data import conn`, but `conn` is a local of `main()` in import/import_rvvi_data.py:44, and that module imports `article` back (import/import_rvvi_data.py:5). As written, import/article.py cannot be loaded: the import raises `ImportError`. The model treats the script as if that import worked, with the commits (import/article.py:80, 108, 167) going to the same database as the cursor.
- `convert_czech_or_slovak` of import/ingest/convert_helpers.py:8-9 is the legacy code letter for letter, and `ingest/article.py` imports it without calling it. It is modelled once, as `LegacyHelpers.ConvertCzechOrSlovak`.
- Concurrency: there is none in the source.
