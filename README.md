# mentator-ddl-creator core, modelled in Dafny

mentator-ddl-creator keeps a directory of SQL scripts in step with a database. It writes one
definition script per object and one data script per table. This project models the part of it
that runs once the catalog queries have answered. Every `server.exec(...)` is an input here: a
sequence of row records, or an error message.

- **Wildcard matcher** (`Patterns`): `matchPattern`, case-insensitive glob matching where only
  `*` is special. The regular expression the source builds is modelled token by token. It is
  proved equal to an independent definition: the pattern matches when some choice of one string
  per `*` turns it into the value.
- **Value masker** (`Mock`): `mockValue`. Every random draw is an arbitrary input. The lemmas
  state the shape it keeps: lengths, character classes, letter case, keys and offset ranges.
  They also show that every string of that shape can be produced.
- **Catalog discovery** (`Catalog`, `MssqlSchemaList`, `OraSchemaList`): `getSchemaList` for
  SQL Server and Oracle. This covers the schema filter, grouping primary-key rows into table-fill
  entries, full/demo classification, the demo filter, and attaching objects and links to their
  schema. The loops are methods proved against the list functions that specify them.
- **DDL rendering** (`MssqlDdl`, `MssqlTableDesc`, `OraTableDesc`): the SQL Server `getDdl`
  dispatch and its renderers, plus both `getDdlTableDesc` functions.
- **Fill rendering** (`MssqlTableFill`, `OraTableFill`, `DateText`): both `getTableFill`
  functions. This covers ORDER BY and row-limit clauses, SQL literals, the INSERT scripts, the
  Oracle JSON record and the selection of masked fields.
- **Statistics and the sync run** (`MssqlStat`, `MssqlSync`): `getStat`, and `GoMssql`. In
  `GoMssql`, the kinds without a directory are marked `ignore`, and every other object and fill
  entry ends in `insert`, `update`, `nochange` or `error`. The run also keeps the progress
  counter and the final tally.
- **Executor** (`MssqlDb`): the class `DbMssql`. This covers the transient-error classifier, the
  single-flight `_busyScript` guard, reconnection through `open`, and the retry counter. The
  driver and pool are an oracle: `driver(k)` answers the `k`-th connect or query call.

Shared modules: `Wrappers` (Option and Result), `Text` (string helpers, trim, number text),
and `JsValues` (row records and the JavaScript values in them).

Where a computation is a loop in the source, the model is a method with loop invariants. Its
`ensures` ties the result to a list function, and lemmas state what that function promises.
Examples are the PK grouping, the object and link attachment, `getStat`, ignore marking, the sync
loops, the key-constraint loops of `getDdlTable`, the masked-field selection and the `_exec`
retry. Where the source is `map`/`filter`/`join`, the model is a function with lemmas.

## Model

| member | source | states |
|---|---|---|
| Patterns.MatchPattern | src/util/matchPattern.ts:18-21 | an empty value, an empty pattern and the pattern `*` always match |
| Patterns.RegexTestIsGlob | src/util/matchPattern.ts:29-33 | the anchored expression built from the escaped pattern, with `.*` for each `*`, accepts exactly the values some substitution of the stars produces; every other character, regex metacharacters included, is literal |
| Patterns.RegexTestSound | src/util/matchPattern.ts:29-33 | every value the built expression accepts is a substitution of the pattern's stars |
| Patterns.RegexTestComplete | src/util/matchPattern.ts:29-33 | every substitution of the pattern's stars is accepted by the built expression |
| Patterns.MatchPatternIsGlob | src/util/matchPattern.ts:17-33 | `matchPattern(v, p)` holds iff v or p is empty, or lower(v) is a substitution of the stars of lower(p) |
| Patterns.LowerStars | src/util/matchPattern.ts:19-26 | lower-casing keeps every `*`, so the `*` and star-free tests give the same branch before and after lower-casing |
| Patterns.MatchWithoutStar | src/util/matchPattern.ts:26-28 | a pattern without `*` matches iff lower(value) == lower(pattern) |
| Patterns.MatchIgnoresCase | src/util/matchPattern.ts:23-24 | changing the letter case of the value or of the pattern never changes the answer |
| Patterns.MatchReflexive | src/util/matchPattern.ts:17-33 | every value matches itself, since a `*` in it can stand for itself |
| Patterns.MatchPrefix | src/util/matchPattern.ts:29-33 | `a*` (a star-free) is a case-insensitive prefix test |
| Patterns.MatchSuffix | src/util/matchPattern.ts:29-33 | `*a` is a case-insensitive suffix test |
| Patterns.MatchInfix | src/util/matchPattern.ts:29-33 | `*a*` is a case-insensitive substring test |
| Patterns.GlobPrefix | src/util/matchPattern.ts:29-33 | a star-free text followed by `*` matches exactly the values it starts |
| Patterns.GlobSuffix | src/util/matchPattern.ts:29-33 | `*` followed by a star-free text matches exactly the values it ends |
| Patterns.GlobInfix | src/util/matchPattern.ts:29-33 | a star-free text between two stars matches exactly the values it occurs in |
| Patterns.DocExamples | src/util/matchPattern.ts:11-15 | the five documented examples: `MyTable`, `my*`, `*table` and `*Tab*` match `MyTable`; `Other*` does not |
| Patterns.ExamplePrefix | src/util/matchPattern.ts:12 | `matchPattern('MyTable', 'my*')` is true |
| Patterns.ExampleSuffix | src/util/matchPattern.ts:13 | `matchPattern('MyTable', '*table')` is true |
| Patterns.ExampleInfix | src/util/matchPattern.ts:14 | `matchPattern('MyTable', '*Tab*')` is true |
| Patterns.ExampleMismatch | src/util/matchPattern.ts:15 | `matchPattern('MyTable', 'Other*')` is false |
| Mock.RandomDigit | src/util/mockValue.ts:11-13 | every draw gives a decimal digit |
| Mock.RandomLetter | src/util/mockValue.ts:15-19 | every draw gives an ASCII letter, upper case iff requested |
| Mock.MockStringShape | src/util/mockValue.ts:26-43 | the masked string has the input's length; position by position an ASCII digit becomes a digit, a letter becomes an ASCII letter that is upper case iff `char === char.toUpperCase()`, and any other character is kept |
| Mock.MockCharReaches | src/util/mockValue.ts:29-41 | every character of the allowed shape is the outcome of some draw |
| Mock.MockStringOnto | src/util/mockValue.ts:26-43 | every string of the allowed shape is the outcome of some draws |
| Mock.RandomDigits | src/util/mockValue.ts:53-57 | the digit string has the requested length and only digits |
| Mock.MockNumberTextShape | src/util/mockValue.ts:45-60 | the digit string built from `value.toString()` has its length, keeps `.` at the same index and has a digit everywhere else, a leading `-` included |
| Mock.DayOffset | src/util/mockValue.ts:62-67 | a date shift is a whole number of days in [-5, 5] |
| Mock.MinuteOffset | src/util/mockValue.ts:69-74 | a time shift is a whole number of minutes in [-30, 30] |
| Mock.MockValueMasks | src/util/mockValue.ts:76-118 | whatever the draws: null and undefined are returned as they are; arrays keep their length and objects their keys, each element masked recursively; a date moves by days, or by minutes exactly when `isTimeOnly` is set; numbers and strings keep their shape; booleans, bigints and other values are returned unchanged |
| Catalog.FilterSchemasSpec | src/ddl/mssql/getSchemaList.ts:41-47 | INCLUDE keeps the names whose upper case is in the upper-cased list, EXCEPT the others, any other mode none; discovery order is kept |
| Catalog.FilterMembers | src/ddl/mssql/getSchemaList.ts:44-46 | `filter` keeps exactly the members that pass |
| Catalog.FilterKeepsOrder | src/ddl/mssql/getSchemaList.ts:44-46 | `filter` keeps the order of the input |
| Catalog.FindSchema | src/ddl/mssql/getSchemaList.ts:158 | `find` returns the first schema with the name, or none |
| Catalog.FindFill | src/ddl/mssql/getSchemaList.ts:160 | `find` returns the first fill entry with the table name, or none |
| Catalog.AnyPatternMatches | src/ddl/mssql/getSchemaList.ts:165-169 | `some` holds iff one pattern matches both the schema and the table |
| Catalog.DefaultCount | src/ddl/mssql/getSchemaList.ts:174 | `count \|\| 3`: the configured count when non-zero, else 3 |
| Catalog.TablesOfSpec | src/ddl/mssql/getSchemaList.ts:157-180 | the tables that get an entry are exactly those with a PK row of the schema, each once |
| Catalog.ExpectedFillsDistinct | src/ddl/mssql/getSchemaList.ts:157-180 | a table name occurs at most once in a schema's fill list |
| Catalog.ExpectedFillsContent | src/ddl/mssql/getSchemaList.ts:157-178 | a table has an entry iff some PK row names it; its `pklist` holds that table's columns in row order; it is `full` iff some full pattern matches schema and table; its count is `count \|\| 3`; its state is `unprocessed` |
| Catalog.AddToFillsExpected | src/ddl/mssql/getSchemaList.ts:160-178 | one PK row either appends its column to the table's entry or adds a new entry at the end |
| Catalog.ExpectedFillsOtherOwner | src/ddl/mssql/getSchemaList.ts:158-159 | a PK row of another schema leaves a schema's fill list unchanged |
| Catalog.GroupPksSpec | src/ddl/mssql/getSchemaList.ts:157-180 | the PK loop gives each schema, at the first occurrence of its name, exactly its expected fill list, and skips rows of unknown schemas |
| Catalog.GroupPksKeepsNames | src/ddl/mssql/getSchemaList.ts:157-180 | the PK loop changes only fill lists |
| Catalog.GroupPkRows | src/ddl/mssql/getSchemaList.ts:157-180 | the PK loop over the rows computes the grouping function |
| Catalog.FilterFillListSpec | src/ddl/mssql/getSchemaList.ts:211-235 | with an empty filter list nothing is removed; otherwise `full` entries stay, and a `demo` entry stays iff it matches some pattern under WHITELIST, or none under any other mode; order is kept |
| Catalog.DemoFilter | src/ddl/mssql/getSchemaList.ts:215-234 | the demo filter keeps one schema per schema |
| Catalog.ApplyDemoFilter | src/ddl/mssql/getSchemaList.ts:215-234 | the loop that reassigns each schema's fill list computes the demo filter |
| Catalog.WithObjectsSpec | src/ddl/mssql/getSchemaList.ts:183-190 | each object row is appended to the first schema of its owner, in row order; rows of unknown owners are dropped |
| Catalog.AttachObjects | src/ddl/mssql/getSchemaList.ts:183-190 | the `forEach` over the object rows computes that attachment |
| Catalog.WithLinksSpec | src/ddl/mssql/getSchemaList.ts:191-208 | each link row is appended to the first schema of its owner as a link of the given kind with parent kind `TABLE` |
| Catalog.AttachLinks | src/ddl/mssql/getSchemaList.ts:191-208 | the `forEach` over the link rows computes that attachment |
| Catalog.AssembledSpec | src/ddl/mssql/getSchemaList.ts:138-235 | grouping, the demo filter (before or after attachment) and the attachment of objects, index objects, index links and trigger links give every schema its described content |
| Catalog.AssembledAt | src/ddl/mssql/getSchemaList.ts:138-235 | the same, for one schema |
| MssqlSchemaList.GetSchemaList | src/ddl/mssql/getSchemaList.ts:33-238 | a failing query returns its error; an empty filtered list returns `[]` before any object query; the PK query is consulted only when the full dir is set, or the demo dir and count are; otherwise every schema holds its objects then its indexes as `INDEX` objects, its index and trigger links, and its filtered fill entries |
| OraSchemaList.IgnoredObjectKinds | src/ddl/ora/getSchemaList.ts:62-65 | `INDEX` is always excluded, `PACKAGE BODY` iff its dir is unset, `TYPE BODY` iff its dir is unset, nothing else |
| OraSchemaList.GetSchemaList | src/ddl/ora/getSchemaList.ts:33-203 | as for SQL Server, with the demo filter inside the PK block, so it never runs when the lookup is skipped, and with trigger links recorded with kind `INDEX` |
| MssqlDdl.GetDdl | src/ddl/mssql/getDdl.ts:6-27 | TABLE, VIEW, PROCEDURE, FUNCTION, TRIGGER, INDEX, SEQUENCE and SYNONYM go to their renderer; any other kind, DATABASE and SCHEMA included, gives `unsupported object type: K` |
| MssqlDdl.LengthTextSpec | src/ddl/mssql/getDdl.ts:68 | the length is `MAX` iff MAX_LENGTH is -1; otherwise, for a type starting with `n`, it is the exact half of MAX_LENGTH (ending in `.5` when MAX_LENGTH is odd), else MAX_LENGTH itself |
| MssqlDdl.HalfTextSpec | src/ddl/mssql/getDdl.ts:68 | `(n / 2).toString()`: a `-` iff n is negative, digits reading back as the whole part of \|n\| / 2, then `.5` iff n is odd |
| MssqlDdl.ColumnTypeSpec | src/ddl/mssql/getDdl.ts:66-72 | the type text starts with the data type; it gets a suffix iff the type is one of the six length types or decimal/numeric; a length type gets `(length)`, decimal and numeric get `(precision, scale)` as integer texts |
| MssqlDdl.DefaultMark | src/ddl/mssql/getDdl.ts:81-83 | ` DEFAULT d` appears iff d is non-empty, and carries d |
| MssqlDdl.NullMark | src/ddl/mssql/getDdl.ts:78-80 | ` NOT NULL` appears iff the column is not nullable, and comes before the default |
| MssqlDdl.IdentityMark | src/ddl/mssql/getDdl.ts:75-77 | ` IDENTITY(1,1)` appears iff the column is an identity, and comes first |
| MssqlDdl.ColumnOptionsDecode | src/ddl/mssql/getDdl.ts:74-84 | the option text determines identity, nullability and default, so the order is unambiguous |
| MssqlDdl.ConstraintKindDecode | src/ddl/mssql/getDdl.ts:117-119 | a key constraint reads `PRIMARY KEY` iff its type is `PK`, otherwise `UNIQUE` |
| MssqlDdl.KeyItemsSpec | src/ddl/mssql/getDdl.ts:98-120 | the constraint items exist iff the constraint query and every column query succeed; there is then one item per constraint, in order, with its columns in key order |
| MssqlDdl.ForeignKeyItemsSpec | src/ddl/mssql/getDdl.ts:136-160 | the same for foreign keys, local and referenced columns in the same order |
| MssqlDdl.GetKeyItems | src/ddl/mssql/getDdl.ts:103-120 | the `for` loop with its early error return computes the constraint items |
| MssqlDdl.GetForeignKeyItems | src/ddl/mssql/getDdl.ts:141-160 | the `for` loop with its early error return computes the foreign-key items |
| MssqlDdl.TableDdlOk | src/ddl/mssql/getDdl.ts:59-160 | the table DDL succeeds iff the column, constraint and foreign-key queries and every per-row column query succeed; the filegroup query never fails it |
| MssqlDdl.TableItemsSpec | src/ddl/mssql/getDdl.ts:162 | the items are the columns, then the key constraints, then the foreign keys, each group in order |
| MssqlDdl.TableItemsKeys | src/ddl/mssql/getDdl.ts:162 | the key constraints follow the columns |
| MssqlDdl.TableItemsForeignKeys | src/ddl/mssql/getDdl.ts:162 | the foreign keys follow the key constraints |
| MssqlDdl.TableFilegroupDecode | src/ddl/mssql/getDdl.ts:162-177 | the text starts with `CREATE TABLE [s].[t] (` and ends with `\n)` iff no filegroup is appended, which happens iff filegroups are allowed and the query succeeds with a row |
| MssqlDdl.GetDdlTable | src/ddl/mssql/getDdl.ts:29-180 | the table renderer, with `let ddl` grown by `+=`, computes the table DDL |
| MssqlDdl.ModuleDdl | src/ddl/mssql/getDdl.ts:182-245 | view, procedure, function and trigger text: a query error is returned; zero rows give ok with `''`; one row gives its text |
| MssqlDdl.IndexDdl | src/ddl/mssql/getDdl.ts:247-309 | the index DDL succeeds iff the index query returns a row and the column query succeeds; no row gives `index not found: name` |
| MssqlDdl.IndexHeadUnique | src/ddl/mssql/getDdl.ts:291-293 | the statement reads `CREATE UNIQUE` iff the index is unique |
| MssqlDdl.IndexHeadKind | src/ddl/mssql/getDdl.ts:292-293 | the index is `CLUSTERED` iff its type is `CLUSTERED`, otherwise `NONCLUSTERED` |
| MssqlDdl.IndexColumnDecode | src/ddl/mssql/getDdl.ts:290 | an index column ends with ` DESC` iff it is descending, otherwise with ` ASC` |
| MssqlDdl.SequenceDdl | src/ddl/mssql/getDdl.ts:311-355 | the sequence DDL succeeds iff the query returns a row; no row gives `sequence not found: name` |
| MssqlDdl.CycleClauseDecode | src/ddl/mssql/getDdl.ts:347-352 | after the MAXVALUE number the text ends with ` CYCLE`, and with ` NO CYCLE` iff the sequence does not cycle |
| MssqlDdl.SequenceCycleDecode | src/ddl/mssql/getDdl.ts:346-352 | a rendered sequence ends with ` NO CYCLE` iff it does not cycle, and with ` CYCLE` in both cases |
| MssqlDdl.SynonymDdl | src/ddl/mssql/getDdl.ts:357-378 | the synonym DDL succeeds iff the query returns a row; no row gives `synonym not found: name` |
| Wrappers.CollectSpec | src/ddl/mssql/getDdl.ts:104-120 | a loop of per-row queries succeeds iff every query does, keeps the row order, and otherwise returns the first error |
| MssqlTableDesc.TableCommentLineDecode | src/ddl/mssql/getDdlTableDesc.ts:40 | a table line holds the comment with every `'` doubled, which undoubles back to the comment, followed by the schema and table target |
| MssqlTableDesc.ColumnCommentLineDecode | src/ddl/mssql/getDdlTableDesc.ts:43 | a column line holds the doubled comment, followed by the target and the `'COLUMN', N'col'` suffix |
| MssqlTableDesc.LineEnds | src/ddl/mssql/getDdlTableDesc.ts:39-45 | every line starts with `EXEC` and ends with `;` |
| MssqlTableDesc.TableLineEnds | src/ddl/mssql/getDdlTableDesc.ts:40 | a table line starts with `EXEC` and ends with `;` |
| MssqlTableDesc.ColumnLineEnds | src/ddl/mssql/getDdlTableDesc.ts:43 | a column line starts with `EXEC` and ends with `;` |
| MssqlTableDesc.TableDescSpec | src/ddl/mssql/getDdlTableDesc.ts:16-50 | a query failure returns its error; otherwise the lines are joined by `\n`, and the result is `''` iff there are no comments, never an error |
| Text.UndoubleDoubleQuotes | src/ddl/mssql/getDdlTableDesc.ts:40 | doubling every `'` loses nothing: undoubling gives the text back |
| Text.DoubleQuotesPaired | src/ddl/mssql/getDdlTableDesc.ts:40 | after doubling, quotes come only in pairs |
| OraTableDesc.CharSuffixDecode | src/ddl/ora/getDdlTableDesc.ts:26-29 | VARCHAR2, CHAR, NVARCHAR2 and NCHAR get `(len CHAR)` iff CHAR_USED is `C`, else `(len BYTE)`; len is CHAR_LENGTH, or DATA_LENGTH when that is 0 |
| OraTableDesc.NumericSuffixSpec | src/ddl/ora/getDdlTableDesc.ts:30-40 | NUMBER gets nothing without precision, `(p)` when the scale is null or 0, `(p, s)` otherwise; FLOAT gets `(p)` iff it has a precision; RAW gets `(DATA_LENGTH)`; any other type is bare |
| OraTableDesc.SuffixCloses | src/ddl/ora/getDdlTableDesc.ts:26-40 | a type suffix is empty or ends with `)` |
| OraTableDesc.OraColumnSpecNullability | src/ddl/ora/getDdlTableDesc.ts:22-44 | the spec starts with the data type and ends with ` NOT NULL` iff NULLABLE is `N`, otherwise with ` NULL` |
| OraTableDesc.TableDesc | src/ddl/ora/getDdlTableDesc.ts:46-79 | a query failure returns its error; tableDesc is the first comment or `''`; one column description and one column spec per row, in row order |
| MssqlTableFill.OrderBySpec | src/ddl/mssql/getTableFill.ts:6-10 | no ORDER BY iff `pklist` is empty; `ORDER BY a,b` for full; `ORDER BY a DESC,b DESC` for demo |
| MssqlTableFill.RowLimitSpec | src/ddl/mssql/getTableFill.ts:11 | full has no limit; demo gets `TOP n` with n = `count \|\| 3` |
| MssqlTableFill.LiteralNullIff | src/ddl/mssql/getTableFill.ts:24 | a non-number renders `NULL` iff it is null or undefined |
| MssqlTableFill.LiteralUnquoted | src/ddl/mssql/getTableFill.ts:25 | numbers, booleans and bigints are written unquoted |
| MssqlTableFill.LiteralQuoted | src/ddl/mssql/getTableFill.ts:39 | any other value is `N'…'` around its text with every `'` doubled |
| MssqlTableFill.LiteralDate | src/ddl/mssql/getTableFill.ts:26-38 | a date is `CAST('YYYY-MM-DD' AS DATE)` iff all its time fields are zero, else `CAST('YYYY-MM-DD HH:MM:SS.mmm' AS DATETIME2)` |
| DateText.PaddedSpec | src/ddl/mssql/getTableFill.ts:27-33 | each date field is its number in decimal digits, zero-padded to the width |
| DateText.MidnightTextIff | src/ddl/mssql/getTableFill.ts:34 | the padded time fields are `00`, `00`, `00` and `000` iff the time is midnight |
| Text.PadStartZeros | src/ddl/mssql/getTableFill.ts:30-34 | a padded field is all zeros iff its number is 0 |
| JsValues.Get | src/ddl/mssql/getTableFill.ts:23 | `row[column]` is the value of the first field with that key, or undefined |
| MssqlTableFill.InsertHeadColumns | src/ddl/mssql/getTableFill.ts:43 | the header lists `[c1], [c2], …` after `INSERT INTO [s].[t]`, followed by `VALUES` |
| MssqlTableFill.FillScriptSpec | src/ddl/mssql/getTableFill.ts:13-45 | a query error is returned; zero rows give `--NO DATA`; otherwise the script is the header, the tuples joined by `,\n`, and `;`, each tuple holding the row's literals for the first row's columns |
| OraTableFill.OrderBySpec | src/ddl/ora/getTableFill.ts:16-20 | as for SQL Server, with `DESC NULLS LAST` on every demo key column |
| OraTableFill.RowLimitSpec | src/ddl/ora/getTableFill.ts:21 | full has no limit; demo gets `FETCH FIRST n ROWS ONLY` with n = `count \|\| 3` |
| OraTableFill.MaskedByIff | src/ddl/ora/getTableFill.ts:36-47 | a column is masked iff some rule whose schema and table patterns match has a field pattern matching it |
| OraTableFill.SelectMaskedFields | src/ddl/ora/getTableFill.ts:33-48 | the nested loops collect exactly the columns of the masked set |
| OraTableFill.MaskRowSpec | src/ddl/ora/getTableFill.ts:50-57 | masking keeps a row's keys, changes only the selected fields, and masks each of those with the masker's shape |
| OraTableFill.MaskRowsNothing | src/ddl/ora/getTableFill.ts:50 | with no field selected, the rows are unchanged |
| OraTableFill.RenderedSpec | src/ddl/ora/getTableFill.ts:33-59 | the rows after the masking step: same number, same keys, unselected fields copied, selected fields masked |
| OraTableFill.JsonCellSpec | src/ddl/ora/getTableFill.ts:70-77 | null and undefined become null, a date its ISO text, anything else is kept |
| OraTableFill.JsonRow | src/ddl/ora/getTableFill.ts:68-79 | a JSON row has the first row's columns as its keys |
| OraTableFill.JsonRecordSpec | src/ddl/ora/getTableFill.ts:62-81 | the record carries `schema_name`, `object_name`, `database_name` and one row per masked row, each cell converted |
| OraTableFill.LiteralNullIff | src/ddl/ora/getTableFill.ts:89 | a non-number renders `NULL` iff it is null or undefined |
| OraTableFill.LiteralUnquoted | src/ddl/ora/getTableFill.ts:90 | numbers, booleans and bigints are written unquoted |
| OraTableFill.LiteralQuoted | src/ddl/ora/getTableFill.ts:104 | any other value is `'…'`, without an N prefix, with every `'` doubled |
| OraTableFill.LiteralDate | src/ddl/ora/getTableFill.ts:91-103 | a midnight date is `TO_DATE('YYYY-MM-DD',…)`, any other date `TO_TIMESTAMP('YYYY-MM-DD HH:MM:SS.mmm',…)` |
| OraTableFill.SqlScriptSpec | src/ddl/ora/getTableFill.ts:86-108 | the script is the quoted-column header, one `SELECT … FROM DUAL` per row joined by `\nUNION ALL\n`, then `;` |
| OraTableFill.FillOutputEmpty | src/ddl/ora/getTableFill.ts:23-29 | a query error is returned; zero rows give `{"row":[]}` for JSON and `--NO DATA` for SQL |
| OraTableFill.GetTableFill | src/ddl/ora/getTableFill.ts:8-111 | the renderer, with its masking loops, computes the specified output |
| MssqlStat.GetStat | src/ddl/mssql/getStatList.ts:12-26 | one stat per schema, in input order, each the specified one |
| MssqlStat.StatKindsSpec | src/ddl/mssql/getStatList.ts:15-17 | each stat names its schema and has one entry per distinct kind, in first-appearance order; no objects give an empty list |
| MssqlStat.StatCountsSpec | src/ddl/mssql/getStatList.ts:17-22 | each count is the number of objects of that kind and at least 1; `isIgnore` holds iff the kind has no directory; the counts add up to the number of objects |
| MssqlStat.UniqueKindsSpec | src/ddl/mssql/getStatList.ts:16 | `Array.from(new Set(kinds))`: distinct, exactly the kinds present, in first-appearance order |
| MssqlStat.UniqueKindsOrdered | src/ddl/mssql/getStatList.ts:16 | the distinct kinds are in first-appearance order |
| MssqlStat.UniqueKindsHas | src/ddl/mssql/getStatList.ts:16 | a kind is among the distinct kinds iff some object has it |
| MssqlStat.SumOverUnique | src/ddl/mssql/getStatList.ts:17-20 | counting each distinct kind's objects counts every object once |
| MssqlStat.FirstOfKind | src/ddl/mssql/getStatList.ts:16 | the first-appearance index of a kind is within the list and holds that kind |
| MssqlStat.FirstOfKindIs | src/ddl/mssql/getStatList.ts:16 | an object whose kind is not found earlier is its kind's first appearance |
| MssqlStat.FirstOfKindBefore | src/ddl/mssql/getStatList.ts:16 | no object before a kind's first appearance has that kind |
| MssqlStat.CountKindAbsent | src/ddl/mssql/getStatList.ts:20 | an absent kind has count 0 |
| MssqlStat.CountKindPresent | src/ddl/mssql/getStatList.ts:20 | a present kind has count at least 1 |
| MssqlSync.MarkKind | src/ddl/mssql/index.ts:111-115 | marks exactly the objects of one kind in one schema `ignore`, and changes nothing else |
| MssqlSync.MarkEntry | src/ddl/mssql/index.ts:108-116 | handling one stat entry marks its kind in the first schema of that name when the entry is ignored |
| MssqlSync.MarkStat | src/ddl/mssql/index.ts:105-117 | handling one stat marks the ignored kinds of its schema |
| MssqlSync.MarkIgnored | src/ddl/mssql/index.ts:105-117 | after all stats, an object is `ignore` iff it was before or its schema's stat ignores its kind; only states change |
| MssqlSync.IgnoreMarkingSpec | src/ddl/mssql/index.ts:105-117 | with the stats of `getStat`, an object's kind is ignored iff `dirList[kind]` is missing or empty |
| MssqlSync.DecideSpec | src/ddl/mssql/index.ts:184-207 | absent or empty file: write, then `insert`; text differing from the trimmed file: write, then `update`; equal: `nochange` and no write; a failed write: `error` |
| MssqlSync.DecideWrites | src/ddl/mssql/index.ts:184-207 | every decision ends in a final state, and a write is of the composed text to the object's path |
| MssqlSync.ComposedHead | src/ddl/mssql/index.ts:182 | the corrected composition still starts with `USE [db]` and `GO` |
| MssqlSync.ComposedIdempotent | src/ddl/mssql/index.ts:165-207 | with the corrected (trimmed) composition, a file holding the composed text is left alone on the next run (`nochange`), whatever the DDL text |
| MssqlSync.ComposedAgrees | src/ddl/mssql/index.ts:165-182 | for a body that is already trimmed and non-empty, the trimmed composition is the text the source writes, and it is stable |
| MssqlSync.AsWrittenRewritesEmpty | src/ddl/mssql/index.ts:165-206 | as written, an empty DDL gives a text the next run always sees as changed, so it is rewritten every time |
| MssqlSync.ObjectStepSpec | src/ddl/mssql/index.ts:146-207 | a failing path lookup, file read, `getDdl` or table description gives `error` and no write; otherwise the untrimmed `USE [db]\nGO\n\n` + body is what is compared with the trimmed file and written to the object's path |
| MssqlSync.ObjectStepRewritesEmpty | src/ddl/mssql/index.ts:165-206 | as written, an object with an empty body whose file holds what the previous run wrote is `update`d again |
| MssqlSync.FillStepSpec | src/ddl/mssql/index.ts:213-267 | a failing lookup or read gives `error`; an existing file with `ignore_exists` gives `nochange` before anything is rendered, for full entries too; a failing render gives `error`; otherwise the untrimmed `USE [db]\nGO\n\n` + trimmed fill text is compared with the trimmed file |
| MssqlSync.FillStepWrites | src/ddl/mssql/index.ts:242-267 | a fill step ends in a final state, and a write is exactly `USE [db]\nGO\n\n` + trimmed fill text at the entry's path |
| MssqlSync.FillStepRewritesEmpty | src/ddl/mssql/index.ts:242-263 | as written, an empty fill script whose file holds what the previous run wrote is `update`d again when `ignore_exists` is off |
| MssqlSync.ProcessObjects | src/ddl/mssql/index.ts:142-208 | the object loop skips `ignore` objects, gives every other object its step's state, and counts exactly the non-ignored objects |
| MssqlSync.ProcessFills | src/ddl/mssql/index.ts:209-268 | the fill loop does the same for fill entries |
| MssqlSync.ProcessSchema | src/ddl/mssql/index.ts:142-268 | objects are processed before fill entries |
| MssqlSync.ProcessAll | src/ddl/mssql/index.ts:137-271 | a schema without objects is skipped, fill entries included; the progress counter ends at the number of visited items, never above the total |
| MssqlSync.ObjectsAfterFinal | src/ddl/mssql/index.ts:142-208 | after its schema is processed, an object keeps its kind and name and is `ignore` or final |
| MssqlSync.FillsAfterFinal | src/ddl/mssql/index.ts:209-268 | after its schema is processed, a fill entry keeps its name and type and is `ignore` or final |
| MssqlSync.VisitedAtMostTotal | src/ddl/mssql/index.ts:133-144 | the items visited are at most `totalObjectCount`, the non-ignored objects and fill entries |
| MssqlSync.KindLineComplete | src/ddl/mssql/index.ts:280-296 | once all objects of a kind are final, its tally line's four counts add up to the number of objects of that kind |
| MssqlSync.FillLineComplete | src/ddl/mssql/index.ts:297-326 | the same for full and demo fill entries |
| MssqlSync.GoMssql | src/ddl/mssql/index.ts:105-328 | names and links are unchanged; every object of a processed schema ends `ignore` or final; objects of ignored kinds end `ignore`; progress never exceeds the total |
| Text.TrimShape | src/ddl/mssql/index.ts:165 | `trim` gives a substring with no space at either end |
| Text.TrimIdempotent | src/ddl/mssql/index.ts:165-180 | trimming twice is trimming once |
| Text.TrimKeepsPrefix | src/ddl/mssql/index.ts:180-182 | trimming keeps a prefix that starts and ends with non-space characters |
| MssqlDb.DbMssql.constructor | src/db/mssql.ts:23-27 | a new executor is idle, unconnected, without parameters or init script |
| MssqlDb.DbMssql.IsErrorConnectionLost | src/db/mssql.ts:29-36 | the loop over the marks decides the transient-error predicate |
| MssqlDb.ConnectionLostIgnoresCase | src/db/mssql.ts:31-33 | the classification ignores the message's letter case |
| MssqlDb.MarksAreLost | src/db/mssql.ts:7-36 | each mark, in either case, is transient; the empty message is not |
| MssqlDb.DbMssql.Close | src/db/mssql.ts:105-111 | `close` leaves no pool and changes nothing else |
| MssqlDb.DbMssql.Connect | src/db/mssql.ts:85-96 | a connect makes one call; on failure the pool is dropped with `error connect to MSSQL: msg` |
| MssqlDb.DbMssql.Query | src/db/mssql.ts:50 | a query makes one call and returns the driver's answer |
| MssqlDb.DbMssql.ExecAsWritten | src/db/mssql.ts:38-65 | as written: a busy executor returns `parallel exec not allowed` and changes nothing; a success or a non-transient error is returned; a transient error within the retry budget, and a reconnect with an init script, end in `parallel exec not allowed` |
| MssqlDb.DbMssql.OpenAsWritten | src/db/mssql.ts:69-98 | as written: `open` stores the parameters and init script, and its init script run is refused while a script is in flight |
| MssqlDb.DbMssql.Open | src/db/mssql.ts:69-98 | `open` closes, stores the parameters and init script, connects, and runs a non-empty init script once, never retried |
| MssqlDb.DbMssql.Exec | src/db/mssql.ts:38-103 | a busy executor returns `parallel exec not allowed`; otherwise `exec` gives the outcome of the retry specification from count 0, and the busy flag is cleared |
| MssqlDb.DbMssql.Attempts | src/db/mssql.ts:44-61 | the bounded retry loop computes the retry specification |
| MssqlDb.DbMssql.Attempt | src/db/mssql.ts:44-60 | one attempt either finishes with the specified outcome or leaves a retry that the specification continues with |
| MssqlDb.RunSpecNotLost | src/db/mssql.ts:53-56 | a non-transient error returns `error execute: msg` after one call |
| MssqlDb.RetryRecovers | src/db/mssql.ts:57-60 | a transient error within the budget, followed by a reconnect and a good answer, returns that answer |
| MssqlDb.RunSpecBounded | src/db/mssql.ts:38-65 | an `exec` makes at most 3 calls per attempt over at most MAX_RETRIES + 2 attempts, and a success is the last call's answer |
| MssqlDb.QuerySpecBounded | src/db/mssql.ts:49-61 | the query step makes at least one call and stays within the retry budget |
| MssqlDb.RetryBounded | src/db/mssql.ts:57-60 | the retry branch stays within the retry budget |
| Text.ContainsIff | src/db/mssql.ts:33 | `includes` holds iff the text occurs at some index |
| Text.IntToStringValue | src/ddl/mssql/getDdl.ts:68 | an integer's text is an optional `-` then digits, and reads back as the integer |
| Text.NatToStringValue | src/ddl/mssql/getTableFill.ts:27-33 | a number's decimal text reads back as the number |

## Left out

- The text of the catalog queries and database semantics: every query result is an input, rows or an error message.
- The `mssql` driver and its connection pool: an oracle `driver(k)` answers each connect or query call. The pool's own `connected` flag after a failed query is not modelled; the model drops the pool only through `close`.
- `Sleep` between retries, password decryption and the Oracle executor (src/db/ora.ts is not part of this model).
- `format(…, { language: 'tsql' })` from sql-formatter, `fsReadFile`, `fsWriteFile` and `getDir`: these are the functions of the `Env` parameter. `trim` is modelled as stripping the white-space and line-terminator characters that JavaScript's `trim` strips.
- Logger calls, the per-schema log text of index.ts lines 105-131 and the `toFixed` percentage string.
- The DATABASE and SCHEMA file blocks of src/ddl/mssql/index.ts (lines 37-103), the configuration checks before them, and `getConfigDirList`.
- `JSON.stringify` output and makeStamp: the Oracle JSON record is modelled as a structured record, not as bytes.
- Float parsing and calendar arithmetic: `parseFloat`/`parseInt`, `setDate`/`setMinutes`, local-time field extraction and `toISOString` are functions of the `Runtime` parameter. A date is a record of components.
- Unicode: `\p{L}` and the masker's `toUpperCase` are `Runtime` functions. The matcher's `toLowerCase`, the schema filter's `toUpperCase` and the transient-error classifier's `errMsg.toUpperCase()` (src/db/mssql.ts:31-33) are ASCII-only in `Text.Lower` and `Text.Upper`, so a message in which JavaScript maps `ı` to `I` or `ſ` to `S` may match a mark that the model misses. The masker's `split('')` (src/util/mockValue.ts:28, 53-57) yields UTF-16 code units; the model works on characters, so a character outside the Basic Multilingual Plane is one position in the model and two lone surrogates in the source. Values are assumed to hold no line terminators, which the matcher's `.` would not match.
- src/config.ts, src/config.default.ts, src/index.ts and the debug scripts. The enums become the datatypes `UseMode` and `FilterMode`; the Oracle fill format is `FillFormat`.
- A masked column that is missing from a later row: `mockedRow[field] = …` would add the key, but the model masks only the fields a row has.
- Catalog.DemoFilter: its own contract states only the length; Catalog.FilterFillListSpec states what each schema keeps.
- MssqlDdl.IndexDdl: its contract states the success and not-found cases; the text is stated by MssqlDdl.IndexHeadUnique, MssqlDdl.IndexHeadKind and MssqlDdl.IndexColumnDecode.
- MssqlDdl.SequenceDdl: its contract states the success and not-found cases; the text is stated by MssqlDdl.SequenceCycleDecode. The START, INCREMENT, MINVALUE and MAXVALUE numbers are written as `IntToString` of the row's numbers.
- MssqlDdl.SynonymDdl: its contract states the success and not-found cases, not the `CREATE SYNONYM … FOR …` text.
- MssqlDdl.ModuleDdl: its contract states zero and one row; more rows are joined by `\n`, as the body shows.
- OraTableFill.JsonRow: its contract states the keys; the cells are stated by OraTableFill.JsonRecordSpec.
- MssqlSync.GoMssql: its contract states the end states and the counter bound; the exact per-item states are stated by MssqlSync.ProcessAll. The tally is returned as data, and its log text is not modelled.
- MssqlDb.DbMssql.ExecAsWritten: the contract covers the branches listed above, not every retry path.
- The retry counter is checked with `count > MAX_RETRIES` after the first failure, so up to MAX_RETRIES + 1 retries follow the first attempt. The model keeps this as written.

## Findings

| source | as written | input that shows it | evidently intended | confidence | as-written member | corrected member |
|---|---|---|---|---|---|---|
| src/db/mssql.ts:57-60 (with 39-41) | the retry calls `_exec` again before `finally` clears `_busyScript`, so the nested call returns `parallel exec not allowed`; a reconnect inside `_exec` with an init script is refused the same way | a connected executor whose query fails with `ECONNRESET`, count 0 | the busy flag is cleared, or not checked, for the retry, so a transient error is retried up to the budget | not executed | MssqlDb.DbMssql.ExecAsWritten | MssqlDb.DbMssql.Exec, MssqlDb.RetryRecovers |
| src/ddl/mssql/index.ts:165-206 | an empty DDL composes to `USE [db]\nGO\n\n`, which never equals the trimmed file, so the file is rewritten (`update`) on every run | a view or procedure whose definition query returns no rows, with the file from the previous run present | the composed text is compared in the same trimmed form as the file, so an unchanged object gives `nochange` | not executed | MssqlSync.AsWrittenRewritesEmpty, MssqlSync.ObjectStepRewritesEmpty, MssqlSync.FillStepRewritesEmpty | MssqlSync.ComposedIdempotent |
