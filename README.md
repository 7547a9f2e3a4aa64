# ktn_stats ingestion core, modelled in Dafny

ktn_stats copies the order sheets of a workshop's Google Sheets spreadsheets
into SQLite. The spreadsheet of each year has one sheet per day. The title of
each sheet holds a `d.m` date, and two sentinel sheets carry fixed dates. Every
row of a sheet is one order.

For each sheet, `StoreSpreadsheetByYear` does the following:

- It derives a partition date `YYYY.MM.DD` from the title and fingerprints the
  sheet's values.
- It skips the sheet when the Hashes table already holds that fingerprint for
  the date.
- Otherwise, in one transaction, it deletes the date's rows, updates its hash
  and inserts the records of the sheet.
- It then recounts the "essential words" of the date's inscriptions.

Each row becomes a `Data` record through a chain of steps:

- A header-driven map (`processRow`).
- Inheritance of the link across merged rows (`getMergedCells`).
- A reflection-driven fill of the struct fields from the map
  (`PopulateDataStructFromMap`).
- An upper-cased search text (`handleSearchField`).

A separate check (`CheckFieldnames`) compares the header names of the current
year's sheets with the tags of `Data`.

The Dafny project has one module per source package:

| module | file | models |
|---|---|---|
| `Wrappers` | `wrappers.dfy` | `Option`, `Result` |
| `GoText` | `gotext.dfy` | the parts of `strings`/`strconv`/`regexp`/`math` the code relies on |
| `Config` | `config.dfy` | `config/constants.go`, `config/env.go` |
| `Models` | `models.dfy` | `db/models.go`, with the reflection over `Data` as field tables |
| `SheetsClient` | `sheets_client.dfy` | `sheetsclient/sheetsclient.go` |
| `SheetsHandler` | `sheets_handler.dfy` | `sheetshandler/sheetshandler.go`: the row pipeline |
| `Db` | `db.dfy` | `db/db.go`: the SQL text and a `Store` class over the tables |
| `Essentials` | `essentials.dfy` | `essentialshandler/essentialshandler.go` |
| `SheetsSync` | `sheets_sync.dfy` | `sheetshandler/sheetshandler.go`: the per-sheet sync |
| `Tasks` | `check_fieldnames.dfy` | `tasks/check_fieldnames.go` |

Each loop of the source is a method with loop invariants, and each method is
proved equal to a specification function. The lemmas then state what the code
promises about those functions.

The model follows the definitions the code calls where the call sites in
sheetshandler/sheetshandler.go do not match them:

- The call sites read a `CustomerLink` field and set an `OrderLink` field,
  but the `Data` struct of db/models.go has neither. The model reads `Link`,
  the field tagged "Ссылка", and leaves `OrderLink` out.
- The call sites expect two results from `GetSpreadsheetByYear` and
  `BeginTransaction`, but each returns one. In the model a missing
  spreadsheet is an error, and beginning a transaction never fails.

## Model

| member | source | states |
|---|---|---|
| `GoText.Split` | config/env.go:52 | `strings.Split` with a one-rune separator gives at least one piece, and no piece holds the separator |
| `GoText.JoinSplit` | config/env.go:50-54 | joining the pieces of a split with the separator gives the text back, so the split loses and invents nothing |
| `GoText.SplitJoin` | sheetshandler/sheetshandler.go:258-264 | splitting a join of separator-free pieces gives exactly those pieces back |
| `GoText.SplitThree` | sheetshandler/sheetshandler.go:259-262 | three separator-free pieces joined with the separator split back into those three pieces |
| `GoText.IndexOf` | sheetshandler/sheetshandler.go:285 | the position found is the first occurrence of the rune, and nothing is found exactly when the rune is absent |
| `GoText.RemoveAll` | sheetsclient/sheetsclient.go:118 | the result holds no removed rune, is no longer than the input, and holds only runes of the input |
| `GoText.RemoveAllKeeps` | sheetsclient/sheetsclient.go:118 | every rune other than the removed one survives the removal |
| `GoText.RemoveAllAppend` | sheetsclient/sheetsclient.go:118 | removal distributes over concatenation |
| `GoText.RemoveAllAbsent` | sheetsclient/sheetsclient.go:118 | a text without the rune is returned unchanged |
| `GoText.TrimRight` | essentialshandler/essentialshandler.go:65 | the result is the longest prefix that does not end in a cut rune: everything removed is in the cutset |
| `GoText.TrimLeft` | sheetshandler/sheetshandler.go:319 | the result is the longest suffix that does not start with a cut rune |
| `GoText.TrimSpaceEnds` | sheetshandler/sheetshandler.go:319 | `strings.TrimSpace` returns a contiguous slice of its input that neither starts nor ends with white space |
| `GoText.TrimSpaceUpper` | sheetshandler/sheetshandler.go:315-319 | trimming white space keeps an upper-case text upper case |
| `GoText.PadZero` | sheetshandler/sheetshandler.go:260-261 | `%02s` left-pads with '0' up to the width and keeps the text as a suffix |
| `GoText.PadZeroValue` | sheetshandler/sheetshandler.go:260-261 | zero-padding digits keeps them digits of the same numeric value |
| `GoText.TwoDigitsUnique` | sheetshandler/sheetshandler.go:260-261 | two two-digit numerals of equal value are the same text |
| `GoText.ToUpperIdempotent` | sheetshandler/sheetshandler.go:295 | upper-casing twice is upper-casing once |
| `GoText.Atoi` | sheetshandler/sheetshandler.go:281 | an accepted text is an optional sign followed by one or more digits, and its value fits in 64 bits |
| `GoText.NatToString` | sheetshandler/sheetshandler.go:48 | the decimal digits of a natural number are non-empty and have no leading zero |
| `GoText.Itoa` | sheetshandler/sheetshandler.go:48 | `strconv.Itoa` never yields the empty text |
| `GoText.NatToStringValue` | sheetshandler/sheetshandler.go:48 | the digits printed for n have value n |
| `GoText.AtoiItoa` | sheetshandler/sheetshandler.go:281-283 | `Atoi` reads back every 64-bit integer `Itoa` prints (round trip) |
| `GoText.ParseDecimal` | sheetshandler/sheetshandler.go:285 | an accepted number is made of digits, one optional leading sign and '.', and its sign is the text's leading '-' |
| `GoText.RoundHalfAwayFromZero` | sheetshandler/sheetshandler.go:287 | `math.Round` of the exact value: the nearest integer with halves away from zero, with the sign of the number |
| `Config.SentinelsAreDistinct` | config/constants.go:20-23 | the two sentinel errors differ in identity and text, and the safe timeout exceeds the greedy one |
| `Config.DateMatchAt` | config/constants.go:26 | a match at p is a word boundary, one or two digits, '.', one or two digits and a word boundary, and no match is found exactly when no such shape starts at p |
| `Config.DateFindFrom` | config/constants.go:26 | the match found is the leftmost one at or after p, and none is found exactly when no position matches |
| `Config.FindDate` | sheetshandler/sheetshandler.go:58 | `FindString` returns "" or a text that splits at '.' into two groups of one or two digits |
| `Config.DateTextSplit` | config/constants.go:26 | the matched text splits at its dot into exactly its two digit groups |
| `Config.MatchesDateIffFound` | sheetsclient/sheetsclient.go:86 | `MatchString` holds exactly when `FindString` finds a non-empty match |
| `Config.DatePatternExamples` | config/constants.go:26 | "12.05.2023" yields "12.05", and "123.4" has no match because of the word boundary |
| `Config.GetEnv` | config/env.go:42-48 | a set variable's value wins, even when empty; the default is used only when the variable is unset |
| `Config.GetEnvAsSlice` | config/env.go:50-54 | the value is split at every ',' into comma-free pieces; an empty value gives one empty piece |
| `Config.GetEnvAsSliceJoin` | config/env.go:50-54 | joining the slice with "," gives back the `getEnv` value |
| `Config.GetEnvAsInt` | config/env.go:56-66 | the default is used when the variable is unset or not an integer, and the parsed value otherwise |
| `Config.GetEnvAsIntReadsItoa` | config/env.go:56-66 | a variable holding the decimal text of a 64-bit integer reads back as that integer, whatever the default |
| `Models.FieldTablesAligned` | db/models.go:5-45 | the name table and the tag table have one entry per struct field |
| `Models.PlainNames` | db/models.go:5-45 | every field name is non-empty and free of ',', ' ' and '?' |
| `Models.ModelTags` | tasks/check_fieldnames.go:51-56 | the set of tags is exactly the tags of the fields, "" included |
| `Models.Zero` | sheetshandler/sheetshandler.go:167-172 | Go's zero value of a kind has that kind |
| `Models.SetField` | sheetshandler/sheetshandler.go:279-297 | setting one field changes that field only, and a value of the field's own kind keeps the record well typed |
| `Models.NewRecord` | sheetshandler/sheetshandler.go:167-172 | the new record is well typed, has the given key and merge flag, and every other field is at its zero value |
| `Models.UntaggedFields` | db/models.go:6-9 | exactly the first four fields (Date, RowNumber, Search, IsMerged) have no tag |
| `Models.TagsDistinct` | db/models.go:11-44 | no two tagged fields share a tag, so a header name selects at most one field |
| `Models.FieldKindFacts` | db/models.go:5-45 | Sum is the only tagged `int` field, the other tagged fields are strings, and IsMerged is the only `bool` |
| `Models.TypeNameUnique` | sheetshandler/sheetshandler.go:294-296 | exactly one field is named "Type", so the upper-casing applies to it alone |
| `Models.NamedHeaders` | db/models.go:3-45 | the fields read by name (Link, Sum, Type, Inscription, InscriptionBracelet) have the expected tags and kinds, and the primary key is (Date, RowNumber) |
| `SheetsClient.NumericRunes` | sheetsclient/sheetsclient.go:117-121 | numeric text has only digits, signs and no-break spaces, and at least one digit |
| `SheetsClient.NoBreakSpaceIgnored` | sheetsclient/sheetsclient.go:117-121 | inserting a no-break space anywhere never changes whether a text is numeric |
| `SheetsClient.ItoaIsNumeric` | sheetsclient/sheetsclient.go:117-121 | every 64-bit integer printed by `Itoa` is numeric |
| `SheetsClient.NoBreakThousandsIsNumeric` | sheetsclient/sheetsclient.go:117-121 | "1 000" is numeric |
| `SheetsClient.NonNumericExamples` | sheetsclient/sheetsclient.go:117-121 | a plain space or a word makes text non-numeric |
| `SheetsClient.YearFindFrom` | sheetsclient/sheetsclient.go:124-126 | the position found is the leftmost match of `\b\d{4}\b` at or after p, and none is found exactly when there is no match |
| `SheetsClient.ExtractYearFromTitle` | sheetsclient/sheetsclient.go:123-129 | the result is "" exactly when the title has no match, and otherwise the four digits of the leftmost match |
| `SheetsClient.YearIsWholeRun` | sheetsclient/sheetsclient.go:124 | a year found is not preceded or followed by a digit |
| `SheetsClient.NoYearInFiveDigits` | sheetsclient/sheetsclient.go:124 | a run of five digits holds no year |
| `SheetsClient.YearExamples` | sheetsclient/sheetsclient.go:123-129 | "Заказы 2023" and "2023-2024" both give "2023" |
| `SheetsClient.SpreadsheetByYearSpec` | sheetsclient/sheetsclient.go:45-59 | the spreadsheet found is the first stop of the walk and has the year; nothing is found only when a failed fetch comes first or no title has the year |
| `SheetsClient.GetSpreadsheetByYear` | sheetsclient/sheetsclient.go:45-59 | the loop returns what the specification of the walk returns |
| `SheetsClient.RowNames` | sheetsclient/sheetsclient.go:98-109 | a row contributes exactly its non-numeric string cells |
| `SheetsClient.CollectSpec` | sheetsclient/sheetsclient.go:77-115 | collection fails exactly when a date sheet cannot be read, with the first such sheet's error; otherwise it gives exactly the first-row names of the date sheets |
| `SheetsClient.CollectKeepsError` | sheetsclient/sheetsclient.go:94-96 | once a prefix of the sheets fails, the whole collection fails with that error |
| `SheetsClient.GetFieldnamesFromSpreadsheet` | sheetsclient/sheetsclient.go:77-115 | the nested loops (first row only, through the `break`) compute the collection specification |
| `SheetsHandler.HeaderNames` | sheetshandler/sheetshandler.go:212-218 | a header row gives at most one name per cell |
| `SheetsHandler.HasLinkHeaderSnoc` | sheetshandler/sheetshandler.go:213-215 | scanning one more cell finds "Ссылка" exactly when it was already found or that cell is it |
| `SheetsHandler.HeaderNamesSnoc` | sheetshandler/sheetshandler.go:205-217 | scanning one more header cell adds its text to the names exactly when it is a string |
| `SheetsHandler.HeaderNamesAppend` | sheetshandler/sheetshandler.go:205-218 | the names of a row are the names of its parts, in order |
| `SheetsHandler.NonTextHeaderSkipped` | sheetshandler/sheetshandler.go:205-210 | a non-string header cell gives no name, so the names to its right shift one column left |
| `SheetsHandler.AllTextHeader` | sheetshandler/sheetshandler.go:212-218 | a header of strings only gives its strings in column order |
| `SheetsHandler.RowDataUpTo` | sheetshandler/sheetshandler.go:197-225 | the row map always holds "Ссылка", and every other key holds a non-empty value |
| `SheetsHandler.LastWriter` | sheetshandler/sheetshandler.go:220-224 | the column found is the last one that writes the key, and none is found only when no column writes it |
| `SheetsHandler.RowDataLastWriter` | sheetshandler/sheetshandler.go:200-225 | each key holds the cell of the last column that writes it; other keys are absent, except "Ссылка", which is then "" |
| `SheetsHandler.RowDataPrefix` | sheetshandler/sheetshandler.go:200-203 | the map depends only on the columns it reads |
| `SheetsHandler.ExtraColumnsIgnored` | sheetshandler/sheetshandler.go:201-203 | cells to the right of the last header column do not change a data row's map |
| `SheetsHandler.ProcessRow` | sheetshandler/sheetshandler.go:193-228 | one pass over the cells gives the row map, the header names and the link flag of the specification |
| `SheetsHandler.Range` | sheetshandler/sheetshandler.go:237 | the range holds exactly the rows from low up to, but not including, high |
| `SheetsHandler.MarkedRows` | sheetshandler/sheetshandler.go:230-243 | a row is marked exactly when some merge starting in column 0 or 1 covers it after its first row |
| `SheetsHandler.FirstRowNotMarked` | sheetshandler/sheetshandler.go:237 | a merge never marks its own first row |
| `SheetsHandler.MarkRows` | sheetshandler/sheetshandler.go:237-239 | the inner loop adds exactly the rows the merge covers |
| `SheetsHandler.GetMergedCells` | sheetshandler/sheetshandler.go:230-243 | the loop, which skips merges right of column 1, gives exactly the marked rows |
| `SheetsHandler.SerializeDateParts` | sheetshandler/sheetshandler.go:258-264 | a title date serialises to year, two-digit month and two-digit day, which split apart again and keep their values |
| `SheetsHandler.SerializeDateCanonical` | sheetshandler/sheetshandler.go:258-264 | two title dates of one year give the same date exactly when their day and month values are equal ("5.3" and "05.03") |
| `SheetsHandler.SerializeDateYears` | sheetshandler/sheetshandler.go:258-264 | dates of different years never collide |
| `SheetsHandler.AtoiIsDecimal` | sheetshandler/sheetshandler.go:281-287 | a text `Atoi` accepts has no comma and parses as a decimal of the same rounded value |
| `SheetsHandler.CoerceIntIsRounding` | sheetshandler/sheetshandler.go:280-291 | the int coercion is one rule: read the first comma as a point, round half away from zero, and give 0 for a non-number |
| `SheetsHandler.CoerceIntItoa` | sheetshandler/sheetshandler.go:281-283 | a sum written by `Itoa` reads back as itself |
| `SheetsHandler.CoerceIntDecimalComma` | sheetshandler/sheetshandler.go:285-287 | digits, a comma and digits read as the decimal they spell, rounded |
| `SheetsHandler.CoerceIntHalfUp` | sheetshandler/sheetshandler.go:285-287 | "12,5" becomes 13 |
| `SheetsHandler.CoerceIntDown` | sheetshandler/sheetshandler.go:285-287 | "7,49" becomes 7 |
| `SheetsHandler.CoerceIntNotANumber` | sheetshandler/sheetshandler.go:288-290 | empty or non-numeric text becomes 0 |
| `SheetsHandler.Stored` | sheetshandler/sheetshandler.go:279-297 | the kind switch stores a value of the field's own kind |
| `SheetsHandler.PopulateUpTo` | sheetshandler/sheetshandler.go:270-302 | a successful walk keeps the record's width |
| `SheetsHandler.PopulateErrorSticks` | sheetshandler/sheetshandler.go:299-300 | once a field fails, the later fields are not looked at |
| `SheetsHandler.PopulateUpToError` | sheetshandler/sheetshandler.go:299-300 | the walk fails exactly when it has passed IsMerged and the map has a key "", with the bool/"" error |
| `SheetsHandler.PopulateUpToFields` | sheetshandler/sheetshandler.go:270-297 | each field passed whose tag is a key holds the stored value of that key, and every other field is unchanged |
| `SheetsHandler.PopulatedSpec` | sheetshandler/sheetshandler.go:266-304 | filling fails exactly when the map has a value under "", and otherwise keeps the record well typed, its key, Search and merge flag, with each tagged field set from its column |
| `SheetsHandler.PopulatedOk` | sheetshandler/sheetshandler.go:266-304 | the successful case: a well-typed record, tagged fields from the map, untagged fields kept |
| `SheetsHandler.PopulatedHead` | sheetshandler/sheetshandler.go:266-304 | a filled record is well typed and Date, RowNumber, Search and IsMerged keep the values they were given |
| `SheetsHandler.PopulatedNamedFields` | sheetshandler/sheetshandler.go:279-297 | Link is the "Ссылка" text, Sum the coerced "Сумма", Type the upper-cased "Тип", and other string fields are copied as is |
| `SheetsHandler.PopulateDataStructFromMap` | sheetshandler/sheetshandler.go:266-304 | the reflection loop computes the fill specification, error included |
| `SheetsHandler.SearchTextUpper` | sheetshandler/sheetshandler.go:311-317 | the gathered text is upper case |
| `SheetsHandler.SearchTextSelected` | sheetshandler/sheetshandler.go:311-317 | the text depends only on the inscribed fields |
| `SheetsHandler.SearchTextNone` | sheetshandler/sheetshandler.go:311-317 | with no inscribed field the text is empty |
| `SheetsHandler.SearchFilledUpper` | sheetshandler/sheetshandler.go:306-320 | the new Search is upper case and has no white space at either end |
| `SheetsHandler.SearchFilledFrame` | sheetshandler/sheetshandler.go:306-320 | setting Search keeps the record well typed and its key, merge flag and link unchanged |
| `SheetsHandler.SearchFilledNone` | sheetshandler/sheetshandler.go:306-320 | with no inscribed field the new Search is "" |
| `SheetsHandler.SearchFilledSelected` | sheetshandler/sheetshandler.go:306-320 | records that agree on their inscribed fields get the same Search |
| `SheetsHandler.SearchFilledTwice` | sheetshandler/sheetshandler.go:306-320 | when the Search field itself is not inscribed, filling it twice equals filling it once |
| `SheetsHandler.SearchFilledIdempotent` | sheetshandler/sheetshandler.go:306-320 | the same idempotence, stated for the inscribed-set name "Search" |
| `SheetsHandler.HandleSearchField` | sheetshandler/sheetshandler.go:306-320 | the loop over the fields computes the Search specification |
| `SheetsHandler.RowsErrorSticks` | sheetshandler/sheetshandler.go:174-179 | the first failing row ends the row loop with its error |
| `SheetsHandler.NewRecordPopulated` | sheetshandler/sheetshandler.go:167-179 | a filled new record keeps its key and merge flag, and its link is the row's "Ссылка" text |
| `SheetsHandler.BuildRecordSpec` | sheetshandler/sheetshandler.go:161-181 | a built record is well typed, has the sheet's date, the row number rowIdx + 1, the merge flag and the row's link, and an upper-case Search |
| `SheetsHandler.BuildRecordError` | sheetshandler/sheetshandler.go:174-179 | building fails exactly when the row map has a value under the empty header name |
| `SheetsHandler.AppendRowError` | sheetshandler/sheetshandler.go:149-179 | a row fails exactly when it is kept and has a value under "" |
| `SheetsHandler.AppendRowRecord` | sheetshandler/sheetshandler.go:149-183 | a dropped row adds nothing; a kept row appends one record with the row's key and merge flag, whose link is inherited for a continuation row and its own otherwise |
| `SheetsHandler.HeaderRowDropped` | sheetshandler/sheetshandler.go:149-158 | the header row never becomes a record |
| `SheetsHandler.SheetRecordsStep` | sheetshandler/sheetshandler.go:146-184 | appending a record built for the next row keeps the sheet invariant: well typed, of the date, increasing row numbers, merge flags from the merges, inherited links |
| `SheetsHandler.AppendRowRecords` | sheetshandler/sheetshandler.go:146-184 | one row's append keeps the sheet invariant one row further |
| `SheetsHandler.StepRowRecords` | sheetshandler/sheetshandler.go:146-184 | one pass of the row loop keeps the sheet invariant, or fails with the bool/"" error |
| `SheetsHandler.RowsUpToRecords` | sheetshandler/sheetshandler.go:146-184 | after any number of rows the records satisfy the sheet invariant, and the only failure is the bool/"" error |
| `SheetsHandler.ProcessRowsSpec` | sheetshandler/sheetshandler.go:144-184 | a sheet's records satisfy the invariant over all rows and have pairwise distinct keys; the only failure is the bool/"" error |
| `SheetsHandler.AppendRowData` | sheetshandler/sheetshandler.go:149-183 | the loop body after `processRow` computes the append specification |
| `SheetsHandler.ProcessSheetRow` | sheetshandler/sheetshandler.go:147-183 | one iteration of the row loop computes the step specification |
| `SheetsHandler.ProcessSheetRows` | sheetshandler/sheetshandler.go:144-184 | the row loop of `processSheet`, with `getMergedCells`, computes the sheet's records or the first row error |
| `Db.ColumnDefs` | db/db.go:43-60 | one "Name TYPE" definition per field, in field order |
| `Db.DataKinds` | db/db.go:40-46 | the kinds of `Data` in declaration order |
| `Db.AppendColumnDefs` | db/db.go:43-60 | the first loop of `Init` appends the definitions joined by ", " |
| `Db.AppendKeys` | db/db.go:64-69 | the key loop appends the primary keys joined by ", " |
| `Db.BuildCreateTableSql` | db/db.go:40-75 | `Init` builds the CREATE TABLE text of the specification |
| `Db.PlainTypes` | db/db.go:48-54 | no column type holds ',' or ' ' |
| `Db.ColumnDefParse` | db/db.go:56 | one definition, with or without the space after a comma, reads back as its name and its type |
| `Db.ColumnsParse` | db/db.go:43-60 | a column list of plain names cut at ',' gives one piece per field, each of which reads back as the field's name and type |
| `Db.DataTableColumns` | db/db.go:40-75 | the Data table lists all 38 fields in order; IsMerged gets the empty type and Sum gets INTEGER |
| `Db.Placeholders` | db/db.go:236-242 | one "?" per field |
| `Db.BuildInsertSql` | db/db.go:236-248 | the field loop and `Sprintf` build the INSERT text of the specification |
| `Db.PlaceholderCount` | db/db.go:241-247 | n placeholders joined by "," carry exactly n '?' |
| `Db.InsertSqlShape` | db/db.go:236-248 | the INSERT lists the columns in order (they split back) and has exactly one '?' per column |
| `Db.DataInsertSql` | db/db.go:234-248 | for `Data`: all 38 columns and 38 placeholders |
| `Db.InsertEachPreserves` | db/db.go:256-266 | inserting never changes or removes a stored row |
| `Db.InsertEachKeyed` | db/db.go:256-266 | well-typed records go in under their own keys, so the table stays keyed |
| `Db.InsertEachSucceeds` | db/db.go:256-266 | the batch goes in without error exactly when no key is stored already and no two records share a key |
| `Db.InsertEachAdds` | db/db.go:256-266 | a successful batch adds exactly its records, each under its key |
| `Db.InsertEachBlames` | db/db.go:256-266 | a failing batch reports the key of one of its own records |
| `Db.WithoutDate` | db/db.go:286-299 | exactly the rows of other dates remain, unchanged |
| `Db.Store.constructor` | db/db.go:27-83 | a freshly initialised database has every table empty |
| `Db.Store.GetHash` | db/db.go:93-106 | returns the stored hash when the date has one, and `ErrNoRecordFound` otherwise |
| `Db.Store.CreateHash` | db/db.go:123-136 | adds a new row for a fresh date; for a stored date it reports the constraint failure and changes nothing |
| `Db.Store.UpdateHash` | db/db.go:153-166 | changes only that date's hash, and only if the date has a row |
| `Db.Store.DeleteDataByDate` | db/db.go:286-299 | exactly the rows of the date go, and everything else stays |
| `Db.Store.BulkInsertDataWithTx` | db/db.go:223-269 | an empty batch is a no-op; otherwise the records are inserted in order up to the first key violation, whose error is returned |
| `Db.Store.BulkInsertData` | db/db.go:168-221 | in its own transaction: either the whole batch lands or the table is as it was |
| `Db.Store.Begin` | db/db.go:85-91 | the transaction captures the tables a rollback returns to |
| `Db.Store.Rollback` | sheetshandler/sheetshandler.go:91-98 | the tables are restored to the transaction's snapshot, and the word counts are untouched |
| `Db.Store.UpdateWords` | essentialshandler/essentialshandler.go:41-43 | only the word counts of that date are replaced |
| `Essentials.CleanEssentialWord` | essentialshandler/essentialshandler.go:63-67 | the cleaned word has no quote, does not end in punctuation, and is the quote-free word less a punctuation-only tail |
| `Essentials.CleanFixedPoint` | essentialshandler/essentialshandler.go:63-67 | a word with no quote and no trailing punctuation is left as is |
| `Essentials.CleanIdempotent` | essentialshandler/essentialshandler.go:63-67 | cleaning twice is cleaning once |
| `Essentials.CleanKeepsLeadingPunctuation` | essentialshandler/essentialshandler.go:65 | only trailing punctuation is cut: a leading one stays |
| `Essentials.CleanDropsTrailingPunctuation` | essentialshandler/essentialshandler.go:65 | any run of trailing punctuation after a clean word goes |
| `Essentials.TrimTrailing` | essentialshandler/essentialshandler.go:65 | `TrimRight` stops at the last non-punctuation rune |
| `Essentials.Unbreak` | essentialshandler/essentialshandler.go:51 | every '\n' and '\r' becomes a space, and everything else is kept in place |
| `Essentials.UnbreakAppend` | essentialshandler/essentialshandler.go:51 | the replacement works piece by piece |
| `Essentials.RawWords` | essentialshandler/essentialshandler.go:51-53 | the raw words are at least one, and none holds a space |
| `Essentials.Select` | essentialshandler/essentialshandler.go:53-58 | the filter never yields more words than it is given |
| `Essentials.ExtractEssentialWords` | essentialshandler/essentialshandler.go:48-61 | the loop computes the word specification |
| `Essentials.SelectAppend` | essentialshandler/essentialshandler.go:53-58 | selection works word by word, keeping order and duplicates |
| `Essentials.SelectedWordsAreClean` | essentialshandler/essentialshandler.go:53-58 | every selected word passed the filter and is its own cleaning |
| `Essentials.NoLineBreaks` | essentialshandler/essentialshandler.go:51 | no raw word holds a line break |
| `Essentials.EssentialWordsAreClean` | essentialshandler/essentialshandler.go:48-61 | every extracted word has more than one rune and no lowercase Cyrillic, is clean, and has no space, line break or quote |
| `Essentials.LineBreaksAreSpaces` | essentialshandler/essentialshandler.go:51 | a line break separates words exactly as a space does |
| `Essentials.UnbreakAbsent` | essentialshandler/essentialshandler.go:51 | text without line breaks is unchanged by the replacements |
| `Essentials.SpacesSeparate` | essentialshandler/essentialshandler.go:53 | the words around a space are the words of each side, in order |
| `Essentials.LeadingSpaceDropped` | essentialshandler/essentialshandler.go:53-57 | a leading space gives only an empty word, which is dropped |
| `Essentials.KeptAsIs` | essentialshandler/essentialshandler.go:55-57 | a clean word of two or more runes, none of them lowercase Cyrillic, is kept |
| `Essentials.DroppedForLowercase` | essentialshandler/essentialshandler.go:55 | a clean word with a lowercase Cyrillic rune anywhere in it is dropped |
| `Essentials.ExampleUpper` | essentialshandler/essentialshandler.go:55 | "ПРИВЕТ" is a single word and is kept |
| `Essentials.ExampleLatin` | essentialshandler/essentialshandler.go:55 | "mir" is a single word and is kept: Latin letters are not Cyrillic |
| `Essentials.ExampleMixedCase` | essentialshandler/essentialshandler.go:55 | "Hello" is a single word and is kept |
| `Essentials.ExampleLower` | essentialshandler/essentialshandler.go:69-71 | "мир" is a single word and is dropped |
| `Essentials.ExampleLowerTail` | essentialshandler/essentialshandler.go:55 | "ПРИВЕТмир" is dropped: one lowercase Cyrillic rune after upper-case ones is enough |
| `Essentials.SingleWord` | essentialshandler/essentialshandler.go:51-53 | text with no space and no line break is one raw word |
| `Essentials.WordThenRest` | essentialshandler/essentialshandler.go:51-58 | a word and a space contribute that word's selection, then the words of the rest |
| `Essentials.ThreeKeptOneDropped` | essentialshandler/essentialshandler.go:51-58 | four space-separated words of which the last is dropped give the first three, in order |
| `Essentials.ExampleSentence` | essentialshandler/essentialshandler.go:48-61 | "ПРИВЕТ mir Hello мир" gives ["ПРИВЕТ", "mir", "Hello"] |
| `Essentials.CountsSnoc` | essentialshandler/essentialshandler.go:32 | one more word adds one to its count, with a missing key read as 0 |
| `Essentials.CountsOccurrences` | essentialshandler/essentialshandler.go:27-34 | the keys are exactly the words, and each count is the number of occurrences of its word |
| `Essentials.CountsTotal` | essentialshandler/essentialshandler.go:27-34 | the counts add up to the number of extracted words |
| `Essentials.CountWords` | essentialshandler/essentialshandler.go:31-33 | the inner loop counts one inscription's words on top of the earlier ones |
| `Essentials.CountEssentialWords` | essentialshandler/essentialshandler.go:27-34 | the nested loops count every extracted word of every inscription |
| `Essentials.UpdateEssentialsByDate` | essentialshandler/essentialshandler.go:21-46 | a failed fetch returns its error and changes nothing; otherwise only that date's word counts are replaced by the counts of its inscriptions |
| `SheetsSync.PartitionDay` | sheetshandler/sheetshandler.go:57-68 | a non-sentinel title gives the pattern's match, and a day found has two '.'-separated parts |
| `SheetsSync.TitleDate` | sheetshandler/sheetshandler.go:57-84 | a dated title gives "<year>.<MM>.<DD>" with two-digit month and day of the title's values |
| `SheetsSync.UndatedTitle` | sheetshandler/sheetshandler.go:66-68 | a title with neither a date nor a sentinel name has no partition |
| `SheetsSync.ProcessedRows` | sheetshandler/sheetshandler.go:144-188 | the row loop yields well-typed records of the date with distinct keys, or the bool/"" error |
| `SheetsSync.ProcessRowsReady` | sheetshandler/sheetshandler.go:144-188 | `processSheet`'s row loop meets what the sync relies on |
| `SheetsSync.TransactionSpec` | sheetshandler/sheetshandler.go:132-191 | the transaction fails exactly when the rows do; otherwise it sets the date's hash, keeps other dates' rows, and the date's rows become exactly the sheet's records |
| `SheetsSync.TransactionKeyed` | sheetshandler/sheetshandler.go:186-188 | the stored rows stay keyed by their own keys |
| `SheetsSync.CommitOtherDates` | sheetshandler/sheetshandler.go:113-124 | committing a sheet leaves every other date's hash, rows and words as they were |
| `SheetsSync.CommitSpec` | sheetshandler/sheetshandler.go:113-124 | a commit that changes anything sets the date's hash; a clean one also stores the sheet's records and the counts of the date's inscriptions |
| `SheetsSync.CommitHash` | sheetshandler/sheetshandler.go:113-124 | a commit that goes through records the sheet's new hash under its date |
| `SheetsSync.SkipIffUnchanged` | sheetshandler/sheetshandler.go:100-111 | a dated, readable sheet is left alone exactly when its date's stored hash equals its fingerprint |
| `SheetsSync.UndatedSkipped` | sheetshandler/sheetshandler.go:66-68 | a sheet without a partition date changes nothing |
| `SheetsSync.CommitFailure` | sheetshandler/sheetshandler.go:118-124 | a failing commit that changed the tables failed in the word recount, after the transaction went through |
| `SheetsSync.FailureRollsBack` | sheetshandler/sheetshandler.go:86-124 | a failing sheet leaves the tables as they were, unless the failure is the recount after the commit |
| `SheetsSync.SyncTwice` | sheetshandler/sheetshandler.go:100-111 | syncing a sheet again after a clean sync changes nothing |
| `SheetsSync.OtherDatesUntouched` | sheetshandler/sheetshandler.go:54-127 | one sheet never touches another date's hash, rows or words |
| `SheetsSync.RewrittenDate` | sheetshandler/sheetshandler.go:84-124 | a rewritten date ends with the sheet's fingerprint, exactly its records, and the counts of its inscriptions |
| `SheetsSync.UnsyncedDatesUntouched` | sheetshandler/sheetshandler.go:54-127 | a date that no sheet of the spreadsheet maps to survives the whole loop |
| `SheetsSync.SyncErrorSticks` | sheetshandler/sheetshandler.go:54-127 | the first failing sheet ends the loop: later sheets are not looked at |
| `SheetsSync.StoreSheet` | sheetshandler/sheetshandler.go:55-126 | the loop body for one sheet changes the store as the per-sheet specification says |
| `SheetsSync.DecideSheet` | sheetshandler/sheetshandler.go:57-111 | the date, read and hash steps make the specified decision, touch at most the date's hash, and open the transaction |
| `SheetsSync.RewriteSheet` | sheetshandler/sheetshandler.go:113-124 | `processSheet`, the commit and the recount give the commit specification |
| `SheetsSync.FinishSheet` | sheetshandler/sheetshandler.go:113-124 | the bulk insert, the rollback on error, the commit and the recount give the commit specification |
| `SheetsSync.StoreSpreadsheetByYear` | sheetshandler/sheetshandler.go:47-130 | a missing spreadsheet is an error that changes nothing; otherwise the sheets are synced in order up to the first error |
| `Tasks.AreFieldnamesPresentInModel` | tasks/check_fieldnames.go:47-66 | the result holds exactly when every name is a tag of the model |
| `Tasks.RemoveExcluded` | tasks/check_fieldnames.go:35-37 | a name is kept exactly when it was collected and is not excluded |
| `Tasks.CheckFieldnames` | tasks/check_fieldnames.go:18-44 | the check returns the outcome of the specification for the year's spreadsheet |
| `Tasks.NewFieldsIffUnknownName` | tasks/check_fieldnames.go:33-41 | for readable sheets, the check fails only with new-fields, and exactly when some date sheet has a non-numeric first-row name that is neither excluded nor a tag |
| `Tasks.ExcludedNeverFail` | tasks/check_fieldnames.go:35-41 | a spreadsheet whose header names differ from another's only by excluded names gets the same outcome from the check |
| `Tasks.EmptyNamePasses` | tasks/check_fieldnames.go:51-56 | "" is a tag of the model (from the untagged fields), so an empty header name passes |
| `Tasks.TagsNotExcluded` | tasks/check_fieldnames.go:35-41 | the excluded "да" is no tag, so it would fail the check were it not removed |

## Left out

- Network and file I/O are given to the operations as data rather than modelled. This covers:
  - the Google Sheets service (spreadsheets, merges and read values);
  - `godotenv` and `os.LookupEnv` (an environment map);
  - SQLite (in-memory tables in `Db.Store`);
  - the credentials file.
- `time.Sleep`, the request timeouts and logging are left out (only the timeout constants are kept). The clock (`time.Now().Year()`) is a parameter.
- `GenerateHash` (JSON plus SHA-256) is a parameter `fingerprint` of the grid. It is assumed never to return "", which a hex digest never is.
- `GetInscriptionsByDate` and `config.FieldsWithInscription` are parameters, because neither is part of this model.
- `config.LowercaseCyrillicRegex` is not part of this model either. The set of runes it matches is a parameter, and the sentinel sheet names and dates are parameters.
- `OrderLink` and the order URL built in `processSheet` are left out, because `Data` in db/models.go has no such field.
- Error wrapping with `fmt.Errorf` is left out: an error keeps its cause only. `log.Fatalf`, `utils.HandleError` and panics are reported as ordinary errors, or cannot arise in the model.
- `GetHash` errors other than "no rows" are left out: the in-memory store has none.
- The Hashes table of `Init` and the foreign key are not modelled. `Init` is the `Store` constructor and the CREATE TABLE text.
- The transaction opened for a skipped sheet, which the source leaves open, is left out. A transaction is a snapshot that a rollback restores. Concurrency and isolation are not modelled.
- The deferred rollback on panic is left out: nothing panics in the model.
- Map iteration order in `areFieldnamesPresentInModel` is modelled by an arbitrary choice (`:|`). Only the verdict is stated, not which missing key is reported.
- `GoText.ParseDecimal` accepts only plain decimals: sign, digits and one '.'. Exponents, `Inf`, `NaN`, hexadecimal and underscores, which `strconv.ParseFloat` also accepts, are left out. Rounding is done on the exact value, not on a 64-bit float.
- `GoText.UpperRune` upper-cases only ASCII letters and the basic Cyrillic block (U+0400–U+045F). Other scripts are left unchanged.
- `GoText.Atoi` does not model the `strconv.NumError` text: only success or failure is kept.
- `SheetsSync.StoreSpreadsheetByYear` stands for `processSheet`'s row loop through `Setup.rowLoop`; `RunsProcessRows` ties that parameter to `SheetsHandler.ProcessRows` in every method that runs the sync.
- `SheetsHandler.CoerceInt` (and so `SheetsHandler.Stored`): the `int64(...)` conversion of the rounded `ParseFloat` value is not modelled. A rounded value outside the int64 range, such as that of "10000000000000000000,0", is kept as the exact integer; in Go the conversion of such a value is implementation-defined. The `Atoi` path is bounded to int64.
- `Db.Store.UpdateWords` (and so `Essentials.UpdateEssentialsByDate`): the error that the SQL update, or `json.Marshal` before it, can return is not modelled, because the in-memory store never fails. A failed update would leave the words as they were and return an error, which is the same outcome a failed `GetInscriptionsByDate` already gives.
- `SerializeDate` is only defined for names that split into at least two pieces at '.'. The Go code would panic on any other name, and the callers never pass one.
