# Carga de Abonos — a Dafny model of the payment-report processor

The Taxi Monterrico "Carga de Abonos" front end reads the payment reports
that two banks, BBVA and BCP, deliver as Excel workbooks. It turns each
report into a workbook summary (`ExcelData`: sheets with headers, row
objects and counts), normalises the rows into payment records
(`AbonoRecord`), combines the records of a BBVA file and a BCP file, and
lets the user filter, compare and export them as CSV or XLSX.

This project models that core in Dafny and proves what it does:

- **Column matching** (`BestMatch`, match.dfy): `findBestMatch`, its
  generic, BBVA and BCP pattern lists, and the BCP "documento" special
  cases.
- **The generic processor** (`Processor`, processor.dfy), from
  `excelProcessor.ts`:
  - the BBVA header test at row 31;
  - the "Estimado cliente" data end;
  - the generic header search;
  - header cleaning;
  - the row objects;
  - `combineExcelData` and `createSingleFileData` with their per-bank
    normalisers;
  - both CSV exporters.
- **The BCP reader** (`Bcp`, bcp.dfy, and `BcpRecords`, bcp_records.dfy),
  from `excelProcessorBCP.ts`:
  - the merge of the repeated "Documento" columns;
  - the legacy `.xls` reader and the modern reader;
  - the header search;
  - the two-pass renaming of document keys;
  - `getColumnValue`;
  - the record builder;
  - the CSV exporter.
- **The BBVA readers**:
  - the second BBVA reader (`BbvaV2`, bbva_v2.dfy): sentinel-aware sheet
    search, row extraction, `getColumnValue` and the record builder;
  - the first BBVA reader (`Bbva`, bbva.dfy): row 31 headers, data up to
    the closing letter.
- **The combined processor** (`Combined`, combined.dfy): its
  `combineExcelData` and the rows of its XLSX export.
- **The two views** (`Viewer`, viewer.dfy, and `Comparison`,
  comparison.dfy): `CombinedDataViewer` (filters, statistics, table cells,
  export of the listed records) and `ComparisonView` (unique, common and
  file-only headers, column compatibility).
- **Shared modules**:
  - `Wrappers`: Option and Result;
  - `Text`: trim, lower case, accent stripping, includes, split and join;
  - `Numbers`: `String(n)`, `parseFloat`;
  - `Sheet`: grids, JavaScript objects as ordered property lists, row
    access;
  - `Records`: `AbonoRecord`, the retention rule, identifiers, the sheet
    and row walk;
  - `Csv`: a reference reader of section 2 of RFC 4180, the partner
    against which every exporter's round trip is proved.

A workbook is the grid of cell texts its library hands over
(`seq<seq<string>>`, "" for an absent cell), so reading is a function from
the upload's name, type, size and sheets to a resolved value or a
rejection message. Each loop of the source is a method whose `ensures`
ties its result to a specification function, and the properties are
lemmas about those functions.

Where the code behaves in ways its callers may not expect, the model
follows the code and proves what it does:

- record ids are built as `fileName_index`, and the index restarts with
  each sheet, so ids are unique within a sheet and across differently
  named files, but two sheets of one file can repeat an id
  (`Combined.IdsRepeatAcrossSheets`);
- the BCP "documento" fallback can resolve to the "Documento - Tipo" header
  (`BestMatch.BcpDocumentoFallsBackToTipo`);
- `createSingleFileData` in `excelProcessor.ts` reads BCP rows by position,
  so object rows are all dropped (`Processor.KeyedRowsDropped`);
- in the second BBVA reader:
  - the data after a header runs to the sheet's end, and a later
    "Estimado cliente" row is read as data
    (`BbvaV2.SentinelAfterHeaderIsData`);
  - its header recheck always passes (`BbvaV2.HeaderRecheckPasses`);
  - array rows read the status from the account column
    (`BbvaV2.CellsStatusIsAccount`);
- a repeated "Documento" column separated from the first lands under the
  previous output column (`Bcp.SeparatedDuplicateMisplaced`);
- `exportCombinedToCSV` does not double inner quotes
  (`Processor.ExportCombinedQuoteBreaks`).

## Model

| member | source | states |
|---|---|---|
| BestMatch.FindBestMatch | src/utils/excelProcessor.ts:62-158 | The answer is null or one of the headers, and never an empty one. |
| BestMatch.ByPatternsWinner | src/utils/excelProcessor.ts:122-155 | Patterns are tried in list order and headers in header order. The answer is the first header passing the first pattern whose found header is non-empty. |
| BestMatch.ByPatternsAppend | src/utils/excelProcessor.ts:149-155 | Searching one pattern list and then another is the same as searching their concatenation. |
| BestMatch.LayoutThenGeneric | src/utils/excelProcessor.ts:66-84 | For a BBVA file, the BBVA patterns are searched before the generic ones. Without a layout, only the generic list is searched. |
| BestMatch.FindIndex | src/utils/excelProcessor.ts:149-155 | `find` stops at the first header passing the test; no earlier header passes it. |
| BestMatch.StripSeparators | src/utils/excelProcessor.ts:127-129 | No hyphen, underscore or white space is left, and the result is no longer than the text. |
| BestMatch.FindWithoutBlanks | src/utils/excelProcessor.ts:149-155 | When no header is blank, a pattern finds something exactly when some header passes its test. |
| BestMatch.LeadingBlankHidesAll | src/utils/excelProcessor.ts:149-155 | A blank first header passes every loose test, so the generic search finds nothing, even when a later header matches. |
| BestMatch.BcpDocumentoTipo | src/utils/excelProcessor.ts:105-111 | With the BCP layout, documento_tipo resolves to the first header containing both "documento" and "tipo". |
| BestMatch.BcpDocumento | src/utils/excelProcessor.ts:114-120 | With the BCP layout, documento resolves to the first header that is "documento" or contains it without "tipo". The chosen header never contains "tipo". |
| BestMatch.BcpDocumentoFallsBackToTipo | src/utils/excelProcessor.ts:114-146 | Without a plain documento header, the pattern list takes over and can return "Documento - Tipo" for the number. |
| BestMatch.BcpDocumentoLayout | src/utils/excelProcessor.ts:114-146 | Without a documento header, the BCP pattern list decides whenever it finds a header. |
| Processor.FirstHeaderFrom | src/utils/excelProcessor.ts:309-333 | The search answers the first header row in the range, or the limit. No earlier row is a header row. |
| Processor.GenericHeaderIndex | src/utils/excelProcessor.ts:309-333 | The header row lies within the first 20 rows and no earlier row is a header row. It is a header row whenever one of the first 20 rows is; otherwise it is row 0. |
| Processor.FindHeaderRow | src/utils/excelProcessor.ts:309-333 | The loop answers the header row index of the specification. |
| Processor.SentinelFrom | src/utils/excelProcessor.ts:279-289 | The answer is the first "estimado cliente" row at or after i, or the row count. |
| Processor.BbvaDataEnd | src/utils/excelProcessor.ts:279-303 | The data end lies between the start and the row count, so the extracted slice stays inside the grid. |
| Processor.FindDataEnd | src/utils/excelProcessor.ts:279-303 | The loop answers the data end of the specification. |
| Processor.BbvaRegion | src/utils/excelProcessor.ts:277-303 | When the data starts at row 31, the region stays in the grid and holds no sentinel from index 41 on. If some row from index 41 on is a sentinel, the region ends exactly at the first such row, however far. Otherwise it ends at row 81 or at the row count, whichever is smaller. |
| Processor.CleanHeaders | src/utils/excelProcessor.ts:366-372 | Each header is trimmed; a blank header becomes `Columna_<n>` for its column. |
| Processor.PlaceholdersDistinct | src/utils/excelProcessor.ts:366-372 | Two blank columns never get the same placeholder. |
| Processor.ProcessExcelFile | src/utils/excelProcessor.ts:160-589 | The reader's outcome is that of the first sheet. It resolves with the one-sheet workbook, or it never settles for a BBVA sheet without its header at row 31. An empty first sheet rejects through the missing `sheet_to_array` fallback. |
| Processor.ProcessOutcomes | src/utils/excelProcessor.ts:189-231 | An empty first sheet is rejected, whatever the bank, with "Error procesando archivo: " and the TypeError of `XLSX.utils.sheet_to_array`. The promise stays pending exactly for a BBVA sheet with rows but without the BBVA header at row 31. Every other sheet resolves. |
| Processor.BbvaProcessing | src/utils/excelProcessor.ts:245-275 | A BBVA file is read exactly when row 31 is the BBVA header row. The result is one sheet with the BBVA table headers, and its row count and total equal its number of rows. |
| Processor.BbvaRows | src/utils/excelProcessor.ts:381-434 | Every row of a BBVA result is the object of a kept row of the data region, under the cleaned headers of row 31. Every such object is present. |
| Processor.GenericProcessing | src/utils/excelProcessor.ts:304-363 | A BCP or unspecified file is read exactly when its first sheet has rows; an empty one is rejected (Processor.ProcessOutcomes). The result is one sheet with the BCP table headers, and its counts equal its number of rows. |
| Processor.GenericRows | src/utils/excelProcessor.ts:391-434 | Every row of a BCP or generic result is the object of a kept row below the header row, under its cleaned headers. Every such object is present. |
| Processor.RowObject | src/utils/excelProcessor.ts:427-434 | Each row object maps every cleaned header to the trimmed cell of the last column carrying that header, and has no other key. |
| Processor.CombineExcelData | src/utils/excelProcessor.ts:600-805 | The method returns the specification's combined data: the records, their count and both source names. |
| Processor.FirstFileShaped | src/utils/excelProcessor.ts:614-675 | Every row of the first file gives a record named after the file and the row index, with no '-' in the account. |
| Processor.SecondFileShaped | src/utils/excelProcessor.ts:731-795 | Every row of the second file gives a record named after the file and the row index. Its document fields default to "-". |
| Processor.FirstFileRecords | src/utils/excelProcessor.ts:614-675 | Every record collected from the first file is well formed, comes from that file and has one of its row indexes as id. |
| Processor.SecondFileRecords | src/utils/excelProcessor.ts:731-795 | Every record collected from the second file is well formed, comes from that file and has one of its row indexes as id. |
| Processor.FileRecords | src/utils/excelProcessor.ts:673-675 | The records collected from a file whose rows give shaped records all come from that file. |
| Processor.CombineOrder | src/utils/excelProcessor.ts:600-805 | Every first-file record comes before every second-file record. Each carries its own file's name and a row index of that file. |
| Processor.SheetIdsDistinct | src/utils/excelProcessor.ts:615 | The records of one sheet of the first file have pairwise different ids. The index restarts with each sheet. |
| Processor.SecondSheetIdsDistinct | src/utils/excelProcessor.ts:727-767 | The records of one sheet of the second file have pairwise different ids. |
| Processor.CreateSingleFileData | src/utils/excelProcessor.ts:807-932 | The method returns the specification's data. A BBVA sheet without rows is skipped. |
| Processor.CollectSkipping | src/utils/excelProcessor.ts:814-824 | The sheet loop collects each sheet's retained records in sheet order. Skipping a sheet without rows changes nothing, because such a sheet has no candidates. |
| Processor.SingleShaped | src/utils/excelProcessor.ts:849-908 | Every row gives a shaped record named after the file and its index. |
| Processor.SingleRecords | src/utils/excelProcessor.ts:807-932 | A record is listed exactly when it is retained and some row yields it. Every listed record is well formed and from the file. |
| Processor.AtKeyedIsBlank | src/utils/excelProcessor.ts:887-908 | Reading an object row by position looks up the property "0", "1", and so on. Without digit keys, every such cell is "". |
| Processor.KeyedRowNotRetained | src/utils/excelProcessor.ts:887-922 | An object row without digit keys, read by position, gives a blank record, and the retention rule drops it. |
| Processor.KeyedRowsDropped | src/utils/excelProcessor.ts:887-922 | On the BCP path, a file of object rows gives no record at all. |
| Processor.ExportRowsRoundTrip | src/utils/excelProcessor.ts:995-1004 | exportToCSV writes nothing for no rows. Otherwise, when the first row's keys need no quoting, a CSV reader gets back the header line and every row's values. |
| Processor.CombinedCsvLines | src/utils/excelProcessor.ts:934-961 | The export has one header line and then one line per record, in record order. |
| Processor.QuotedEncodes | src/utils/excelProcessor.ts:942-960 | Quoting without doubling the inner quotes is a correct CSV encoding exactly for text without quotes. |
| Processor.CombinedHeadersBare | src/utils/excelProcessor.ts:935-939 | None of the 17 header names needs quoting. |
| Processor.CombinedLineEncodes | src/utils/excelProcessor.ts:942-960 | Each field of a record line encodes that record's value in its column, when no text field holds a quote and no amount needs quoting. |
| Processor.ExportCombinedRoundTrip | src/utils/excelProcessor.ts:934-961 | Under the same conditions, a CSV reader gets back the header names and every record's values in column order. |
| Processor.ExportCombinedQuoteBreaks | src/utils/excelProcessor.ts:942-960 | A quote inside a text field breaks the line: a holder written `a"b` does not give a CSV record. |
| Bcp.MergedHeaders | src/utils/excelProcessorBCP.ts:77-93 | The merged header row is every header in order, without holes, each document header at its first column only. |
| Bcp.MergeHeaders | src/utils/excelProcessorBCP.ts:77-93 | The header loop builds the merged header row. |
| Bcp.MergedHeadersDupOnce | src/utils/excelProcessorBCP.ts:77-93 | Each document header appears in the merged row at most once. |
| Bcp.MergedHeadersMember | src/utils/excelProcessorBCP.ts:77-93 | A header is in the merged row exactly when it is a non-blank header of the sheet. |
| Bcp.MergedHeadersKeepOthers | src/utils/excelProcessorBCP.ts:77-93 | Every other header, repeated ones included, is kept in its order. |
| Bcp.OthersAppend | src/utils/excelProcessorBCP.ts:77-93 | The headers other than the document headers, taken over a concatenation, are those of each part. |
| Bcp.KeptColumnsFacts | src/utils/excelProcessorBCP.ts:77-93 | The kept columns are exactly the columns with a header of their own, in increasing order. |
| Bcp.KeptColumnsHeaders | src/utils/excelProcessorBCP.ts:77-93 | The merged header row is the headers of the kept columns. |
| Bcp.MergeColumn | src/utils/excelProcessorBCP.ts:126-158 | One step of the row loop builds the merged row of one more column. |
| Bcp.MergeRow | src/utils/excelProcessorBCP.ts:126-158 | The row loop builds the specification's merged row. |
| Bcp.MergedRowCells | src/utils/excelProcessorBCP.ts:126-158 | Each merged cell is the cell of its own column. When that cell is blank, it can instead be the non-blank cell of a repeated document column whose nearest kept column to the left is this one. |
| Bcp.MergedRowWithoutRepeats | src/utils/excelProcessorBCP.ts:126-158 | Without repeated document columns, the merged row is the row's cells under the kept columns, each once and in column order. |
| Bcp.AdjacentDuplicates | src/utils/excelProcessorBCP.ts:139-150 | Two adjacent document columns merge into one cell. The second value is used only when the first is blank and the second is not. |
| Bcp.SeparatedDuplicateMisplaced | src/utils/excelProcessorBCP.ts:139-150 | With headers Documento, Monto, Documento and cells "", "", "X", the value "X" lands under "Monto". |
| Bcp.MergeSheet | src/utils/excelProcessorBCP.ts:103-166 | The sheet merge returns the merged sheet as the legacy reader gets it back, or the merge's error. |
| Bcp.MergeSheetShape | src/utils/excelProcessorBCP.ts:103-166 | The merge fails exactly when the sheet has no data row. With a merged header, the sheet read back keeps every row up to the last row with values, at its row number. A row with values has its merged cells, one per merged header. A blank row inside that range comes back as '' under every merged header. The rows after the last row with values are gone. Without a merged header, nothing reads back. |
| Bcp.MergedXlsRowCount | src/utils/excelProcessorBCP.ts:305-336 | On the legacy path, every row of the merged sheet after its header becomes a row object, interior blank rows included, so the row count is the number of rows read back after the header. |
| Bcp.ReadXlsRows | src/utils/excelProcessorBCP.ts:318-330 | The row loop gives the objects of the non-empty later rows, under the trimmed headers of row 0. |
| Bcp.ReadXlsSheet | src/utils/excelProcessorBCP.ts:306-339 | One legacy sheet is read as the specification's sheet. |
| Bcp.ReadXlsBook | src/utils/excelProcessorBCP.ts:297-351 | The sheet loop gives the specification's sheets and the total of their row counts. |
| Bcp.XlsSheetRows | src/utils/excelProcessorBCP.ts:306-339 | A legacy sheet's headers are the trimmed cells of row 0. Its rows are exactly the later non-empty rows, each as the object of its trimmed cells. The row count is the number of rows. |
| Bcp.XlsSheetsMember | src/utils/excelProcessorBCP.ts:297-351 | The legacy reader keeps exactly the sheets that have rows, in workbook order. |
| Bcp.TotalRowsAppend | src/utils/excelProcessorBCP.ts:297-351 | Adding a sheet adds its rows to the total. |
| Bcp.ValuedRowsMember | src/utils/excelProcessorBCP.ts:391-399 | A row is read exactly when it is a row of the sheet that has values. |
| Bcp.CollectValuedRows | src/utils/excelProcessorBCP.ts:391-399 | The `eachRow` loop gives the rows with values, in order. |
| Bcp.FirstBcpHeaderFromFacts | src/utils/excelProcessorBCP.ts:417-454 | The search stops at the first BCP header row, or at the limit. |
| Bcp.BcpHeaderIndexFacts | src/utils/excelProcessorBCP.ts:417-454 | The header row is among the first ten rows and no earlier row is a header row. It is a header row whenever one of the first ten is; otherwise it is row 0. |
| Bcp.FindBcpHeaderRow | src/utils/excelProcessorBCP.ts:417-454 | The loop answers the specification's header row. |
| Bcp.CollectBcpRows | src/utils/excelProcessorBCP.ts:457-484 | The data loop gives the objects of the non-empty later rows that have some value. |
| Bcp.BcpRowsMember | src/utils/excelProcessorBCP.ts:457-484 | The rows kept from a start row on are exactly the objects of the non-empty rows with some value. |
| Bcp.XlsxBookRows | src/utils/excelProcessorBCP.ts:457-484 | The sheet's rows are exactly the later rows that are not empty and have some value, each as the object of its cells under the headers. |
| Bcp.XlsxRowsKeyed | src/utils/excelProcessorBCP.ts:457-484 | Every row of the sheet is an object with unique keys and some value. |
| Bcp.ReadXlsxSheet | src/utils/excelProcessorBCP.ts:385-506 | The modern reader on the first worksheet follows the specification. |
| Bcp.ReadXlsxBook | src/utils/excelProcessorBCP.ts:385-506 | The header search and the data loop give the specification's one-sheet workbook. |
| Bcp.XlsxBookShape | src/utils/excelProcessorBCP.ts:486-506 | The modern reader gives one sheet under the worksheet's name, with the trimmed header cells as headers. Its row and total counts equal the number of rows. |
| Bcp.ProcessBcpFile | src/utils/excelProcessorBCP.ts:248-520 | processBCPFile resolves or rejects as the specification says. |
| Bcp.ProcessBcpOutcome | src/utils/excelProcessorBCP.ts:248-520 | It rejects exactly in these cases: a non-spreadsheet; an empty upload whose merge failed; on the modern path, no worksheet or a first worksheet without rows. Otherwise it resolves with the upload's name. |
| BcpRecords.CountEntry | src/utils/excelProcessorBCP.ts:563-583 | One entry of the count pass: only a document key is counted, and its value is written under the key the count decides. |
| BcpRecords.RenameRepeats | src/utils/excelProcessorBCP.ts:563-583 | The count pass loop returns the specification's object and counts. |
| BcpRecords.CountPassCounts | src/utils/excelProcessorBCP.ts:563-583 | The count pass counts only keys of the object. |
| BcpRecords.CountPassIdentity | src/utils/excelProcessorBCP.ts:563-583 | Keys are unique, so the count pass never sees a document key twice and rebuilds the object unchanged. |
| BcpRecords.SwapKeyTargets | src/utils/excelProcessorBCP.ts:586-603 | The swap pass can move only a document key and its plural form, each to the other's name. |
| BcpRecords.SwapRename | src/utils/excelProcessorBCP.ts:586-603 | The swap loop builds the specification's final row object. |
| BcpRecords.SwapPassDocument | src/utils/excelProcessorBCP.ts:586-603 | Without the plural key, a usable document value moves to the plural key, and an unusable one stays under its own key. |
| BcpRecords.FuzzyValueFacts | src/utils/excelProcessorBCP.ts:665-684 | The fuzzy search answers with the trimmed value of its first hit. It answers "" exactly when no entry is a hit. |
| BcpRecords.ColumnValueOrder | src/utils/excelProcessorBCP.ts:612-685 | An exact key wins. Without one, and without a fallback or renamed column, the answer is the first loosely matching usable value, or "". |
| BcpRecords.GetColumnValue | src/utils/excelProcessorBCP.ts:612-685 | The steps of getColumnValue return the specification's value. |
| BcpRecords.FuzzySearch | src/utils/excelProcessorBCP.ts:665-684 | The key loop stops at the fuzzy search's first hit. |
| BcpRecords.DocumentFromPlural | src/utils/excelProcessorBCP.ts:648-662 | A document column with nothing under its own name is read from its renamed key. |
| BcpRecords.RenameNetNoOp | src/utils/excelProcessorBCP.ts:586-661 | Without a renamed key, renaming and then reading a document column gives back the row's own value. |
| BcpRecords.RowRecord | src/utils/excelProcessorBCP.ts:557-826 | One row gives the specification's candidate record. |
| BcpRecords.PushSheetRecords | src/utils/excelProcessorBCP.ts:557-839 | The row loop of a sheet pushes its retained candidates, in order. |
| BcpRecords.CreateSingleFileData | src/utils/excelProcessorBCP.ts:522-852 | The sheet loop returns the specification's data. |
| BcpRecords.SingleRecords | src/utils/excelProcessorBCP.ts:522-852 | A record is listed exactly when it is a retained record of an object or array row. Each listed record is BCP, from the file, named after a row index, with no '-' in its account. |
| BcpRecords.KeyedDocuments | src/utils/excelProcessorBCP.ts:687-707 | For an object row whose document keys are not renamed yet, the record's document fields are the row's own document values. |
| BcpRecords.ExportRoundTrip | src/utils/excelProcessorBCP.ts:854-874 | exportToCSV writes nothing for no rows. Otherwise, with header keys that need no quoting, a CSV reader gets back the header line and every row's values. |
| BcpRecords.ExportsAgree | src/utils/excelProcessorBCP.ts:854-874 | The BCP exporter and the generic exporter write texts that read back as the same table. |
| BbvaV2.ColumnValue | src/utils/excelProcessorBBVA_v2.ts:25-63 | getColumnValue takes, in order: the exact key; the fallback; the first loosely matching key; then, for "situacion", the first key naming it. |
| BbvaV2.GetColumnValue | src/utils/excelProcessorBBVA_v2.ts:25-63 | The steps of getColumnValue return the specification's value. |
| BbvaV2.LooseSearch | src/utils/excelProcessorBBVA_v2.ts:37-60 | The key loops return the value past the exact and fallback names. |
| BbvaV2.ColumnValueOrder | src/utils/excelProcessorBBVA_v2.ts:25-63 | An exact key wins; then the first loose match, untrimmed even when empty. With no match the answer is "", except that a "situacion" column reads the first key naming it. |
| BbvaV2.SituacionKeyIff | src/utils/excelProcessorBBVA_v2.ts:54-60 | Naming "situaci" already covers naming "situacion", so the second test decides alone. |
| BbvaV2.ScanFromFacts | src/utils/excelProcessorBBVA_v2.ts:109-180 | The search of a sheet succeeds exactly when a header row comes before any sentinel row, and then it answers the first header row. |
| BbvaV2.FindFromFacts | src/utils/excelProcessorBBVA_v2.ts:306-380 | The sheet search answers the first sheet whose own search succeeds. It answers nothing exactly when no sheet's search succeeds. |
| BbvaV2.SearchSheet | src/utils/excelProcessorBBVA_v2.ts:306-380 | The row loop follows the scan. When a header is found, the data end is the sheet's length. |
| BbvaV2.SearchBook | src/utils/excelProcessorBBVA_v2.ts:306-380 | The sheet loop answers the sheet found, its header row and its data end. |
| BbvaV2.ExtractRows | src/utils/excelProcessorBBVA_v2.ts:419-445 | Every non-empty row in the data range becomes the object of its trimmed cells under the non-empty headers. On the modern path, holes of the sparse row are skipped and do not overwrite. |
| BbvaV2.BuildRowObject | src/utils/excelProcessorBBVA_v2.ts:420-431 | Builds one row's object as its reader's `row.forEach` does. For a dense legacy row, every cell up to the row's length is visited. For a sparse modern row, the holes are skipped. |
| BbvaV2.ReadFound | src/utils/excelProcessorBBVA_v2.ts:399-455 | After the search, the header recheck and the extraction give the specification's data, with row objects built as the given reader builds them. |
| BbvaV2.ReadWorkbook | src/utils/excelProcessorBBVA_v2.ts:306-455 | Search and extraction on one reader's rows give the specification's outcome. |
| BbvaV2.ProcessBbvaFile | src/utils/excelProcessorBBVA_v2.ts:65-482 | processBBVAFile resolves or rejects as the specification says. |
| BbvaV2.HeaderRecheckPasses | src/utils/excelProcessorBBVA_v2.ts:199-253 | The header row the search found always passes the untrimmed recheck, because no token holds white space. |
| BbvaV2.FoundBookOk | src/utils/excelProcessorBBVA_v2.ts:399-455 | A header row the search found is read without error into at most one sheet, and its row count is the total. |
| BbvaV2.BbvaBookOutcome | src/utils/excelProcessorBBVA_v2.ts:182-184 | Reading fails only when no sheet has a header row before a sentinel; the two header-row errors never occur. |
| BbvaV2.FoundRowsMember | src/utils/excelProcessorBBVA_v2.ts:419-445 | The rows read are exactly the non-empty rows after the header row up to the sheet's end. Each is the object of its trimmed cells under the trimmed headers. Rows from the modern reader skip their holes. |
| BbvaV2.FoundRowsEmpty | src/utils/excelProcessorBBVA_v2.ts:419-445 | No row is read exactly when every row after the header row is empty. |
| BbvaV2.FoundBookRows | src/utils/excelProcessorBBVA_v2.ts:419-455 | The sheet read exists exactly when some later row is not empty. It is named after the sheet and has the trimmed header cells as headers. |
| BbvaV2.SentinelAfterHeaderIsData | src/utils/excelProcessorBBVA_v2.ts:334-380 | An "Estimado cliente" row after the header row does not end the data: it is read as a data row. |
| BbvaV2.ProcessBbvaOutcome | src/utils/excelProcessorBBVA_v2.ts:65-482 | A non-Excel upload and an empty one are rejected first. Legacy-reader errors carry the load prefix. The file resolves exactly when some sheet has a header row before a sentinel. |
| BbvaV2.ReadEstado | src/utils/excelProcessorBBVA_v2.ts:507-522 | The status loop returns the value of the first key naming "situaci", or "". |
| BbvaV2.EstadoFirst | src/utils/excelProcessorBBVA_v2.ts:507-522 | The status of an object row is the value of its first key naming "situaci". |
| BbvaV2.EstadoNone | src/utils/excelProcessorBBVA_v2.ts:507-522 | Without such a key, the status is empty. |
| BbvaV2.ObjectRecord | src/utils/excelProcessorBBVA_v2.ts:524-544 | An object row gives the specification's keyed record. |
| BbvaV2.RowRecord | src/utils/excelProcessorBBVA_v2.ts:498-620 | One row gives the specification's candidate record. |
| BbvaV2.RowRecordShape | src/utils/excelProcessorBBVA_v2.ts:524-620 | Object and array rows give a BBVA record from the file, with the row index in its id, no '-' in the account and no document type. |
| BbvaV2.PushSheetRecords | src/utils/excelProcessorBBVA_v2.ts:498-624 | The row loop pushes the sheet's retained candidates, in order. |
| BbvaV2.CreateSingleFileData | src/utils/excelProcessorBBVA_v2.ts:484-637 | The sheet loop returns the specification's data. |
| BbvaV2.SingleRecords | src/utils/excelProcessorBBVA_v2.ts:484-637 | A record is listed exactly when it is a retained record of an object or array row. Each is BBVA, from the file, named after a row index. |
| BbvaV2.CellsStatusIsAccount | src/utils/excelProcessorBBVA_v2.ts:600-620 | An array row reads its status from the account column, so a row with an account cell is always kept. |
| BbvaV2.ReaderColumn | src/utils/excelProcessorBBVA_v2.ts:219-232 | For a row the legacy reader built, a header column reads the trimmed cell of the last column carrying that header. |
| BbvaV2.SparseReaderColumn | src/utils/excelProcessorBBVA_v2.ts:420-431 | For a row the modern reader built, a header column reads the trimmed cell of the last column under that header that holds a cell. A later hole under a repeated header leaves that value alone. |
| Combined.CombineExcelData | src/utils/excelProcessorCombined.ts:11-253 | The method returns the specification's combined data: the first file's records, then the second file's. |
| Combined.BbvaObjectRecord | src/utils/excelProcessorCombined.ts:68-88 | An object row of the first file gives the specification's record. |
| Combined.FirstRowRecord | src/utils/excelProcessorCombined.ts:20-144 | One row of the first file gives its candidate record. |
| Combined.PushFirstSheet | src/utils/excelProcessorCombined.ts:20-148 | The row loop pushes a sheet's retained candidates, in order. |
| Combined.FirstRecordShape | src/utils/excelProcessorCombined.ts:68-144 | First-file object and array rows, and only those, give BBVA records named after their row index. |
| Combined.SecondRecordShape | src/utils/excelProcessorCombined.ts:164-237 | Second-file object and array rows, and only those, give BCP records named after their row index. |
| Combined.PartMember | src/utils/excelProcessorCombined.ts:17-252 | A file contributes exactly the retained records of its object and array rows, each from that file. |
| Combined.FirstPartFromFile | src/utils/excelProcessorCombined.ts:17-152 | Every first-file record comes from that file. |
| Combined.SecondPartFromFile | src/utils/excelProcessorCombined.ts:154-240 | Every second-file record comes from that file. |
| Combined.CombineOrder | src/utils/excelProcessorCombined.ts:17-252 | The first file's records, all BBVA, come before the second's, all BCP. The result counts them and names both files. |
| Combined.FirstPartIds | src/utils/excelProcessorCombined.ts:69 | Within a one-sheet first file, the ids are pairwise different. |
| Combined.SecondPartIds | src/utils/excelProcessorCombined.ts:165 | Within a one-sheet second file, the ids are pairwise different. |
| Combined.CombinedIdsDistinct | src/utils/excelProcessorCombined.ts:17-252 | With differently named files of one sheet each, all combined ids are different. |
| Combined.CrossIds | src/utils/excelProcessorCombined.ts:69-218 | A first-file record and a second-file record never share an id when the files' names differ. |
| Combined.OneCellSheet | src/utils/excelProcessorCombined.ts:217-237 | A second-file sheet whose only row is one non-empty cell contributes that row's record, named after index 0. |
| Combined.IdsRepeatAcrossSheets | src/utils/excelProcessorCombined.ts:218 | The index restarts with each sheet, so two kept first rows of two sheets give two different records with the same id. |
| Combined.DocumentCell | src/utils/excelProcessorCombined.ts:293 | The document cell is the first non-empty document field, or "-", so it is never empty. |
| Combined.AddRows | src/utils/excelProcessorCombined.ts:289-298 | The loop adds the specification's rows. |
| Combined.XlsxRowsFacts | src/utils/excelProcessorCombined.ts:256-298 | The sheet gets one row per record, in order, numbered from 1. Each row copies its record's beneficiary, account, amount, status and bank. |
| Combined.CombinedDocumentDash | src/utils/excelProcessorCombined.ts:293 | A combined record without a document of its own shows "-" in the document cell. |
| Combined.ShapedDocumentDash | src/utils/excelProcessorCombined.ts:293 | A file record without a document has no secondary document either, so its cell is "-". |
| Bbva.DataEnd | src/utils/excelProcessorBBVA.ts:64-79 | The data end is the first "estimado cliente" row at index 40 or later, or the row count. |
| Bbva.FindDataEnd | src/utils/excelProcessorBBVA.ts:64-79 | The loop answers the specification's data end. |
| Bbva.RegionBounds | src/utils/excelProcessorBBVA.ts:64-79 | The region ends at the first closing letter at index 40 or later, or at the last row. Rows 31 to 39 are always data. |
| Bbva.RowsMember | src/utils/excelProcessorBBVA.ts:83-96 | The rows read are exactly the objects of the non-empty rows from index 31 up to the closing letter. Each object skips the holes of its sparse row. |
| Bbva.EarlyLetterIsData | src/utils/excelProcessorBBVA.ts:64-96 | A non-empty row between the header row and index 40 is read, even when it is the closing letter. |
| Bbva.LetterEndsData | src/utils/excelProcessorBBVA.ts:64-96 | The closing-letter row and every row after it are not read. |
| Bbva.ProcessBbvaFile | src/utils/excelProcessorBBVA.ts:7-145 | processBBVAFile resolves or rejects as the specification says. |
| Bbva.ProcessOutcome | src/utils/excelProcessorBBVA.ts:7-145 | The file is read exactly when the first worksheet's row 31 is the BBVA header row; each other case is rejected with its own message. Later worksheets are never looked at. |
| Bbva.ResultShape | src/utils/excelProcessorBBVA.ts:101-108 | A read file names the upload and has at most the first worksheet, under its own name, with the trimmed row-31 headers. |
| Viewer.FilterRecords | src/components/CombinedDataViewer.tsx:89-99 | The filter never lists more records than the data holds. Which records it lists, and in what order, is stated by Viewer.FilterMember and Viewer.FilterAppend. |
| Viewer.FilterMember | src/components/CombinedDataViewer.tsx:89-99 | A record is listed exactly when it is a record of the data and passes every filter. |
| Viewer.FilterAppend | src/components/CombinedDataViewer.tsx:89-99 | Filtering a concatenation filters each part, so the data's order is kept. |
| Viewer.FilterIdempotent | src/components/CombinedDataViewer.tsx:89-99 | Filtering the listed records again changes nothing. |
| Viewer.NoFiltersListsAll | src/components/CombinedDataViewer.tsx:14-16 | With the initial filters, every record is listed. |
| Viewer.SearchIgnoresCase | src/components/CombinedDataViewer.tsx:90-93 | The search ignores the letter case of the term. |
| Viewer.TotalAppend | src/components/CombinedDataViewer.tsx:101 | The total over a concatenation is the sum of the parts' totals. |
| Viewer.FilteredTotalBounded | src/components/CombinedDataViewer.tsx:101 | When no amount is negative, the listed total lies between zero and the total of all records. |
| Viewer.UniqueClientsBounds | src/components/CombinedDataViewer.tsx:102 | There are never more clients than listed records, and at least one once a record is listed. |
| Viewer.StatusOptionsColored | src/components/CombinedDataViewer.tsx:104-112 | Every status the select offers has its own badge colour. Any other status except RECHAZADO gets the default. |
| Viewer.RowCells | src/components/CombinedDataViewer.tsx:260-292 | Rows are numbered from 1 in list order, and the document, account and bank cells are never blank. The amount shown is the first non-zero of the three amounts, or '-'. |
| Viewer.CombinedRowCells | src/components/CombinedDataViewer.tsx:269-291 | Every combined record shows its own bank and its amount, with '-' for the document type. |
| Viewer.ViewConsistent | src/components/CombinedDataViewer.tsx:153-171 | The statistics describe exactly the table's rows. The notice appears exactly when there are no rows. |
| Viewer.ExportListed | src/components/CombinedDataViewer.tsx:114-120 | The export has one line per listed record, in list order. With the initial filters, it is the export of the whole data. |
| Comparison.AddAllFacts | src/components/ComparisonView.tsx:28-34 | Adding keeps the list free of repeats. It holds the old entries, in place, followed by the new ones. |
| Comparison.AddHeaders | src/components/ComparisonView.tsx:28-34 | The loop over one sheet's headers adds them by the rule of the specification, whose facts AddAllFacts proves. |
| Comparison.GetUniqueHeaders | src/components/ComparisonView.tsx:28-34 | The loops return the specification's header list, whose facts UniqueHeadersFacts proves. |
| Comparison.UniqueHeadersFacts | src/components/ComparisonView.tsx:28-34 | getUniqueHeaders lists each header of the file once, and every header it lists belongs to one of the file's sheets. |
| Comparison.FilterInMember | src/components/ComparisonView.tsx:38-40 | A header is kept exactly when it is listed and its presence in the other list is the one asked for. |
| Comparison.FilterInDistinct | src/components/ComparisonView.tsx:38-40 | A list without repeats gives a list without repeats. |
| Comparison.FilterInSplit | src/components/ComparisonView.tsx:38-40 | The two filters split the list between them. |
| Comparison.BaseName | src/components/ComparisonView.tsx:136 | The name up to its first dot. It is a prefix of the name and holds no dot. |
| Comparison.Compare | src/components/ComparisonView.tsx:14-40 | The comparison returns the specification's summary. |
| Comparison.ShownWithBoth | src/components/ComparisonView.tsx:14-26 | The comparison is shown exactly when both files are present. |
| Comparison.HeaderPartition | src/components/ComparisonView.tsx:36-40 | Common headers are those both files have, unique ones those only one has. Each file's columns split into the common headers and its own unique headers. |
| Comparison.CompatibilityBounds | src/components/ComparisonView.tsx:183 | The compatibility is at most 100%, and exactly 100% when both files have the same headers. It is NaN only when neither file has a header. |
| Comparison.RatioOfHeaders | src/components/ComparisonView.tsx:183 | Gives the compatibility of two header lists without repeats whose common headers are each listed once. |
| Comparison.CommonCard | src/components/ComparisonView.tsx:183 | There are never more common headers than either list's headers. There are as many as both lists' exactly when the lists hold the same headers. |
| Comparison.SwapSymmetric | src/components/ComparisonView.tsx:36-40 | Swapping the files swaps the unique headers and keeps the common ones, the compatibility and both differences. |
| Records.MakeIdInjective | src/utils/excelProcessor.ts:615 | An identifier `fileName_index` determines both the file name and the row index. |
| Records.AmountOfDigitFree | src/utils/excelProcessor.ts:632 | An empty or digit-free amount cell reads as 0, so it alone never keeps a record. |
| Records.PushRetained | src/utils/excelProcessor.ts:673-675 | The loop pushes the retained candidates, in order. |
| Records.CollectSheets | src/utils/excelProcessor.ts:673-675 | The sheet and row loops collect the retained candidates of every sheet, in order. |
| Records.CandidatesMember | src/utils/excelProcessor.ts:673-675 | A record is collected exactly when some row of some sheet yields it and it is retained. |
| Records.KeepRetainedMember | src/utils/excelProcessor.ts:673-675 | A record is pushed exactly when some row produced it and it is retained. |
| Records.KeepRetainedIds | src/utils/excelProcessor.ts:615 | Within one sheet, the pushed records have pairwise different ids, each naming a row of the sheet. |
| Records.MadeMember | src/utils/excelProcessor.ts:673-675 | A reader of a file's rows collects exactly the retained records of the object and array rows, each made from one of the file's rows. |
| Sheet.ZipHeadersGet | src/utils/excelProcessor.ts:427-434 | The object built from a row has the non-empty headers as keys, each once. A repeated header takes the cell of its last column. |
| Sheet.BuildObject | src/utils/excelProcessor.ts:427-434 | The header loop builds that object. |
| Sheet.BuildObjectFromCells | src/utils/excelProcessorBCP.ts:322-327 | The cell loop builds the same object. |
| Sheet.ZipPresentGet | src/utils/excelProcessorBBVA_v2.ts:420-431 | On a sparse row, each header appears once as a key. A header is a key exactly when one of its columns holds a cell. Its value is the trimmed cell of the last such column. |
| Sheet.BuildObjectFromPresentCells | src/utils/excelProcessorBBVA.ts:84-94 | The cell loop over a sparse row skips the holes and builds that object. |
| Sheet.PutGet | src/utils/excelProcessorBCP.ts:582 | After `o[k] = v`, reading k gives v and every other key reads as before. |
| Sheet.PutUnique | src/utils/excelProcessorBCP.ts:582 | Assignment never creates a second property with the same name. |
| Sheet.FindKey | src/utils/excelProcessorBBVA_v2.ts:42-51 | The key loop stops at the first key satisfying the test, or at the end. |
| Sheet.FirstKeyFromFacts | src/utils/excelProcessorBBVA_v2.ts:42-51 | The search stops at the first key satisfying the test, and only there. |
| Sheet.EmptyKeyMatchesAll | src/utils/excelProcessorBBVA_v2.ts:37-51 | A key made only of punctuation normalises to "" and matches every column name. |
| Sheet.TokenSurvivesTrim | src/utils/excelProcessorBBVA_v2.ts:199-253 | A lower-case token without spaces found in the trimmed row text is also found in the untrimmed row text. |
| Sheet.IsExcelUploadIgnoresCase | src/utils/excelProcessorBCP.ts:214-227 | Lower-casing the file name does not change whether the upload is accepted. |
| Sheet.FilterMapMember | src/utils/excelProcessor.ts:381-434 | The output holds exactly the images of the kept rows. |
| Text.StripIdPrefixOf | src/utils/excelProcessorBBVA_v2.ts:529 | The prefix "L", white space, "-", white space is removed, and the identity number after it is returned whole. |
| Text.RemoveAll | src/utils/excelProcessor.ts:637 | Every hyphen is removed, and all other characters are kept with their multiplicities. |
| Text.TrimEmptyIff | src/utils/excelProcessorBBVA_v2.ts:44-48 | A string trims to "" exactly when every character is white space. |
| Text.KeepWordAndSpace | src/utils/excelProcessorBBVA_v2.ts:44-48 | Only word characters and white space remain. A text made only of them is kept unchanged. |
| Text.SplitJoin | src/components/ComparisonView.tsx:136 | Splitting and then joining with the same separator gives the string back. |
| Numbers.ParseFloatOfDigits | src/utils/excelProcessor.ts:632 | A run of digits parses as its decimal value. |
| Numbers.ParseAmountWithoutDigits | src/utils/excelProcessor.ts:632 | Text without any digit reads as amount 0. |
| Numbers.ParseAmountOfNat | src/utils/excelProcessor.ts:632 | The decimal text of a natural number reads back as that number. |
| Numbers.NatToStringInjective | src/utils/excelProcessor.ts:615 | Different row indexes have different decimal texts. |
| Csv.ReadFieldOf | src/utils/excelProcessor.ts:934-961 | Every correctly encoded field reads back as its value, by RFC 4180 section 2. |
| Csv.ReadRecordOf | src/utils/excelProcessor.ts:934-961 | A line of correctly encoded fields joined with ',' reads back as its list of values. |
| Csv.ReadAllOf | src/utils/excelProcessor.ts:934-961 | Lines joined with '\n' read back as the table of values. |

## Left out

- Reading files: FileReader, Promises, the XLSX and ExcelJS libraries, and their retry chains are not modelled. The workbook arrives as grids of cell texts, and a reader is a function of the upload's name, type, size and sheets.
- The cell-copy loop of the legacy `.xls` conversion in `excelProcessorBCP.ts` is not modelled. The copied sheet is taken as the grid it produces.
- Cells are strings: a number or date becomes its text, and a hole of a sparse ExcelJS row becomes "". A grid of text cannot tell the number 0 or the boolean false from the text "0" or "false", and the paths below test the raw cell for falsiness before any text exists; the SheetJS `raw: false` readers (the BBVA_v2 legacy reader and the BCP .xls reader) see text and are not affected.
- Bbva.RowsMember: a cell holding the number 0 or false reads as "" in the source (`String(cell || '')`, excelProcessorBBVA.ts:91) and as its text "0"/"false" in the model.
- BbvaV2.BuildRowObject: on the modern reader a numeric 0 or false cell reads as "" in the source (`String(cell || '')`, excelProcessorBBVA_v2.ts:427) and as its text in the model.
- Bcp.CollectBcpRows: a numeric 0 or false cell reads as "" in the source (`row[colIndex] || ''`, excelProcessorBCP.ts:471), so a row whose only value is 0 is dropped by `hasData` there and kept in the model.
- Bcp.MergeRow: the blank tests on a numeric 0 or false cell see "" in the source (`String(cellValue || '')`, excelProcessorBCP.ts:129 and 141) and the cell's text in the model.
- Processor.GenericRows: a numeric 0 or false cell of the raw `sheet_to_json` rows reads as "" in the source (excelProcessor.ts:418, 424 and 430), so a row whose only value is 0 is dropped there and kept in the model. The records built from such rows agree, since `ParseAmount` reads both "" and "0" as 0. The readers that walk such a row with `row.forEach` skip its holes (`Sheet.ZipPresent`).
- `parseFloat` reads a sign and a decimal prefix; exponent forms and "Infinity" are not modelled.
- Lower case and accent removal use tables over ASCII and Latin-1. Full Unicode case mapping and NFD are not modelled.
- Objects are ordered property lists. JavaScript's rule that lists integer-like keys first in `Object.keys` is not modelled.
- Console logging, date stamps, `formatFileSize` and the React markup are not modelled.
- Formatting, XLSX styling, Blob and download plumbing are not modelled. `toLocaleString` is not modelled, and the number-to-text used in CSV is a parameter `fmt`.
- Comparison.Compatibility: the percentage is not rounded with `toFixed`, and the NaN shown when neither file has a header is `None`.
- Viewer.TotalAmount: `totalMonto` is an exact sum over reals, not a floating-point sum.
- Viewer.ExportData: the export keeps the whole data's `totalRecords`, as the source does.
- Bcp.ProcessBcpFile: a workbook without worksheets fails on `workbook.worksheets[0].name` with the JavaScript engine's `TypeError`. Its text is modelled as one fixed message, `NoWorksheetMessage`. The merged sheet is named "Sheet1".
- Bcp.MergeSheetShape: a row with values whose merged cells are all empty is taken to be written like any other row.
- Processor.ProcessExcelFile: the workbook library's own parse errors, the corrupt-file message (`excelProcessor.ts` lines 580-583) and the FileReader's `onerror` are not modelled, because the library and the FileReader are not. The one rejection that the code itself causes, for an empty first sheet, is modelled. Its TypeError text is V8's wording, modelled as a fixed message; a bundler that renames `XLSX` changes it.
- BbvaV2.BuildRowObject: an ExcelJS cell is taken to be a hole exactly when its text is "".
- Bbva.WorksheetSpec: this reader sets no `rowCount`. The model fills it with the number of rows so that the sheet type is shared with the second BBVA reader.
- BcpRecords.ColumnValue: the array branch of `getColumnValue` (`excelProcessorBCP.ts` lines 614-634) is not modelled. Every caller passes an object there, so the branch is never reached.
- Authentication, the dashboard and the file uploader component are not part of this model.
