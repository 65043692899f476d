// processBBVAFile and createSingleFileData of src/utils/excelProcessorBBVA_v2.ts:
// every sheet is searched, row by row, for the BBVA header row (a "Estimado
// cliente" row abandons the sheet); the rows after the header row become
// objects; each object row then becomes a payment record of bank BBVA.
module BbvaV2 {
  import opened Wrappers
  import opened Text
  import opened Numbers
  import opened Sheet
  import opened Records
  import Bcp
  import Processor

  // ---------------------------------------------------------------------
  // getColumnValue

  /** The column names a BBVA record is read from. */
  const TitularColumn: string := "Titular(Archivo)"
  const DocumentColumn: string := "Doc.Identidad"
  const AmountColumn: string := "Importe"
  const AccountColumn: string := "Cuenta"

  /** A key matching the column name loosely. */
  function LooseMatch(normalizedColumn: string): string -> bool {
    key => KeyMatches(key, normalizedColumn)
  }

  /** `key.toLowerCase().includes('situacion') || key.toLowerCase().includes('situaci')` */
  function SituacionKey(): string -> bool {
    key => Contains(Lower(key), "situacion") || Contains(Lower(key), "situaci")
  }

  /** getColumnValue: the exact key, then the fallback name, then the value of
      the first loosely matching key (untrimmed, even when empty), then, for
      a column naming "situacion", the first key naming it. */
  function ColumnValue(o: Obj, column: string, fallback: Option<string>): string {
    if Get(o, column).Some? then Get(o, column).value
    else if fallback.Some? && fallback.value != "" && Get(o, fallback.value).Some? then Get(o, fallback.value).value
    else LooseValue(o, column)
  }

  /** getColumnValue past the exact and fallback names. */
  function LooseValue(o: Obj, column: string): string {
    if FirstKeyFrom(o, LooseMatch(NormalizedColumn(column)), 0) < |o| then
      ValueAt(o, FirstKeyFrom(o, LooseMatch(NormalizedColumn(column)), 0))
    else if Contains(Lower(column), "situacion") then ValueAt(o, FirstKeyFrom(o, SituacionKey(), 0))
    else ""
  }

  /** getColumnValue's steps. */
  method GetColumnValue(o: Obj, column: string, fallback: Option<string>) returns (v: string)
    ensures v == ColumnValue(o, column, fallback)
  {
    var exact := Get(o, column);
    if exact.Some? {
      return exact.value;
    }
    if fallback.Some? && fallback.value != "" {
      var alternative := Get(o, fallback.value);
      if alternative.Some? {
        return alternative.value;
      }
    }
    assert ColumnValue(o, column, fallback) == LooseValue(o, column);
    v := LooseSearch(o, column);
  }

  /** getColumnValue's key loops. */
  method LooseSearch(o: Obj, column: string) returns (v: string)
    ensures v == LooseValue(o, column)
  {
    var normalizedColumnName := NormalizedColumn(column);
    var j := FindKey(o, LooseMatch(normalizedColumnName));
    if j < |o| {
      return GetOr(o, o[j].key);
    }
    var situacion := Contains(Lower(column), "situacion");
    if situacion {
      var m := FindKey(o, SituacionKey());
      return ValueAt(o, m);
    }
    return "";
  }

  /** getColumnValue's order of resolution without a fallback: an exact key
      wins; otherwise the value of the first key that matches loosely; when
      no key matches, "" unless the column names "situacion", in which case
      the value of the first key naming it. */
  lemma ColumnValueOrder(o: Obj, column: string)
    ensures Get(o, column).Some? ==> ColumnValue(o, column, None) == Get(o, column).value
    ensures Get(o, column).None? ==>
      forall j :: (0 <= j < |o| && KeyMatches(o[j].key, NormalizedColumn(column)) &&
        (forall m :: 0 <= m < j ==> !KeyMatches(o[m].key, NormalizedColumn(column)))) ==>
        ColumnValue(o, column, None) == GetOr(o, o[j].key)
    ensures Get(o, column).None? && (forall j :: 0 <= j < |o| ==> !KeyMatches(o[j].key, NormalizedColumn(column))) ==>
      ColumnValue(o, column, None) ==
        if Contains(Lower(column), "situacion") then ValueAt(o, FirstKeyFrom(o, SituacionKey(), 0)) else ""
  {
    var p := LooseMatch(NormalizedColumn(column));
    assert forall key :: p(key) == KeyMatches(key, NormalizedColumn(column));
    if Get(o, column).None? {
      forall j | 0 <= j < |o| && KeyMatches(o[j].key, NormalizedColumn(column)) &&
                 (forall m :: 0 <= m < j ==> !KeyMatches(o[m].key, NormalizedColumn(column)))
        ensures ColumnValue(o, column, None) == GetOr(o, o[j].key)
      {
        FirstKeyIs(o, p, j);
      }
      if forall j :: 0 <= j < |o| ==> !KeyMatches(o[j].key, NormalizedColumn(column)) {
        FirstKeyFromFacts(o, p, 0);
      }
    }
  }

  /** Naming "situaci" already covers naming "situacion": the second test of
      the situacion step decides alone. */
  lemma SituacionKeyIff(key: string)
    ensures SituacionKey()(key) <==> Contains(Lower(key), "situaci")
  {
    if Contains(Lower(key), "situacion") {
      var i :| 0 <= i <= |Lower(key)| - 9 && OccursAt(Lower(key), "situacion", i);
      assert Lower(key)[i..i + 7] == Lower(key)[i..i + 9][..7];
      assert OccursAt(Lower(key), "situaci", i);
    }
  }

  // ---------------------------------------------------------------------
  // The header search

  const SentinelText: string := "estimado cliente"

  /** The trimmed, lower-cased text of a row carries "estimado cliente". */
  predicate IsSentinelRow(row: Row) {
    Contains(TrimmedRowText(row), SentinelText)
  }

  /** The trimmed, lower-cased text of a row carries the five header tokens. */
  predicate IsHeaderRow(row: Row) {
    Processor.HasBbvaTokens(TrimmedRowText(row))
  }

  /** The row loop of one sheet from row i on: empty rows are skipped, the
      first non-empty row carrying the sentinel ends the search with nothing,
      the first header row ends it with its index. */
  function ScanFrom(grid: Grid, i: nat): (h: Option<nat>)
    requires i <= |grid|
    ensures h.Some? ==> i <= h.value < |grid|
    decreases |grid| - i
  {
    if i == |grid| then None
    else if |grid[i]| == 0 then ScanFrom(grid, i + 1)
    else if IsSentinelRow(grid[i]) then None
    else if IsHeaderRow(grid[i]) then Some(i)
    else ScanFrom(grid, i + 1)
  }

  /** Row j is a header row the search from row i reaches: it is not empty,
      it carries the tokens, and no non-empty row from i up to it carries the
      sentinel. */
  predicate Reaches(grid: Grid, i: nat, j: nat)
    requires i <= j < |grid|
  {
    |grid[j]| > 0 && IsHeaderRow(grid[j]) &&
    forall m :: i <= m <= j && |grid[m]| > 0 ==> !IsSentinelRow(grid[m])
  }

  /** The search of a sheet succeeds exactly when some header row is reached
      before any sentinel row, and then it answers the first header row. */
  lemma {:induction false} ScanFromFacts(grid: Grid, i: nat)
    requires i <= |grid|
    ensures ScanFrom(grid, i).Some? <==> exists j :: i <= j < |grid| && Reaches(grid, i, j)
    ensures ScanFrom(grid, i).Some? ==>
      Reaches(grid, i, ScanFrom(grid, i).value) &&
      forall m :: i <= m < ScanFrom(grid, i).value && |grid[m]| > 0 ==> !IsHeaderRow(grid[m])
    decreases |grid| - i
  {
    if i < |grid| {
      if |grid[i]| == 0 || (!IsSentinelRow(grid[i]) && !IsHeaderRow(grid[i])) {
        ScanFromFacts(grid, i + 1);
        forall j | i + 1 <= j < |grid|
          ensures Reaches(grid, i, j) <==> Reaches(grid, i + 1, j)
        {
        }
        if ScanFrom(grid, i).Some? {
          assert Reaches(grid, i, ScanFrom(grid, i).value);
        }
      } else if IsSentinelRow(grid[i]) {
        forall j | i <= j < |grid|
          ensures !Reaches(grid, i, j)
        {
        }
      } else {
        assert Reaches(grid, i, i);
      }
    }
  }

  /** The sheet loop from sheet k on: the first sheet with rows whose search
      succeeds, with the header row found there. */
  function FindFrom(book: seq<NamedGrid>, k: nat): (r: Option<(nat, nat)>)
    requires k <= |book|
    ensures r.Some? ==> k <= r.value.0 < |book| && r.value.1 < |book[r.value.0].grid|
    decreases |book| - k
  {
    if k == |book| then None
    else if |book[k].grid| > 0 && ScanFrom(book[k].grid, 0).Some? then Some((k, ScanFrom(book[k].grid, 0).value))
    else FindFrom(book, k + 1)
  }

  /** The sheet search answers the first sheet whose own search succeeds, and
      nothing exactly when no sheet's search succeeds. */
  lemma {:induction false} FindFromFacts(book: seq<NamedGrid>, k: nat)
    requires k <= |book|
    ensures FindFrom(book, k).None? <==> forall t :: k <= t < |book| ==> ScanFrom(book[t].grid, 0).None?
    ensures FindFrom(book, k).Some? ==>
      ScanFrom(book[FindFrom(book, k).value.0].grid, 0) == Some(FindFrom(book, k).value.1) &&
      forall t :: k <= t < FindFrom(book, k).value.0 ==> ScanFrom(book[t].grid, 0).None?
    decreases |book| - k
  {
    if k < |book| {
      if |book[k].grid| > 0 && ScanFrom(book[k].grid, 0).Some? {
        assert FindFrom(book, k).value.0 == k;
      } else {
        FindFromFacts(book, k + 1);
        assert ScanFrom(book[k].grid, 0).None?;
        assert FindFrom(book, k) == FindFrom(book, k + 1);
        if FindFrom(book, k).Some? {
          forall t | k <= t < FindFrom(book, k).value.0
            ensures ScanFrom(book[t].grid, 0).None?
          {
            if t > k {
              assert k + 1 <= t < FindFrom(book, k + 1).value.0;
            }
          }
        }
      }
    }
  }

  /** The row loop of one sheet with rows. The end of the data is the sheet's
      length whenever the header row is found: the sentinel only ever moves it
      while abandoning the sheet. */
  method SearchSheet(currentData: Grid) returns (foundHeaders: bool, headerRowIndex: nat, dataEndIndex: nat)
    requires |currentData| > 0
    ensures foundHeaders <==> ScanFrom(currentData, 0).Some?
    ensures foundHeaders ==> headerRowIndex == ScanFrom(currentData, 0).value && dataEndIndex == |currentData|
  {
    foundHeaders := false;
    headerRowIndex := 0;
    dataEndIndex := |currentData|;
    var rowIndex := 0;
    while rowIndex < |currentData|
      invariant rowIndex <= |currentData|
      invariant ScanFrom(currentData, rowIndex) == ScanFrom(currentData, 0)
      invariant !foundHeaders && dataEndIndex == |currentData|
    {
      var row := currentData[rowIndex];
      if |row| > 0 {
        var rowText := Join(TrimAll(row), " ");
        var rowTextLower := Lower(rowText);
        if Contains(rowTextLower, SentinelText) {
          dataEndIndex := rowIndex;
          break;
        }
        if Processor.HasBbvaTokens(rowTextLower) {
          foundHeaders := true;
          headerRowIndex := rowIndex;
          break;
        }
      }
      rowIndex := rowIndex + 1;
    }
  }

  // ---------------------------------------------------------------------
  // Reading the workbook

  /** The rows a reader hands over: the legacy reader keeps every row, blank
      ones included; the modern one only the rows with values. */
  function ReadGrid(grid: Grid, legacy: bool): Grid {
    if legacy then grid else Bcp.ValuedRows(grid)
  }

  function ReadBook(book: seq<NamedGrid>, legacy: bool): (read: seq<NamedGrid>)
    ensures |read| == |book|
  {
    seq(|book|, i requires 0 <= i < |book| => NamedGrid(book[i].name, ReadGrid(book[i].grid, legacy)))
  }

  /** The rows of one sheet as its reader hands them over. */
  method ReadSheetRows(grid: Grid, legacy: bool) returns (currentData: Grid)
    ensures currentData == ReadGrid(grid, legacy)
  {
    currentData := grid;
    if !legacy {
      currentData := Bcp.CollectValuedRows(grid);
    }
  }

  /** One sheet of the sheet search: it answers, or the search moves on. */
  lemma FindFromStep(book: seq<NamedGrid>, i: nat)
    requires i < |book|
    ensures |book[i].grid| > 0 && ScanFrom(book[i].grid, 0).Some? ==>
      FindFrom(book, i) == Some((i, ScanFrom(book[i].grid, 0).value))
    ensures !(|book[i].grid| > 0 && ScanFrom(book[i].grid, 0).Some?) ==> FindFrom(book, i) == FindFrom(book, i + 1)
  {
  }

  lemma ReadBookAt(book: seq<NamedGrid>, legacy: bool, i: nat)
    requires i < |book|
    ensures ReadBook(book, legacy)[i] == NamedGrid(book[i].name, ReadGrid(book[i].grid, legacy))
  {
  }

  /** The sheet loop: the index, rows and name of the sheet found, with its
      header row and data end. */
  method SearchBook(book: seq<NamedGrid>, legacy: bool)
    returns (foundData: bool, sheetIndex: nat, jsonData: Grid, sheetName: string, headerRowIndex: nat, dataEndIndex: nat)
    ensures foundData <==> FindFrom(ReadBook(book, legacy), 0).Some?
    ensures foundData ==> FindFrom(ReadBook(book, legacy), 0) == Some((sheetIndex, headerRowIndex))
    ensures foundData ==> sheetIndex < |book| && jsonData == ReadGrid(book[sheetIndex].grid, legacy)
    ensures foundData ==> sheetName == book[sheetIndex].name && dataEndIndex == |jsonData|
  {
    ghost var read := ReadBook(book, legacy);
    foundData := false;
    sheetIndex := 0;
    jsonData := [];
    sheetName := "";
    headerRowIndex := 0;
    dataEndIndex := 0;
    var i: nat := 0;
    while i < |book|
      invariant i <= |book|
      invariant FindFrom(read, i) == FindFrom(read, 0)
      invariant !foundData
    {
      var currentData := ReadSheetRows(book[i].grid, legacy);
      ReadBookAt(book, legacy, i);
      FindFromStep(read, i);
      if |currentData| > 0 {
        var foundHeaders, h, end := SearchSheet(currentData);
        if foundHeaders {
          foundData := true;
          sheetIndex := i;
          jsonData := currentData;
          sheetName := book[i].name;
          headerRowIndex := h;
          dataEndIndex := end;
          break;
        }
      }
      i := i + 1;
    }
  }

  // ---------------------------------------------------------------------
  // The rows after the header row

  /** A data row as an object under the headers. The legacy reader's rows
      are dense (`defval: ''`), so every cell up to the row's length is
      visited; the modern reader's rows are sparse (built with `eachCell`),
      so a hole is skipped and leaves an earlier column of the same header
      alone. */
  function RowObject(headers: seq<string>, row: Row, legacy: bool): Obj {
    if legacy then ZipCells(headers, row) else ZipPresent(headers, row)
  }

  function RowObjectOf(headers: seq<string>, legacy: bool): Row -> SheetRow {
    row => Keyed(RowObject(headers, row, legacy))
  }

  /** `row.forEach` over one data row, as its reader built it. */
  method BuildRowObject(headers: seq<string>, row: Row, legacy: bool) returns (o: Obj)
    ensures o == RowObject(headers, row, legacy)
  {
    if legacy {
      o := BuildObjectFromCells(headers, row);
    } else {
      o := BuildObjectFromPresentCells(headers, row);
    }
  }

  /** `for (let i = dataStartIndex; i < dataEndIndex; i++)`: every non-empty
      row as the object of its trimmed cells under the non-empty headers. */
  method ExtractRows(jsonData: Grid, headers: seq<string>, dataStartIndex: nat, dataEndIndex: nat, legacy: bool)
    returns (sheetData: seq<SheetRow>)
    requires dataStartIndex <= dataEndIndex <= |jsonData|
    ensures sheetData == FilterMap(jsonData[dataStartIndex..dataEndIndex], Bcp.NonEmptyRow(), RowObjectOf(headers, legacy))
  {
    ghost var f := RowObjectOf(headers, legacy);
    sheetData := [];
    var i := dataStartIndex;
    while i < dataEndIndex
      invariant dataStartIndex <= i <= dataEndIndex
      invariant sheetData == FilterMap(jsonData[dataStartIndex..i], Bcp.NonEmptyRow(), f)
    {
      ghost var done := jsonData[dataStartIndex..i];
      assert jsonData[dataStartIndex..i + 1] == done + [jsonData[i]];
      var row := jsonData[i];
      FilterMapStep(done, row, Bcp.NonEmptyRow(), f);
      if |row| > 0 {
        var rowData := BuildRowObject(headers, row, legacy);
        assert f(row) == Keyed(rowData);
        sheetData := sheetData + [Keyed(rowData)];
      }
      i := i + 1;
    }
  }

  const NoBbvaDataMessage: string := "No se encontraron datos de BBVA en ninguna hoja"
  const EmptyHeaderRowMessage: string := "Fila de headers está vacía"
  /** How the legacy path reports its own errors, which its load handler
      catches and wraps (none of them mentions "zip"). */
  const LoadPrefix: string := "Error al cargar el archivo Excel: "

  /** The error for a header row whose untrimmed text lacks the tokens; row
      numbers are counted from 1. */
  function HeadersMissingMessage(h: nat): string {
    "No se encontraron headers de BBVA en la fila " + NatToString(h + 1)
  }

  /** The sheet read from the found sheet: the header row's trimmed cells as
      headers, and the non-empty rows from the next row to the end of the
      sheet; a sheet without such rows is left out. */
  function FoundBook(fileName: string, sheetName: string, jsonData: Grid, h: nat, legacy: bool): Result<ExcelData>
    requires h < |jsonData|
  {
    if |jsonData[h]| == 0 then Err(EmptyHeaderRowMessage)
    else if !Processor.HasBbvaTokens(RowText(jsonData[h])) then Err(HeadersMissingMessage(h))
    else Ok(FoundData(fileName, sheetName, TrimAll(jsonData[h]), FoundRows(jsonData, h, legacy)))
  }

  /** The non-empty rows after the header row h, as objects under its
      trimmed cells. */
  function FoundRows(jsonData: Grid, h: nat, legacy: bool): seq<SheetRow>
    requires h < |jsonData|
  {
    FilterMap(jsonData[h + 1..], Bcp.NonEmptyRow(), RowObjectOf(TrimAll(jsonData[h]), legacy))
  }

  /** The workbook of the rows read: one sheet when there are rows, none
      otherwise. */
  function FoundData(fileName: string, sheetName: string, headers: seq<string>, rows: seq<SheetRow>): ExcelData {
    ExcelData(fileName, if |rows| > 0 then [ExcelSheet(sheetName, rows, headers, |rows|)] else [], |rows|)
  }

  /** The search and the extraction on the rows one reader hands over. */
  function BbvaBook(fileName: string, book: seq<NamedGrid>, legacy: bool): Result<ExcelData> {
    var read := ReadBook(book, legacy);
    match FindFrom(read, 0)
    case None => Err(NoBbvaDataMessage)
    case Some(f) => FoundBook(fileName, book[f.0].name, read[f.0].grid, f.1, legacy)
  }

  /** What processBBVAFile resolves or rejects with, given the upload's name
      and type, its size in bytes and its sheets as the workbook libraries
      read them. */
  function ProcessBbvaFileSpec(file: FileInfo, byteLength: nat, book: seq<NamedGrid>): Result<ExcelData> {
    if !IsExcelUpload(file) then Err(Bcp.InvalidFileMessage)
    else if byteLength == 0 then Err(Bcp.EmptyFileMessage)
    else if Bcp.IsXls(file) then
      match BbvaBook(file.name, book, true)
      case Ok(d) => Ok(d)
      case Err(e) => Err(LoadPrefix + e)
    else BbvaBook(file.name, book, false)
  }

  /** The steps after the search: the header row checked again, then read. */
  method ReadFound(fileName: string, sheetName: string, jsonData: Grid, headerRowIndex: nat, storedEnd: nat, legacy: bool)
    returns (r: Result<ExcelData>)
    requires headerRowIndex < |jsonData| && storedEnd == |jsonData|
    ensures r == FoundBook(fileName, sheetName, jsonData, headerRowIndex, legacy)
  {
    var dataEndIndex := if storedEnd == 0 then |jsonData| else storedEnd;
    var headerRow := jsonData[headerRowIndex];
    if |headerRow| == 0 {
      return Err(EmptyHeaderRowMessage);
    }
    var headerRowText := Join(LowerAll(headerRow), " ");
    assert headerRowText == RowText(headerRow);
    if !Processor.HasBbvaTokens(headerRowText) {
      return Err(HeadersMissingMessage(headerRowIndex));
    }
    var headers := TrimAll(headerRow);
    var sheetData := ExtractRows(jsonData, headers, headerRowIndex + 1, dataEndIndex, legacy);
    assert jsonData[headerRowIndex + 1..dataEndIndex] == jsonData[headerRowIndex + 1..];
    assert sheetData == FoundRows(jsonData, headerRowIndex, legacy);
    var sheets: seq<ExcelSheet> := [];
    var totalRows := 0;
    if |sheetData| > 0 {
      sheets := sheets + [ExcelSheet(sheetName, sheetData, headers, |sheetData|)];
      totalRows := totalRows + |sheetData|;
    }
    r := Ok(ExcelData(fileName, sheets, totalRows));
    assert r.value == FoundData(fileName, sheetName, headers, sheetData);
  }

  method ReadWorkbook(fileName: string, book: seq<NamedGrid>, legacy: bool) returns (r: Result<ExcelData>)
    ensures r == BbvaBook(fileName, book, legacy)
  {
    var foundData, sheetIndex, jsonData, sheetName, headerRowIndex, dataEndIndex := SearchBook(book, legacy);
    if !foundData {
      return Err(NoBbvaDataMessage);
    }
    r := ReadFound(fileName, sheetName, jsonData, headerRowIndex, dataEndIndex, legacy);
  }

  /** processBBVAFile */
  method ProcessBbvaFile(file: FileInfo, byteLength: nat, book: seq<NamedGrid>) returns (r: Result<ExcelData>)
    ensures r == ProcessBbvaFileSpec(file, byteLength, book)
  {
    if !IsExcelUpload(file) {
      return Err(Bcp.InvalidFileMessage);
    }
    if byteLength == 0 {
      return Err(Bcp.EmptyFileMessage);
    }
    var isXls := EndsWith(Lower(file.name), ".xls") || file.mimeType == XlsMime;
    if isXls {
      var loaded := ReadWorkbook(file.name, book, true);
      if loaded.Err? {
        return Err(LoadPrefix + loaded.error);
      }
      return loaded;
    }
    r := ReadWorkbook(file.name, book, false);
  }

  // ---------------------------------------------------------------------
  // What processBBVAFile promises

  /** The header row found passes the second, untrimmed check: each token is
      free of white space, so it survives in the untrimmed text. */
  lemma HeaderRecheckPasses(row: Row)
    requires IsHeaderRow(row)
    ensures Processor.HasBbvaTokens(RowText(row))
  {
    TokenSurvivesTrim(row, "sel");
    if Contains(TrimmedRowText(row), "no.") {
      TokenSurvivesTrim(row, "no.");
    } else {
      TokenSurvivesTrim(row, "no");
    }
    TokenSurvivesTrim(row, "cuenta");
    TokenSurvivesTrim(row, "titular(archivo)");
    TokenSurvivesTrim(row, "importe");
  }

  /** A header row the search found is read without error, into at most
      one sheet whose row count is the total. */
  lemma FoundBookOk(fileName: string, sheetName: string, jsonData: Grid, h: nat, legacy: bool)
    requires h < |jsonData| && |jsonData[h]| > 0 && IsHeaderRow(jsonData[h])
    ensures FoundBook(fileName, sheetName, jsonData, h, legacy).Ok?
    ensures FoundBook(fileName, sheetName, jsonData, h, legacy).value.fileName == fileName
    ensures |FoundBook(fileName, sheetName, jsonData, h, legacy).value.sheets| <= 1
    ensures FoundBook(fileName, sheetName, jsonData, h, legacy).value.totalRows ==
      Bcp.TotalRows(FoundBook(fileName, sheetName, jsonData, h, legacy).value.sheets)
  {
    HeaderRecheckPasses(jsonData[h]);
  }

  /** The search and extraction fail only when no sheet has a header row
      reached before a sentinel row: the two header-row errors never occur.
      On success the data is that of the first such sheet, in at most one
      sheet. */
  lemma BbvaBookOutcome(fileName: string, book: seq<NamedGrid>, legacy: bool)
    ensures BbvaBook(fileName, book, legacy).Err? <==>
      forall t :: 0 <= t < |book| ==> ScanFrom(ReadGrid(book[t].grid, legacy), 0).None?
    ensures BbvaBook(fileName, book, legacy).Err? ==> BbvaBook(fileName, book, legacy).error == NoBbvaDataMessage
    ensures BbvaBook(fileName, book, legacy).Ok? ==>
      BbvaBook(fileName, book, legacy).value.fileName == fileName &&
      |BbvaBook(fileName, book, legacy).value.sheets| <= 1 &&
      BbvaBook(fileName, book, legacy).value.totalRows == Bcp.TotalRows(BbvaBook(fileName, book, legacy).value.sheets)
  {
    var read := ReadBook(book, legacy);
    FindFromFacts(read, 0);
    assert forall t :: 0 <= t < |book| ==> read[t].grid == ReadGrid(book[t].grid, legacy);
    if FindFrom(read, 0).Some? {
      var f := FindFrom(read, 0).value;
      ScanFromFacts(read[f.0].grid, 0);
      FoundBookOk(fileName, book[f.0].name, read[f.0].grid, f.1, legacy);
    }
  }

  /** The rows read after header row h are exactly the non-empty rows after
      it up to the sheet's end, each as the object of its trimmed cells under
      the trimmed headers. */
  lemma FoundRowsMember(jsonData: Grid, h: nat, legacy: bool, r: SheetRow)
    requires h < |jsonData|
    ensures r in FoundRows(jsonData, h, legacy) <==>
      exists i :: h < i < |jsonData| && |jsonData[i]| > 0 && r == Keyed(RowObject(TrimAll(jsonData[h]), jsonData[i], legacy))
  {
    assert jsonData[h + 1..|jsonData|] == jsonData[h + 1..];
    FilterMapSlice(jsonData, h + 1, |jsonData|, Bcp.NonEmptyRow(), RowObjectOf(TrimAll(jsonData[h]), legacy), r);
  }

  /** No row is read exactly when every row after the header row is empty. */
  lemma FoundRowsEmpty(jsonData: Grid, h: nat, legacy: bool)
    requires h < |jsonData|
    ensures FoundRows(jsonData, h, legacy) == [] <==> forall i :: h < i < |jsonData| ==> |jsonData[i]| == 0
  {
    var rows := FoundRows(jsonData, h, legacy);
    if rows != [] {
      FoundRowsMember(jsonData, h, legacy, rows[0]);
    }
    if exists i :: h < i < |jsonData| && |jsonData[i]| > 0 {
      var i :| h < i < |jsonData| && |jsonData[i]| > 0;
      FoundRowsMember(jsonData, h, legacy, Keyed(RowObject(TrimAll(jsonData[h]), jsonData[i], legacy)));
    }
  }

  /** The sheet read from a header row the search found: present exactly
      when some later row is not empty, named after the sheet, with the
      trimmed header cells as headers and its row count as the total. */
  lemma FoundBookRows(fileName: string, sheetName: string, jsonData: Grid, h: nat, legacy: bool)
    requires h < |jsonData| && IsHeaderRow(jsonData[h]) && |jsonData[h]| > 0
    ensures FoundBook(fileName, sheetName, jsonData, h, legacy) ==
      Ok(FoundData(fileName, sheetName, TrimAll(jsonData[h]), FoundRows(jsonData, h, legacy)))
    ensures FoundBook(fileName, sheetName, jsonData, h, legacy).value.sheets != [] <==>
      exists i :: h < i < |jsonData| && |jsonData[i]| > 0
    ensures FoundBook(fileName, sheetName, jsonData, h, legacy).value.sheets != [] ==>
      FoundBook(fileName, sheetName, jsonData, h, legacy).value.sheets ==
        [ExcelSheet(sheetName, FoundRows(jsonData, h, legacy), TrimAll(jsonData[h]), FoundBook(fileName, sheetName, jsonData, h, legacy).value.totalRows)]
  {
    HeaderRecheckPasses(jsonData[h]);
    FoundRowsEmpty(jsonData, h, legacy);
  }

  /** A "Estimado cliente" row after the header row does not end the data:
      it is read as a data row like any other non-empty row. */
  lemma SentinelAfterHeaderIsData(fileName: string, sheetName: string, jsonData: Grid, h: nat, i: nat, legacy: bool)
    requires h < i < |jsonData| && IsHeaderRow(jsonData[h]) && |jsonData[h]| > 0
    requires |jsonData[i]| > 0 && IsSentinelRow(jsonData[i])
    ensures FoundBook(fileName, sheetName, jsonData, h, legacy).Ok?
    ensures FoundBook(fileName, sheetName, jsonData, h, legacy).value.sheets != [] &&
      Keyed(RowObject(TrimAll(jsonData[h]), jsonData[i], legacy)) in FoundBook(fileName, sheetName, jsonData, h, legacy).value.sheets[0].data
  {
    FoundBookRows(fileName, sheetName, jsonData, h, legacy);
    FoundRowsMember(jsonData, h, legacy, Keyed(RowObject(TrimAll(jsonData[h]), jsonData[i], legacy)));
  }

  /** processBBVAFile rejects a non-Excel upload and an empty one first; the
      legacy reader's errors carry the load prefix, the modern reader's do
      not; and it resolves exactly when some sheet, as its reader hands it
      over, has a header row before any sentinel row. */
  lemma ProcessBbvaOutcome(file: FileInfo, byteLength: nat, book: seq<NamedGrid>)
    ensures !IsExcelUpload(file) ==> ProcessBbvaFileSpec(file, byteLength, book) == Err(Bcp.InvalidFileMessage)
    ensures IsExcelUpload(file) && byteLength == 0 ==> ProcessBbvaFileSpec(file, byteLength, book) == Err(Bcp.EmptyFileMessage)
    ensures IsExcelUpload(file) && byteLength > 0 ==>
      (ProcessBbvaFileSpec(file, byteLength, book).Ok? <==>
        exists t :: 0 <= t < |book| && ScanFrom(ReadGrid(book[t].grid, Bcp.IsXls(file)), 0).Some?)
    ensures IsExcelUpload(file) && byteLength > 0 && ProcessBbvaFileSpec(file, byteLength, book).Err? ==>
      ProcessBbvaFileSpec(file, byteLength, book).error ==
        if Bcp.IsXls(file) then LoadPrefix + NoBbvaDataMessage else NoBbvaDataMessage
    ensures ProcessBbvaFileSpec(file, byteLength, book).Ok? ==> ProcessBbvaFileSpec(file, byteLength, book).value.fileName == file.name
  {
    BbvaBookOutcome(file.name, book, Bcp.IsXls(file));
  }

  // ---------------------------------------------------------------------
  // createSingleFileData

  /** `key.toLowerCase().includes('situaci')` */
  function SituaciKey(): string -> bool {
    key => Contains(Lower(key), "situaci")
  }

  /** The status of an object row: the value of its first key naming
      "situaci", "" when there is none. */
  function Estado(o: Obj): string {
    ValueAt(o, FirstKeyFrom(o, SituaciKey(), 0))
  }

  /** The record of an object row, read by column name. */
  function KeyedRecord(fileName: string, o: Obj, index: nat): AbonoRecord {
    Blank(MakeId(fileName, index), "BBVA", fileName).(
      beneficiario := ColumnValue(o, TitularColumn, None),
      documento := StripIdPrefix(ColumnValue(o, DocumentColumn, None)),
      monto := ParseAmount(ColumnValue(o, AmountColumn, None)),
      cuenta_numero := RemoveAll(ColumnValue(o, AccountColumn, None), '-'),
      estado := Estado(o))
  }

  /** The record of a row of cells, read by position. */
  function CellsRecord(fileName: string, cells: Row, index: nat): AbonoRecord {
    Blank(MakeId(fileName, index), "BBVA", fileName).(
      beneficiario := CellAt(cells, 3),
      documento := OrDash(StripIdPrefix(CellAt(cells, 1))),
      monto := AmountOrZero(CellAt(cells, 4)),
      cuenta_numero := RemoveAll(CellAt(cells, 2), '-'),
      estado := CellAt(cells, 2))
  }

  /** The record a row yields before the retention rule; a row that is
      neither an object nor an array yields none. */
  function BbvaRowRecord(fileName: string, row: SheetRow, index: nat): Option<AbonoRecord> {
    match row
    case Keyed(o) => Some(KeyedRecord(fileName, o, index))
    case Cells(c) => Some(CellsRecord(fileName, c, index))
    case Scalar(_) => None
  }

  function BbvaMaker(fileName: string): (SheetRow, nat) -> Option<AbonoRecord> {
    (row: SheetRow, index: nat) => BbvaRowRecord(fileName, row, index)
  }

  /** What createSingleFileData returns. */
  function SingleSpec(d: ExcelData): CombinedData {
    var records := Collected(Candidates(d.sheets, BbvaMaker(d.fileName)));
    CombinedData(records, |records|, [d.fileName])
  }

  /** The fields read from the object make the keyed record. */
  lemma KeyedRecordOf(fileName: string, o: Obj, index: nat,
                      beneficiario: string, documento: string, importe: string, cuenta: string, estado: string)
    requires beneficiario == ColumnValue(o, TitularColumn, None)
    requires documento == ColumnValue(o, DocumentColumn, None)
    requires importe == ColumnValue(o, AmountColumn, None)
    requires cuenta == ColumnValue(o, AccountColumn, None)
    requires estado == Estado(o)
    ensures KeyedRecord(fileName, o, index) ==
      Blank(MakeId(fileName, index), "BBVA", fileName).(
        beneficiario := beneficiario, documento := StripIdPrefix(documento),
        monto := ParseAmount(importe), cuenta_numero := RemoveAll(cuenta, '-'),
        estado := estado)
  {
  }

  /** One row of createSingleFileData's row loop, before the retention test. */
  method RowRecord(fileName: string, row: SheetRow, index: nat) returns (rec: Option<AbonoRecord>)
    ensures rec == BbvaRowRecord(fileName, row, index)
  {
    match row
    case Keyed(rowObj) =>
      var record := ObjectRecord(fileName, rowObj, index);
      rec := Some(record);
    case Cells(cells) =>
      rec := Some(CellsRecord(fileName, cells, index));
    case Scalar(_) =>
      rec := None;
  }

  /** The status loop over the object's keys. */
  method ReadEstado(rowObj: Obj) returns (estado: string)
    ensures estado == Estado(rowObj)
  {
    estado := "";
    var j := FindKey(rowObj, SituaciKey());
    if j < |rowObj| {
      estado := GetOr(rowObj, rowObj[j].key);
    }
  }

  /** The record of an object row, field by field. */
  method ObjectRecord(fileName: string, rowObj: Obj, index: nat) returns (rec: AbonoRecord)
    ensures rec == KeyedRecord(fileName, rowObj, index)
  {
    var estado := ReadEstado(rowObj);
    var beneficiario := GetColumnValue(rowObj, TitularColumn, None);
    var documento := GetColumnValue(rowObj, DocumentColumn, None);
    var importe := GetColumnValue(rowObj, AmountColumn, None);
    var cuenta := GetColumnValue(rowObj, AccountColumn, None);
    KeyedRecordOf(fileName, rowObj, index, beneficiario, documento, importe, cuenta, estado);
    rec := Blank(MakeId(fileName, index), "BBVA", fileName).(
      beneficiario := beneficiario, documento := StripIdPrefix(documento),
      monto := ParseAmount(importe), cuenta_numero := RemoveAll(cuenta, '-'),
      estado := estado);
  }

  /** The candidate records of one sheet's rows, row i yielding the record
      with index i. */
  function SheetCandidates(fileName: string, data: seq<SheetRow>): (c: seq<Option<AbonoRecord>>)
    ensures |c| == |data|
  {
    seq(|data|, i requires 0 <= i < |data| => BbvaRowRecord(fileName, data[i], i))
  }

  /** The record row i of a sheet yields, before the retention test. */
  method SheetCandidate(fileName: string, data: seq<SheetRow>, i: nat) returns (rec: Option<AbonoRecord>)
    requires i < |data|
    ensures rec == SheetCandidates(fileName, data)[i]
  {
    rec := RowRecord(fileName, data[i], i);
  }

  lemma SheetCandidatesOf(d: ExcelData, k: nat)
    requires k < |d.sheets|
    ensures Candidates(d.sheets, BbvaMaker(d.fileName))[k] == SheetCandidates(d.fileName, d.sheets[k].data)
  {
  }

  /** The row loop of one sheet, pushing each retained record. */
  method PushSheetRecords(fileName: string, data: seq<SheetRow>, records: seq<AbonoRecord>)
    returns (records': seq<AbonoRecord>)
    ensures records' == records + KeepRetained(SheetCandidates(fileName, data))
  {
    ghost var cands := SheetCandidates(fileName, data);
    records' := records;
    var i := 0;
    while i < |data|
      invariant i <= |data|
      invariant records' == records + KeepRetained(cands[..i])
    {
      var rec := SheetCandidate(fileName, data, i);
      records' := PushRetained(records', [rec]);
      KeepRetainedSnoc(cands, i);
      AppendAssoc(records, KeepRetained(cands[..i]), KeepRetained([cands[i]]));
      i := i + 1;
    }
    assert cands[..i] == cands;
  }

  /** The sheet loop of createSingleFileData. */
  method CreateSingleFileData(d: ExcelData) returns (c: CombinedData)
    ensures c == SingleSpec(d)
  {
    ghost var cands := Candidates(d.sheets, BbvaMaker(d.fileName));
    var records: seq<AbonoRecord> := [];
    var k := 0;
    while k < |d.sheets|
      invariant k <= |d.sheets|
      invariant records == Collected(cands[..k])
    {
      CollectedPrefixStep(cands, k);
      SheetCandidatesOf(d, k);
      records := PushSheetRecords(d.fileName, d.sheets[k].data, records);
      k := k + 1;
    }
    assert cands[..k] == cands;
    c := CombinedData(records, |records|, [d.fileName]);
  }

  /** Object and array rows yield a record of bank BBVA from the file, with
      the row's index in its id, no '-' in its account number and no
      document type. */
  lemma RowRecordShape(fileName: string, row: SheetRow, index: nat)
    ensures BbvaRowRecord(fileName, row, index).Some? <==> !row.Scalar?
    ensures BbvaRowRecord(fileName, row, index).Some? ==>
      var r := BbvaRowRecord(fileName, row, index).value;
      r.banco == "BBVA" && r.origen == fileName && r.id == MakeId(fileName, index) && '-' !in r.cuenta_numero &&
      r.documento_tipo == ""
  {
    match row
    case Keyed(o) => KeyedRecordShape(fileName, o, index);
    case Cells(c) => CellsRecordShape(fileName, c, index);
    case Scalar(_) =>
  }

  lemma KeyedRecordShape(fileName: string, o: Obj, index: nat)
    ensures var r := KeyedRecord(fileName, o, index);
      r.banco == "BBVA" && r.origen == fileName && r.id == MakeId(fileName, index) && '-' !in r.cuenta_numero &&
      r.documento_tipo == ""
  {
  }

  lemma CellsRecordShape(fileName: string, cells: Row, index: nat)
    ensures var r := CellsRecord(fileName, cells, index);
      r.banco == "BBVA" && r.origen == fileName && r.id == MakeId(fileName, index) && '-' !in r.cuenta_numero &&
      r.documento_tipo == ""
  {
  }

  /** createSingleFileData keeps exactly the retained records of the object
      and array rows, each from bank BBVA and from the file, with a row index
      of its sheet as id and no '-' in its account number. */
  lemma SingleRecords(d: ExcelData, r: AbonoRecord)
    ensures r in SingleSpec(d).records <==>
      Retained(r) &&
      (exists k, i :: 0 <= k < |d.sheets| && 0 <= i < |d.sheets[k].data| &&
         !d.sheets[k].data[i].Scalar? && BbvaRowRecord(d.fileName, d.sheets[k].data[i], i) == Some(r))
    ensures r in SingleSpec(d).records ==>
      r.banco == "BBVA" && r.origen == d.fileName && '-' !in r.cuenta_numero &&
      exists i: nat :: r.id == MakeId(d.fileName, i)
    ensures SingleSpec(d).totalRecords == |SingleSpec(d).records| && SingleSpec(d).sources == [d.fileName]
  {
    CandidatesMember(d.sheets, BbvaMaker(d.fileName), r);
    if r in SingleSpec(d).records {
      var k, i :| 0 <= k < |d.sheets| && 0 <= i < |d.sheets[k].data| &&
        BbvaMaker(d.fileName)(d.sheets[k].data[i], i) == Some(r);
      RowRecordShape(d.fileName, d.sheets[k].data[i], i);
    }
    forall k, i | 0 <= k < |d.sheets| && 0 <= i < |d.sheets[k].data|
      ensures BbvaRowRecord(d.fileName, d.sheets[k].data[i], i) == Some(r) ==> !d.sheets[k].data[i].Scalar?
    {
      RowRecordShape(d.fileName, d.sheets[k].data[i], i);
    }
  }

  /** A row of cells reads its status from the account column (index 2), so
      the account number is the status without hyphens, and a row with an
      account cell is always kept. */
  lemma CellsStatusIsAccount(fileName: string, cells: Row, index: nat)
    ensures CellsRecord(fileName, cells, index).estado == CellAt(cells, 2)
    ensures CellsRecord(fileName, cells, index).cuenta_numero == RemoveAll(CellsRecord(fileName, cells, index).estado, '-')
    ensures CellAt(cells, 2) != "" <==> CellsRecord(fileName, cells, index).estado != ""
    ensures CellAt(cells, 2) != "" ==> Retained(CellsRecord(fileName, cells, index))
  {
  }

  /** The status of an object row is the value of its first key naming
      "situaci". */
  lemma EstadoFirst(o: Obj, j: nat)
    requires j < |o| && Contains(Lower(o[j].key), "situaci")
    requires forall m :: 0 <= m < j ==> !Contains(Lower(o[m].key), "situaci")
    ensures Estado(o) == GetOr(o, o[j].key)
  {
    FirstKeyIs(o, SituaciKey(), j);
  }

  /** Without such a key the status is empty. */
  lemma EstadoNone(o: Obj)
    requires forall j :: 0 <= j < |o| ==> !Contains(Lower(o[j].key), "situaci")
    ensures Estado(o) == ""
  {
    FirstKeyFromFacts(o, SituaciKey(), 0);
  }

  /** For a row the reader built, a column whose name is one of the headers
      within the row reads the trimmed cell of the last column carrying it. */
  lemma ReaderColumn(headers: seq<string>, row: Row, column: string)
    requires column != "" && column in headers[..if |row| < |headers| then |row| else |headers|]
    ensures ColumnValue(ZipCells(headers, row), column, None) ==
      Trim(CellAt(row, LastIndex(headers[..if |row| < |headers| then |row| else |headers|], column)))
  {
    ZipHeadersGet(headers[..if |row| < |headers| then |row| else |headers|], row, true, column);
  }

  /** For a row the modern reader built, a column whose name heads a cell
      of the row reads the trimmed cell of the last column carrying it that
      holds one: a hole under a repeated header does not blank it. */
  lemma SparseReaderColumn(headers: seq<string>, row: Row, column: string, j: nat)
    requires column != "" && j < |row| && LastPresent(headers, row, column, j)
    ensures ColumnValue(ZipPresent(headers, row), column, None) == Trim(row[j])
  {
    ZipPresentGet(headers, row, column);
  }
}
