// processBBVAFile in src/utils/excelProcessorBBVA.ts: the first worksheet
// of an ExcelJS workbook, whose row 31 (index 30) must be the BBVA header
// row; the data runs from row 32 to the first "estimado cliente" row at
// index 40 or later.
module Bbva {
  import opened Wrappers
  import opened Text
  import opened Sheet
  import Bcp
  import Processor
  import BbvaV2

  const LoadErrorMessage: string := "No se pudo leer el archivo Excel. Verifica que el archivo no esté corrupto."
  const ReadErrorMessage: string := "Error leyendo el archivo"
  const EmptyRow31Message: string := "Fila 31 está vacía"
  const HeadersMissingMessage: string := "No se encontraron headers de BBVA en la fila 31"
  /** What the runtime rejects with when the workbook has no worksheet and
      `worksheet.name` is read from undefined. */
  const NoWorksheetMessage: string := "Cannot read properties of undefined (reading 'name')"

  /** The fixed header row, the first data row and where the search for the
      closing letter starts. */
  const HeaderIndex: nat := 30
  const DataStartIndex: nat := 31
  const SentinelSearchStart: nat := 40

  /** What the file reader and ExcelJS hand over: a read failure, a workbook
      ExcelJS could not load, or the worksheets' rows (a row ExcelJS skips is
      an empty row). */
  datatype Load = ReadFailed | LoadFailed | Loaded(worksheets: seq<NamedGrid>)

  /** `row31 && row31.length > 0` */
  predicate HasRow31(allRows: Grid) {
    |allRows| > HeaderIndex && |allRows[HeaderIndex]| > 0
  }

  /** dataEndIndex: the first row from index 40 on whose text mentions
      "estimado cliente", or the row count. */
  function DataEnd(allRows: Grid): (e: nat)
    requires HasRow31(allRows)
    ensures DataStartIndex <= e <= |allRows|
  {
    Processor.SentinelFrom(allRows, SentinelSearchStart)
  }

  /** The data rows: every non-empty row of the region as the object of its
      trimmed cells under the trimmed headers, holes skipped. */
  function SheetRows(allRows: Grid): seq<SheetRow>
    requires HasRow31(allRows)
  {
    FilterMap(allRows[DataStartIndex..DataEnd(allRows)], Bcp.NonEmptyRow(),
              BbvaV2.RowObjectOf(TrimAll(allRows[HeaderIndex]), false))
  }

  /** What the first worksheet yields. */
  function WorksheetSpec(fileName: string, ws: NamedGrid): Result<ExcelData> {
    if !HasRow31(ws.grid) then Err(EmptyRow31Message)
    else if !Processor.HasBbvaTokens(RowText(ws.grid[HeaderIndex])) then Err(HeadersMissingMessage)
    else Ok(BbvaV2.FoundData(fileName, ws.name, TrimAll(ws.grid[HeaderIndex]), SheetRows(ws.grid)))
  }

  /** What processBBVAFile resolves or rejects with. */
  function ProcessBbvaFileSpec(fileName: string, load: Load): Result<ExcelData> {
    match load
    case ReadFailed => Err(ReadErrorMessage)
    case LoadFailed => Err(LoadErrorMessage)
    case Loaded(worksheets) =>
      if worksheets == [] then Err(NoWorksheetMessage) else WorksheetSpec(fileName, worksheets[0])
  }

  /** The loop that looks for "Estimado Cliente" from row index 40 on. */
  method FindDataEnd(allRows: Grid) returns (dataEndIndex: nat)
    requires HasRow31(allRows)
    ensures dataEndIndex == DataEnd(allRows)
  {
    dataEndIndex := |allRows|;
    var i := SentinelSearchStart;
    while i < |allRows|
      invariant Processor.SentinelFrom(allRows, i) == DataEnd(allRows)
      decreases |allRows| - i
    {
      var row := allRows[i];
      if |row| > 0 {
        var rowText := Join(LowerAll(row), " ");
        assert rowText == RowText(row);
        if Contains(rowText, "estimado cliente") {
          dataEndIndex := i;
          return;
        }
      }
      i := i + 1;
    }
  }

  method ProcessBbvaFile(fileName: string, load: Load) returns (r: Result<ExcelData>)
    ensures r == ProcessBbvaFileSpec(fileName, load)
  {
    if load.ReadFailed? {
      return Err(ReadErrorMessage);
    }
    if load.LoadFailed? {
      return Err(LoadErrorMessage);
    }
    if |load.worksheets| == 0 {
      return Err(NoWorksheetMessage);
    }
    var worksheet := load.worksheets[0];
    var allRows := worksheet.grid;
    if !(|allRows| > HeaderIndex && |allRows[HeaderIndex]| > 0) {
      return Err(EmptyRow31Message);
    }
    var row31 := allRows[HeaderIndex];
    var row31Text := Join(LowerAll(row31), " ");
    assert row31Text == RowText(row31);
    if !Processor.HasBbvaTokens(row31Text) {
      return Err(HeadersMissingMessage);
    }
    var headers := TrimAll(row31);
    var dataEndIndex := FindDataEnd(allRows);
    var sheetData := BbvaV2.ExtractRows(allRows, headers, DataStartIndex, dataEndIndex, false);
    var sheets: seq<ExcelSheet> := [];
    var totalRows := 0;
    if |sheetData| > 0 {
      sheets := sheets + [ExcelSheet(worksheet.name, sheetData, headers, |sheetData|)];
      totalRows := totalRows + |sheetData|;
    }
    assert sheetData == SheetRows(allRows);
    assert ExcelData(fileName, sheets, totalRows) == BbvaV2.FoundData(fileName, worksheet.name, headers, sheetData);
    r := Ok(ExcelData(fileName, sheets, totalRows));
  }

  // ---------------------------------------------------------------------
  // What processBBVAFile promises

  /** The file is read exactly when the first worksheet's row 31 is the BBVA
      header row; every other case is rejected with its own message, and
      the worksheets after the first are never looked at. */
  lemma ProcessOutcome(fileName: string, load: Load)
    ensures ProcessBbvaFileSpec(fileName, load).Ok? <==>
      load.Loaded? && load.worksheets != [] && Processor.BbvaHeaderAt30(load.worksheets[0].grid)
    ensures load.ReadFailed? ==> ProcessBbvaFileSpec(fileName, load) == Err(ReadErrorMessage)
    ensures load.LoadFailed? ==> ProcessBbvaFileSpec(fileName, load) == Err(LoadErrorMessage)
    ensures load == Loaded([]) ==> ProcessBbvaFileSpec(fileName, load) == Err(NoWorksheetMessage)
    ensures load.Loaded? && load.worksheets != [] ==>
      ProcessBbvaFileSpec(fileName, load) == ProcessBbvaFileSpec(fileName, Loaded([load.worksheets[0]]))
    ensures load.Loaded? && load.worksheets != [] && !HasRow31(load.worksheets[0].grid) ==>
      ProcessBbvaFileSpec(fileName, load) == Err(EmptyRow31Message)
    ensures (load.Loaded? && load.worksheets != [] && HasRow31(load.worksheets[0].grid) &&
             !Processor.BbvaHeaderAt30(load.worksheets[0].grid)) ==>
      ProcessBbvaFileSpec(fileName, load) == Err(HeadersMissingMessage)
  {
  }

  /** A read file names the upload, has at most the first worksheet, under
      its own name and with the trimmed row-31 headers, and counts its rows. */
  lemma ResultShape(fileName: string, ws: NamedGrid)
    requires WorksheetSpec(fileName, ws).Ok?
    ensures WorksheetSpec(fileName, ws).value.fileName == fileName
    ensures WorksheetSpec(fileName, ws).value.totalRows == |SheetRows(ws.grid)|
    ensures WorksheetSpec(fileName, ws).value.totalRows == Bcp.TotalRows(WorksheetSpec(fileName, ws).value.sheets)
    ensures WorksheetSpec(fileName, ws).value.sheets == [] <==> SheetRows(ws.grid) == []
    ensures WorksheetSpec(fileName, ws).value.sheets != [] ==>
      WorksheetSpec(fileName, ws).value.sheets ==
        [ExcelSheet(ws.name, SheetRows(ws.grid), TrimAll(ws.grid[HeaderIndex]), |SheetRows(ws.grid)|)]
  {
    var rows := SheetRows(ws.grid);
    if rows != [] {
      var s := [ExcelSheet(ws.name, rows, TrimAll(ws.grid[HeaderIndex]), |rows|)];
      assert s[..0] == [];
      assert Bcp.TotalRows(s) == |rows|;
    }
  }

  /** The rows read are exactly the objects of the non-empty rows from index
      31 up to the closing letter. */
  lemma RowsMember(allRows: Grid, r: SheetRow)
    requires HasRow31(allRows)
    ensures r in SheetRows(allRows) <==>
      exists i :: DataStartIndex <= i < DataEnd(allRows) && |allRows[i]| > 0 &&
        r == Keyed(ZipPresent(TrimAll(allRows[HeaderIndex]), allRows[i]))
  {
    FilterMapSlice(allRows, DataStartIndex, DataEnd(allRows), Bcp.NonEmptyRow(),
                   BbvaV2.RowObjectOf(TrimAll(allRows[HeaderIndex]), false), r);
  }

  /** The region ends at the first "estimado cliente" row at index 40 or later,
      or at the last row; rows 31 to 39 are always data, a letter among
      them included. */
  lemma RegionBounds(allRows: Grid)
    requires HasRow31(allRows)
    ensures DataEnd(allRows) == |allRows| ||
      (SentinelSearchStart <= DataEnd(allRows) && Processor.IsSentinelRow(allRows[DataEnd(allRows)]))
    ensures forall i :: SentinelSearchStart <= i < DataEnd(allRows) ==> !Processor.IsSentinelRow(allRows[i])
    ensures DataEnd(allRows) >= |allRows| || DataEnd(allRows) >= SentinelSearchStart
    ensures |SheetRows(allRows)| <= DataEnd(allRows) - DataStartIndex
  {
  }

  /** A non-empty row between the header row and index 40 is read even when it
      is the closing letter. */
  lemma EarlyLetterIsData(allRows: Grid, i: nat)
    requires HasRow31(allRows) && DataStartIndex <= i < |allRows| && i < SentinelSearchStart
    requires |allRows[i]| > 0
    ensures Keyed(ZipPresent(TrimAll(allRows[HeaderIndex]), allRows[i])) in SheetRows(allRows)
  {
    RegionBounds(allRows);
    RowsMember(allRows, Keyed(ZipPresent(TrimAll(allRows[HeaderIndex]), allRows[i])));
  }

  /** The row at the closing letter and every row after it are not read:
      every row read comes from before the letter. */
  lemma LetterEndsData(allRows: Grid, r: SheetRow)
    requires HasRow31(allRows) && r in SheetRows(allRows)
    ensures exists i :: (DataStartIndex <= i < |allRows| && |allRows[i]| > 0 &&
                         (forall j :: SentinelSearchStart <= j <= i ==> !Processor.IsSentinelRow(allRows[j])) &&
                         r == Keyed(ZipPresent(TrimAll(allRows[HeaderIndex]), allRows[i])))
  {
    RowsMember(allRows, r);
    RegionBounds(allRows);
  }
}
