// src/utils/excelProcessor.ts: the grid logic of processExcelFile (header
// row, data region, header cleaning, row filter and row objects), the
// normalisers combineExcelData and createSingleFileData, and the text built
// by exportCombinedToCSV and exportToCSV.
module Processor {
  import opened Wrappers
  import opened Text
  import opened Numbers
  import opened Sheet
  import opened Records
  import Csv

  function Min(a: int, b: int): int {
    if a <= b then a else b
  }

  function Max(a: int, b: int): int {
    if a >= b then a else b
  }

  // ---------------------------------------------------------------------
  // Header row

  /** hasSel && hasNo && hasCuenta && hasTitularArchivo && hasImporte */
  predicate HasBbvaTokens(text: string) {
    Contains(text, "sel") && (Contains(text, "no.") || Contains(text, "no"))
    && Contains(text, "cuenta") && Contains(text, "titular(archivo)") && Contains(text, "importe")
  }

  /** The BBVA header test: row index 30 exists, is not empty and its text
      carries the five tokens. */
  predicate BbvaHeaderAt30(grid: Grid) {
    |grid| > 30 && |grid[30]| > 0 && HasBbvaTokens(RowText(grid[30]))
  }

  /** One of the eight keywords of a header row. */
  predicate HasHeaderKeyword(text: string) {
    Contains(text, "beneficiario") || Contains(text, "titular") || Contains(text, "cuenta")
    || Contains(text, "monto") || Contains(text, "documento") || Contains(text, "importe")
    || Contains(text, "cliente") || Contains(text, "nombre")
  }

  predicate IsHeaderRow(row: Row) {
    |row| > 5 && HasHeaderKeyword(RowText(row))
  }

  /** The first header row at an index in [i, limit), or limit. */
  function FirstHeaderFrom(grid: Grid, i: nat, limit: nat): (h: nat)
    requires i <= limit <= |grid|
    ensures i <= h <= limit
    ensures forall j :: i <= j < h ==> !IsHeaderRow(grid[j])
    ensures h < limit ==> IsHeaderRow(grid[h])
    decreases limit - i
  {
    if i == limit then limit
    else if IsHeaderRow(grid[i]) then i
    else FirstHeaderFrom(grid, i + 1, limit)
  }

  /** The BCP and generic header row: the first header row among the first
      20 rows, or row 0 when there is none. */
  function GenericHeaderIndex(grid: Grid): (h: nat)
    ensures h < |grid| || (|grid| == 0 && h == 0)
    ensures h < 20
    ensures forall j :: 0 <= j < h ==> !IsHeaderRow(grid[j])
    ensures (exists j :: 0 <= j < Min(20, |grid|) && IsHeaderRow(grid[j])) ==> IsHeaderRow(grid[h])
    ensures (forall j :: 0 <= j < Min(20, |grid|) ==> !IsHeaderRow(grid[j])) ==> h == 0
  {
    var h := FirstHeaderFrom(grid, 0, Min(20, |grid|));
    if h < Min(20, |grid|) then h else 0
  }

  // ---------------------------------------------------------------------
  // Data region of a BBVA report

  /** A row whose text mentions "estimado cliente", the letter that follows
      the payment table. */
  predicate IsSentinelRow(row: Row) {
    |row| > 0 && Contains(RowText(row), "estimado cliente")
  }

  /** The first sentinel row at index i or later, or |grid|. */
  function SentinelFrom(grid: Grid, i: nat): (e: nat)
    ensures e == |grid| || (i <= e < |grid| && IsSentinelRow(grid[e]))
    ensures forall j :: i <= j < e && j < |grid| ==> !IsSentinelRow(grid[j])
    decreases |grid| - i
  {
    if i >= |grid| then |grid|
    else if IsSentinelRow(grid[i]) then i
    else SentinelFrom(grid, i + 1)
  }

  /** dataEndIndex: the sentinel searched from max(start + 10, 40); without
      one, or when it comes within five rows of the start, min(start + 50,
      len); and min(start + 100, len) if that still does not pass the start. */
  function BbvaDataEnd(grid: Grid, start: nat): (e: nat)
    requires start <= |grid|
    ensures start <= e <= |grid|
  {
    var e0 := SentinelFrom(grid, Max(start + 10, 40));
    var e1 := if e0 == |grid| || e0 <= start + 5 then Min(start + 50, |grid|) else e0;
    if e1 <= start then Min(start + 100, |grid|) else e1
  }

  /** With the data starting at row 31, the region ends exactly at the first
      sentinel at index 41 or later when there is one (however far), and
      otherwise after at most 50 rows. */
  lemma BbvaRegion(grid: Grid)
    requires |grid| >= 31
    ensures var e := BbvaDataEnd(grid, 31);
      31 <= e <= |grid| &&
      (e < |grid| && e < 81 ==> e >= 41 && IsSentinelRow(grid[e])) &&
      (forall j :: 41 <= j < e ==> !IsSentinelRow(grid[j])) &&
      (SentinelFrom(grid, 41) < |grid| ==> e == SentinelFrom(grid, 41)) &&
      (SentinelFrom(grid, 41) == |grid| ==> e == Min(81, |grid|))
  {
  }

  // ---------------------------------------------------------------------
  // Headers and rows

  /** `Columna_${index + 1}` */
  function Placeholder(i: nat): string {
    "Columna_" + NatToString(i + 1)
  }

  /** cleanHeaders: each header trimmed, a blank one replaced by its column's
      placeholder. */
  function CleanHeaders(headers: seq<string>): (r: seq<string>)
    ensures |r| == |headers|
    ensures forall i :: 0 <= i < |r| ==> r[i] != ""
    ensures forall i :: 0 <= i < |r| && Trim(headers[i]) != "" ==> r[i] == Trim(headers[i])
    ensures forall i :: 0 <= i < |r| && Trim(headers[i]) == "" ==> r[i] == Placeholder(i)
  {
    seq(|headers|, i requires 0 <= i < |headers| => if Trim(headers[i]) == "" then Placeholder(i) else Trim(headers[i]))
  }

  /** Two blank columns never share a placeholder. */
  lemma PlaceholdersDistinct(headers: seq<string>, i: nat, j: nat)
    requires i < j < |headers| && Trim(headers[i]) == "" && Trim(headers[j]) == ""
    ensures CleanHeaders(headers)[i] != CleanHeaders(headers)[j]
  {
    if Placeholder(i) == Placeholder(j) {
      assert NatToString(i + 1) == Placeholder(i)[8..] == Placeholder(j)[8..] == NatToString(j + 1);
      NatToStringInjective(i + 1, j + 1);
    }
  }

  /** `String(cell || '').trim() !== ''` */
  predicate NonBlank(cell: string) {
    Trim(cell) != ""
  }

  /** The row filter: a BBVA row needs an account, holder, amount or status
      cell, or an all-digit first cell; any other row needs one non-blank
      cell. An empty row is always dropped. */
  predicate KeepRow(row: Row, isBbva: bool) {
    |row| > 0 &&
    if isBbva then
      NonBlank(CellAt(row, 2)) || NonBlank(CellAt(row, 4)) || NonBlank(CellAt(row, 7))
      || NonBlank(CellAt(row, 8)) || IsDigits(Trim(CellAt(row, 0)))
    else
      exists i :: 0 <= i < |row| && NonBlank(row[i])
  }

  /** The row filter as a function value. */
  function Keeper(isBbva: bool): Row -> bool {
    row => KeepRow(row, isBbva)
  }

  /** The row object: every cleaned header mapped to its trimmed cell. */
  function ObjectOf(headers: seq<string>): Row -> SheetRow {
    row => Keyed(ZipHeaders(headers, row, true))
  }

  /** `rows.filter(keep).map(row => object of trimmed cells under the headers)` */
  function ExtractRows(rows: Grid, headers: seq<string>, isBbva: bool): seq<SheetRow> {
    FilterMap(rows, Keeper(isBbva), ObjectOf(headers))
  }

  const BbvaTableHeaders: seq<string> :=
    ["Item", "Beneficiario", "Documento", "# Documento", "Monto", "Cuenta", "Estado", "Observación", "Banco"]

  const BcpTableHeaders: seq<string> :=
    ["Beneficiario - Nombre", "Documento - Tipo", "Documento", "Monto - Moneda", "Monto",
     "Cuenta - T", "Cuenta - Número", "Estado", "Observación"]

  // ---------------------------------------------------------------------
  // processExcelFile

  /** The promise of processExcelFile: resolved with the workbook, rejected
      with a message, or left pending when the reader callback returns
      without resolving. */
  datatype Outcome = Pending | Resolved(data: ExcelData) | Rejected(message: string)

  /** What the load handler's catch prefixes to the error it rejects with. */
  const ProcessErrorPrefix: string := "Error procesando archivo: "

  /** The TypeError of the fallback `XLSX.utils.sheet_to_array(...)`, a
      function the XLSX library does not have; it is reached only when both
      `sheet_to_json` calls return no rows. */
  const SheetToArrayMissingMessage: string := "XLSX.utils.sheet_to_array is not a function"

  /** The one-sheet workbook made from a header row and the rows of the data
      region. */
  function SheetFrom(fileName: string, sheetName: string, headers: seq<string>, rows: Grid, isBbva: bool): ExcelData {
    var data := ExtractRows(rows, CleanHeaders(headers), isBbva);
    var fixed := if isBbva then BbvaTableHeaders else BcpTableHeaders;
    ExcelData(fileName, [ExcelSheet(sheetName, data, fixed, |data|)], |data|)
  }

  /** What processExcelFile makes of the first sheet of a workbook. */
  function ProcessExcelFileSpec(fileName: string, sheet: NamedGrid, bankType: Option<Bank>): Outcome {
    var grid := sheet.grid;
    if |grid| == 0 then Rejected(ProcessErrorPrefix + SheetToArrayMissingMessage)
    else if bankType == Some(BBVA) then
      if BbvaHeaderAt30(grid) then
        Resolved(SheetFrom(fileName, sheet.name, TrimAll(grid[30]), grid[31..BbvaDataEnd(grid, 31)], true))
      else Pending
    else
      var h := GenericHeaderIndex(grid);
      Resolved(SheetFrom(fileName, sheet.name, grid[h], grid[h + 1..], false))
  }

  /** The loop that finds dataEndIndex. */
  method FindDataEnd(grid: Grid, start: nat) returns (end: nat)
    requires start <= |grid|
    ensures end == BbvaDataEnd(grid, start)
  {
    end := |grid|;
    var from := Max(start + 10, 40);
    var i := from;
    while i < |grid|
      invariant from <= i
      invariant SentinelFrom(grid, from) == SentinelFrom(grid, i)
      decreases |grid| - i
    {
      if IsSentinelRow(grid[i]) {
        end := i;
        break;
      }
      i := i + 1;
    }
    if end == |grid| || end <= start + 5 {
      end := Min(start + 50, |grid|);
    }
    if end <= start {
      end := Min(start + 100, |grid|);
    }
  }

  /** The loop that finds the header row of a BCP or generic file. */
  method FindHeaderRow(grid: Grid) returns (h: nat)
    ensures h == GenericHeaderIndex(grid)
  {
    var i := 0;
    var limit := Min(20, |grid|);
    while i < limit
      invariant 0 <= i <= limit
      invariant FirstHeaderFrom(grid, 0, limit) == FirstHeaderFrom(grid, i, limit)
    {
      if IsHeaderRow(grid[i]) {
        return i;
      }
      i := i + 1;
    }
    h := 0;
  }

  method ProcessExcelFile(fileName: string, sheet: NamedGrid, bankType: Option<Bank>) returns (out: Outcome)
    ensures out == ProcessExcelFileSpec(fileName, sheet, bankType)
  {
    var grid := sheet.grid;
    if |grid| == 0 {
      return Rejected(ProcessErrorPrefix + SheetToArrayMissingMessage);
    }
    if bankType == Some(BBVA) {
      if !(|grid| > 30 && |grid[30]| > 0) || !HasBbvaTokens(RowText(grid[30])) {
        return Pending;
      }
      var end := FindDataEnd(grid, 31);
      out := Resolved(SheetFrom(fileName, sheet.name, TrimAll(grid[30]), grid[31..end], true));
    } else {
      var h := FindHeaderRow(grid);
      out := Resolved(SheetFrom(fileName, sheet.name, grid[h], grid[h + 1..], false));
    }
  }

  /** An empty first sheet rejects, through the missing `sheet_to_array`
      fallback, whatever the bank; a BBVA sheet with rows but without its
      header at row 31 leaves the promise pending; every other sheet
      resolves. */
  lemma ProcessOutcomes(fileName: string, sheet: NamedGrid, bankType: Option<Bank>)
    ensures ProcessExcelFileSpec(fileName, sheet, bankType).Rejected? <==> |sheet.grid| == 0
    ensures ProcessExcelFileSpec(fileName, sheet, bankType).Rejected? ==>
      ProcessExcelFileSpec(fileName, sheet, bankType).message == ProcessErrorPrefix + SheetToArrayMissingMessage
    ensures ProcessExcelFileSpec(fileName, sheet, bankType).Pending? <==>
      bankType == Some(BBVA) && |sheet.grid| > 0 && !BbvaHeaderAt30(sheet.grid)
  {
  }

  /** A BBVA file is read only when row 31 is the BBVA header row; the
      result is one sheet with the BBVA table headers, whose row count and
      total are its number of rows. */
  lemma BbvaProcessing(fileName: string, sheet: NamedGrid)
    ensures ProcessExcelFileSpec(fileName, sheet, Some(BBVA)).Resolved? <==> BbvaHeaderAt30(sheet.grid)
    ensures ProcessExcelFileSpec(fileName, sheet, Some(BBVA)).Resolved? ==>
      var d := ProcessExcelFileSpec(fileName, sheet, Some(BBVA)).data;
      d.fileName == fileName && |d.sheets| == 1 && d.sheets[0].name == sheet.name &&
      d.sheets[0].headers == BbvaTableHeaders &&
      d.totalRows == d.sheets[0].rowCount == |d.sheets[0].data| <= BbvaDataEnd(sheet.grid, 31) - 31
  {
  }

  /** Each row of a BBVA result is the object of a kept row of the data
      region, under the cleaned headers of row 31, and each such object is
      there. */
  lemma BbvaRows(fileName: string, sheet: NamedGrid, r: SheetRow)
    requires BbvaHeaderAt30(sheet.grid)
    ensures var grid := sheet.grid;
      r in ProcessExcelFileSpec(fileName, sheet, Some(BBVA)).data.sheets[0].data <==>
        exists i :: 31 <= i < BbvaDataEnd(grid, 31) && KeepRow(grid[i], true) &&
          r == Keyed(ZipHeaders(CleanHeaders(TrimAll(grid[30])), grid[i], true))
  {
    var grid := sheet.grid;
    FilterMapSlice(grid, 31, BbvaDataEnd(grid, 31), Keeper(true), ObjectOf(CleanHeaders(TrimAll(grid[30]))), r);
  }

  /** A BCP or unspecified file is always read when it has rows; the result
      is one sheet with the BCP table headers, whose row count and total
      are its number of rows. */
  lemma GenericProcessing(fileName: string, sheet: NamedGrid, bankType: Option<Bank>)
    requires bankType != Some(BBVA)
    ensures ProcessExcelFileSpec(fileName, sheet, bankType).Resolved? <==> |sheet.grid| > 0
    ensures ProcessExcelFileSpec(fileName, sheet, bankType).Resolved? ==>
      var d := ProcessExcelFileSpec(fileName, sheet, bankType).data;
      d.fileName == fileName && |d.sheets| == 1 && d.sheets[0].name == sheet.name &&
      d.sheets[0].headers == BcpTableHeaders &&
      d.totalRows == d.sheets[0].rowCount == |d.sheets[0].data| < |sheet.grid|
  {
  }

  /** Each row of a BCP or generic result is the object of a kept row below
      the header row, under its cleaned headers, and each such object is
      there. */
  lemma GenericRows(fileName: string, sheet: NamedGrid, bankType: Option<Bank>, r: SheetRow)
    requires bankType != Some(BBVA) && |sheet.grid| > 0
    ensures var grid := sheet.grid;
      var h := GenericHeaderIndex(grid);
      r in ProcessExcelFileSpec(fileName, sheet, bankType).data.sheets[0].data <==>
        exists i :: h < i < |grid| && KeepRow(grid[i], false) &&
          r == Keyed(ZipHeaders(CleanHeaders(grid[h]), grid[i], true))
  {
    var grid := sheet.grid;
    var h := GenericHeaderIndex(grid);
    assert grid[h + 1..] == grid[h + 1..|grid|];
    FilterMapSlice(grid, h + 1, |grid|, Keeper(false), ObjectOf(CleanHeaders(grid[h])), r);
  }

  /** Each row object maps every cleaned header to the trimmed cell of the
      last column carrying it, and has no other key. */
  lemma RowObject(headers: seq<string>, row: Row, h: string)
    ensures h in CleanHeaders(headers) ==>
      Get(ZipHeaders(CleanHeaders(headers), row, true), h) ==
        Some(Trim(CellAt(row, LastIndex(CleanHeaders(headers), h))))
    ensures h !in CleanHeaders(headers) ==> Get(ZipHeaders(CleanHeaders(headers), row, true), h) == None
  {
    ZipHeadersGet(CleanHeaders(headers), row, true, h);
  }

  // ---------------------------------------------------------------------
  // Normalisers

  /** `fileName?.toLowerCase().includes('bbva')` */
  predicate NamesBbva(fileName: string) {
    Contains(Lower(fileName), "bbva")
  }

  /** `bankType || (fileName mentions bbva ? 'BBVA' : 'BCP')` */
  function BancoOf(bankType: Option<Bank>, fileName: string): string {
    match bankType
    case Some(b) => BankName(b)
    case None => if NamesBbva(fileName) then "BBVA" else "BCP"
  }

  /** The BBVA record read by column position: holder 4, amount 7, account 2,
      status 8. */
  function BbvaByPosition(row: SheetRow, id: string, origen: string): AbonoRecord {
    Blank(id, "BBVA", origen).(
      beneficiario := At(row, 4),
      monto := AmountOrZero(At(row, 7)),
      cuenta_numero := RemoveAll(At(row, 2), '-'),
      estado := At(row, 8))
  }

  /** The BCP record read by the fixed header names. */
  function BcpByName(row: SheetRow, id: string, banco: string, origen: string): AbonoRecord {
    Blank(id, banco, origen).(
      beneficiario := Named(row, "Beneficiario - Nombre"),
      documento_tipo := OrDash(Named(row, "Documento - Tipo")),
      documento := OrDash(Named(row, "Documento")),
      monto := AmountOrZero(Named(row, "Monto")),
      cuenta_numero := RemoveAll(Named(row, "Cuenta - Número"), '-'),
      estado := Named(row, "Estado"),
      observaciones := Named(row, "Observación"))
  }

  /** The BCP record read by column position: columns B, C, D, H, N, O, P. */
  function BcpByPosition(row: SheetRow, id: string, banco: string, origen: string): AbonoRecord {
    Blank(id, banco, origen).(
      beneficiario := At(row, 1),
      documento_tipo := OrDash(At(row, 2)),
      documento := OrDash(At(row, 3)),
      monto := AmountOrZero(At(row, 7)),
      cuenta_numero := RemoveAll(At(row, 13), '-'),
      estado := At(row, 14),
      observaciones := At(row, 15))
  }

  /** isBBVA1 / isBBVA2 */
  predicate IsBbvaSource(d: ExcelData, bankType: Option<Bank>) {
    bankType == Some(BBVA) || NamesBbva(d.fileName)
  }

  /** The record of row `index` of a sheet of the first file. */
  function FirstFileRecord(d: ExcelData, bankType: Option<Bank>, row: SheetRow, index: nat): AbonoRecord {
    var id := MakeId(d.fileName, index);
    if IsBbvaSource(d, bankType) then BbvaByPosition(row, id, d.fileName)
    else BcpByName(row, id, BancoOf(bankType, d.fileName), d.fileName)
  }

  /** The record of row `index` of a sheet of the second file. */
  function SecondFileRecord(d: ExcelData, bankType: Option<Bank>, row: SheetRow, index: nat): AbonoRecord {
    var id := MakeId(d.fileName, index);
    if IsBbvaSource(d, bankType) then BbvaByPosition(row, id, d.fileName)
    else BcpByPosition(row, id, BancoOf(bankType, d.fileName), d.fileName)
  }

  function FirstFileMaker(d: ExcelData, bankType: Option<Bank>): (SheetRow, nat) -> Option<AbonoRecord> {
    (row: SheetRow, index: nat) => Some(FirstFileRecord(d, bankType, row, index))
  }

  function SecondFileMaker(d: ExcelData, bankType: Option<Bank>): (SheetRow, nat) -> Option<AbonoRecord> {
    (row: SheetRow, index: nat) => Some(SecondFileRecord(d, bankType, row, index))
  }

  /** What combineExcelData returns. */
  function CombineSpec(d1: ExcelData, d2: ExcelData, b1: Option<Bank>, b2: Option<Bank>): CombinedData {
    var records := Collected(Candidates(d1.sheets, FirstFileMaker(d1, b1)))
      + Collected(Candidates(d2.sheets, SecondFileMaker(d2, b2)));
    CombinedData(records, |records|, [d1.fileName, d2.fileName])
  }

  method CombineExcelData(d1: ExcelData, d2: ExcelData, b1: Option<Bank>, b2: Option<Bank>) returns (c: CombinedData)
    ensures c == CombineSpec(d1, d2, b1, b2)
    ensures c.totalRecords == |c.records| && c.sources == [d1.fileName, d2.fileName]
  {
    var m1 := FirstFileMaker(d1, b1);
    var m2 := SecondFileMaker(d2, b2);
    var first := CollectSheets([], d1.sheets, m1);
    assert first == Collected(Candidates(d1.sheets, m1));
    var records := CollectSheets(first, d2.sheets, m2);
    assert records == Collected(Candidates(d1.sheets, m1)) + Collected(Candidates(d2.sheets, m2));
    c := CombinedData(records, |records|, [d1.fileName, d2.fileName]);
  }

  /** The shape of every normalised record: no '-' in the account, and either
      a BBVA record without documents or a BCP record whose documents
      default to "-". */
  predicate Shaped(r: AbonoRecord) {
    '-' !in r.cuenta_numero &&
    ((r.banco == "BBVA" && r.documento_tipo == "" && r.documento == "") ||
     (r.banco == "BCP" && r.documento_tipo != "" && r.documento != ""))
  }

  /** A record as the normalisers push it: retained and shaped. */
  predicate WellFormed(r: AbonoRecord) {
    Retained(r) && Shaped(r)
  }

  /** Every row of a file yields a shaped record named after the file and the
      row's index. */
  ghost predicate MakesShaped(make: (SheetRow, nat) -> Option<AbonoRecord>, fileName: string) {
    forall row, i :: make(row, i).Some? ==>
      Shaped(make(row, i).value) && make(row, i).value.origen == fileName && make(row, i).value.id == MakeId(fileName, i)
  }

  lemma FirstFileShaped(d: ExcelData, bankType: Option<Bank>)
    ensures MakesShaped(FirstFileMaker(d, bankType), d.fileName)
  {
    forall row, i ensures Shaped(FirstFileRecord(d, bankType, row, i)) {
      if !IsBbvaSource(d, bankType) {
        assert BancoOf(bankType, d.fileName) == "BCP";
      }
    }
  }

  lemma SecondFileShaped(d: ExcelData, bankType: Option<Bank>)
    ensures MakesShaped(SecondFileMaker(d, bankType), d.fileName)
  {
    forall row, i ensures Shaped(SecondFileRecord(d, bankType, row, i)) {
      if !IsBbvaSource(d, bankType) {
        assert BancoOf(bankType, d.fileName) == "BCP";
      }
    }
  }

  /** A record as a file contributes it: well formed, with the file's name
      as origin and `fileName_rowIndex` as id for a row of one of its
      sheets. */
  ghost predicate FromFile(r: AbonoRecord, sheets: seq<ExcelSheet>, fileName: string) {
    WellFormed(r) && r.origen == fileName &&
    exists k, i :: 0 <= k < |sheets| && 0 <= i < |sheets[k].data| && r.id == MakeId(fileName, i)
  }

  /** The records collected from a file whose rows yield shaped records come
      from that file. */
  lemma FileRecords(sheets: seq<ExcelSheet>, make: (SheetRow, nat) -> Option<AbonoRecord>, fileName: string)
    requires MakesShaped(make, fileName)
    ensures forall r :: r in Collected(Candidates(sheets, make)) ==> FromFile(r, sheets, fileName)
  {
    forall r | r in Collected(Candidates(sheets, make)) ensures FromFile(r, sheets, fileName) {
      CandidatesMember(sheets, make, r);
    }
  }

  lemma FirstFileRecords(d: ExcelData, bankType: Option<Bank>)
    ensures forall r :: r in Collected(Candidates(d.sheets, FirstFileMaker(d, bankType))) ==>
      FromFile(r, d.sheets, d.fileName)
  {
    FirstFileShaped(d, bankType);
    FileRecords(d.sheets, FirstFileMaker(d, bankType), d.fileName);
  }

  lemma SecondFileRecords(d: ExcelData, bankType: Option<Bank>)
    ensures forall r :: r in Collected(Candidates(d.sheets, SecondFileMaker(d, bankType))) ==>
      FromFile(r, d.sheets, d.fileName)
  {
    SecondFileShaped(d, bankType);
    FileRecords(d.sheets, SecondFileMaker(d, bankType), d.fileName);
  }

  /** combineExcelData lists every record of the first file before every
      record of the second, each well formed and carrying its file's name
      and a row index of that file as id. */
  lemma CombineOrder(d1: ExcelData, d2: ExcelData, b1: Option<Bank>, b2: Option<Bank>) returns (n1: nat)
    ensures var rs := CombineSpec(d1, d2, b1, b2).records;
      n1 <= |rs| &&
      (forall i :: 0 <= i < n1 ==> FromFile(rs[i], d1.sheets, d1.fileName)) &&
      (forall i :: n1 <= i < |rs| ==> FromFile(rs[i], d2.sheets, d2.fileName))
  {
    var a := Collected(Candidates(d1.sheets, FirstFileMaker(d1, b1)));
    var b := Collected(Candidates(d2.sheets, SecondFileMaker(d2, b2)));
    FirstFileRecords(d1, b1);
    SecondFileRecords(d2, b2);
    n1 := |a|;
    assert CombineSpec(d1, d2, b1, b2).records == a + b;
    AppendFromFiles(a, b, d1.sheets, d1.fileName, d2.sheets, d2.fileName);
  }

  /** Records from one file followed by records from another keep their
      origins by position. */
  lemma AppendFromFiles(a: seq<AbonoRecord>, b: seq<AbonoRecord>, s1: seq<ExcelSheet>, f1: string,
                        s2: seq<ExcelSheet>, f2: string)
    requires forall r :: r in a ==> FromFile(r, s1, f1)
    requires forall r :: r in b ==> FromFile(r, s2, f2)
    ensures forall i :: 0 <= i < |a| ==> FromFile((a + b)[i], s1, f1)
    ensures forall i :: |a| <= i < |a + b| ==> FromFile((a + b)[i], s2, f2)
  {
    forall i | 0 <= i < |a| ensures FromFile((a + b)[i], s1, f1) {
      assert (a + b)[i] in a;
    }
    forall i | |a| <= i < |a + b| ensures FromFile((a + b)[i], s2, f2) {
      assert (a + b)[i] == b[i - |a|];
      assert (a + b)[i] in b;
    }
  }

  /** The records of one sheet have pairwise different ids; the index
      restarts with each sheet, so ids are unique only within a sheet. */
  lemma SheetIdsDistinct(d: ExcelData, bankType: Option<Bank>, k: nat)
    requires k < |d.sheets|
    ensures var rs := KeepRetained(Candidates(d.sheets, FirstFileMaker(d, bankType))[k]);
      forall a, b :: 0 <= a < b < |rs| ==> rs[a].id != rs[b].id
  {
    KeepRetainedIds(Candidates(d.sheets, FirstFileMaker(d, bankType))[k], d.fileName);
  }

  /** The same holds for the records the second file's sheets give. */
  lemma SecondSheetIdsDistinct(d: ExcelData, bankType: Option<Bank>, k: nat)
    requires k < |d.sheets|
    ensures var rs := KeepRetained(Candidates(d.sheets, SecondFileMaker(d, bankType))[k]);
      forall a, b :: 0 <= a < b < |rs| ==> rs[a].id != rs[b].id
  {
    KeepRetainedIds(Candidates(d.sheets, SecondFileMaker(d, bankType))[k], d.fileName);
  }

  /** The record of row `index` in createSingleFileData: a BBVA row is read by
      position over its values, any other row by the BCP column positions. */
  function SingleRecord(d: ExcelData, bankType: Option<Bank>, row: SheetRow, index: nat): AbonoRecord {
    var id := MakeId(d.fileName, index);
    if bankType == Some(BBVA) then BbvaByPosition(Cells(ValuesOf(row)), id, d.fileName)
    else BcpByPosition(row, id, match bankType case Some(b) => BankName(b) case None => "BCP", d.fileName)
  }

  function SingleMaker(d: ExcelData, bankType: Option<Bank>): (SheetRow, nat) -> Option<AbonoRecord> {
    (row: SheetRow, index: nat) => Some(SingleRecord(d, bankType, row, index))
  }

  /** What createSingleFileData returns. */
  function SingleSpec(d: ExcelData, bankType: Option<Bank>): CombinedData {
    var records := Collected(Candidates(d.sheets, SingleMaker(d, bankType)));
    CombinedData(records, |records|, [d.fileName])
  }

  /** Walks the sheets, skipping a BBVA sheet without rows. */
  method CreateSingleFileData(d: ExcelData, bankType: Option<Bank>) returns (c: CombinedData)
    ensures c == SingleSpec(d, bankType)
    ensures c.totalRecords == |c.records| && c.sources == [d.fileName]
  {
    var cands := Candidates(d.sheets, SingleMaker(d, bankType));
    var records := CollectSkipping(d.sheets, cands, bankType == Some(BBVA));
    c := CombinedData(records, |records|, [d.fileName]);
  }

  /** The sheet loop: each sheet's retained records in order; when
      `skipEmpty`, a sheet without rows is passed over, which changes nothing
      since it has no candidates. */
  method CollectSkipping(sheets: seq<ExcelSheet>, cands: seq<seq<Option<AbonoRecord>>>, skipEmpty: bool)
    returns (records: seq<AbonoRecord>)
    requires |cands| == |sheets|
    requires forall k :: 0 <= k < |sheets| ==> |cands[k]| == |sheets[k].data|
    ensures records == Collected(cands)
  {
    records := [];
    var k := 0;
    while k < |sheets|
      invariant k <= |sheets|
      invariant records == Collected(cands[..k])
    {
      CollectedPrefixStep(cands, k);
      if skipEmpty && |sheets[k].data| == 0 {
        assert cands[k] == [];
      } else {
        records := PushRetained(records, cands[k]);
      }
      k := k + 1;
    }
    assert cands[..k] == cands;
  }

  lemma SingleShaped(d: ExcelData, bankType: Option<Bank>)
    ensures MakesShaped(SingleMaker(d, bankType), d.fileName)
  {
  }

  /** createSingleFileData keeps exactly the retained records of the rows,
      each well formed, from the file, and with a row index as id. */
  lemma SingleRecords(d: ExcelData, bankType: Option<Bank>, r: AbonoRecord)
    ensures r in SingleSpec(d, bankType).records <==>
      Retained(r) &&
      exists k, i :: 0 <= k < |d.sheets| && 0 <= i < |d.sheets[k].data| && r == SingleRecord(d, bankType, d.sheets[k].data[i], i)
    ensures r in SingleSpec(d, bankType).records ==> WellFormed(r) && r.origen == d.fileName
  {
    CandidatesMember(d.sheets, SingleMaker(d, bankType), r);
    SingleShaped(d, bankType);
    FileRecords(d.sheets, SingleMaker(d, bankType), d.fileName);
  }

  /** Reading a keyed row by position looks up the property named "0", "1",
      ...: when no key is all digits, every positional cell is "". */
  lemma AtKeyedIsBlank(o: Obj, i: nat)
    requires forall k :: 0 <= k < |o| ==> !IsDigits(o[k].key)
    ensures At(Keyed(o), i) == ""
  {
    assert forall k :: 0 <= k < |o| ==> Keys(o)[k] != NatToString(i);
    assert NatToString(i) !in Keys(o);
  }

  /** A keyed row without digit keys read by the BCP column positions gives
      a record with every field blank, which is not retained. */
  lemma KeyedRowNotRetained(d: ExcelData, bankType: Option<Bank>, o: Obj, i: nat)
    requires bankType != Some(BBVA)
    requires forall j :: 0 <= j < |o| ==> !IsDigits(o[j].key)
    ensures !Retained(SingleRecord(d, bankType, Keyed(o), i))
  {
    AtKeyedIsBlank(o, 1);
    AtKeyedIsBlank(o, 7);
    AtKeyedIsBlank(o, 13);
    AtKeyedIsBlank(o, 14);
    AmountOfDigitFree("");
  }

  /** The BCP path of createSingleFileData reads rows by position; rows that
      are objects keyed by header names (as the BCP reader makes them) all
      give records the retention rule drops: none survives. */
  lemma KeyedRowsDropped(d: ExcelData, bankType: Option<Bank>)
    requires bankType != Some(BBVA)
    requires forall k, i :: 0 <= k < |d.sheets| && 0 <= i < |d.sheets[k].data| ==>
      d.sheets[k].data[i].Keyed? &&
      forall j :: 0 <= j < |d.sheets[k].data[i].props| ==> !IsDigits(d.sheets[k].data[i].props[j].key)
    ensures SingleSpec(d, bankType).records == []
  {
    var rs := SingleSpec(d, bankType).records;
    if rs != [] {
      var r := rs[0];
      CandidatesMember(d.sheets, SingleMaker(d, bankType), r);
      var k, i :| 0 <= k < |d.sheets| && 0 <= i < |d.sheets[k].data| && SingleMaker(d, bankType)(d.sheets[k].data[i], i) == Some(r);
      KeyedRowNotRetained(d, bankType, d.sheets[k].data[i].props, i);
    }
  }

  // ---------------------------------------------------------------------
  // CSV text

  /** The lines of exportToCSV: the keys of the first row, then each row's
      values under those keys, quoted with inner quotes doubled. */
  function RowsCsvLines(data: seq<Obj>): seq<seq<string>>
    requires |data| > 0
  {
    var headers := Keys(data[0]);
    [headers] + seq(|data|, i requires 0 <= i < |data| =>
      seq(|headers|, k requires 0 <= k < |headers| => Csv.QuoteField(GetOr(data[i], headers[k]))))
  }

  /** exportToCSV's text; None when there are no rows. */
  function ExportRowsCsv(data: seq<Obj>): Option<string> {
    if data == [] then None else Some(Join(Csv.RecordTexts(RowsCsvLines(data)), "\n"))
  }

  /** The table the CSV text stands for. */
  function RowsTable(data: seq<Obj>): seq<seq<string>>
    requires |data| > 0
  {
    var headers := Keys(data[0]);
    [headers] + seq(|data|, i requires 0 <= i < |data| =>
      seq(|headers|, k requires 0 <= k < |headers| => GetOr(data[i], headers[k])))
  }

  /** exportToCSV writes nothing for no rows; otherwise, when the first row
      has keys that need no quoting, a CSV reader gets back the header line
      and every row's values, whatever characters the values hold. */
  lemma ExportRowsRoundTrip(data: seq<Obj>)
    ensures data == [] <==> ExportRowsCsv(data) == None
    ensures data != [] && |data[0]| > 0 && (forall k :: 0 <= k < |data[0]| ==> Csv.IsBare(data[0][k].key)) ==>
      Csv.ReadAll(ExportRowsCsv(data).value) == Some(RowsTable(data))
  {
    if data != [] && |data[0]| > 0 && (forall k :: 0 <= k < |data[0]| ==> Csv.IsBare(data[0][k].key)) {
      var lines := RowsCsvLines(data);
      var table := RowsTable(data);
      forall i, k | 0 <= i < |lines| && 0 <= k < |lines[i]| ensures Csv.Encodes(lines[i][k], table[i][k]) {
        if i == 0 {
          assert lines[0][k] == table[0][k] == data[0][k].key;
        }
      }
      Csv.ReadAllOf(lines, table);
    }
  }

  const CombinedCsvHeaders: seq<string> :=
    ["Beneficiario", "Documento Tipo", "Documento", "Documento 2", "Documento 3",
     "Monto M/N", "Monto", "T/C", "Monto Abonado", "Monto Abonado 2",
     "Cuenta Tipo", "Cuenta Número", "Cuenta Nombre", "Estado", "Observaciones", "Banco", "Origen"]

  /** `"${text}"`: quotes around the text, inner quotes left as they are. */
  function Quoted(s: string): string {
    "\"" + s + "\""
  }

  /** The values of a record in the column order of the combined export, the
      amounts written with `fmt` (JavaScript's number to text). */
  function CombinedCsvValues(r: AbonoRecord, fmt: real -> string): seq<string> {
    [r.beneficiario, r.documento_tipo, r.documento, r.documento_2, r.documento_3,
     fmt(r.monto_mn), fmt(r.monto), r.tc, fmt(r.monto_abonado), fmt(r.monto_abonado_2),
     r.cuenta_tipo, r.cuenta_numero, r.cuenta_nombre, r.estado, r.observaciones, r.banco, r.origen]
  }

  /** The fields of one record line: text fields quoted, amounts bare. */
  function CombinedCsvFields(r: AbonoRecord, fmt: real -> string): seq<string> {
    [Quoted(r.beneficiario), Quoted(r.documento_tipo), Quoted(r.documento), Quoted(r.documento_2), Quoted(r.documento_3),
     fmt(r.monto_mn), fmt(r.monto), Quoted(r.tc), fmt(r.monto_abonado), fmt(r.monto_abonado_2),
     Quoted(r.cuenta_tipo), Quoted(r.cuenta_numero), Quoted(r.cuenta_nombre), Quoted(r.estado),
     Quoted(r.observaciones), Quoted(r.banco), Quoted(r.origen)]
  }

  /** The lines of exportCombinedToCSV: the header line, then one line per
      record. */
  function CombinedCsvLines(data: CombinedData, fmt: real -> string): (lines: seq<seq<string>>)
    ensures |lines| == |data.records| + 1 && lines[0] == CombinedCsvHeaders
    ensures forall i :: 0 <= i < |data.records| ==> lines[i + 1] == CombinedCsvFields(data.records[i], fmt)
  {
    [CombinedCsvHeaders] + seq(|data.records|, i requires 0 <= i < |data.records| =>
      CombinedCsvFields(data.records[i], fmt))
  }

  /** The table the combined export stands for: the header names, then each
      record's values. */
  function CombinedTable(data: CombinedData, fmt: real -> string): (table: seq<seq<string>>)
    ensures |table| == |data.records| + 1 && table[0] == CombinedCsvHeaders
    ensures forall i :: 0 <= i < |data.records| ==> table[i + 1] == CombinedCsvValues(data.records[i], fmt)
  {
    [CombinedCsvHeaders] + seq(|data.records|, i requires 0 <= i < |data.records| =>
      CombinedCsvValues(data.records[i], fmt))
  }

  /** exportCombinedToCSV's text. */
  function ExportCombinedCsv(data: CombinedData, fmt: real -> string): string {
    Join(Csv.RecordTexts(CombinedCsvLines(data, fmt)), "\n")
  }

  /** The text fields of a record: those the combined export quotes. */
  predicate TextFieldsWithoutQuotes(r: AbonoRecord) {
    '"' !in r.beneficiario && '"' !in r.documento_tipo && '"' !in r.documento
    && '"' !in r.documento_2 && '"' !in r.documento_3 && '"' !in r.tc
    && '"' !in r.cuenta_tipo && '"' !in r.cuenta_numero && '"' !in r.cuenta_nombre
    && '"' !in r.estado && '"' !in r.observaciones && '"' !in r.banco && '"' !in r.origen
  }

  lemma DoubleQuotesWithoutQuote(s: string)
    requires '"' !in s
    ensures Csv.DoubleQuotes(s) == s
  {
    if s != [] {
      DoubleQuotesWithoutQuote(s[1..]);
      assert s == [s[0]] + s[1..];
    }
  }

  /** Quoting without doubling is correct exactly for text without quotes. */
  lemma QuotedEncodes(s: string)
    requires '"' !in s
    ensures Csv.Encodes(Quoted(s), s)
  {
    DoubleQuotesWithoutQuote(s);
  }

  /** The header line of the combined export needs no quoting. */
  lemma CombinedHeadersBare()
    ensures forall k :: 0 <= k < |CombinedCsvHeaders| ==> Csv.IsBare(CombinedCsvHeaders[k])
  {
    HeadersBareLow();
    HeadersBareMiddle();
    HeadersBareHigh();
  }

  /** The header names, a few at a time. */
  lemma HeadersBareLow()
    ensures forall k :: 0 <= k < 6 ==> Csv.IsBare(CombinedCsvHeaders[k])
  {
  }

  lemma HeadersBareMiddle()
    ensures forall k :: 6 <= k < 12 ==> Csv.IsBare(CombinedCsvHeaders[k])
  {
  }

  lemma HeadersBareHigh()
    ensures forall k :: 12 <= k < 17 ==> Csv.IsBare(CombinedCsvHeaders[k])
  {
  }

  /** Each field of a record line encodes the record's value in that
      column when no text field holds a quote and the amounts need no
      quoting. */
  lemma CombinedLineEncodes(r: AbonoRecord, fmt: real -> string)
    requires TextFieldsWithoutQuotes(r)
    requires forall x: real :: Csv.IsBare(fmt(x))
    ensures forall k :: 0 <= k < 17 ==> Csv.Encodes(CombinedCsvFields(r, fmt)[k], CombinedCsvValues(r, fmt)[k])
  {
    LineEncodesLow(r, fmt);
    LineEncodesHigh(r, fmt);
  }

  lemma LineEncodesLow(r: AbonoRecord, fmt: real -> string)
    requires TextFieldsWithoutQuotes(r)
    requires forall x: real :: Csv.IsBare(fmt(x))
    ensures forall k :: 0 <= k < 8 ==> Csv.Encodes(CombinedCsvFields(r, fmt)[k], CombinedCsvValues(r, fmt)[k])
  {
    QuotedEncodes(r.beneficiario); QuotedEncodes(r.documento_tipo); QuotedEncodes(r.documento);
    QuotedEncodes(r.documento_2); QuotedEncodes(r.documento_3); QuotedEncodes(r.tc);
    assert Csv.IsBare(fmt(r.monto_mn)) && Csv.IsBare(fmt(r.monto));
  }

  lemma LineEncodesHigh(r: AbonoRecord, fmt: real -> string)
    requires TextFieldsWithoutQuotes(r)
    requires forall x: real :: Csv.IsBare(fmt(x))
    ensures forall k :: 8 <= k < 17 ==> Csv.Encodes(CombinedCsvFields(r, fmt)[k], CombinedCsvValues(r, fmt)[k])
  {
    QuotedEncodes(r.cuenta_tipo); QuotedEncodes(r.cuenta_numero); QuotedEncodes(r.cuenta_nombre);
    QuotedEncodes(r.estado); QuotedEncodes(r.observaciones); QuotedEncodes(r.banco); QuotedEncodes(r.origen);
    assert Csv.IsBare(fmt(r.monto_abonado)) && Csv.IsBare(fmt(r.monto_abonado_2));
  }

  /** When no text field holds a quote and the amounts are written without
      ',', '"' or line breaks, a CSV reader gets back the 17 header names and
      every record's values in column order. */
  lemma ExportCombinedRoundTrip(data: CombinedData, fmt: real -> string)
    requires forall i :: 0 <= i < |data.records| ==> TextFieldsWithoutQuotes(data.records[i])
    requires forall x: real :: Csv.IsBare(fmt(x))
    ensures Csv.ReadAll(ExportCombinedCsv(data, fmt)) == Some(CombinedTable(data, fmt))
  {
    var lines := CombinedCsvLines(data, fmt);
    var table := CombinedTable(data, fmt);
    CombinedHeadersBare();
    forall i, k | 0 <= i < |lines| && 0 <= k < |lines[i]| ensures Csv.Encodes(lines[i][k], table[i][k]) {
      if i > 0 {
        CombinedLineEncodes(data.records[i - 1], fmt);
      }
    }
    Csv.ReadAllOf(lines, table);
  }

  /** Without the doubling, a quote inside a text field ends the field early:
      a record line whose holder is `a"b` is not a CSV record at all. */
  lemma ExportCombinedQuoteBreaks(r: AbonoRecord, fmt: real -> string)
    requires r.beneficiario == "a\"b"
    ensures Csv.ReadRecord(Join(CombinedCsvFields(r, fmt), ",")) == None
  {
    var fields := CombinedCsvFields(r, fmt);
    var rest := Join(fields[1..], ",");
    var t := "\"b\"," + rest;
    var u := "a" + t;
    var s := "\"" + u;
    assert Join(fields, ",") == s;
    assert t[0] == '"' && t[1] == 'b';
    assert Csv.ReadQuoted(t) == Some(("", t[1..]));
    assert u[0] == 'a' && u[1..] == t;
    assert [u[0]] + "" == "a";
    assert Csv.ReadQuoted(u) == Some(("a", t[1..]));
    assert s[1..] == u;
    assert Csv.ReadField(s) == Some(("a", t[1..]));
  }
}
