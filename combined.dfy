// combineExcelData and the rows of exportCombinedToXLSX in
// src/utils/excelProcessorCombined.ts: the first file is always read as a
// BBVA file and the second always as a BCP file, and the combined records
// become the rows of the "Carga de Abonos" sheet.
module Combined {
  import opened Wrappers
  import opened Text
  import opened Numbers
  import opened Sheet
  import opened Records
  import BbvaV2

  // ---------------------------------------------------------------------
  // The first file, read as BBVA

  /** The status column of the first file and the name tried after it. */
  const StatusColumn: string := "Situación"
  const StatusFallback: string := "Situacion"

  /** The record of an object row of the first file. Its local getColumnValue
      is the same function as BbvaV2.ColumnValue. */
  function BbvaKeyedRecord(fileName: string, o: Obj, index: nat): AbonoRecord {
    Blank(MakeId(fileName, index), "BBVA", fileName).(
      beneficiario := BbvaV2.ColumnValue(o, BbvaV2.TitularColumn, None),
      documento := StripIdPrefix(BbvaV2.ColumnValue(o, BbvaV2.DocumentColumn, None)),
      monto := ParseAmount(BbvaV2.ColumnValue(o, BbvaV2.AmountColumn, None)),
      cuenta_numero := RemoveAll(BbvaV2.ColumnValue(o, BbvaV2.AccountColumn, None), '-'),
      estado := BbvaV2.ColumnValue(o, StatusColumn, Some(StatusFallback)))
  }

  /** The record of an array row of the first file, read by position. */
  function BbvaCellsRecord(fileName: string, cells: Row, index: nat): AbonoRecord {
    Blank(MakeId(fileName, index), "BBVA", fileName).(
      beneficiario := CellAt(cells, 5),
      documento := CellAt(cells, 6),
      monto := AmountOrZero(CellAt(cells, 7)),
      cuenta_numero := RemoveAll(CellAt(cells, 8), '-'),
      estado := CellAt(cells, 9))
  }

  function FirstRecord(fileName: string, row: SheetRow, index: nat): Option<AbonoRecord> {
    match row
    case Keyed(o) => Some(BbvaKeyedRecord(fileName, o, index))
    case Cells(c) => Some(BbvaCellsRecord(fileName, c, index))
    case Scalar(_) => None
  }

  function FirstMaker(fileName: string): (SheetRow, nat) -> Option<AbonoRecord> {
    (row: SheetRow, index: nat) => FirstRecord(fileName, row, index)
  }

  // ---------------------------------------------------------------------
  // The second file, read as BCP

  /** The record of an object row of the second file: fixed keys, no
      document type. */
  function BcpKeyedRecord(fileName: string, o: Obj, index: nat): AbonoRecord {
    Blank(MakeId(fileName, index), "BCP", fileName).(
      beneficiario := GetOr(o, "Beneficiario - Nombre"),
      documento := GetOr(o, "Documento"),
      monto := AmountOrZero(GetOr(o, "Monto")),
      cuenta_numero := RemoveAll(GetOr(o, "Cuenta - Número"), '-'),
      estado := GetOr(o, "Estado"))
  }

  /** The record of an array row of the second file, read by position. */
  function BcpCellsRecord(fileName: string, cells: Row, index: nat): AbonoRecord {
    Blank(MakeId(fileName, index), "BCP", fileName).(
      beneficiario := CellAt(cells, 0),
      documento := OrDash(CellAt(cells, 2)),
      monto := AmountOrZero(CellAt(cells, 6)),
      cuenta_numero := RemoveAll(CellAt(cells, 11), '-'),
      estado := CellAt(cells, 12))
  }

  function SecondRecord(fileName: string, row: SheetRow, index: nat): Option<AbonoRecord> {
    match row
    case Keyed(o) => Some(BcpKeyedRecord(fileName, o, index))
    case Cells(c) => Some(BcpCellsRecord(fileName, c, index))
    case Scalar(_) => None
  }

  function SecondMaker(fileName: string): (SheetRow, nat) -> Option<AbonoRecord> {
    (row: SheetRow, index: nat) => SecondRecord(fileName, row, index)
  }

  // ---------------------------------------------------------------------
  // combineExcelData

  /** The records of the first file: its sheets' object and array rows read
      as BBVA rows, the retained ones in order. */
  function FirstPart(d1: ExcelData): seq<AbonoRecord> {
    Collected(Candidates(d1.sheets, FirstMaker(d1.fileName)))
  }

  /** The records of the second file, its rows read as BCP rows. */
  function SecondPart(d2: ExcelData): seq<AbonoRecord> {
    Collected(Candidates(d2.sheets, SecondMaker(d2.fileName)))
  }

  /** What combineExcelData returns. */
  function CombineSpec(d1: ExcelData, d2: ExcelData): CombinedData {
    var records := FirstPart(d1) + SecondPart(d2);
    CombinedData(records, |records|, [d1.fileName, d2.fileName])
  }

  /** The fields read from the object make the first file's keyed record. */
  lemma BbvaKeyedRecordOf(fileName: string, o: Obj, index: nat,
                          beneficiario: string, documento: string, importe: string, cuenta: string, estado: string)
    requires beneficiario == BbvaV2.ColumnValue(o, BbvaV2.TitularColumn, None)
    requires documento == BbvaV2.ColumnValue(o, BbvaV2.DocumentColumn, None)
    requires importe == BbvaV2.ColumnValue(o, BbvaV2.AmountColumn, None)
    requires cuenta == BbvaV2.ColumnValue(o, BbvaV2.AccountColumn, None)
    requires estado == BbvaV2.ColumnValue(o, StatusColumn, Some(StatusFallback))
    ensures BbvaKeyedRecord(fileName, o, index) ==
      Blank(MakeId(fileName, index), "BBVA", fileName).(
        beneficiario := beneficiario, documento := StripIdPrefix(documento),
        monto := ParseAmount(importe), cuenta_numero := RemoveAll(cuenta, '-'),
        estado := estado)
  {
  }

  /** The record of an object row of the first file, field by field. */
  method BbvaObjectRecord(fileName: string, rowData: Obj, index: nat) returns (rec: AbonoRecord)
    ensures rec == BbvaKeyedRecord(fileName, rowData, index)
  {
    var beneficiario := BbvaV2.GetColumnValue(rowData, BbvaV2.TitularColumn, None);
    var documento := BbvaV2.GetColumnValue(rowData, BbvaV2.DocumentColumn, None);
    var importe := BbvaV2.GetColumnValue(rowData, BbvaV2.AmountColumn, None);
    var cuenta := BbvaV2.GetColumnValue(rowData, BbvaV2.AccountColumn, None);
    var estado := BbvaV2.GetColumnValue(rowData, StatusColumn, Some(StatusFallback));
    BbvaKeyedRecordOf(fileName, rowData, index, beneficiario, documento, importe, cuenta, estado);
    rec := Blank(MakeId(fileName, index), "BBVA", fileName).(
      beneficiario := beneficiario, documento := StripIdPrefix(documento),
      monto := ParseAmount(importe), cuenta_numero := RemoveAll(cuenta, '-'),
      estado := estado);
  }

  /** One row of the first file's row loop, before the retention test. */
  method FirstRowRecord(fileName: string, row: SheetRow, index: nat) returns (rec: Option<AbonoRecord>)
    ensures rec == FirstRecord(fileName, row, index)
  {
    match row
    case Keyed(rowData) =>
      var record := BbvaObjectRecord(fileName, rowData, index);
      rec := Some(record);
    case Cells(cells) =>
      rec := Some(BbvaCellsRecord(fileName, cells, index));
    case Scalar(_) =>
      rec := None;
  }

  /** The record row i of a sheet yields, before the retention test. */
  method FirstCandidate(fileName: string, data: seq<SheetRow>, i: nat) returns (rec: Option<AbonoRecord>)
    requires i < |data|
    ensures rec == FirstSheetCandidates(fileName, data)[i]
  {
    rec := FirstRowRecord(fileName, data[i], i);
  }

  /** The candidates of one sheet of the first file. */
  function FirstSheetCandidates(fileName: string, data: seq<SheetRow>): (c: seq<Option<AbonoRecord>>)
    ensures |c| == |data|
  {
    seq(|data|, i requires 0 <= i < |data| => FirstRecord(fileName, data[i], i))
  }

  lemma FirstSheetCandidatesOf(d: ExcelData, k: nat)
    requires k < |d.sheets|
    ensures Candidates(d.sheets, FirstMaker(d.fileName))[k] == FirstSheetCandidates(d.fileName, d.sheets[k].data)
  {
  }

  /** The row loop of one sheet of the first file. */
  method PushFirstSheet(fileName: string, data: seq<SheetRow>, records: seq<AbonoRecord>)
    returns (records': seq<AbonoRecord>)
    ensures records' == records + KeepRetained(FirstSheetCandidates(fileName, data))
  {
    ghost var cands := FirstSheetCandidates(fileName, data);
    records' := records;
    var i := 0;
    while i < |data|
      invariant i <= |data|
      invariant records' == records + KeepRetained(cands[..i])
    {
      var rec := FirstCandidate(fileName, data, i);
      records' := PushRetained(records', [rec]);
      KeepRetainedSnoc(cands, i);
      AppendAssoc(records, KeepRetained(cands[..i]), KeepRetained([cands[i]]));
      i := i + 1;
    }
    assert cands[..i] == cands;
  }

  /** combineExcelData: the first file's sheets, then the second file's. */
  method CombineExcelData(d1: ExcelData, d2: ExcelData) returns (c: CombinedData)
    ensures c == CombineSpec(d1, d2)
  {
    ghost var cands := Candidates(d1.sheets, FirstMaker(d1.fileName));
    var records: seq<AbonoRecord> := [];
    var k := 0;
    while k < |d1.sheets|
      invariant k <= |d1.sheets|
      invariant records == Collected(cands[..k])
    {
      CollectedPrefixStep(cands, k);
      FirstSheetCandidatesOf(d1, k);
      records := PushFirstSheet(d1.fileName, d1.sheets[k].data, records);
      k := k + 1;
    }
    assert cands[..k] == cands;
    records := CollectSheets(records, d2.sheets, SecondMaker(d2.fileName));
    c := CombinedData(records, |records|, [d1.fileName, d2.fileName]);
  }

  // ---------------------------------------------------------------------
  // What combineExcelData promises

  /** A record as a row of a file yields it: of the bank the file is read
      as, from the file, named after the row's index, without document type
      or '-' in its account, no secondary documents and no other amounts. */
  predicate RowRecordShape(r: AbonoRecord, bank: string, fileName: string, index: nat) {
    r.banco == bank && r.origen == fileName && r.id == MakeId(fileName, index) &&
    r.documento_tipo == "" && r.documento_2 == "" && r.documento_3 == "" &&
    r.monto_mn == 0.0 && r.monto_abonado == 0.0 && '-' !in r.cuenta_numero
  }

  /** A record as a file contributes it: retained, shaped as the record of
      one of its row indexes. */
  ghost predicate FromFile(r: AbonoRecord, bank: string, fileName: string) {
    Retained(r) && exists i: nat :: RowRecordShape(r, bank, fileName, i)
  }

  /** A reader of a file's rows: every object or array row, and nothing
      else, yields a record shaped after the row's index. */
  ghost predicate MakesBankRecords(make: (SheetRow, nat) -> Option<AbonoRecord>, bank: string, fileName: string) {
    forall row, i :: (make(row, i).Some? <==> !row.Scalar?) &&
      (make(row, i).Some? ==> RowRecordShape(make(row, i).value, bank, fileName, i))
  }

  lemma FirstRecordShape(fileName: string, row: SheetRow, index: nat)
    ensures FirstRecord(fileName, row, index).Some? <==> !row.Scalar?
    ensures FirstRecord(fileName, row, index).Some? ==>
      RowRecordShape(FirstRecord(fileName, row, index).value, "BBVA", fileName, index)
  {
    match row
    case Keyed(o) => BbvaKeyedShape(fileName, o, index);
    case Cells(c) => BbvaCellsShape(fileName, c, index);
    case Scalar(_) =>
  }

  lemma BbvaKeyedShape(fileName: string, o: Obj, index: nat)
    ensures RowRecordShape(BbvaKeyedRecord(fileName, o, index), "BBVA", fileName, index)
  {
  }

  lemma BbvaCellsShape(fileName: string, cells: Row, index: nat)
    ensures RowRecordShape(BbvaCellsRecord(fileName, cells, index), "BBVA", fileName, index)
  {
  }

  lemma SecondRecordShape(fileName: string, row: SheetRow, index: nat)
    ensures SecondRecord(fileName, row, index).Some? <==> !row.Scalar?
    ensures SecondRecord(fileName, row, index).Some? ==>
      RowRecordShape(SecondRecord(fileName, row, index).value, "BCP", fileName, index)
  {
    match row
    case Keyed(o) => BcpKeyedShape(fileName, o, index);
    case Cells(c) => BcpCellsShape(fileName, c, index);
    case Scalar(_) =>
  }

  lemma BcpKeyedShape(fileName: string, o: Obj, index: nat)
    ensures RowRecordShape(BcpKeyedRecord(fileName, o, index), "BCP", fileName, index)
  {
  }

  lemma BcpCellsShape(fileName: string, cells: Row, index: nat)
    ensures RowRecordShape(BcpCellsRecord(fileName, cells, index), "BCP", fileName, index)
  {
  }

  lemma FirstMakerShape(fileName: string)
    ensures MakesBankRecords(FirstMaker(fileName), "BBVA", fileName)
  {
    forall row, i: nat ensures FirstMaker(fileName)(row, i) == FirstRecord(fileName, row, i) {
    }
    forall row, i: nat {
      FirstRecordShape(fileName, row, i);
    }
  }

  lemma SecondMakerShape(fileName: string)
    ensures MakesBankRecords(SecondMaker(fileName), "BCP", fileName)
  {
    forall row, i: nat ensures SecondMaker(fileName)(row, i) == SecondRecord(fileName, row, i) {
    }
    forall row, i: nat {
      SecondRecordShape(fileName, row, i);
    }
  }

  /** What a reader of shaped records collects from a file: exactly the
      retained records of its object and array rows, each from the file. */
  lemma PartMember(sheets: seq<ExcelSheet>, make: (SheetRow, nat) -> Option<AbonoRecord>,
                   bank: string, fileName: string, r: AbonoRecord)
    requires MakesBankRecords(make, bank, fileName)
    ensures r in Collected(Candidates(sheets, make)) <==>
      Retained(r) &&
      (exists k, i :: 0 <= k < |sheets| && 0 <= i < |sheets[k].data| &&
         !sheets[k].data[i].Scalar? && make(sheets[k].data[i], i) == Some(r))
    ensures r in Collected(Candidates(sheets, make)) ==> FromFile(r, bank, fileName)
  {
    CandidatesMember(sheets, make, r);
    if r in Collected(Candidates(sheets, make)) {
      var k, i :| 0 <= k < |sheets| && 0 <= i < |sheets[k].data| && make(sheets[k].data[i], i) == Some(r);
      assert RowRecordShape(r, bank, fileName, i);
    }
  }

  /** Every record a reader of shaped records collects is from the file. */
  lemma PartFromFile(sheets: seq<ExcelSheet>, make: (SheetRow, nat) -> Option<AbonoRecord>,
                     bank: string, fileName: string)
    requires MakesBankRecords(make, bank, fileName)
    ensures forall r :: r in Collected(Candidates(sheets, make)) ==> FromFile(r, bank, fileName)
  {
    forall r | r in Collected(Candidates(sheets, make)) ensures FromFile(r, bank, fileName) {
      PartMember(sheets, make, bank, fileName, r);
    }
  }

  lemma FirstPartFromFile(d1: ExcelData)
    ensures forall r :: r in FirstPart(d1) ==> FromFile(r, "BBVA", d1.fileName)
  {
    FirstMakerShape(d1.fileName);
    PartFromFile(d1.sheets, FirstMaker(d1.fileName), "BBVA", d1.fileName);
  }

  lemma SecondPartFromFile(d2: ExcelData)
    ensures forall r :: r in SecondPart(d2) ==> FromFile(r, "BCP", d2.fileName)
  {
    SecondMakerShape(d2.fileName);
    PartFromFile(d2.sheets, SecondMaker(d2.fileName), "BCP", d2.fileName);
  }

  /** combineExcelData lists the first file's records, all BBVA, before the
      second file's, all BCP; it counts them and names both files. */
  lemma CombineOrder(d1: ExcelData, d2: ExcelData)
    ensures CombineSpec(d1, d2).totalRecords == |CombineSpec(d1, d2).records|
    ensures CombineSpec(d1, d2).sources == [d1.fileName, d2.fileName]
    ensures forall i :: 0 <= i < |FirstPart(d1)| ==>
      CombineSpec(d1, d2).records[i] == FirstPart(d1)[i] && FromFile(FirstPart(d1)[i], "BBVA", d1.fileName)
    ensures forall i :: |FirstPart(d1)| <= i < |CombineSpec(d1, d2).records| ==>
      FromFile(CombineSpec(d1, d2).records[i], "BCP", d2.fileName)
  {
    FirstPartFromFile(d1);
    SecondPartFromFile(d2);
    AppendFromFiles(FirstPart(d1), SecondPart(d2), d1.fileName, d2.fileName);
  }

  /** Records of two files, one after the other, keep their files' shapes
      at their positions. */
  lemma AppendFromFiles(a: seq<AbonoRecord>, b: seq<AbonoRecord>, first: string, second: string)
    requires forall r :: r in a ==> FromFile(r, "BBVA", first)
    requires forall r :: r in b ==> FromFile(r, "BCP", second)
    ensures forall i :: 0 <= i < |a| ==> (a + b)[i] == a[i] && FromFile(a[i], "BBVA", first)
    ensures forall i :: |a| <= i < |a + b| ==> FromFile((a + b)[i], "BCP", second)
  {
    forall i | 0 <= i < |a| ensures (a + b)[i] == a[i] && FromFile(a[i], "BBVA", first) {
      assert a[i] in a;
    }
    forall i | |a| <= i < |a + b| ensures FromFile((a + b)[i], "BCP", second) {
      assert (a + b)[i] == b[i - |a|];
      assert b[i - |a|] in b;
    }
  }

  /** The records a reader of shaped records collects from a single sheet
      have pairwise different ids. */
  lemma OneSheetIds(sheets: seq<ExcelSheet>, make: (SheetRow, nat) -> Option<AbonoRecord>,
                    bank: string, fileName: string)
    requires |sheets| == 1 && MakesBankRecords(make, bank, fileName)
    ensures forall a, b :: 0 <= a < b < |Collected(Candidates(sheets, make))| ==>
      Collected(Candidates(sheets, make))[a].id != Collected(Candidates(sheets, make))[b].id
  {
    var c := Candidates(sheets, make);
    assert c[..0] == [] && c[..|c| - 1] == c[..0];
    assert Collected(c) == KeepRetained(c[0]);
    forall i | 0 <= i < |c[0]| && c[0][i].Some? ensures c[0][i].value.id == MakeId(fileName, i) {
      assert c[0][i] == make(sheets[0].data[i], i);
      assert RowRecordShape(c[0][i].value, bank, fileName, i);
    }
    KeepRetainedIds(c[0], fileName);
  }

  /** Within a one-sheet first file the ids are pairwise different. */
  lemma FirstPartIds(d1: ExcelData)
    requires |d1.sheets| == 1
    ensures forall x, y :: 0 <= x < y < |FirstPart(d1)| ==> FirstPart(d1)[x].id != FirstPart(d1)[y].id
  {
    FirstMakerShape(d1.fileName);
    OneSheetIds(d1.sheets, FirstMaker(d1.fileName), "BBVA", d1.fileName);
  }

  /** Within a one-sheet second file the ids are pairwise different. */
  lemma SecondPartIds(d2: ExcelData)
    requires |d2.sheets| == 1
    ensures forall x, y :: 0 <= x < y < |SecondPart(d2)| ==> SecondPart(d2)[x].id != SecondPart(d2)[y].id
  {
    SecondMakerShape(d2.fileName);
    OneSheetIds(d2.sheets, SecondMaker(d2.fileName), "BCP", d2.fileName);
  }

  /** With differently named files of one sheet each, the combined records
      have pairwise different ids. */
  lemma CombinedIdsDistinct(d1: ExcelData, d2: ExcelData)
    requires d1.fileName != d2.fileName && |d1.sheets| == 1 && |d2.sheets| == 1
    ensures forall x, y :: 0 <= x < y < |CombineSpec(d1, d2).records| ==>
      CombineSpec(d1, d2).records[x].id != CombineSpec(d1, d2).records[y].id
  {
    FirstPartIds(d1);
    SecondPartIds(d2);
    var a := FirstPart(d1);
    var b := SecondPart(d2);
    var rs := CombineSpec(d1, d2).records;
    assert rs == a + b;
    forall x, y | 0 <= x < y < |rs| ensures rs[x].id != rs[y].id {
      if y < |a| {
        assert rs[x] == a[x] && rs[y] == a[y];
      } else if x < |a| {
        assert rs[x] == a[x] && rs[y] == b[y - |a|];
        CrossIds(d1, d2, a[x], b[y - |a|]);
      } else {
        assert rs[x] == b[x - |a|] && rs[y] == b[y - |a|];
      }
    }
  }

  /** A record of the first part and one of the second never share an id
      when the files are named differently. */
  lemma CrossIds(d1: ExcelData, d2: ExcelData, r1: AbonoRecord, r2: AbonoRecord)
    requires d1.fileName != d2.fileName && r1 in FirstPart(d1) && r2 in SecondPart(d2)
    ensures r1.id != r2.id
  {
    FirstPartFromFile(d1);
    SecondPartFromFile(d2);
    FromFilesIds(r1, "BBVA", d1.fileName, r2, "BCP", d2.fileName);
  }

  /** Records from differently named files never share an id. */
  lemma FromFilesIds(r1: AbonoRecord, bank1: string, f1: string, r2: AbonoRecord, bank2: string, f2: string)
    requires f1 != f2 && FromFile(r1, bank1, f1) && FromFile(r2, bank2, f2)
    ensures r1.id != r2.id
  {
    var i: nat :| RowRecordShape(r1, bank1, f1, i);
    var j: nat :| RowRecordShape(r2, bank2, f2, j);
    if r1.id == r2.id {
      MakeIdInjective(f1, i, f2, j);
    }
  }

  /** Two candidate lists collect as the first's retained records followed
      by the second's. */
  lemma CollectedPair(c: seq<seq<Option<AbonoRecord>>>)
    requires |c| == 2
    ensures Collected(c) == KeepRetained(c[0]) + KeepRetained(c[1])
  {
    assert c[..1][..0] == [] && c[..|c| - 1] == [c[0]];
    assert Collected([c[0]]) == KeepRetained(c[0]);
  }

  /** A sheet of the second file whose only row is an array of one non-empty
      cell contributes that row's record, named after index 0. */
  lemma OneCellSheet(name: string, sheets: seq<ExcelSheet>, k: nat, cell: string)
    requires k < |sheets| && sheets[k].data == [Cells([cell])] && cell != ""
    ensures KeepRetained(Candidates(sheets, SecondMaker(name))[k]) == [BcpCellsRecord(name, [cell], 0)]
    ensures BcpCellsRecord(name, [cell], 0).id == MakeId(name, 0)
    ensures BcpCellsRecord(name, [cell], 0).beneficiario == cell
  {
    var a := BcpCellsRecord(name, [cell], 0);
    assert a.beneficiario == cell;
    assert Candidates(sheets, SecondMaker(name))[k] == [Some(a)];
    KeepRetainedOne(a);
  }

  /** The row index restarts with each sheet: two sheets of the second file
      whose first rows are both kept give two different records with the
      same id. */
  lemma IdsRepeatAcrossSheets(name: string, s: ExcelSheet, t: ExcelSheet, a: string, b: string)
    requires a != "" && b != "" && a != b
    requires s.data == [Cells([a])] && t.data == [Cells([b])]
    ensures SecondPart(ExcelData(name, [s, t], 2)) == [BcpCellsRecord(name, [a], 0), BcpCellsRecord(name, [b], 0)]
    ensures BcpCellsRecord(name, [a], 0).id == MakeId(name, 0) == BcpCellsRecord(name, [b], 0).id
    ensures BcpCellsRecord(name, [a], 0) != BcpCellsRecord(name, [b], 0)
  {
    OneCellSheet(name, [s, t], 0, a);
    OneCellSheet(name, [s, t], 1, b);
    CollectedPair(Candidates([s, t], SecondMaker(name)));
  }

  lemma KeepRetainedOne(r: AbonoRecord)
    requires Retained(r)
    ensures KeepRetained([Some(r)]) == [r]
  {
    assert [Some(r)][..0] == [];
  }

  // ---------------------------------------------------------------------
  // The rows of exportCombinedToXLSX

  /** One row of the "Carga de Abonos" sheet. */
  datatype XlsxRow = XlsxRow(item: nat, beneficiario: string, documento: string, cuenta: string,
                             monto: real, estado: string, banco: string)

  /** `documento || documento_2 || documento_3 || documento_tipo || '-'` */
  function DocumentCell(r: AbonoRecord): (d: string)
    ensures d != ""
    ensures d in [r.documento, r.documento_2, r.documento_3, r.documento_tipo, "-"]
    ensures r.documento != "" ==> d == r.documento
    ensures r.documento == "" && r.documento_2 != "" ==> d == r.documento_2
    ensures r.documento == "" && r.documento_2 == "" && r.documento_3 != "" ==> d == r.documento_3
    ensures r.documento == "" && r.documento_2 == "" && r.documento_3 == "" ==>
      d == if r.documento_tipo != "" then r.documento_tipo else "-"
  {
    if r.documento != "" then r.documento
    else if r.documento_2 != "" then r.documento_2
    else if r.documento_3 != "" then r.documento_3
    else if r.documento_tipo != "" then r.documento_tipo
    else "-"
  }

  function XlsxRowOf(r: AbonoRecord, index: nat): XlsxRow {
    XlsxRow(index + 1, r.beneficiario, DocumentCell(r), r.cuenta_numero, r.monto, r.estado, r.banco)
  }

  /** The rows written, or None when there are no records and nothing is
      written. */
  function XlsxRows(data: CombinedData): Option<seq<XlsxRow>> {
    if |data.records| == 0 then None
    else Some(seq(|data.records|, i requires 0 <= i < |data.records| => XlsxRowOf(data.records[i], i)))
  }

  /** `data.records.forEach((record, index) => worksheet.addRow({...}))` */
  method AddRows(data: CombinedData) returns (rows: Option<seq<XlsxRow>>)
    ensures rows == XlsxRows(data)
  {
    if |data.records| == 0 {
      return None;
    }
    var added: seq<XlsxRow> := [];
    var index := 0;
    while index < |data.records|
      invariant index <= |data.records|
      invariant |added| == index
      invariant forall i :: 0 <= i < index ==> added[i] == XlsxRowOf(data.records[i], i)
    {
      var record := data.records[index];
      added := added + [XlsxRow(index + 1, record.beneficiario, DocumentCell(record), record.cuenta_numero,
                                record.monto, record.estado, record.banco)];
      index := index + 1;
    }
    assert added == XlsxRows(data).value;
    rows := Some(added);
  }

  /** The sheet gets one row per record, in order, numbered from 1, copying
      the record's beneficiary, account, amount, status and bank, with a
      document cell that is never empty. */
  lemma XlsxRowsFacts(data: CombinedData)
    ensures XlsxRows(data).None? <==> data.records == []
    ensures XlsxRows(data).Some? ==>
      |XlsxRows(data).value| == |data.records| &&
      forall i :: 0 <= i < |data.records| ==>
        var row := XlsxRows(data).value[i];
        var r := data.records[i];
        row.item == i + 1 && row.beneficiario == r.beneficiario && row.cuenta == r.cuenta_numero &&
        row.monto == r.monto && row.estado == r.estado && row.banco == r.banco && row.documento != ""
  {
  }

  /** Every record of the combined export that has no document
      of its own shows "-" in the document cell. */
  lemma CombinedDocumentDash(d1: ExcelData, d2: ExcelData, i: nat)
    requires i < |CombineSpec(d1, d2).records|
    requires CombineSpec(d1, d2).records[i].documento == ""
    ensures XlsxRows(CombineSpec(d1, d2)).Some?
    ensures XlsxRows(CombineSpec(d1, d2)).value[i].documento == "-"
  {
    CombineOrder(d1, d2);
    var r := CombineSpec(d1, d2).records[i];
    if i < |FirstPart(d1)| {
      ShapedDocumentDash(r, "BBVA", d1.fileName);
    } else {
      ShapedDocumentDash(r, "BCP", d2.fileName);
    }
    assert XlsxRows(CombineSpec(d1, d2)).value[i] == XlsxRowOf(r, i);
  }

  /** A record from a file without a document of its own has no other
      document either, so its document cell is "-". */
  lemma ShapedDocumentDash(r: AbonoRecord, bank: string, fileName: string)
    requires FromFile(r, bank, fileName) && r.documento == ""
    ensures DocumentCell(r) == "-"
  {
    var i: nat :| RowRecordShape(r, bank, fileName, i);
  }
}
