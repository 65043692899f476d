// What src/components/CombinedDataViewer.tsx computes from the combined
// data: the filtered records, the three statistics, the cells of each table
// row and the data handed to exportCombinedToCSV. The markup itself is not
// modelled.
module Viewer {
  import opened Wrappers
  import opened Text
  import opened Sheet
  import opened Records
  import Processor
  import Combined

  /** A select filter: 'all', or one value to match exactly. */
  datatype Choice = All | Only(value: string)

  /** The search box and the two selects. */
  datatype Filters = Filters(searchTerm: string, statusFilter: Choice, sourceFilter: Choice)

  /** The initial state: empty search, every status, every file. */
  const NoFilters: Filters := Filters("", All, All)

  /** matchesSearch: an empty term, or the lower-cased term inside the
      lower-cased holder, document or account number. */
  predicate MatchesSearch(r: AbonoRecord, term: string) {
    term == "" ||
    Contains(Lower(r.beneficiario), Lower(term)) ||
    Contains(Lower(r.documento), Lower(term)) ||
    Contains(Lower(r.cuenta_numero), Lower(term))
  }

  predicate MatchesChoice(value: string, c: Choice) {
    c.All? || value == c.value
  }

  /** The filter callback: search, status and source must all match. */
  predicate Shown(r: AbonoRecord, f: Filters) {
    MatchesSearch(r, f.searchTerm) && MatchesChoice(r.estado, f.statusFilter) && MatchesChoice(r.origen, f.sourceFilter)
  }

  /** filteredRecords: `data.records.filter(...)` */
  function FilterRecords(records: seq<AbonoRecord>, f: Filters): (out: seq<AbonoRecord>)
    ensures |out| <= |records|
    decreases |records|
  {
    if records == [] then []
    else
      var n := |records| - 1;
      FilterRecords(records[..n], f) + if Shown(records[n], f) then [records[n]] else []
  }

  // ---------------------------------------------------------------------
  // What the filter promises

  /** A record is listed exactly when it is one of the data's records and
      passes every filter. */
  lemma {:induction false} FilterMember(records: seq<AbonoRecord>, f: Filters, r: AbonoRecord)
    ensures r in FilterRecords(records, f) <==> r in records && Shown(r, f)
    decreases |records|
  {
    if records != [] {
      var n := |records| - 1;
      FilterMember(records[..n], f, r);
      assert records == records[..n] + [records[n]];
    }
  }

  /** Filtering a concatenation filters each part: the listed records keep
      the order of the data. */
  lemma {:induction false} FilterAppend(a: seq<AbonoRecord>, b: seq<AbonoRecord>, f: Filters)
    ensures FilterRecords(a + b, f) == FilterRecords(a, f) + FilterRecords(b, f)
    decreases |b|
  {
    if b == [] {
      assert a + b == a;
    } else {
      var n := |b| - 1;
      assert (a + b)[..|a + b| - 1] == a + b[..n];
      assert (a + b)[|a + b| - 1] == b[n];
      FilterAppend(a, b[..n], f);
    }
  }

  /** Applying the same filters to the listed records changes nothing. */
  lemma {:induction false} FilterIdempotent(records: seq<AbonoRecord>, f: Filters)
    ensures FilterRecords(FilterRecords(records, f), f) == FilterRecords(records, f)
    decreases |records|
  {
    if records != [] {
      var n := |records| - 1;
      var init := FilterRecords(records[..n], f);
      FilterIdempotent(records[..n], f);
      if Shown(records[n], f) {
        FilterAppend(init, [records[n]], f);
        assert [records[n]][..0] == [];
      } else {
        assert FilterRecords(records, f) == init + [];
        assert init + [] == init;
      }
    }
  }

  /** With the initial filters every record is listed. */
  lemma {:induction false} NoFiltersListsAll(records: seq<AbonoRecord>)
    ensures FilterRecords(records, NoFilters) == records
    decreases |records|
  {
    if records != [] {
      var n := |records| - 1;
      NoFiltersListsAll(records[..n]);
      assert records == records[..n] + [records[n]];
    }
  }

  lemma LowerIdempotent(s: string)
    ensures Lower(Lower(s)) == Lower(s)
  {
    forall i | 0 <= i < |s| ensures Lower(Lower(s))[i] == Lower(s)[i] {
      LowerCharIdempotent(s[i]);
    }
  }

  /** The search ignores the letter case of the term. */
  lemma SearchIgnoresCase(r: AbonoRecord, term: string)
    ensures MatchesSearch(r, Lower(term)) <==> MatchesSearch(r, term)
  {
    LowerIdempotent(term);
    assert Lower(Lower(term)) == Lower(term);
  }

  // ---------------------------------------------------------------------
  // The statistics

  /** `record.monto || record.monto_mn` */
  function AmountOf(r: AbonoRecord): real {
    if r.monto != 0.0 then r.monto else r.monto_mn
  }

  /** totalMonto: `filteredRecords.reduce((sum, r) => sum + amount(r), 0)` */
  function TotalAmount(records: seq<AbonoRecord>): real
    decreases |records|
  {
    if records == [] then 0.0 else TotalAmount(records[..|records| - 1]) + AmountOf(records[|records| - 1])
  }

  /** The total over a concatenation is the sum of the totals. */
  lemma {:induction false} TotalAppend(a: seq<AbonoRecord>, b: seq<AbonoRecord>)
    ensures TotalAmount(a + b) == TotalAmount(a) + TotalAmount(b)
    decreases |b|
  {
    if b == [] {
      assert a + b == a;
    } else {
      var n := |b| - 1;
      assert (a + b)[..|a + b| - 1] == a + b[..n];
      assert (a + b)[|a + b| - 1] == b[n];
      TotalAppend(a, b[..n]);
    }
  }

  /** When no amount is negative, the total of the listed records lies
      between zero and the total of all records. */
  lemma {:induction false} FilteredTotalBounded(records: seq<AbonoRecord>, f: Filters)
    requires forall i :: 0 <= i < |records| ==> AmountOf(records[i]) >= 0.0
    ensures 0.0 <= TotalAmount(FilterRecords(records, f)) <= TotalAmount(records)
    decreases |records|
  {
    if records != [] {
      var n := |records| - 1;
      FilteredTotalBounded(records[..n], f);
      var init := FilterRecords(records[..n], f);
      if Shown(records[n], f) {
        TotalAppend(init, [records[n]]);
        assert [records[n]][..0] == [];
      } else {
        assert FilterRecords(records, f) == init + [];
        assert init + [] == init;
      }
    }
  }

  /** uniqueClients: the number of different holders listed. */
  function UniqueClients(records: seq<AbonoRecord>): nat {
    |set r | r in records :: r.beneficiario|
  }

  /** There are never more clients than listed records, and there is one as
      soon as a record is listed. */
  lemma {:induction false} UniqueClientsBounds(records: seq<AbonoRecord>)
    ensures UniqueClients(records) <= |records|
    ensures UniqueClients(records) == 0 <==> records == []
    decreases |records|
  {
    if records != [] {
      var n := |records| - 1;
      UniqueClientsBounds(records[..n]);
      var before := set r | r in records[..n] :: r.beneficiario;
      var after := set r | r in records :: r.beneficiario;
      assert records == records[..n] + [records[n]];
      assert after == before + {records[n].beneficiario};
      assert records[n].beneficiario in after;
    }
  }

  // ---------------------------------------------------------------------
  // The table

  /** getStatusColor, by the colour the badge takes. */
  datatype BadgeColor = Green | Red | Yellow

  function StatusColor(status: string): BadgeColor {
    if status == "ABONO CORRECTO" || status == "TERMINADA OK" then Green
    else if status == "ERROR" || status == "RECHAZADO" then Red
    else Yellow
  }

  /** The statuses the status select offers besides 'all'. */
  const StatusOptions: seq<string> := ["ABONO CORRECTO", "TERMINADA OK", "ERROR"]

  /** Every status the select offers has a badge of its own colour, never the
      default one; any other status, a BBVA "Situación" text included, gets
      the default. */
  lemma StatusOptionsColored(status: string)
    ensures status in StatusOptions ==> StatusColor(status) != Yellow
    ensures status !in StatusOptions && status != "RECHAZADO" ==> StatusColor(status) == Yellow
  {
  }

  /** The cells of one table row. The amount is None where '-' is shown. */
  datatype TableRow = TableRow(item: nat, beneficiario: string, documentoTipo: string, documento: string,
                               monto: Option<real>, cuenta: string, estado: string, color: BadgeColor,
                               observaciones: string, banco: string)

  /** `monto_abonado ? … : monto ? … : monto_mn ? … : '-'` */
  function AmountCell(r: AbonoRecord): Option<real> {
    if r.monto_abonado != 0.0 then Some(r.monto_abonado)
    else if r.monto != 0.0 then Some(r.monto)
    else if r.monto_mn != 0.0 then Some(r.monto_mn)
    else None
  }

  /** `cuenta_numero || cuenta_tipo || '-'` */
  function AccountCell(r: AbonoRecord): string {
    OrDash(if r.cuenta_numero != "" then r.cuenta_numero else r.cuenta_tipo)
  }

  /** `banco || 'BCP'` */
  function BankCell(r: AbonoRecord): string {
    if r.banco != "" then r.banco else "BCP"
  }

  function RowOf(r: AbonoRecord, index: nat): TableRow {
    TableRow(index + 1, r.beneficiario, OrDash(r.documento_tipo), OrDash(r.documento), AmountCell(r),
             AccountCell(r), r.estado, StatusColor(r.estado), r.observaciones, BankCell(r))
  }

  function TableRows(records: seq<AbonoRecord>): seq<TableRow> {
    seq(|records|, i requires 0 <= i < |records| => RowOf(records[i], i))
  }

  /** Each row is numbered from 1 in list order; the document, account and
      bank cells are never blank; the amount shown is the first non-zero of
      the paid amount, the amount and the local-currency amount, and '-'
      exactly when all three are zero. */
  lemma RowCells(records: seq<AbonoRecord>, i: nat)
    requires i < |records|
    ensures TableRows(records)[i].item == i + 1
    ensures TableRows(records)[i].documentoTipo != "" && TableRows(records)[i].documento != ""
    ensures TableRows(records)[i].cuenta != "" && TableRows(records)[i].banco != ""
    ensures TableRows(records)[i].monto.None? <==>
      records[i].monto_abonado == 0.0 && records[i].monto == 0.0 && records[i].monto_mn == 0.0
    ensures TableRows(records)[i].monto.Some? ==> TableRows(records)[i].monto.value != 0.0
    ensures records[i].monto_abonado != 0.0 ==> TableRows(records)[i].monto == Some(records[i].monto_abonado)
    ensures records[i].cuenta_numero != "" ==> TableRows(records)[i].cuenta == records[i].cuenta_numero
  {
  }

  /** Every record of the combined data shows its own bank and its amount
      (the paid amounts are never set), with '-' for the document type. */
  lemma CombinedRowCells(d1: ExcelData, d2: ExcelData, i: nat)
    requires i < |Combined.CombineSpec(d1, d2).records|
    ensures var r := Combined.CombineSpec(d1, d2).records[i];
      BankCell(r) == r.banco && (r.banco == "BBVA" || r.banco == "BCP") &&
      OrDash(r.documento_tipo) == "-" &&
      AmountCell(r) == (if r.monto != 0.0 then Some(r.monto) else None)
  {
    Combined.CombineOrder(d1, d2);
  }

  // ---------------------------------------------------------------------
  // The component

  datatype Stats = Stats(totalRegistros: nat, montoTotal: real, clientes: nat)

  /** What the component shows: the empty table without data, otherwise the
      statistics, the rows, the files offered by the source select and
      whether the "no records" notice appears. */
  datatype View = EmptyTable | Table(stats: Stats, rows: seq<TableRow>, sourceOptions: seq<string>, noMatches: bool)

  function ViewOf(data: Option<CombinedData>, f: Filters): View {
    match data
    case None => EmptyTable
    case Some(d) =>
      var shown := FilterRecords(d.records, f);
      Table(Stats(|shown|, TotalAmount(shown), UniqueClients(shown)), TableRows(shown), d.sources, shown == [])
  }

  /** The statistics describe exactly the rows of the table: the count is the
      number of rows, there are no more clients than rows, and the notice
      appears exactly when there are no rows. */
  lemma ViewConsistent(data: Option<CombinedData>, f: Filters)
    ensures ViewOf(data, f).EmptyTable? <==> data.None?
    ensures ViewOf(data, f).Table? ==>
      ViewOf(data, f).stats.totalRegistros == |ViewOf(data, f).rows| &&
      ViewOf(data, f).stats.clientes <= ViewOf(data, f).stats.totalRegistros &&
      (ViewOf(data, f).noMatches <==> ViewOf(data, f).rows == []) &&
      (ViewOf(data, f).stats.clientes == 0 <==> ViewOf(data, f).noMatches)
  {
    if data.Some? {
      UniqueClientsBounds(FilterRecords(data.value.records, f));
    }
  }

  /** handleExport: the data with the listed records in place of all of
      them; the count and the file names are those of the whole data. */
  function ExportData(data: CombinedData, f: Filters): CombinedData {
    data.(records := FilterRecords(data.records, f))
  }

  /** The exported text: one line per listed record, in list order, after the
      header line; with the initial filters it is the export of the whole
      data. */
  lemma ExportListed(data: CombinedData, f: Filters, fmt: real -> string)
    ensures |Processor.CombinedCsvLines(ExportData(data, f), fmt)| == |FilterRecords(data.records, f)| + 1
    ensures forall r :: r in FilterRecords(data.records, f) ==>
      Processor.CombinedCsvFields(r, fmt) in Processor.CombinedCsvLines(ExportData(data, f), fmt)
    ensures Processor.ExportCombinedCsv(ExportData(data, NoFilters), fmt) == Processor.ExportCombinedCsv(data, fmt)
  {
    NoFiltersListsAll(data.records);
    assert ExportData(data, NoFilters) == data;
    var shown := FilterRecords(data.records, f);
    var lines := Processor.CombinedCsvLines(ExportData(data, f), fmt);
    forall r | r in shown ensures Processor.CombinedCsvFields(r, fmt) in lines {
      var i :| 0 <= i < |shown| && shown[i] == r;
      assert lines[i + 1] == Processor.CombinedCsvFields(r, fmt);
    }
  }
}
