// src/utils/excelProcessorBCP.ts after the reader: createSingleFileData,
// which renames the document keys of every row object in two passes, reads
// the record's fields with getColumnValue and keeps the retained records,
// and exportToCSV, which quotes a value only when it has to.
module BcpRecords {
  import opened Wrappers
  import opened Text
  import opened Numbers
  import opened Sheet
  import opened Records
  import Csv
  import Processor
  import opened Bcp

  // ---------------------------------------------------------------------
  // Renaming the document keys

  const TiposKey: string := "Documento - Tipos"
  const DocsKey: string := "Documentos"

  /** The renamed form of a document key: an 's' added. */
  function Plural(k: string): string {
    if k == TipoHeader then TiposKey else DocsKey
  }

  predicate IsPluralKey(k: string) {
    k == TiposKey || k == DocsKey
  }

  /** A renamed document key back under its own name. */
  function Singular(k: string): string {
    if k == TiposKey then TipoHeader else DocHeader
  }

  /** How many times a key has been seen once this entry is counted. */
  function Counted(counts: map<string, nat>, key: string): nat {
    (if key in counts then counts[key] else 0) + 1
  }

  /** The key an entry of the first pass is written under: a document key
      counted a second time takes its plural name; every other key stays. */
  function CountKey(counts: map<string, nat>, key: string): string {
    if IsDupHeader(key) && Counted(counts, key) > 1 then Plural(key) else key
  }

  /** The counts after an entry: only document keys are counted. */
  function CountsAfter(counts: map<string, nat>, key: string): map<string, nat> {
    if IsDupHeader(key) then counts[key := Counted(counts, key)] else counts
  }

  function CountStep(acc: (Obj, map<string, nat>), e: Prop): (Obj, map<string, nat>) {
    (Put(acc.0, CountKey(acc.1, e.key), e.value), CountsAfter(acc.1, e.key))
  }

  /** The first pass over the entries of a row object, with the counts it
      keeps. */
  function CountPass(o: Obj): (Obj, map<string, nat>)
    decreases |o|
  {
    if o == [] then ([], map[]) else CountStep(CountPass(o[..|o| - 1]), o[|o| - 1])
  }

  lemma CountPassStep(o: Obj, i: nat)
    requires i < |o|
    ensures CountPass(o[..i + 1]) == CountStep(CountPass(o[..i]), o[i])
  {
    assert o[..i + 1][..i] == o[..i];
  }

  /** One entry of the first pass: count a document key, and write the
      value under the key the count decides. */
  method CountEntry(processed: Obj, columnCounts: map<string, nat>, e: Prop)
    returns (processed': Obj, columnCounts': map<string, nat>)
    ensures (processed', columnCounts') == CountStep((processed, columnCounts), e)
  {
    var processedKey := e.key;
    columnCounts' := columnCounts;
    if e.key == TipoHeader || e.key == DocHeader {
      var count := (if e.key in columnCounts then columnCounts[e.key] else 0) + 1;
      assert count == Counted(columnCounts, e.key);
      columnCounts' := columnCounts[e.key := count];
      if count > 1 {
        processedKey := if e.key == TipoHeader then TiposKey else DocsKey;
      }
    }
    assert processedKey == CountKey(columnCounts, e.key);
    assert columnCounts' == CountsAfter(columnCounts, e.key);
    processed' := Put(processed, processedKey, e.value);
  }

  /** The first pass loop with its `columnCounts` dictionary. */
  method RenameRepeats(rowObj: Obj) returns (processed: Obj)
    ensures processed == CountPass(rowObj).0
  {
    processed := [];
    var columnCounts: map<string, nat> := map[];
    var i := 0;
    while i < |rowObj|
      invariant i <= |rowObj|
      invariant (processed, columnCounts) == CountPass(rowObj[..i])
    {
      processed, columnCounts := CountEntry(processed, columnCounts, rowObj[i]);
      CountPassStep(rowObj, i);
      i := i + 1;
    }
    assert rowObj[..i] == rowObj;
  }

  /** Dropping the last entry of an object with unique keys leaves unique
      keys, and the last key is not among them. */
  lemma LastKeyNew(o: Obj)
    requires |o| > 0 && UniqueKeys(o)
    ensures UniqueKeys(o[..|o| - 1])
    ensures o[|o| - 1].key !in Keys(o[..|o| - 1])
  {
    var n := |o| - 1;
    var init := o[..n];
    forall i, j | 0 <= i < j < n ensures init[i].key != init[j].key {
      assert init[i] == o[i] && init[j] == o[j];
    }
    forall j | 0 <= j < n ensures Keys(init)[j] != o[n].key {
      assert Keys(init)[j] == o[j].key;
    }
  }

  /** The first pass counts only keys of the object. */
  lemma {:induction false} CountPassCounts(o: Obj)
    ensures forall k :: k in CountPass(o).1 ==> k in Keys(o)
    decreases |o|
  {
    if o != [] {
      var n := |o| - 1;
      CountPassCounts(o[..n]);
      var p := CountPass(o[..n]);
      assert CountPass(o).1 == CountsAfter(p.1, o[n].key);
      forall k | k in CountsAfter(p.1, o[n].key) ensures k in Keys(o) {
        if k == o[n].key {
          assert Keys(o)[n] == k;
        } else {
          assert k in Keys(o[..n]);
          var j :| 0 <= j < n && Keys(o[..n])[j] == k;
          assert Keys(o)[j] == o[j].key == k;
        }
      }
    }
  }

  /** The keys of an object are unique, so the first pass never sees a
      document key twice: it rebuilds the object unchanged. */
  lemma {:induction false} CountPassIdentity(o: Obj)
    requires UniqueKeys(o)
    ensures CountPass(o).0 == o
    decreases |o|
  {
    if o != [] {
      var n := |o| - 1;
      var init := o[..n];
      LastKeyNew(o);
      CountPassIdentity(init);
      CountPassCounts(init);
      var p := CountPass(init);
      assert o[n].key !in p.1;
      assert CountPass(o).0 == Put(init, o[n].key, o[n].value);
      assert Put(init, o[n].key, o[n].value) == init + [o[n]];
      assert init + [o[n]] == o;
    }
  }

  /** An object rebuilt entry by entry, each value put under the key f names
      for its entry. */
  function Rekeyed(o: Obj, f: Prop -> string): Obj
    decreases |o|
  {
    if o == [] then [] else Put(Rekeyed(o[..|o| - 1], f), f(o[|o| - 1]), o[|o| - 1].value)
  }

  /** A key no entry is put under is absent. */
  lemma {:induction false} RekeyedAbsent(o: Obj, f: Prop -> string, k: string)
    requires forall i :: 0 <= i < |o| ==> f(o[i]) != k
    ensures Get(Rekeyed(o, f), k) == None
    decreases |o|
  {
    if o != [] {
      var n := |o| - 1;
      RekeyedAbsent(o[..n], f, k);
      PutGet(Rekeyed(o[..n], f), f(o[n]), o[n].value, k);
    }
  }

  /** A key exactly one entry is put under holds that entry's value. */
  lemma {:induction false} RekeyedSole(o: Obj, f: Prop -> string, k: string, i0: nat)
    requires i0 < |o| && f(o[i0]) == k
    requires forall i :: 0 <= i < |o| && i != i0 ==> f(o[i]) != k
    ensures Get(Rekeyed(o, f), k) == Some(o[i0].value)
    decreases |o|
  {
    var n := |o| - 1;
    assert Rekeyed(o, f) == Put(Rekeyed(o[..n], f), f(o[n]), o[n].value);
    PutGet(Rekeyed(o[..n], f), f(o[n]), o[n].value, k);
    if i0 < n {
      assert o[..n][i0] == o[i0];
      forall i | 0 <= i < n && i != i0 ensures f(o[..n][i]) != k {
        assert o[..n][i] == o[i];
      }
      RekeyedSole(o[..n], f, k, i0);
    } else {
      forall i | 0 <= i < n ensures f(o[..n][i]) != k {
        assert o[..n][i] == o[i];
      }
      RekeyedAbsent(o[..n], f, k);
    }
  }

  /** The second pass: a document key with a usable value takes the plural
      name, a plural key without one goes back to the singular. */
  function SwapKey(e: Prop): string {
    if IsDupHeader(e.key) && !Blankish(e.value) then Plural(e.key)
    else if IsPluralKey(e.key) && Blankish(e.value) then Singular(e.key)
    else e.key
  }

  function SwapPass(o: Obj): Obj {
    Rekeyed(o, SwapKey)
  }

  /** Where the second pass sends each key: only a document key and its
      plural form can end up under either name. */
  lemma SwapKeyTargets(e: Prop, k: string)
    requires IsDupHeader(k)
    ensures SwapKey(e) == k || SwapKey(e) == Plural(k) ==> e.key == k || e.key == Plural(k)
    ensures e.key == k ==> SwapKey(e) == if Blankish(e.value) then k else Plural(k)
  {
  }

  /** The second pass loop, building `finalRowObj`. */
  method SwapRename(processed: Obj) returns (finalRowObj: Obj)
    ensures finalRowObj == SwapPass(processed)
  {
    finalRowObj := [];
    var i := 0;
    while i < |processed|
      invariant i <= |processed|
      invariant finalRowObj == Rekeyed(processed[..i], SwapKey)
    {
      assert processed[..i + 1][..i] == processed[..i];
      var key := processed[i].key;
      var valueStr := Trim(processed[i].value);
      var finalKey := key;
      if (key == TipoHeader || key == DocHeader) && valueStr != "" && valueStr != "-" {
        finalKey := if key == TipoHeader then TiposKey else DocsKey;
      } else if (key == TiposKey || key == DocsKey) && (valueStr == "" || valueStr == "-") {
        finalKey := if key == TiposKey then TipoHeader else DocHeader;
      }
      finalRowObj := Put(finalRowObj, finalKey, processed[i].value);
      i := i + 1;
    }
    assert processed[..i] == processed;
  }

  // ---------------------------------------------------------------------
  // getColumnValue on a row object

  /** A document column read from its own key when that has a usable value
      (trimmed), else from its renamed key when present (as it is). */
  function DupLookup(o: Obj, single: string, plural: string): Option<string> {
    if !Blankish(GetOr(o, single)) then Some(Trim(GetOr(o, single)))
    else Get(o, plural)
  }

  /** The renamed-column step, for the document columns only. */
  function RenamedLookup(o: Obj, column: string): Option<string> {
    if Contains(Lower(column), "documento - tipo") then DupLookup(o, TipoHeader, TiposKey)
    else if Contains(Lower(column), "documento") then DupLookup(o, DocHeader, DocsKey)
    else None
  }

  /** Entry j answers the fuzzy search: its key matches and its value is
      usable. */
  predicate FuzzyHit(o: Obj, normalizedColumn: string, j: nat)
    requires j < |o|
  {
    KeyMatches(o[j].key, normalizedColumn) && !Blankish(GetOr(o, o[j].key))
  }

  /** A key the fuzzy search stops at: it matches and its value is usable. */
  function FuzzyKey(o: Obj, normalizedColumn: string): string -> bool {
    key => KeyMatches(key, normalizedColumn) && !Blankish(GetOr(o, key))
  }

  /** The fuzzy search over the keys: the trimmed value of the first hit, ""
      when there is none. */
  function FuzzyValue(o: Obj, normalizedColumn: string): string {
    var j := FirstKeyFrom(o, FuzzyKey(o, normalizedColumn), 0);
    if j < |o| then Trim(GetOr(o, o[j].key)) else ""
  }

  /** The fuzzy search answers with the trimmed value of its first hit, and
      answers "" exactly when no entry is a hit. */
  lemma FuzzyValueFacts(o: Obj, normalizedColumn: string)
    ensures FuzzyValue(o, normalizedColumn) != "" <==> exists j :: 0 <= j < |o| && FuzzyHit(o, normalizedColumn, j)
    ensures FuzzyValue(o, normalizedColumn) != "" ==>
      exists j :: 0 <= j < |o| && FuzzyHit(o, normalizedColumn, j) &&
        FuzzyValue(o, normalizedColumn) == Trim(GetOr(o, o[j].key)) &&
        forall j' :: 0 <= j' < j ==> !FuzzyHit(o, normalizedColumn, j')
  {
    var p := FuzzyKey(o, normalizedColumn);
    var j := FirstKeyFrom(o, p, 0);
    FirstKeyFromFacts(o, p, 0);
    forall m | 0 <= m < |o| ensures p(o[m].key) == FuzzyHit(o, normalizedColumn, m) {
    }
    if j < |o| {
      assert !Blankish(GetOr(o, o[j].key));
    }
  }

  /** getColumnValue on an object: the exact key, then the fallback name,
      then the renamed document columns, then the fuzzy search over the keys. */
  function ColumnValue(o: Obj, column: string, fallback: Option<string>): string {
    if Get(o, column).Some? then Get(o, column).value
    else if fallback.Some? && fallback.value != "" && Get(o, fallback.value).Some? then Get(o, fallback.value).value
    else
      match RenamedLookup(o, column)
      case Some(v) => v
      case None => FuzzyValue(o, NormalizedColumn(column))
  }

  /** getColumnValue's order of resolution: an exact key wins; without one
      (and without a fallback or a renamed column), the answer is the
      trimmed usable value of the first key matching the column, or "". */
  lemma ColumnValueOrder(o: Obj, column: string)
    ensures Get(o, column).Some? ==> ColumnValue(o, column, None) == Get(o, column).value
    ensures Get(o, column).None? && RenamedLookup(o, column).None? ==>
      (ColumnValue(o, column, None) != "" <==> exists j :: 0 <= j < |o| && FuzzyHit(o, NormalizedColumn(column), j))
    ensures Get(o, column).None? && RenamedLookup(o, column).None? && ColumnValue(o, column, None) != "" ==>
      exists j :: 0 <= j < |o| && FuzzyHit(o, NormalizedColumn(column), j) &&
        ColumnValue(o, column, None) == Trim(GetOr(o, o[j].key)) &&
        forall j' :: 0 <= j' < j ==> !FuzzyHit(o, NormalizedColumn(column), j')
  {
    FuzzyValueFacts(o, NormalizedColumn(column));
  }

  /** getColumnValue's steps, with the key loop of the fuzzy search. */
  method GetColumnValue(o: Obj, column: string, fallback: Option<string>) returns (v: string)
    ensures v == ColumnValue(o, column, fallback)
  {
    var exact := Get(o, column);
    if exact.Some? {
      return exact.value;
    }
    if fallback.Some? && fallback.value != "" {
      var alternative := Get(o, fallback.value);
      if alternative.Some? {
        return alternative.value;
      }
    }
    var renamed := RenamedLookup(o, column);
    if renamed.Some? {
      return renamed.value;
    }
    assert ColumnValue(o, column, fallback) == FuzzyValue(o, NormalizedColumn(column));
    v := FuzzySearch(o, NormalizedColumn(column));
  }

  /** The key loop of the fuzzy search. */
  method FuzzySearch(o: Obj, normalizedColumn: string) returns (v: string)
    ensures v == FuzzyValue(o, normalizedColumn)
  {
    ghost var p := FuzzyKey(o, normalizedColumn);
    var j := 0;
    while j < |o|
      invariant j <= |o|
      invariant FirstKeyFrom(o, p, j) == FirstKeyFrom(o, p, 0)
    {
      var key := o[j].key;
      var normalizedKey := NormalizedKey(key);
      var matches := Contains(normalizedKey, normalizedColumn) || Contains(normalizedColumn, normalizedKey);
      var value := Trim(GetOr(o, key));
      FuzzyKeyIs(o, normalizedColumn, key, matches, value);
      FirstKeyStep(o, p, j);
      if matches && value != "" && value != "-" {
        return value;
      }
      j := j + 1;
    }
    return "";
  }

  /** The key loop's test is the fuzzy search's. */
  lemma FuzzyKeyIs(o: Obj, normalizedColumn: string, key: string, matches: bool, value: string)
    requires matches == KeyMatches(key, normalizedColumn) && value == Trim(GetOr(o, key))
    ensures FuzzyKey(o, normalizedColumn)(key) <==> matches && value != "" && value != "-"
  {
  }

  lemma BlankishEmpty()
    ensures Blankish("")
  {
    assert TrimStart("") == "" && TrimEnd("") == "";
  }

  /** In an object without the plural key, the second pass leaves a document
      value without use under its own key, and moves a usable one to the
      plural key, leaving nothing under the singular. */
  lemma SwapPassDocument(o: Obj, column: string, i0: nat)
    requires UniqueKeys(o) && IsDupHeader(column) && i0 < |o| && o[i0].key == column && Plural(column) !in Keys(o)
    ensures Blankish(o[i0].value) ==> Get(SwapPass(o), column) == Some(o[i0].value)
    ensures !Blankish(o[i0].value) ==>
      Get(SwapPass(o), column) == None && Get(SwapPass(o), Plural(column)) == Some(o[i0].value)
  {
    forall i | 0 <= i < |o| && i != i0
      ensures SwapKey(o[i]) != column && SwapKey(o[i]) != Plural(column)
    {
      assert Keys(o)[i] == o[i].key;
      SwapKeyTargets(o[i], column);
    }
    SwapKeyTargets(o[i0], column);
    if Blankish(o[i0].value) {
      RekeyedSole(o, SwapKey, column, i0);
    } else {
      RekeyedAbsent(o, SwapKey, column);
      RekeyedSole(o, SwapKey, Plural(column), i0);
    }
  }

  /** Reading a document column from an object with nothing under its own
      name falls to the renamed column. */
  lemma DocumentFromPlural(o: Obj, column: string)
    requires IsDupHeader(column) && Get(o, column).None? && Get(o, Plural(column)).Some?
    ensures ColumnValue(o, column, None) == Get(o, Plural(column)).value
  {
    BlankishEmpty();
    DocumentColumnsLowered();
    assert GetOr(o, column) == "";
    if column == TipoHeader {
      assert RenamedLookup(o, column) == DupLookup(o, TipoHeader, TiposKey);
    } else {
      assert RenamedLookup(o, column) == DupLookup(o, DocHeader, DocsKey);
    }
  }

  /** The two document column names, lower-cased, select their own branch of
      the renamed-column step. */
  lemma DocumentColumnsLowered()
    ensures Contains(Lower(TipoHeader), "documento - tipo")
    ensures !Contains(Lower(DocHeader), "documento - tipo") && Contains(Lower(DocHeader), "documento")
  {
    assert Lower(TipoHeader) == "documento - tipo";
    assert Lower(DocHeader) == "documento";
    ContainsSelf("documento - tipo");
    ContainsSelf("documento");
  }

  /** For a row object without a renamed key, renaming and then reading a
      document column gives back the value the object had under that
      column: the two passes cancel out. */
  lemma RenameNetNoOp(o: Obj, column: string)
    requires UniqueKeys(o) && IsDupHeader(column) && column in Keys(o) && Plural(column) !in Keys(o)
    ensures ColumnValue(SwapPass(CountPass(o).0), column, None) == GetOr(o, column)
  {
    CountPassIdentity(o);
    var i0 :| 0 <= i0 < |o| && Keys(o)[i0] == column;
    GetUniqueEntry(o, i0, column);
    SwapPassDocument(o, column, i0);
    if !Blankish(o[i0].value) {
      DocumentFromPlural(SwapPass(o), column);
    }
  }

  /** In an object with unique keys, the key of entry i reads as its value. */
  lemma GetUniqueEntry(o: Obj, i0: nat, k: string)
    requires UniqueKeys(o) && i0 < |o| && o[i0].key == k
    ensures Get(o, k) == Some(o[i0].value)
    decreases |o|
  {
    if i0 > 0 {
      assert o[0].key != k;
      assert UniqueKeys(o[1..]);
      GetUniqueEntry(o[1..], i0 - 1, k);
    }
  }

  // ---------------------------------------------------------------------
  // The records

  /** The record of a row object: its keys renamed, then each field read by
      column name. */
  function KeyedRecord(fileName: string, rowObj: Obj, index: nat): AbonoRecord {
    var row := SwapPass(CountPass(rowObj).0);
    Blank(MakeId(fileName, index), "BCP", fileName).(
      beneficiario := ColumnValue(row, "Beneficiario - Nombre", None),
      documento_tipo := ColumnValue(row, TipoHeader, None),
      documento := ColumnValue(row, DocHeader, None),
      monto := ParseAmount(ColumnValue(row, "Monto", None)),
      cuenta_numero := RemoveAll(ColumnValue(row, "Cuenta - Número", None), '-'),
      estado := ColumnValue(row, "Estado", None),
      observaciones := ColumnValue(row, "Observación", None))
  }

  /** The record of a row of cells, read by position. */
  function CellsRecord(fileName: string, cells: Row, index: nat): AbonoRecord {
    Blank(MakeId(fileName, index), "BCP", fileName).(
      beneficiario := CellAt(cells, 0),
      documento_tipo := CellAt(cells, 2),
      documento := OrDash(CellAt(cells, 3)),
      monto := AmountOrZero(CellAt(cells, 6)),
      cuenta_numero := RemoveAll(CellAt(cells, 11), '-'),
      estado := CellAt(cells, 12))
  }

  /** The record a row yields before the retention rule; a row that is
      neither an object nor an array yields none. */
  function BcpRowRecord(fileName: string, row: SheetRow, index: nat): Option<AbonoRecord> {
    match row
    case Keyed(o) => Some(KeyedRecord(fileName, o, index))
    case Cells(c) => Some(CellsRecord(fileName, c, index))
    case Scalar(_) => None
  }

  function BcpMaker(fileName: string): (SheetRow, nat) -> Option<AbonoRecord> {
    (row: SheetRow, index: nat) => BcpRowRecord(fileName, row, index)
  }

  /** What createSingleFileData returns. */
  function SingleSpec(d: ExcelData): CombinedData {
    var records := Collected(Candidates(d.sheets, BcpMaker(d.fileName)));
    CombinedData(records, |records|, [d.fileName])
  }

  /** The fields read from the renamed row make the keyed record. */
  lemma KeyedRecordOf(fileName: string, rowObj: Obj, index: nat, row: Obj,
                      beneficiario: string, documentoTipo: string, documento: string, monto: string,
                      cuenta: string, estado: string, observaciones: string)
    requires row == SwapPass(CountPass(rowObj).0)
    requires beneficiario == ColumnValue(row, "Beneficiario - Nombre", None)
    requires documentoTipo == ColumnValue(row, TipoHeader, None)
    requires documento == ColumnValue(row, DocHeader, None)
    requires monto == ColumnValue(row, "Monto", None)
    requires cuenta == ColumnValue(row, "Cuenta - Número", None)
    requires estado == ColumnValue(row, "Estado", None)
    requires observaciones == ColumnValue(row, "Observación", None)
    ensures KeyedRecord(fileName, rowObj, index) ==
      Blank(MakeId(fileName, index), "BCP", fileName).(
        beneficiario := beneficiario, documento_tipo := documentoTipo, documento := documento,
        monto := ParseAmount(monto), cuenta_numero := RemoveAll(cuenta, '-'),
        estado := estado, observaciones := observaciones)
  {
  }

  /** One row of createSingleFileData's row loop, before the retention test. */
  method RowRecord(fileName: string, row: SheetRow, index: nat) returns (rec: Option<AbonoRecord>)
    ensures rec == BcpRowRecord(fileName, row, index)
  {
    match row
    case Keyed(rowObj) =>
      var processed := RenameRepeats(rowObj);
      var finalRowObj := SwapRename(processed);
      var beneficiario := GetColumnValue(finalRowObj, "Beneficiario - Nombre", None);
      var documentoTipo := GetColumnValue(finalRowObj, TipoHeader, None);
      var documento := GetColumnValue(finalRowObj, DocHeader, None);
      var monto := GetColumnValue(finalRowObj, "Monto", None);
      var cuenta := GetColumnValue(finalRowObj, "Cuenta - Número", None);
      var estado := GetColumnValue(finalRowObj, "Estado", None);
      var observaciones := GetColumnValue(finalRowObj, "Observación", None);
      KeyedRecordOf(fileName, rowObj, index, finalRowObj, beneficiario, documentoTipo, documento, monto, cuenta, estado, observaciones);
      rec := Some(Blank(MakeId(fileName, index), "BCP", fileName).(
        beneficiario := beneficiario, documento_tipo := documentoTipo, documento := documento,
        monto := ParseAmount(monto), cuenta_numero := RemoveAll(cuenta, '-'),
        estado := estado, observaciones := observaciones));
    case Cells(cells) =>
      rec := Some(CellsRecord(fileName, cells, index));
    case Scalar(_) =>
      rec := None;
  }

  /** The candidate records of one sheet's rows, row i yielding the record
      with index i. */
  function SheetCandidates(fileName: string, data: seq<SheetRow>): (c: seq<Option<AbonoRecord>>)
    ensures |c| == |data|
  {
    seq(|data|, i requires 0 <= i < |data| => BcpRowRecord(fileName, data[i], i))
  }

  lemma SheetCandidatesOf(d: ExcelData, k: nat)
    requires k < |d.sheets|
    ensures Candidates(d.sheets, BcpMaker(d.fileName))[k] == SheetCandidates(d.fileName, d.sheets[k].data)
  {
  }

  /** The record row i of a sheet yields, before the retention test. */
  method SheetCandidate(fileName: string, data: seq<SheetRow>, i: nat) returns (rec: Option<AbonoRecord>)
    requires i < |data|
    ensures rec == SheetCandidates(fileName, data)[i]
  {
    rec := RowRecord(fileName, data[i], i);
  }

  /** The row loop of one sheet, pushing each retained record. */
  method PushSheetRecords(fileName: string, data: seq<SheetRow>, records: seq<AbonoRecord>)
    returns (records': seq<AbonoRecord>)
    ensures records' == records + KeepRetained(SheetCandidates(fileName, data))
  {
    ghost var cands := SheetCandidates(fileName, data);
    records' := records;
    var i := 0;
    while i < |data|
      invariant i <= |data|
      invariant records' == records + KeepRetained(cands[..i])
    {
      var rec := SheetCandidate(fileName, data, i);
      records' := PushRetained(records', [rec]);
      KeepRetainedSnoc(cands, i);
      AppendAssoc(records, KeepRetained(cands[..i]), KeepRetained([cands[i]]));
      i := i + 1;
    }
    assert cands[..i] == cands;
  }

  /** The sheet loop of createSingleFileData. */
  method CreateSingleFileData(d: ExcelData) returns (c: CombinedData)
    ensures c == SingleSpec(d)
  {
    ghost var cands := Candidates(d.sheets, BcpMaker(d.fileName));
    var records: seq<AbonoRecord> := [];
    var k := 0;
    while k < |d.sheets|
      invariant k <= |d.sheets|
      invariant records == Collected(cands[..k])
    {
      CollectedPrefixStep(cands, k);
      SheetCandidatesOf(d, k);
      records := PushSheetRecords(d.fileName, d.sheets[k].data, records);
      k := k + 1;
    }
    assert cands[..k] == cands;
    c := CombinedData(records, |records|, [d.fileName]);
  }

  /** createSingleFileData keeps exactly the retained records of the object
      and array rows, each from bank BCP and from the file, with a row index
      of its sheet as id and no '-' in its account number. */
  lemma SingleRecords(d: ExcelData, r: AbonoRecord)
    ensures r in SingleSpec(d).records <==>
      Retained(r) &&
      (exists k, i :: 0 <= k < |d.sheets| && 0 <= i < |d.sheets[k].data| &&
         !d.sheets[k].data[i].Scalar? && BcpRowRecord(d.fileName, d.sheets[k].data[i], i) == Some(r))
    ensures r in SingleSpec(d).records ==>
      r.banco == "BCP" && r.origen == d.fileName && '-' !in r.cuenta_numero &&
      exists i: nat :: r.id == MakeId(d.fileName, i)
    ensures SingleSpec(d).totalRecords == |SingleSpec(d).records| && SingleSpec(d).sources == [d.fileName]
  {
    BcpMakerShape(d.fileName);
    MadeMember(d.sheets, BcpMaker(d.fileName), "BCP", d.fileName, r);
    if r in SingleSpec(d).records {
      var i: nat :| MadeFrom(r, "BCP", d.fileName, i);
    }
  }

  lemma BcpMakerShape(fileName: string)
    ensures MakesRecords(BcpMaker(fileName), "BCP", fileName)
    ensures forall row, i: nat :: BcpMaker(fileName)(row, i) == BcpRowRecord(fileName, row, i)
  {
    forall row, i: nat ensures BcpMaker(fileName)(row, i) == BcpRowRecord(fileName, row, i) {
    }
    forall row, i: nat ensures BcpRowRecord(fileName, row, i).Some? ==>
      MadeFrom(BcpRowRecord(fileName, row, i).value, "BCP", fileName, i) {
    }
  }

  /** For an object row whose document keys are not renamed already, the
      record's document fields are the row's own document values. */
  lemma KeyedDocuments(fileName: string, o: Obj, index: nat)
    requires UniqueKeys(o)
    requires TipoHeader in Keys(o) && TiposKey !in Keys(o)
    requires DocHeader in Keys(o) && DocsKey !in Keys(o)
    ensures KeyedRecord(fileName, o, index).documento_tipo == GetOr(o, TipoHeader)
    ensures KeyedRecord(fileName, o, index).documento == GetOr(o, DocHeader)
  {
    RenameNetNoOp(o, TipoHeader);
    RenameNetNoOp(o, DocHeader);
  }

  // ---------------------------------------------------------------------
  // exportToCSV

  /** A value as exportToCSV writes it: in quotes, inner quotes doubled, when
      it holds ',', '"' or a line break; as it is otherwise. */
  function CsvField(v: string): (e: string)
    ensures Csv.Encodes(e, v)
    ensures e == v <==> Csv.IsBare(v)
  {
    if ',' in v || '"' in v || '\n' in v then Csv.QuoteField(v) else v
  }

  /** The lines of exportToCSV: the keys of the first row as they are, then
      each row's values under those keys. */
  function CsvLines(data: seq<Obj>): seq<seq<string>>
    requires |data| > 0
  {
    var headers := Keys(data[0]);
    [headers] + seq(|data|, i requires 0 <= i < |data| =>
      seq(|headers|, k requires 0 <= k < |headers| => CsvField(GetOr(data[i], headers[k]))))
  }

  /** exportToCSV's text; None when there are no rows. */
  function ExportCsv(data: seq<Obj>): Option<string> {
    if data == [] then None else Some(Join(Csv.RecordTexts(CsvLines(data)), "\n"))
  }

  /** exportToCSV writes nothing for no rows; otherwise, when the first row
      has keys that need no quoting, a CSV reader gets back the header line
      and every row's values. */
  lemma ExportRoundTrip(data: seq<Obj>)
    ensures data == [] <==> ExportCsv(data) == None
    ensures data != [] && |data[0]| > 0 && (forall k :: 0 <= k < |data[0]| ==> Csv.IsBare(data[0][k].key)) ==>
      Csv.ReadAll(ExportCsv(data).value) == Some(Processor.RowsTable(data))
  {
    if data != [] && |data[0]| > 0 && (forall k :: 0 <= k < |data[0]| ==> Csv.IsBare(data[0][k].key)) {
      var lines := CsvLines(data);
      var table := Processor.RowsTable(data);
      forall i, k | 0 <= i < |lines| && 0 <= k < |lines[i]| ensures Csv.Encodes(lines[i][k], table[i][k]) {
        if i == 0 {
          assert lines[0][k] == table[0][k] == data[0][k].key;
        }
      }
      Csv.ReadAllOf(lines, table);
    }
  }

  /** The two exporters read back alike: a value without ',', '"' or a line
      break is written bare here and quoted by the excelProcessor exporter,
      and both texts read back as the same table. */
  lemma ExportsAgree(data: seq<Obj>)
    requires data != [] && |data[0]| > 0 && forall k :: 0 <= k < |data[0]| ==> Csv.IsBare(data[0][k].key)
    ensures Csv.ReadAll(ExportCsv(data).value) == Csv.ReadAll(Processor.ExportRowsCsv(data).value)
  {
    ExportRoundTrip(data);
    Processor.ExportRowsRoundTrip(data);
  }
}
