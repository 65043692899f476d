// src/utils/excelProcessorBCP.ts: the merge of the duplicated document
// columns (createAndDownloadModifiedBCPExcel), the grid logic of
// processBCPFile, createSingleFileData with its column renaming and
// getColumnValue, and the text of exportToCSV.
module Bcp {
  import opened Wrappers
  import opened Text
  import opened Numbers
  import opened Sheet
  import opened Records
  import Csv
  import Processor

  // ---------------------------------------------------------------------
  // Merging the duplicated document columns

  const TipoHeader: string := "Documento - Tipo"
  const DocHeader: string := "Documento"

  /** The two headers a BCP report repeats. */
  predicate IsDupHeader(h: string) {
    h == TipoHeader || h == DocHeader
  }

  /** `!s || s === '-'` on the trimmed text: a cell without a usable value. */
  predicate Blankish(s: string) {
    Trim(s) == "" || Trim(s) == "-"
  }

  /** Column c repeats a document header already seen to its left. */
  predicate RepeatedDup(headers: seq<string>, c: nat)
    requires c < |headers|
  {
    IsDupHeader(headers[c]) && headers[c] in headers[..c]
  }

  /** Column c gets a column of its own in the merged sheet: it has a header
      (a hole is skipped by forEach) and does not repeat a document header. */
  predicate KeptColumn(headers: seq<string>, c: nat)
    requires c < |headers|
  {
    headers[c] != "" && !RepeatedDup(headers, c)
  }

  /** The merged header row: every header in order, without holes, each
      document header only at its first column. */
  function MergedHeaders(headers: seq<string>): (r: seq<string>)
    ensures |r| <= |headers|
    decreases |headers|
  {
    if headers == [] then []
    else
      var n := |headers| - 1;
      MergedHeaders(headers[..n]) + if KeptColumn(headers, n) then [headers[n]] else []
  }

  lemma PrefixColumn(headers: seq<string>, n: nat, c: nat)
    requires c < n <= |headers|
    ensures headers[..n][c] == headers[c]
    ensures RepeatedDup(headers[..n], c) == RepeatedDup(headers, c)
    ensures KeptColumn(headers[..n], c) == KeptColumn(headers, c)
  {
    assert headers[..n][..c] == headers[..c];
  }

  /** `headers.forEach` with the `usedHeaders` set. */
  method MergeHeaders(headers: seq<string>) returns (newHeaders: seq<string>)
    ensures newHeaders == MergedHeaders(headers)
  {
    newHeaders := [];
    var used: set<string> := {};
    var i := 0;
    while i < |headers|
      invariant i <= |headers|
      invariant newHeaders == MergedHeaders(headers[..i])
      invariant forall h :: h in used <==> IsDupHeader(h) && h in headers[..i]
    {
      assert headers[..i + 1][..i] == headers[..i];
      var h := headers[i];
      if h == TipoHeader || h == DocHeader {
        if h !in used {
          newHeaders := newHeaders + [h];
          used := used + {h};
        }
      } else if h != "" {
        newHeaders := newHeaders + [h];
      }
      i := i + 1;
    }
    assert headers[..i] == headers;
  }

  /** The merged header row holds each document header at most once. */
  lemma {:induction false} MergedHeadersDupOnce(headers: seq<string>)
    ensures forall i, j :: 0 <= i < j < |MergedHeaders(headers)| && IsDupHeader(MergedHeaders(headers)[i]) ==>
      MergedHeaders(headers)[i] != MergedHeaders(headers)[j]
    decreases |headers|
  {
    if headers != [] {
      var n := |headers| - 1;
      MergedHeadersDupOnce(headers[..n]);
      var m0 := MergedHeaders(headers[..n]);
      var m := MergedHeaders(headers);
      if KeptColumn(headers, n) {
        assert m == m0 + [headers[n]];
        forall i, j | 0 <= i < j < |m| && IsDupHeader(m[i]) ensures m[i] != m[j] {
          if j == |m0| {
            assert m[i] == m0[i] && m[j] == headers[n];
            MergedHeadersMember(headers[..n], m0[i]);
            assert m0[i] in m0;
            assert m0[i] in headers[..n];
            assert !RepeatedDup(headers, n);
          } else {
            assert m[i] == m0[i] && m[j] == m0[j];
          }
        }
      } else {
        assert m == m0;
      }
    }
  }

  /** A header is in the merged row exactly when it is a header of the
      sheet (holes aside). */
  lemma {:induction false} MergedHeadersMember(headers: seq<string>, h: string)
    ensures h in MergedHeaders(headers) <==> h != "" && h in headers
    decreases |headers|
  {
    if headers != [] {
      var n := |headers| - 1;
      MergedHeadersMember(headers[..n], h);
      assert headers == headers[..n] + [headers[n]];
    }
  }

  /** The headers other than the document headers, holes left out, in order. */
  function Others(headers: seq<string>): seq<string>
    decreases |headers|
  {
    if headers == [] then []
    else
      var n := |headers| - 1;
      Others(headers[..n]) + if headers[n] != "" && !IsDupHeader(headers[n]) then [headers[n]] else []
  }

  lemma {:induction false} OthersAppend(a: seq<string>, b: seq<string>)
    ensures Others(a + b) == Others(a) + Others(b)
    decreases |b|
  {
    if b == [] {
      assert a + b == a;
    } else {
      var n := |b| - 1;
      var x := b[n];
      OthersAppend(a, b[..n]);
      AppendSplitLast(a, b);
      OthersSnoc(a + b[..n], x);
      OthersSnoc(b[..n], x);
      AppendAssoc(Others(a), Others(b[..n]), if x != "" && !IsDupHeader(x) then [x] else []);
    }
  }

  /** One more header adds itself to the others when it is one of them. */
  lemma OthersSnoc(s: seq<string>, x: string)
    ensures Others(s + [x]) == Others(s) + if x != "" && !IsDupHeader(x) then [x] else []
  {
    assert (s + [x])[..|s|] == s;
  }

  /** Every other header, repeated ones included, is kept in its order. */
  lemma {:induction false} MergedHeadersKeepOthers(headers: seq<string>)
    ensures Others(MergedHeaders(headers)) == Others(headers)
    decreases |headers|
  {
    if headers != [] {
      var n := |headers| - 1;
      MergedHeadersKeepOthers(headers[..n]);
      var tail := if KeptColumn(headers, n) then [headers[n]] else [];
      OthersAppend(MergedHeaders(headers[..n]), tail);
      assert Others(tail) == if headers[n] != "" && !IsDupHeader(headers[n]) then [headers[n]] else [] by {
        if tail != [] {
          assert tail[..0] == [];
        }
      }
    }
  }

  /** The columns that get a column of their own, in order. */
  function KeptColumns(headers: seq<string>): (ks: seq<nat>)
    ensures |ks| == |MergedHeaders(headers)|
    ensures forall j :: 0 <= j < |ks| ==> ks[j] < |headers|
    decreases |headers|
  {
    if headers == [] then []
    else
      var n := |headers| - 1;
      KeptColumns(headers[..n]) + if KeptColumn(headers, n) then [n] else []
  }

  /** The kept columns are exactly the columns with a header of their own,
      in increasing order. */
  lemma KeptColumnsFacts(headers: seq<string>)
    ensures forall j :: 0 <= j < |KeptColumns(headers)| ==> KeptColumn(headers, KeptColumns(headers)[j])
    ensures forall j, j' :: 0 <= j < j' < |KeptColumns(headers)| ==> KeptColumns(headers)[j] < KeptColumns(headers)[j']
    ensures forall c :: 0 <= c < |headers| && KeptColumn(headers, c) ==> c in KeptColumns(headers)
  {
    KeptColumnsKept(headers);
    KeptColumnsIncreasing(headers);
    KeptColumnsComplete(headers);
  }

  lemma {:induction false} KeptColumnsKept(headers: seq<string>)
    ensures forall j :: 0 <= j < |KeptColumns(headers)| ==> KeptColumn(headers, KeptColumns(headers)[j])
    decreases |headers|
  {
    if headers != [] {
      var n := |headers| - 1;
      KeptColumnsKept(headers[..n]);
      var ks0 := KeptColumns(headers[..n]);
      assert KeptColumns(headers) == ks0 + if KeptColumn(headers, n) then [n] else [];
      forall j | 0 <= j < |ks0| ensures KeptColumn(headers, ks0[j]) {
        assert KeptColumn(headers[..n], ks0[j]);
        PrefixColumn(headers, n, ks0[j]);
      }
    }
  }

  lemma {:induction false} KeptColumnsIncreasing(headers: seq<string>)
    ensures forall j, j' :: 0 <= j < j' < |KeptColumns(headers)| ==> KeptColumns(headers)[j] < KeptColumns(headers)[j']
    decreases |headers|
  {
    if headers != [] {
      var n := |headers| - 1;
      KeptColumnsIncreasing(headers[..n]);
      assert KeptColumns(headers) == KeptColumns(headers[..n]) + if KeptColumn(headers, n) then [n] else [];
    }
  }

  lemma {:induction false} KeptColumnsComplete(headers: seq<string>)
    ensures forall c :: 0 <= c < |headers| && KeptColumn(headers, c) ==> c in KeptColumns(headers)
    decreases |headers|
  {
    if headers != [] {
      var n := |headers| - 1;
      KeptColumnsComplete(headers[..n]);
      var ks0 := KeptColumns(headers[..n]);
      assert KeptColumns(headers) == ks0 + if KeptColumn(headers, n) then [n] else [];
      forall c | 0 <= c < n && KeptColumn(headers, c) ensures c in ks0 {
        PrefixColumn(headers, n, c);
        assert headers[..n][..c] == headers[..c];
        assert KeptColumn(headers[..n], c);
      }
    }
  }

  /** The merged header row is the headers of the kept columns. */
  lemma {:induction false} KeptColumnsHeaders(headers: seq<string>)
    ensures forall j :: 0 <= j < |KeptColumns(headers)| ==>
      MergedHeaders(headers)[j] == headers[KeptColumns(headers)[j]]
    decreases |headers|
  {
    if headers != [] {
      var n := |headers| - 1;
      KeptColumnsHeaders(headers[..n]);
      var ks0 := KeptColumns(headers[..n]);
      var m0 := MergedHeaders(headers[..n]);
      assert KeptColumns(headers) == ks0 + if KeptColumn(headers, n) then [n] else [];
      assert MergedHeaders(headers) == m0 + if KeptColumn(headers, n) then [headers[n]] else [];
      forall j | 0 <= j < |ks0| ensures m0[j] == headers[ks0[j]] {
        assert headers[..n][ks0[j]] == headers[ks0[j]];
      }
    }
  }

  /** The merged row of one data row, for a given test of a blank cell: the
      running `newColIndex` is the length of the row built so far. A kept
      column appends its cell; a repeated document column replaces the LAST
      cell written so far when that one is blank and its own is not. */
  function MergedRowBy(headers: seq<string>, row: Row, blank: string -> bool): (out: seq<string>)
    ensures |out| == |MergedHeaders(headers)|
    decreases |headers|
  {
    if headers == [] then []
    else
      var n := |headers| - 1;
      var out := MergedRowBy(headers[..n], row, blank);
      var cell := CellAt(row, n);
      if KeptColumn(headers, n) then out + [cell]
      else if headers[n] != "" && |out| > 0 && blank(out[|out| - 1]) && !blank(cell) then
        out[|out| - 1 := cell]
      else out
  }

  /** The merged row as the source builds it: blank means Blankish. */
  function MergedRow(headers: seq<string>, row: Row): seq<string> {
    MergedRowBy(headers, row, Blankish)
  }

  /** One column more: what `headers.forEach` does at column c, given the
      document headers already used and whether the last cell written and
      the cell of column c are blank. */
  lemma MergedRowStep(headers: seq<string>, row: Row, c: nat, blank: string -> bool,
                      out: seq<string>, used: set<string>, lastBlank: bool, cellBlank: bool)
    requires c < |headers| && out == MergedRowBy(headers[..c], row, blank)
    requires forall h :: h in used <==> IsDupHeader(h) && h in headers[..c]
    requires lastBlank == (|out| > 0 && blank(out[|out| - 1])) && cellBlank == blank(CellAt(row, c))
    ensures var h := headers[c];
      MergedRowBy(headers[..c + 1], row, blank) ==
        if h != "" && !(IsDupHeader(h) && h in used) then out + [CellAt(row, c)]
        else if h != "" && lastBlank && !cellBlank then out[|out| - 1 := CellAt(row, c)]
        else out
  {
    assert headers[..c + 1][..c] == headers[..c];
  }

  /** The `headers.forEach` callback at column c. */
  method MergeColumn(headers: seq<string>, row: Row, c: nat, newRowData: seq<string>, rowUsedHeaders: set<string>)
    returns (rowData: seq<string>, usedHeaders: set<string>)
    requires c < |headers| && newRowData == MergedRowBy(headers[..c], row, Blankish)
    requires forall h :: h in rowUsedHeaders <==> IsDupHeader(h) && h in headers[..c]
    ensures rowData == MergedRowBy(headers[..c + 1], row, Blankish)
    ensures forall h :: h in usedHeaders <==> IsDupHeader(h) && h in headers[..c + 1]
  {
    var header := headers[c];
    var cellValue := CellAt(row, c);
    var lastBlank := |newRowData| > 0 && Blankish(newRowData[|newRowData| - 1]);
    var cellBlank := Blankish(cellValue);
    MergedRowStep(headers, row, c, Blankish, newRowData, rowUsedHeaders, lastBlank, cellBlank);
    assert headers[..c + 1] == headers[..c] + [header];
    rowData, usedHeaders := newRowData, rowUsedHeaders;
    if header == TipoHeader || header == DocHeader {
      if header !in rowUsedHeaders {
        rowData := newRowData + [cellValue];
        usedHeaders := rowUsedHeaders + {header};
      } else if lastBlank && !cellBlank {
        rowData := newRowData[|newRowData| - 1 := cellValue];
      }
    } else if header != "" {
      rowData := newRowData + [cellValue];
    }
  }

  /** `headers.forEach` filling `newRowData`. */
  method MergeRow(headers: seq<string>, row: Row) returns (newRowData: seq<string>)
    ensures newRowData == MergedRow(headers, row)
  {
    newRowData := [];
    var rowUsedHeaders: set<string> := {};
    var originalColIndex := 0;
    while originalColIndex < |headers|
      invariant originalColIndex <= |headers|
      invariant newRowData == MergedRowBy(headers[..originalColIndex], row, Blankish)
      invariant forall h :: h in rowUsedHeaders <==> IsDupHeader(h) && h in headers[..originalColIndex]
    {
      newRowData, rowUsedHeaders := MergeColumn(headers, row, originalColIndex, newRowData, rowUsedHeaders);
      originalColIndex := originalColIndex + 1;
    }
    assert headers[..originalColIndex] == headers;
  }

  /** No kept column lies strictly between columns a and c. */
  predicate NoKeptBetween(headers: seq<string>, a: nat, c: nat)
    requires c <= |headers|
  {
    forall c' :: a < c' < c ==> !KeptColumn(headers, c')
  }

  /** Column c of the row moved into the merged cell of column k, now v: c
      repeats a document header, its cell is not blank, and k is the last
      kept column before c. */
  predicate MovedInto(headers: seq<string>, row: Row, blank: string -> bool, k: nat, v: string, c: nat) {
    k < c < |headers| && RepeatedDup(headers, c) && NoKeptBetween(headers, k, c)
    && !blank(CellAt(row, c)) && v == CellAt(row, c)
  }

  /** The merged cell v of kept column k is k's own cell or, when that is
      blank, a cell moved into it. */
  ghost predicate CellFrom(headers: seq<string>, row: Row, blank: string -> bool, k: nat, v: string) {
    v == CellAt(row, k) || (blank(CellAt(row, k)) && exists c :: MovedInto(headers, row, blank, k, v, c))
  }

  lemma CellFromPrefix(headers: seq<string>, row: Row, blank: string -> bool, n: nat, k: nat, v: string)
    requires k < n <= |headers|
    requires CellFrom(headers[..n], row, blank, k, v)
    ensures CellFrom(headers, row, blank, k, v)
  {
    if v != CellAt(row, k) {
      var c :| MovedInto(headers[..n], row, blank, k, v, c);
      PrefixColumn(headers, n, c);
      forall c' | k < c' < c ensures !KeptColumn(headers, c') {
        PrefixColumn(headers, n, c');
      }
      assert MovedInto(headers, row, blank, k, v, c);
    }
  }

  /** The replacement by repeated document column n of the cell of the last
      kept column before it. */
  lemma CellMovedAt(headers: seq<string>, init: seq<string>, row: Row, blank: string -> bool, k: nat, v: string)
    requires |headers| > 0 && init == headers[..|headers| - 1] && k < |init|
    requires RepeatedDup(headers, |init|) && !blank(CellAt(row, |init|))
    requires blank(v) && CellFrom(init, row, blank, k, v)
    requires NoKeptBetween(init, k, |init|)
    ensures CellFrom(headers, row, blank, k, CellAt(row, |init|))
  {
    var n := |init|;
    assert blank(CellAt(row, k));
    forall c' | k < c' < n ensures !KeptColumn(headers, c') {
      PrefixColumn(headers, n, c');
    }
    assert MovedInto(headers, row, blank, k, CellAt(row, n), n);
  }

  lemma CellsFromPrefix(headers: seq<string>, n: nat, row: Row, blank: string -> bool, ks: seq<nat>, out: seq<string>)
    requires n <= |headers| && |ks| == |out|
    requires forall j :: 0 <= j < |ks| ==> ks[j] < n && CellFrom(headers[..n], row, blank, ks[j], out[j])
    ensures forall j :: 0 <= j < |ks| ==> CellFrom(headers, row, blank, ks[j], out[j])
  {
    forall j | 0 <= j < |ks| ensures CellFrom(headers, row, blank, ks[j], out[j]) {
      CellFromPrefix(headers, row, blank, n, ks[j], out[j]);
    }
  }

  /** No column after the last kept one is kept. */
  lemma AfterLastKept(headers: seq<string>)
    requires |KeptColumns(headers)| > 0
    ensures NoKeptBetween(headers, KeptColumns(headers)[|KeptColumns(headers)| - 1], |headers|)
  {
    var ks := KeptColumns(headers);
    KeptColumnsFacts(headers);
    var last := |ks| - 1;
    forall c' | ks[last] < c' < |headers| ensures !KeptColumn(headers, c') {
      forall m | 0 <= m < |ks| ensures ks[m] != c' {
        if m < last {
          assert ks[m] < ks[last];
        }
      }
      assert c' !in ks;
    }
  }

  /** Appending a merged cell drawn from column k keeps every cell sourced. */
  lemma CellsAppend(headers: seq<string>, row: Row, blank: string -> bool, ks: seq<nat>, out: seq<string>, k: nat, v: string)
    requires |ks| == |out|
    requires forall j :: 0 <= j < |out| ==> CellFrom(headers, row, blank, ks[j], out[j])
    requires CellFrom(headers, row, blank, k, v)
    ensures forall j :: 0 <= j < |out| + 1 ==> CellFrom(headers, row, blank, (ks + [k])[j], (out + [v])[j])
  {
    forall j | 0 <= j < |out| + 1 ensures CellFrom(headers, row, blank, (ks + [k])[j], (out + [v])[j]) {
      if j < |out| {
        assert (ks + [k])[j] == ks[j] && (out + [v])[j] == out[j];
      }
    }
  }

  /** Replacing the last merged cell by one drawn into its column keeps every
      cell sourced. */
  lemma CellsReplaceLast(headers: seq<string>, row: Row, blank: string -> bool, ks: seq<nat>, out: seq<string>, v: string)
    requires |ks| == |out| > 0
    requires forall j :: 0 <= j < |out| ==> CellFrom(headers, row, blank, ks[j], out[j])
    requires CellFrom(headers, row, blank, ks[|ks| - 1], v)
    ensures forall j :: 0 <= j < |out| ==> CellFrom(headers, row, blank, ks[j], out[|out| - 1 := v][j])
  {
  }

  /** Whatever counts as blank, each merged cell is the cell of its own
      column, or, when that one is blank, the non-blank cell of a repeated
      document column whose nearest kept column to the left is this one: a
      later duplicate lands in the previous OUTPUT column, whatever its
      header. */
  lemma {:induction false} MergedRowCells(headers: seq<string>, row: Row, blank: string -> bool)
    ensures forall j :: 0 <= j < |MergedRowBy(headers, row, blank)| ==>
      CellFrom(headers, row, blank, KeptColumns(headers)[j], MergedRowBy(headers, row, blank)[j])
    decreases |headers|
  {
    if headers != [] {
      var n := |headers| - 1;
      var init := headers[..n];
      MergedRowCells(init, row, blank);
      var out0 := MergedRowBy(init, row, blank);
      var ks0 := KeptColumns(init);
      CellsFromPrefix(headers, n, row, blank, ks0, out0);
      var cell := CellAt(row, n);
      if KeptColumn(headers, n) {
        CellsAppend(headers, row, blank, ks0, out0, n, cell);
      } else if headers[n] != "" && |out0| > 0 && blank(out0[|out0| - 1]) && !blank(cell) {
        var last := |out0| - 1;
        AfterLastKept(init);
        assert RepeatedDup(headers, n) && CellFrom(init, row, blank, ks0[last], out0[last]);
        CellMovedAt(headers, init, row, blank, ks0[last], out0[last]);
        CellsReplaceLast(headers, row, blank, ks0, out0, cell);
      }
    }
  }

  /** Without repeated document columns, the merged row is the row's cells
      under the kept columns, each copied once in column order. */
  lemma MergedRowWithoutRepeats(headers: seq<string>, row: Row)
    requires forall c :: 0 <= c < |headers| ==> !RepeatedDup(headers, c)
    ensures |MergedRow(headers, row)| == |MergedHeaders(headers)|
    ensures forall j :: 0 <= j < |MergedRow(headers, row)| ==>
      MergedRow(headers, row)[j] == CellAt(row, KeptColumns(headers)[j])
  {
    MergedRowCells(headers, row, Blankish);
  }

  /** Two adjacent document columns merge into one cell: the second one's
      value only when the first is blank and the second is not. */
  lemma AdjacentDuplicates(a: string, b: string)
    ensures MergedHeaders([DocHeader, DocHeader]) == [DocHeader]
    ensures MergedRow([DocHeader, DocHeader], [a, b]) ==
      [if Blankish(a) && !Blankish(b) then b else a]
  {
    var hs := [DocHeader, DocHeader];
    var row := [a, b];
    assert hs[..1] == [DocHeader] && hs[..1][..0] == [];
    assert KeptColumn(hs[..1], 0);
    assert MergedRowBy(hs[..1], row, Blankish) == [a];
    assert RepeatedDup(hs, 1);
  }

  /** With another column between the two "Documento" columns, the second
      one's value lands under that other column's header: with headers
      Documento, Monto, Documento and cells "", "", "X", the merged row puts
      "X" under "Monto" and leaves "Documento" blank. */
  lemma SeparatedDuplicateMisplaced()
    ensures MergedHeaders([DocHeader, "Monto", DocHeader]) == [DocHeader, "Monto"]
    ensures MergedRow([DocHeader, "Monto", DocHeader], ["", "", "X"]) == ["", "X"]
  {
    var hs := [DocHeader, "Monto", DocHeader];
    var row := ["", "", "X"];
    var h1 := hs[..1];
    var h2 := hs[..2];
    assert h2[..1] == h1 && h1[..0] == [] && hs[..2] == h2;
    assert KeptColumn(h1, 0) && KeptColumn(h2, 1) && RepeatedDup(hs, 2) by {
      assert h1 == [DocHeader] && h2 == [DocHeader, "Monto"];
    }
    assert MergedHeaders(h2) == [DocHeader, "Monto"];
    assert MergedRowBy(h2, row, Blankish) == ["", ""] by {
      assert MergedRowBy(h1, row, Blankish) == [""];
    }
    assert Blankish("") && !Blankish("X") by {
      assert TrimStart("X") == "X" && TrimEnd("X") == "X";
    }
  }

  // ---------------------------------------------------------------------
  // The merged sheet

  const MergeFailed: string := "No se pudo crear el archivo Excel modificado"

  /** A data row of the merged sheet: the merged cells of a row with values,
      nothing for a row without. */
  function MergedRowAt(headers: seq<string>, row: Row): seq<string> {
    if HasValues(row) then MergedRow(headers, row) else []
  }

  function MergedRows(headers: seq<string>, rows: Grid): (r: Grid)
    ensures |r| == |rows|
    ensures forall i :: 0 <= i < |rows| ==> r[i] == MergedRowAt(headers, rows[i])
    decreases |rows|
  {
    if rows == [] then []
    else
      var n := |rows| - 1;
      MergedRows(headers, rows[..n]) + [MergedRowAt(headers, rows[n])]
  }

  /** The rows written to the new worksheet: the merged header row, then
      each data row at its own row number, [] where nothing is written. */
  function WrittenSheet(grid: Grid): Grid
    requires |grid| > 0
  {
    [MergedHeaders(grid[0])] + MergedRows(grid[0], grid[1..])
  }

  /** The number of rows up to the last one written. */
  function WrittenExtent(g: Grid): (n: nat)
    ensures n <= |g|
    ensures forall i :: n <= i < |g| ==> g[i] == []
    ensures n > 0 ==> g[n - 1] != []
    decreases |g|
  {
    if g == [] then 0
    else if g[|g| - 1] != [] then |g|
    else WrittenExtent(g[..|g| - 1])
  }

  /** A row of w cells, each ''. */
  function Blanks(w: nat): (r: seq<string>)
    ensures |r| == w
    ensures forall i :: 0 <= i < w ==> r[i] == ""
  {
    seq(w, _ => "")
  }

  /** The written worksheet as `writeBuffer` and then `sheet_to_json(ws,
      {header: 1, defval: '', blankrows: true})` give it back: the used range
      ends at the last row written, and a row inside it that was never
      written comes back as '' cells across the header row's width. */
  function ReadBack(written: Grid): (g: Grid)
    ensures |g| == WrittenExtent(written)
    ensures forall i :: 0 <= i < |g| ==>
      g[i] == if written[i] == [] then Blanks(|written[0]|) else written[i]
  {
    var n := WrittenExtent(written);
    seq(n, i requires 0 <= i < n => if written[i] == [] then Blanks(|written[0]|) else written[i])
  }

  /** The first sheet with its document columns merged, as the reader gets
      it back; an error when the sheet has no data row. */
  function MergeSheetSpec(grid: Grid): Result<Grid> {
    if |grid| <= 1 then Err(MergeFailed)
    else Ok(ReadBack(WrittenSheet(grid)))
  }

  method MergeSheet(grid: Grid) returns (r: Result<Grid>)
    ensures r == MergeSheetSpec(grid)
  {
    var rowCount := |grid|;
    if rowCount <= 1 {
      return Err(MergeFailed);
    }
    var headers := grid[0];
    var newHeaders := MergeHeaders(headers);
    var rows: Grid := [];
    var rowIndex := 1;
    while rowIndex < rowCount
      invariant 1 <= rowIndex <= rowCount
      invariant rows == MergedRows(headers, grid[1..rowIndex])
    {
      assert grid[1..rowIndex + 1][..rowIndex - 1] == grid[1..rowIndex];
      var row := grid[rowIndex];
      if !HasValues(row) {
        rows := rows + [[]];
      } else {
        var newRowData := MergeRow(headers, row);
        rows := rows + [newRowData];
      }
      rowIndex := rowIndex + 1;
    }
    assert grid[1..rowIndex] == grid[1..];
    r := Ok(ReadBack([newHeaders] + rows));
  }

  /** The merged sheet as it reads back keeps every row up to the last one
      with values, at its row number: a row with values as its merged cells,
      a row without as '' under every merged header. The rows after the last
      one with values are gone, and without any merged header nothing is
      written at all. */
  lemma MergeSheetShape(grid: Grid)
    ensures MergeSheetSpec(grid).Err? <==> |grid| <= 1
    ensures MergeSheetSpec(grid).Ok? && MergedHeaders(grid[0]) == [] ==> MergeSheetSpec(grid).value == []
    ensures MergeSheetSpec(grid).Ok? && MergedHeaders(grid[0]) != [] ==>
      var g := MergeSheetSpec(grid).value;
      1 <= |g| <= |grid| && g[0] == MergedHeaders(grid[0]) &&
      (forall i :: 0 <= i < |g| ==> |g[i]| == |g[0]|) &&
      (forall i :: 1 <= i < |g| ==>
        (HasValues(grid[i]) ==> g[i] == MergedRow(grid[0], grid[i])) &&
        (!HasValues(grid[i]) ==> g[i] == Blanks(|g[0]|))) &&
      (forall i :: |g| <= i < |grid| ==> !HasValues(grid[i])) &&
      (|g| > 1 ==> HasValues(grid[|g| - 1]))
  {
    if |grid| > 1 {
      var g := MergeSheetSpec(grid).value;
      if MergedHeaders(grid[0]) == [] {
        WrittenSheetRows(grid);
        var w := WrittenSheet(grid);
        assert forall i :: 0 <= i < |w| ==> w[i] == [];
        assert WrittenExtent(w) == 0;
      } else {
        ReadBackRows(grid, g);
        ReadBackExtent(grid, g);
      }
    }
  }

  /** With a merged header, the rows read back up to the extent. */
  lemma ReadBackRows(grid: Grid, g: Grid)
    requires |grid| > 1 && MergedHeaders(grid[0]) != [] && g == ReadBack(WrittenSheet(grid))
    ensures 1 <= |g| <= |grid| && g[0] == MergedHeaders(grid[0])
    ensures forall i :: 0 <= i < |g| ==> |g[i]| == |g[0]|
    ensures forall i :: 1 <= i < |g| && HasValues(grid[i]) ==> g[i] == MergedRow(grid[0], grid[i])
    ensures forall i :: 1 <= i < |g| && !HasValues(grid[i]) ==> g[i] == Blanks(|g[0]|)
  {
    WrittenSheetRows(grid);
    var w := WrittenSheet(grid);
    assert w[0] != [];
    assert g[0] == w[0];
  }

  /** With a merged header, the read-back ends at the last row with values. */
  lemma ReadBackExtent(grid: Grid, g: Grid)
    requires |grid| > 1 && MergedHeaders(grid[0]) != [] && g == ReadBack(WrittenSheet(grid))
    ensures forall i :: |g| <= i < |grid| ==> !HasValues(grid[i])
    ensures |g| > 1 ==> HasValues(grid[|g| - 1])
  {
    WrittenSheetRows(grid);
    var w := WrittenSheet(grid);
    assert w[0] != [];
    forall i | |g| <= i < |grid| ensures !HasValues(grid[i]) {
      assert w[i] == [];
    }
  }

  /** The written rows: the merged header row, then each data row's merged
      cells, [] for a row without values. */
  lemma WrittenSheetRows(grid: Grid)
    requires |grid| > 1
    ensures |WrittenSheet(grid)| == |grid|
    ensures WrittenSheet(grid)[0] == MergedHeaders(grid[0])
    ensures forall i :: 1 <= i < |grid| ==>
      WrittenSheet(grid)[i] == MergedRowAt(grid[0], grid[i]) &&
      |WrittenSheet(grid)[i]| == (if HasValues(grid[i]) then |MergedHeaders(grid[0])| else 0)
  {
    var w := WrittenSheet(grid);
    forall i | 1 <= i < |grid|
      ensures w[i] == MergedRowAt(grid[0], grid[i])
    {
      assert grid[1..][i - 1] == grid[i];
    }
  }

  /** On the legacy path the merged sheet is read with row 0 as headers:
      every later row read back is an object of the sheet, a row without
      values included, so the row count is the number of rows up to the
      last one with values. */
  lemma MergedXlsRowCount(grid: Grid)
    requires MergeSheetSpec(grid).Ok? && MergedHeaders(grid[0]) != []
    ensures XlsSheet(NamedGrid("Sheet1", MergeSheetSpec(grid).value)).rowCount ==
      |MergeSheetSpec(grid).value| - 1
  {
    var g := MergeSheetSpec(grid).value;
    ReadBackRows(grid, g);
    var rows := g[1..];
    forall i | 0 <= i < |rows| ensures NonEmptyRow()(rows[i]) {
      assert rows[i] == g[i + 1];
    }
    FilterMapAllKept(rows, NonEmptyRow(), XlsRowObject(TrimAll(g[0])));
  }


  // ---------------------------------------------------------------------
  // processBCPFile

  const InvalidFileMessage: string := "El archivo no es un archivo Excel válido (.xlsx o .xls)"
  const ProcessPrefix: string := "Error procesando archivo BCP: "
  const EmptyFileMessage: string := "El archivo está vacío o no se pudo leer correctamente"
  const NoDataMessage: string := "No se encontraron datos en el archivo Excel"
  /** What the browser's engine says when `workbook.worksheets[0]` is missing. */
  const NoWorksheetMessage: string := "Cannot read properties of undefined (reading 'name')"

  /** The merged first sheet, or None when the merge throws. */
  function MergeOf(book: seq<NamedGrid>): Option<Grid> {
    if book != [] && MergeSheetSpec(book[0].grid).Ok? then Some(MergeSheetSpec(book[0].grid).value) else None
  }

  /** The workbook the reader parses: the merged first sheet, named "Sheet1",
      when the merge succeeds; the upload's own sheets otherwise. */
  function WorkingBook(book: seq<NamedGrid>): seq<NamedGrid> {
    match MergeOf(book)
    case Some(g) => [NamedGrid("Sheet1", g)]
    case None => book
  }

  /** `isXLS`: a name ending in .xls in any letter case, or the legacy MIME type. */
  predicate IsXls(f: FileInfo) {
    EndsWith(Lower(f.name), ".xls") || f.mimeType == XlsMime
  }

  // The legacy reader: every sheet with rows, row 0 as headers.

  function NonEmptyRow(): Row -> bool {
    row => |row| > 0
  }

  /** `rowData[header] = String(cell || '').trim()` over the row's cells. */
  function XlsRowObject(headers: seq<string>): Row -> SheetRow {
    row => Keyed(ZipCells(headers, row))
  }

  /** One sheet of the legacy reader: trimmed row 0 as headers, every later
      non-empty row as an object. */
  function XlsSheet(s: NamedGrid): ExcelSheet
    requires |s.grid| > 0
  {
    var headers := TrimAll(s.grid[0]);
    var rows := FilterMap(s.grid[1..], NonEmptyRow(), XlsRowObject(headers));
    ExcelSheet(s.name, rows, headers, |rows|)
  }

  /** The sheets of the legacy reader, in workbook order, empty ones skipped. */
  function XlsSheets(book: seq<NamedGrid>): (sheets: seq<ExcelSheet>)
    ensures |sheets| <= |book|
    decreases |book|
  {
    if book == [] then []
    else
      var n := |book| - 1;
      XlsSheets(book[..n]) + if |book[n].grid| > 0 then [XlsSheet(book[n])] else []
  }

  /** The sum of the sheets' row counts. */
  function TotalRows(sheets: seq<ExcelSheet>): nat
    decreases |sheets|
  {
    if sheets == [] then 0 else TotalRows(sheets[..|sheets| - 1]) + sheets[|sheets| - 1].rowCount
  }

  /** The rows loop of one legacy sheet. */
  method ReadXlsRows(grid: Grid, headers: seq<string>) returns (rows: seq<SheetRow>)
    requires |grid| > 0
    ensures rows == FilterMap(grid[1..], NonEmptyRow(), XlsRowObject(headers))
  {
    rows := [];
    var i := 1;
    while i < |grid|
      invariant 1 <= i <= |grid|
      invariant rows == FilterMap(grid[1..i], NonEmptyRow(), XlsRowObject(headers))
    {
      assert grid[1..i + 1][..i - 1] == grid[1..i];
      var row := grid[i];
      if |row| > 0 {
        var rowData := BuildObjectFromCells(headers, row);
        rows := rows + [Keyed(rowData)];
      }
      i := i + 1;
    }
    assert grid[1..i] == grid[1..];
  }

  /** The body of the sheet loop for one non-empty sheet. */
  method ReadXlsSheet(s: NamedGrid) returns (sheet: ExcelSheet)
    requires |s.grid| > 0
    ensures sheet == XlsSheet(s)
  {
    var headers := TrimAll(s.grid[0]);
    var rows := ReadXlsRows(s.grid, headers);
    sheet := ExcelSheet(s.name, rows, headers, |rows|);
  }

  /** `workbookXLSX.SheetNames.forEach`. */
  method ReadXlsBook(book: seq<NamedGrid>) returns (sheets: seq<ExcelSheet>, totalRows: nat)
    ensures sheets == XlsSheets(book) && totalRows == TotalRows(sheets)
  {
    sheets := [];
    totalRows := 0;
    var k := 0;
    while k < |book|
      invariant k <= |book|
      invariant sheets == XlsSheets(book[..k]) && totalRows == TotalRows(sheets)
    {
      assert book[..k + 1][..k] == book[..k];
      if |book[k].grid| > 0 {
        var sheet := ReadXlsSheet(book[k]);
        sheets := sheets + [sheet];
        assert sheets[..|sheets| - 1] == XlsSheets(book[..k]);
        totalRows := totalRows + sheet.rowCount;
      }
      k := k + 1;
    }
    assert book[..k] == book;
  }

  // The modern reader: the first worksheet only.

  /** `worksheet.eachRow`: the rows with values, in order. */
  function ValuedRows(grid: Grid): (rows: Grid)
    ensures |rows| <= |grid|
    ensures forall i :: 0 <= i < |rows| ==> HasValues(rows[i])
    decreases |grid|
  {
    if grid == [] then []
    else
      var n := |grid| - 1;
      ValuedRows(grid[..n]) + if HasValues(grid[n]) then [grid[n]] else []
  }

  /** A row is read exactly when it is a row of the sheet with values. */
  lemma {:induction false} ValuedRowsMember(grid: Grid, row: Row)
    ensures row in ValuedRows(grid) <==> row in grid && HasValues(row)
    decreases |grid|
  {
    if grid != [] {
      var n := |grid| - 1;
      ValuedRowsMember(grid[..n], row);
      assert grid == grid[..n] + [grid[n]];
    }
  }

  method CollectValuedRows(grid: Grid) returns (jsonData: Grid)
    ensures jsonData == ValuedRows(grid)
  {
    jsonData := [];
    var i := 0;
    while i < |grid|
      invariant i <= |grid|
      invariant jsonData == ValuedRows(grid[..i])
    {
      assert grid[..i + 1][..i] == grid[..i];
      if HasValues(grid[i]) {
        jsonData := jsonData + [grid[i]];
      }
      i := i + 1;
    }
    assert grid[..i] == grid;
  }

  /** A trimmed header cell that names a BCP column. */
  predicate BcpHeaderCell(cell: string) {
    var l := Lower(cell);
    |cell| > 0 &&
    ((Contains(l, "beneficiario") && Contains(l, "nombre"))
     || (Contains(l, "documento") && Contains(l, "tipo"))
     || Contains(l, "monto")
     || (Contains(l, "cuenta") && Contains(l, "número"))
     || Contains(l, "estado")
     || Contains(l, "observación"))
  }

  /** `hasBCPHeaders` of a non-empty row. */
  predicate IsBcpHeaderRow(row: Row) {
    |row| > 0 && exists k :: 0 <= k < |row| && BcpHeaderCell(Trim(row[k]))
  }

  /** The first BCP header row at an index in [i, limit), or limit. */
  function FirstBcpHeaderFrom(rows: Grid, i: nat, limit: nat): (h: nat)
    requires i <= limit <= |rows|
    ensures i <= h <= limit
    decreases limit - i
  {
    if i == limit then limit
    else if IsBcpHeaderRow(rows[i]) then i
    else FirstBcpHeaderFrom(rows, i + 1, limit)
  }

  /** The search stops at the first header row, or at the limit. */
  lemma {:induction false} FirstBcpHeaderFromFacts(rows: Grid, i: nat, limit: nat)
    requires i <= limit <= |rows|
    ensures forall j :: i <= j < FirstBcpHeaderFrom(rows, i, limit) ==> !IsBcpHeaderRow(rows[j])
    ensures FirstBcpHeaderFrom(rows, i, limit) < limit ==> IsBcpHeaderRow(rows[FirstBcpHeaderFrom(rows, i, limit)])
    decreases limit - i
  {
    if i < limit && !IsBcpHeaderRow(rows[i]) {
      FirstBcpHeaderFromFacts(rows, i + 1, limit);
    }
  }

  /** headerRowIndex: the first BCP header row among the first ten rows read,
      or row 0 when there is none. */
  function BcpHeaderIndex(rows: Grid): (h: nat)
    ensures h < |rows| || (|rows| == 0 && h == 0)
  {
    var h := FirstBcpHeaderFrom(rows, 0, Processor.Min(10, |rows|));
    if h < Processor.Min(10, |rows|) then h else 0
  }

  /** The header row is among the first ten; no earlier row is a header row;
      it is a header row whenever one of the first ten is, and row 0
      otherwise. */
  lemma BcpHeaderIndexFacts(rows: Grid)
    ensures BcpHeaderIndex(rows) < 10
    ensures forall j :: 0 <= j < BcpHeaderIndex(rows) ==> !IsBcpHeaderRow(rows[j])
    ensures (exists j :: 0 <= j < Processor.Min(10, |rows|) && IsBcpHeaderRow(rows[j])) ==>
      IsBcpHeaderRow(rows[BcpHeaderIndex(rows)])
    ensures (forall j :: 0 <= j < Processor.Min(10, |rows|) ==> !IsBcpHeaderRow(rows[j])) ==> BcpHeaderIndex(rows) == 0
  {
    FirstBcpHeaderFromFacts(rows, 0, Processor.Min(10, |rows|));
  }

  /** The header search loop. */
  method FindBcpHeaderRow(jsonData: Grid) returns (headerRowIndex: nat)
    ensures headerRowIndex == BcpHeaderIndex(jsonData)
  {
    var limit := Processor.Min(10, |jsonData|);
    var i := 0;
    while i < limit
      invariant 0 <= i <= limit
      invariant FirstBcpHeaderFrom(jsonData, 0, limit) == FirstBcpHeaderFrom(jsonData, i, limit)
    {
      if IsBcpHeaderRow(jsonData[i]) {
        return i;
      }
      i := i + 1;
    }
    headerRowIndex := 0;
  }

  /** `Object.values(rowData).some(value => value !== '')` */
  predicate HasData(o: Obj) {
    exists k :: 0 <= k < |o| && o[k].value != ""
  }

  /** A data row is kept when it is not empty and its object has some value. */
  function BcpRowKeeper(headers: seq<string>): Row -> bool {
    row => |row| > 0 && HasData(ZipHeaders(headers, row, false))
  }

  /** `rowData[header] = row[colIndex] || ''`: the cells as they are. */
  function BcpRowObject(headers: seq<string>): Row -> SheetRow {
    row => Keyed(ZipHeaders(headers, row, false))
  }

  /** The data loop from the row after the header row to the end. */
  method CollectBcpRows(jsonData: Grid, start: nat, headers: seq<string>) returns (rows: seq<SheetRow>)
    requires start <= |jsonData|
    ensures rows == FilterMap(jsonData[start..], BcpRowKeeper(headers), BcpRowObject(headers))
  {
    ghost var keep := BcpRowKeeper(headers);
    ghost var f := BcpRowObject(headers);
    rows := [];
    var i := start;
    while i < |jsonData|
      invariant start <= i <= |jsonData|
      invariant rows == FilterMap(jsonData[start..i], keep, f)
    {
      ghost var done := jsonData[start..i];
      assert jsonData[start..i + 1] == done + [jsonData[i]];
      var row := jsonData[i];
      FilterMapStep(done, row, keep, f);
      ghost var next := FilterMap(done + [row], keep, f);
      if |row| > 0 {
        var rowData := BuildObject(headers, row, false);
        assert keep(row) == HasData(rowData) && f(row) == Keyed(rowData);
        if HasData(rowData) {
          rows := rows + [Keyed(rowData)];
        }
      } else {
        assert !keep(row);
      }
      assert rows == next;
      i := i + 1;
    }
    assert jsonData[start..i] == jsonData[start..];
  }

  /** The modern reader on the first worksheet. */
  function XlsxData(fileName: string, sheet: NamedGrid): Result<ExcelData> {
    var jsonData := ValuedRows(sheet.grid);
    if jsonData == [] then Err(ProcessPrefix + NoDataMessage)
    else Ok(XlsxBook(fileName, sheet.name, jsonData))
  }

  /** The one-sheet workbook made from the rows read: the header row's
      trimmed cells as headers, and the kept rows after it. */
  function XlsxBook(fileName: string, sheetName: string, jsonData: Grid): ExcelData
    requires jsonData != []
  {
    var headers := TrimAll(jsonData[BcpHeaderIndex(jsonData)]);
    var rows := XlsxRows(jsonData);
    ExcelData(fileName, [ExcelSheet(sheetName, rows, headers, |rows|)], |rows|)
  }

  /** The kept rows after the header row. */
  function XlsxRows(jsonData: Grid): seq<SheetRow>
    requires jsonData != []
  {
    var h := BcpHeaderIndex(jsonData);
    var headers := TrimAll(jsonData[h]);
    FilterMap(jsonData[h + 1..], BcpRowKeeper(headers), BcpRowObject(headers))
  }

  /** What processBCPFile resolves or rejects with, given the upload's name
      and type, its size in bytes and its sheets as the workbook libraries
      read them. */
  function ProcessBcpFileSpec(file: FileInfo, byteLength: nat, book: seq<NamedGrid>): Result<ExcelData> {
    if !IsExcelUpload(file) then Err(InvalidFileMessage)
    else
      var wb := WorkingBook(book);
      if MergeOf(book).None? && byteLength == 0 then Err(ProcessPrefix + EmptyFileMessage)
      else if IsXls(file) then
        var sheets := XlsSheets(wb);
        Ok(ExcelData(file.name, sheets, TotalRows(sheets)))
      else if wb == [] then Err(ProcessPrefix + NoWorksheetMessage)
      else XlsxData(file.name, wb[0])
  }

  /** The modern reader's steps on the first worksheet. */
  method ReadXlsxSheet(fileName: string, worksheet: NamedGrid) returns (r: Result<ExcelData>)
    ensures r == XlsxData(fileName, worksheet)
  {
    var jsonData := CollectValuedRows(worksheet.grid);
    if jsonData == [] {
      return Err(ProcessPrefix + NoDataMessage);
    }
    var data := ReadXlsxBook(fileName, worksheet.name, jsonData);
    r := Ok(data);
  }

  /** The header search and the data loop on the rows that have values. */
  method ReadXlsxBook(fileName: string, sheetName: string, jsonData: Grid) returns (data: ExcelData)
    requires jsonData != []
    ensures data == XlsxBook(fileName, sheetName, jsonData)
  {
    var headerRowIndex := FindBcpHeaderRow(jsonData);
    var headers := TrimAll(jsonData[headerRowIndex]);
    var rows := CollectBcpRows(jsonData, headerRowIndex + 1, headers);
    data := ExcelData(fileName, [ExcelSheet(sheetName, rows, headers, |rows|)], |rows|);
    XlsxBookOf(fileName, sheetName, jsonData, headerRowIndex, headers, rows);
  }

  lemma XlsxBookOf(fileName: string, sheetName: string, jsonData: Grid, h: nat, headers: seq<string>, rows: seq<SheetRow>)
    requires jsonData != [] && h == BcpHeaderIndex(jsonData) && headers == TrimAll(jsonData[h])
    requires rows == FilterMap(jsonData[h + 1..], BcpRowKeeper(headers), BcpRowObject(headers))
    ensures XlsxBook(fileName, sheetName, jsonData) == ExcelData(fileName, [ExcelSheet(sheetName, rows, headers, |rows|)], |rows|)
  {
  }

  method ProcessBcpFile(file: FileInfo, byteLength: nat, book: seq<NamedGrid>) returns (r: Result<ExcelData>)
    ensures r == ProcessBcpFileSpec(file, byteLength, book)
  {
    if !IsExcelUpload(file) {
      return Err(InvalidFileMessage);
    }
    var modified: Option<Grid> := None;
    if book != [] {
      var merged := MergeSheet(book[0].grid);
      if merged.Ok? {
        modified := Some(merged.value);
      }
    }
    assert modified == MergeOf(book);
    var wb := if modified.Some? then [NamedGrid("Sheet1", modified.value)] else book;
    if modified.None? && byteLength == 0 {
      return Err(ProcessPrefix + EmptyFileMessage);
    }
    if IsXls(file) {
      var sheets, totalRows := ReadXlsBook(wb);
      return Ok(ExcelData(file.name, sheets, totalRows));
    }
    if wb == [] {
      return Err(ProcessPrefix + NoWorksheetMessage);
    }
    r := ReadXlsxSheet(file.name, wb[0]);
  }

  /** The modern reader yields one sheet, under the worksheet's name, whose
      headers are the trimmed cells of the header row, with row and total
      counts equal to the number of rows. */
  lemma XlsxBookShape(fileName: string, sheetName: string, jsonData: Grid)
    requires jsonData != []
    ensures |XlsxBook(fileName, sheetName, jsonData).sheets| == 1
    ensures XlsxBook(fileName, sheetName, jsonData).fileName == fileName
    ensures XlsxBook(fileName, sheetName, jsonData).sheets[0].name == sheetName
    ensures XlsxBook(fileName, sheetName, jsonData).sheets[0].headers == TrimAll(jsonData[BcpHeaderIndex(jsonData)])
    ensures XlsxBook(fileName, sheetName, jsonData).totalRows == XlsxBook(fileName, sheetName, jsonData).sheets[0].rowCount
      == |XlsxBook(fileName, sheetName, jsonData).sheets[0].data|
    ensures XlsxBook(fileName, sheetName, jsonData).sheets[0].data == XlsxRows(jsonData)
  {
  }

  /** The sheet's rows are exactly the later rows that are not empty and
      have some non-empty value, each as the object of its cells under the
      headers (a repeated header keeps its last cell). */
  lemma XlsxBookRows(jsonData: Grid, r: SheetRow)
    requires jsonData != []
    ensures r in XlsxRows(jsonData) <==>
      exists i :: BcpHeaderIndex(jsonData) < i < |jsonData| && |jsonData[i]| > 0 &&
        HasData(ZipHeaders(TrimAll(jsonData[BcpHeaderIndex(jsonData)]), jsonData[i], false)) &&
        r == Keyed(ZipHeaders(TrimAll(jsonData[BcpHeaderIndex(jsonData)]), jsonData[i], false))
  {
    var h := BcpHeaderIndex(jsonData);
    BcpRowsMember(jsonData, h + 1, TrimAll(jsonData[h]), r);
  }

  /** The rows kept from a start row on are the objects of the non-empty
      rows with some value. */
  lemma BcpRowsMember(jsonData: Grid, start: nat, headers: seq<string>, r: SheetRow)
    requires start <= |jsonData|
    ensures r in FilterMap(jsonData[start..], BcpRowKeeper(headers), BcpRowObject(headers)) <==>
      exists i :: start <= i < |jsonData| && |jsonData[i]| > 0 && HasData(ZipHeaders(headers, jsonData[i], false)) &&
        r == Keyed(ZipHeaders(headers, jsonData[i], false))
  {
    var keep, f := BcpRowKeeper(headers), BcpRowObject(headers);
    assert jsonData[start..] == jsonData[start..|jsonData|];
    FilterMapSlice(jsonData, start, |jsonData|, keep, f, r);
  }

  /** Every row of the sheet is an object with unique keys and some value. */
  lemma XlsxRowsKeyed(jsonData: Grid, r: SheetRow)
    requires jsonData != [] && r in XlsxRows(jsonData)
    ensures r.Keyed? && UniqueKeys(r.props) && HasData(r.props)
  {
    XlsxBookRows(jsonData, r);
    var headers := TrimAll(jsonData[BcpHeaderIndex(jsonData)]);
    var i :| BcpHeaderIndex(jsonData) < i < |jsonData| && |jsonData[i]| > 0 &&
      HasData(ZipHeaders(headers, jsonData[i], false)) && r == Keyed(ZipHeaders(headers, jsonData[i], false));
    ZipHeadersUnique(headers, jsonData[i], false);
  }

  /** One legacy sheet: its headers are the trimmed cells of row 0, and its
      rows are exactly the later non-empty rows, each as the object of its
      trimmed cells under the headers, with the row count equal to the
      number of rows. */
  lemma XlsSheetRows(s: NamedGrid, r: SheetRow)
    requires |s.grid| > 0
    ensures XlsSheet(s).name == s.name && XlsSheet(s).headers == TrimAll(s.grid[0])
    ensures XlsSheet(s).rowCount == |XlsSheet(s).data|
    ensures r in XlsSheet(s).data <==>
      exists i :: 1 <= i < |s.grid| && |s.grid[i]| > 0 && r == Keyed(ZipCells(TrimAll(s.grid[0]), s.grid[i]))
    ensures r in XlsSheet(s).data ==> r.Keyed? && UniqueKeys(r.props)
  {
    var headers := TrimAll(s.grid[0]);
    assert s.grid[1..] == s.grid[1..|s.grid|];
    FilterMapSlice(s.grid, 1, |s.grid|, NonEmptyRow(), XlsRowObject(headers), r);
    if r in XlsSheet(s).data {
      var i :| 1 <= i < |s.grid| && NonEmptyRow()(s.grid[i]) && r == XlsRowObject(headers)(s.grid[i]);
      var n := if |s.grid[i]| < |headers| then |s.grid[i]| else |headers|;
      ZipHeadersGet(headers[..n], s.grid[i], true, "");
    }
  }

  /** The legacy reader keeps exactly the sheets that have rows, in workbook
      order. */
  lemma {:induction false} XlsSheetsMember(book: seq<NamedGrid>, s: ExcelSheet)
    ensures s in XlsSheets(book) <==> exists k :: 0 <= k < |book| && |book[k].grid| > 0 && s == XlsSheet(book[k])
  {
    if s in XlsSheets(book) {
      XlsSheetsFrom(book, s);
    }
    if exists k :: 0 <= k < |book| && |book[k].grid| > 0 && s == XlsSheet(book[k]) {
      var k :| 0 <= k < |book| && |book[k].grid| > 0 && s == XlsSheet(book[k]);
      XlsSheetsHas(book, k);
    }
  }

  lemma {:induction false} XlsSheetsHas(book: seq<NamedGrid>, k: nat)
    requires k < |book| && |book[k].grid| > 0
    ensures XlsSheet(book[k]) in XlsSheets(book)
    decreases |book|
  {
    var n := |book| - 1;
    if k < n {
      XlsSheetsHas(book[..n], k);
      assert book[..n][k] == book[k];
    }
  }

  lemma {:induction false} XlsSheetsFrom(book: seq<NamedGrid>, s: ExcelSheet)
    requires s in XlsSheets(book)
    ensures exists k :: 0 <= k < |book| && |book[k].grid| > 0 && s == XlsSheet(book[k])
    decreases |book|
  {
    var n := |book| - 1;
    if s in XlsSheets(book[..n]) {
      XlsSheetsFrom(book[..n], s);
      var k :| 0 <= k < n && |book[..n][k].grid| > 0 && s == XlsSheet(book[..n][k]);
      assert book[..n][k] == book[k];
    } else {
      assert |book[n].grid| > 0 && s == XlsSheet(book[n]);
    }
  }

  /** Adding a sheet adds its rows to the total. */
  lemma {:induction false} TotalRowsAppend(sheets: seq<ExcelSheet>, more: seq<ExcelSheet>)
    ensures TotalRows(sheets + more) == TotalRows(sheets) + TotalRows(more)
    decreases |more|
  {
    if more == [] {
      assert sheets + more == sheets;
    } else {
      var n := |more| - 1;
      assert (sheets + more)[..|sheets| + n] == sheets + more[..n];
      assert (sheets + more)[|sheets| + n] == more[n];
      TotalRowsAppend(sheets, more[..n]);
    }
  }

  /** processBCPFile rejects exactly a file that is not a spreadsheet, an
      empty upload whose merge failed, and, on the modern path, a workbook
      without worksheets or a first worksheet without rows; it resolves with
      the upload's name otherwise. When the merge of the first sheet
      succeeds, the reader works on the merged sheet alone. */
  lemma ProcessBcpOutcome(file: FileInfo, byteLength: nat, book: seq<NamedGrid>)
    ensures ProcessBcpFileSpec(file, byteLength, book).Err? <==>
      !IsExcelUpload(file) ||
      (MergeOf(book).None? && byteLength == 0) ||
      (!IsXls(file) && (WorkingBook(book) == [] || ValuedRows(WorkingBook(book)[0].grid) == []))
    ensures !IsExcelUpload(file) ==> ProcessBcpFileSpec(file, byteLength, book) == Err(InvalidFileMessage)
    ensures IsExcelUpload(file) && ProcessBcpFileSpec(file, byteLength, book).Err? ==>
      StartsWith(ProcessBcpFileSpec(file, byteLength, book).error, ProcessPrefix)
    ensures ProcessBcpFileSpec(file, byteLength, book).Ok? ==>
      ProcessBcpFileSpec(file, byteLength, book).value.fileName == file.name
    ensures MergeOf(book).Some? ==> WorkingBook(book) == [NamedGrid("Sheet1", MergeOf(book).value)]
    ensures IsExcelUpload(file) && !IsXls(file) && ProcessBcpFileSpec(file, byteLength, book).Ok? ==>
      |ProcessBcpFileSpec(file, byteLength, book).value.sheets| == 1
  {
    var r := ProcessBcpFileSpec(file, byteLength, book);
    var wb := WorkingBook(book);
    if IsExcelUpload(file) && !(MergeOf(book).None? && byteLength == 0) && !IsXls(file) && wb != [] {
      var jsonData := ValuedRows(wb[0].grid);
      if jsonData != [] {
        XlsxBookShape(file.name, wb[0].name, jsonData);
      }
    }
  }
}
