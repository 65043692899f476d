// Sheets as the engine sees them once a workbook library has read them: a
// grid of cell strings, the JavaScript objects that map header names to cell
// strings, and the sheet and workbook records of src/types/excel.ts.
module Sheet {
  import opened Wrappers
  import opened Text
  import opened Numbers

  /** One row of cells, each already `String(cell || '')`; "" also stands for
      a cell the library left out. */
  type Row = seq<string>
  type Grid = seq<Row>

  /** `row[i] || ''`: the cell, or "" past the end of the row. */
  function CellAt(row: Row, i: nat): string {
    if i < |row| then row[i] else ""
  }

  /** `row.map(cell => String(cell || '').toLowerCase()).join(' ')` */
  function RowText(row: Row): string {
    Join(LowerAll(row), " ")
  }

  /** `row.map(cell => String(cell || '').trim()).join(' ').toLowerCase()` */
  function TrimmedRowText(row: Row): string {
    Lower(Join(TrimAll(row), " "))
  }

  /** A lower-case token without spaces found in the trimmed row text is also
      found in the untrimmed row text. */
  lemma TokenSurvivesTrim(row: Row, token: string)
    requires |token| > 0 && ' ' !in token
    requires Contains(TrimmedRowText(row), token)
    ensures Contains(RowText(row), token)
  {
    LowerJoin(TrimAll(row));
    ContainsJoinedPart(LowerAll(TrimAll(row)), token);
    var k :| 0 <= k < |row| && Contains(LowerAll(TrimAll(row))[k], token);
    ContainsLowerTrim(row[k], token);
    ContainsPartOfJoin(LowerAll(row), " ", k, token);
  }

  /** ExcelJS's `row.hasValues`: some cell holds a value. */
  predicate HasValues(row: Row) {
    exists i :: 0 <= i < |row| && row[i] != ""
  }

  // ---------------------------------------------------------------------
  // JavaScript objects keyed by header name

  datatype Prop = Prop(key: string, value: string)

  /** A plain object as its own-property list in insertion order. */
  type Obj = seq<Prop>

  function Keys(o: Obj): (ks: seq<string>)
    ensures |ks| == |o| && forall i :: 0 <= i < |o| ==> ks[i] == o[i].key
  {
    seq(|o|, i requires 0 <= i < |o| => o[i].key)
  }

  /** Object.values */
  function Values(o: Obj): (vs: seq<string>)
    ensures |vs| == |o| && forall i :: 0 <= i < |o| ==> vs[i] == o[i].value
  {
    seq(|o|, i requires 0 <= i < |o| => o[i].value)
  }

  predicate UniqueKeys(o: Obj) {
    forall i, j :: 0 <= i < j < |o| ==> o[i].key != o[j].key
  }

  /** `o[k]`, None for undefined. */
  function Get(o: Obj, k: string): (r: Option<string>)
    ensures r.Some? <==> k in Keys(o)
    ensures r.Some? ==> exists i :: 0 <= i < |o| && o[i] == Prop(k, r.value)
  {
    if o == [] then None
    else if o[0].key == k then Some(o[0].value)
    else
      assert Keys(o) == [o[0].key] + Keys(o[1..]);
      var r := Get(o[1..], k);
      assert r.Some? ==> exists i :: 0 <= i < |o[1..]| && o[1..][i] == Prop(k, r.value);
      r
  }

  /** `String(o[k] || '')` */
  function GetOr(o: Obj, k: string): string {
    match Get(o, k)
    case None => ""
    case Some(v) => v
  }

  /** `o[k] = v`: an existing property keeps its place and takes the new value,
      a new one is appended. */
  function Put(o: Obj, k: string, v: string): (r: Obj)
    ensures k in Keys(o) ==> Keys(r) == Keys(o)
    ensures k !in Keys(o) ==> r == o + [Prop(k, v)]
  {
    if o == [] then [Prop(k, v)]
    else if o[0].key == k then [Prop(k, v)] + o[1..]
    else
      assert Keys(o) == [o[0].key] + Keys(o[1..]);
      [o[0]] + Put(o[1..], k, v)
  }

  /** After `o[k] = v`, reading k gives v and every other key reads as before. */
  lemma {:induction false} PutGet(o: Obj, k: string, v: string, k': string)
    ensures Get(Put(o, k, v), k') == if k' == k then Some(v) else Get(o, k')
  {
    if o != [] && o[0].key != k {
      PutGet(o[1..], k, v, k');
      assert Put(o, k, v)[1..] == Put(o[1..], k, v);
    }
  }

  /** Assignment never creates a second property with the same name. */
  lemma PutUnique(o: Obj, k: string, v: string)
    requires UniqueKeys(o)
    ensures UniqueKeys(Put(o, k, v))
  {
    var r := Put(o, k, v);
    if k in Keys(o) {
      assert Keys(r) == Keys(o);
      forall i, j | 0 <= i < j < |r| ensures r[i].key != r[j].key {
        assert Keys(r)[i] == Keys(o)[i] && Keys(r)[j] == Keys(o)[j];
      }
    }
  }

  // ---------------------------------------------------------------------
  // Matching keys loosely, as the getColumnValue helpers do

  /** A key without accents, without characters other than letters, digits,
      '_' and white space, in lower case. */
  function NormalizedKey(key: string): string {
    Lower(KeepWordAndSpace(StripAccents(key)))
  }

  /** The column name without accents, in lower case. */
  function NormalizedColumn(column: string): string {
    Lower(StripAccents(column))
  }

  predicate KeyMatches(key: string, normalizedColumn: string) {
    Contains(NormalizedKey(key), normalizedColumn) || Contains(normalizedColumn, NormalizedKey(key))
  }

  /** A key that normalises to "" (one made only of punctuation) matches
      every column name. */
  lemma EmptyKeyMatchesAll(key: string, normalizedColumn: string)
    requires NormalizedKey(key) == ""
    ensures KeyMatches(key, normalizedColumn)
  {
    ContainsEmpty(normalizedColumn);
  }

  // ---------------------------------------------------------------------
  // Finding a key, as the key loops of the getColumnValue helpers do

  /** The first entry from i on whose key satisfies p, or |o| when none does. */
  function FirstKeyFrom(o: Obj, p: string -> bool, i: nat): (j: nat)
    requires i <= |o|
    ensures i <= j <= |o|
    decreases |o| - i
  {
    if i == |o| then i
    else if p(o[i].key) then i
    else FirstKeyFrom(o, p, i + 1)
  }

  /** The search stops at the first key that satisfies p, and only there. */
  lemma {:induction false} FirstKeyFromFacts(o: Obj, p: string -> bool, i: nat)
    requires i <= |o|
    ensures forall j :: i <= j < FirstKeyFrom(o, p, i) ==> !p(o[j].key)
    ensures FirstKeyFrom(o, p, i) < |o| ==> p(o[FirstKeyFrom(o, p, i)].key)
    decreases |o| - i
  {
    if i < |o| && !p(o[i].key) {
      FirstKeyFromFacts(o, p, i + 1);
    }
  }

  /** One step of the search: a key satisfying p stops it, any other passes
      it on. */
  lemma FirstKeyStep(o: Obj, p: string -> bool, i: nat)
    requires i < |o|
    ensures p(o[i].key) ==> FirstKeyFrom(o, p, i) == i
    ensures !p(o[i].key) ==> FirstKeyFrom(o, p, i) == FirstKeyFrom(o, p, i + 1)
  {
  }

  /** The first key satisfying p is where the search from 0 stops. */
  lemma FirstKeyIs(o: Obj, p: string -> bool, j: nat)
    requires j < |o| && p(o[j].key)
    requires forall m :: 0 <= m < j ==> !p(o[m].key)
    ensures FirstKeyFrom(o, p, 0) == j
  {
    FirstKeyFromFacts(o, p, 0);
  }

  /** `for (const key of Object.keys(rowObj)) if (p(key)) break` */
  method FindKey(o: Obj, p: string -> bool) returns (j: nat)
    ensures j == FirstKeyFrom(o, p, 0)
  {
    j := 0;
    while j < |o| && !p(o[j].key)
      invariant j <= |o|
      invariant FirstKeyFrom(o, p, j) == FirstKeyFrom(o, p, 0)
    {
      j := j + 1;
    }
  }

  /** `String(rowObj[key] || '')` for the entry found, "" past the end. */
  function ValueAt(o: Obj, j: nat): string {
    if j < |o| then GetOr(o, o[j].key) else ""
  }

  // ---------------------------------------------------------------------
  // Turning a row of cells into an object

  /** The cell under column i, trimmed when the caller trims. */
  function CellText(row: Row, i: nat, trim: bool): string {
    if trim then Trim(CellAt(row, i)) else CellAt(row, i)
  }

  /** `headers.forEach((h, i) => { if (h) o[h] = cell i })`: every non-empty
      header, in column order, assigned its cell. */
  function ZipHeaders(headers: seq<string>, row: Row, trim: bool): (o: Obj)
    decreases |headers|
  {
    if headers == [] then []
    else
      var k := |headers| - 1;
      var o := ZipHeaders(headers[..k], row, trim);
      if headers[k] == "" then o else Put(o, headers[k], CellText(row, k, trim))
  }

  /** `row.forEach((cell, i) => { if (headers[i]) o[headers[i]] = cell.trim() })`:
      visiting the row's cells and skipping those without a header is
      visiting the headers up to the row's length (BuildObjectFromCells walks
      the cells and proves it). */
  function ZipCells(headers: seq<string>, row: Row): Obj {
    ZipHeaders(headers[..if |row| < |headers| then |row| else |headers|], row, true)
  }

  /** The index of the last column carrying header h. */
  function LastIndex(headers: seq<string>, h: string): (j: nat)
    requires h in headers
    ensures j < |headers| && headers[j] == h
    ensures forall i :: j < i < |headers| ==> headers[i] != h
  {
    if headers[|headers| - 1] == h then |headers| - 1
    else LastIndex(headers[..|headers| - 1], h)
  }

  /** The object built from a row has exactly the non-empty headers as keys,
      each once, and a header that repeats takes the cell of its LAST column:
      a later duplicate overwrites an earlier one. */
  lemma {:induction false} ZipHeadersGet(headers: seq<string>, row: Row, trim: bool, h: string)
    ensures UniqueKeys(ZipHeaders(headers, row, trim))
    ensures h == "" || h !in headers ==> Get(ZipHeaders(headers, row, trim), h) == None
    ensures h != "" && h in headers ==>
      Get(ZipHeaders(headers, row, trim), h) == Some(CellText(row, LastIndex(headers, h), trim))
    decreases |headers|
  {
    if headers != [] {
      var k := |headers| - 1;
      var init := headers[..k];
      ZipHeadersGet(init, row, trim, h);
      var o := ZipHeaders(init, row, trim);
      assert forall x :: x in headers <==> x in init || x == headers[k];
      if headers[k] != "" {
        PutGet(o, headers[k], CellText(row, k, trim), h);
        PutUnique(o, headers[k], CellText(row, k, trim));
      }
    }
  }

  lemma ZipHeadersUnique(headers: seq<string>, row: Row, trim: bool)
    ensures UniqueKeys(ZipHeaders(headers, row, trim))
  {
    ZipHeadersGet(headers, row, trim, "");
  }

  /** Walks the header list as `headers.forEach` does. */
  method BuildObject(headers: seq<string>, row: Row, trim: bool) returns (o: Obj)
    ensures o == ZipHeaders(headers, row, trim)
  {
    o := [];
    var i := 0;
    while i < |headers|
      invariant i <= |headers|
      invariant o == ZipHeaders(headers[..i], row, trim)
    {
      assert headers[..i + 1][..i] == headers[..i];
      if headers[i] != "" {
        o := Put(o, headers[i], CellText(row, i, trim));
      }
      i := i + 1;
    }
    assert headers[..i] == headers;
  }

  /** Walks the row's cells as `row.forEach` does. */
  method BuildObjectFromCells(headers: seq<string>, row: Row) returns (o: Obj)
    ensures o == ZipCells(headers, row)
  {
    o := [];
    var i := 0;
    while i < |row|
      invariant i <= |row|
      invariant o == ZipHeaders(headers[..if i < |headers| then i else |headers|], row, true)
    {
      if i < |headers| {
        assert headers[..i + 1][..i] == headers[..i];
        if headers[i] != "" {
          o := Put(o, headers[i], Trim(row[i]));
        }
      }
      i := i + 1;
    }
  }

  /** The headers as `row.forEach` sees them on a sparse row, one built
      cell by cell with `eachCell`: a hole ("") is never visited, so its
      column acts as one without a header. */
  function PresentHeaders(headers: seq<string>, row: Row): (r: seq<string>)
    ensures |r| == if |row| < |headers| then |row| else |headers|
    ensures forall i :: 0 <= i < |r| ==> r[i] == if row[i] == "" then "" else headers[i]
  {
    seq(if |row| < |headers| then |row| else |headers|,
        i requires 0 <= i < |row| && i < |headers| => if row[i] == "" then "" else headers[i])
  }

  /** `row.forEach((cell, i) => { if (headers[i]) o[headers[i]] = cell.trim() })`
      on a sparse row: a hole neither adds its header nor overwrites the
      value an earlier column of the same header gave. */
  function ZipPresent(headers: seq<string>, row: Row): Obj {
    ZipHeaders(PresentHeaders(headers, row), row, true)
  }

  /** Column j holds a cell under header h, and no later column of h does. */
  predicate LastPresent(headers: seq<string>, row: Row, h: string, j: nat) {
    j < |headers| && j < |row| && headers[j] == h && row[j] != "" &&
    forall k :: j < k < |headers| && k < |row| && headers[k] == h ==> row[k] == ""
  }

  /** On a sparse row a header is a key exactly when one of its columns
      holds a cell, and its value is the trimmed cell of the last such
      column: holes after it leave it alone. */
  lemma ZipPresentGet(headers: seq<string>, row: Row, h: string)
    ensures UniqueKeys(ZipPresent(headers, row))
    ensures Get(ZipPresent(headers, row), h).Some? <==>
      h != "" && exists j :: 0 <= j < |headers| && j < |row| && headers[j] == h && row[j] != ""
    ensures forall j :: 0 <= j < |row| && h != "" && LastPresent(headers, row, h, j) ==>
      Get(ZipPresent(headers, row), h) == Some(Trim(row[j]))
  {
    var p := PresentHeaders(headers, row);
    ZipHeadersGet(p, row, true, h);
    if h != "" {
      PresentHeadersHas(headers, row, h);
      forall j | 0 <= j < |row| && LastPresent(headers, row, h, j)
        ensures Get(ZipPresent(headers, row), h) == Some(Trim(row[j]))
      {
        PresentHeadersLast(headers, row, h, j);
      }
    }
  }

  lemma PresentHeadersHas(headers: seq<string>, row: Row, h: string)
    requires h != ""
    ensures h in PresentHeaders(headers, row) <==>
      exists j :: 0 <= j < |headers| && j < |row| && headers[j] == h && row[j] != ""
  {
    var p := PresentHeaders(headers, row);
    if h in p {
      var j :| 0 <= j < |p| && p[j] == h;
      assert headers[j] == h && row[j] != "";
    }
    if exists j :: 0 <= j < |headers| && j < |row| && headers[j] == h && row[j] != "" {
      var j :| 0 <= j < |headers| && j < |row| && headers[j] == h && row[j] != "";
      assert p[j] == h;
    }
  }

  lemma PresentHeadersLast(headers: seq<string>, row: Row, h: string, j: nat)
    requires h != "" && LastPresent(headers, row, h, j)
    ensures h in PresentHeaders(headers, row) && LastIndex(PresentHeaders(headers, row), h) == j
  {
    var p := PresentHeaders(headers, row);
    assert p[j] == h;
    var last := LastIndex(p, h);
    assert p[last] == h;
    assert last <= j;
  }

  /** Walks the cells of a sparse row as `row.forEach` does, skipping holes. */
  method BuildObjectFromPresentCells(headers: seq<string>, row: Row) returns (o: Obj)
    ensures o == ZipPresent(headers, row)
  {
    ghost var p := PresentHeaders(headers, row);
    o := [];
    var i := 0;
    while i < |row|
      invariant i <= |row|
      invariant o == ZipHeaders(p[..if i < |headers| then i else |headers|], row, true)
    {
      if i < |headers| {
        assert p[..i + 1][..i] == p[..i];
        if row[i] != "" && headers[i] != "" {
          o := Put(o, headers[i], Trim(row[i]));
        }
      }
      i := i + 1;
    }
    assert p[..|p|] == p;
  }

  // ---------------------------------------------------------------------
  // Rows, sheets and workbooks

  /** A row of ExcelSheet.data: an object from a processor, an array, or a
      primitive string (anything else is not modelled). */
  datatype SheetRow = Keyed(props: Obj) | Cells(cells: Row) | Scalar(text: string)

  /** `String(row[i] || '')`: on an object this reads the property named by
      the decimal text of i. */
  function At(r: SheetRow, i: nat): string {
    match r
    case Keyed(o) => GetOr(o, NatToString(i))
    case Cells(c) => CellAt(c, i)
    case Scalar(t) => if i < |t| then [t[i]] else ""
  }

  /** `String(row[name] || '')` for a name that is not an array index: arrays
      and strings have no such property. */
  function Named(r: SheetRow, name: string): string {
    match r
    case Keyed(o) => GetOr(o, name)
    case Cells(_) => ""
    case Scalar(_) => ""
  }

  /** `Array.isArray(row) ? row : Object.values(row)` */
  function ValuesOf(r: SheetRow): Row {
    match r
    case Keyed(o) => Values(o)
    case Cells(c) => c
    case Scalar(t) => seq(|t|, i requires 0 <= i < |t| => [t[i]])
  }

  /** `rows.filter(keep).map(f)` */
  function FilterMap(rows: Grid, keep: Row -> bool, f: Row -> SheetRow): (out: seq<SheetRow>)
    ensures |out| <= |rows|
    decreases |rows|
  {
    if rows == [] then []
    else
      var n := |rows| - 1;
      FilterMap(rows[..n], keep, f) + if keep(rows[n]) then [f(rows[n])] else []
  }

  /** One row more. */
  lemma FilterMapStep(rows: Grid, row: Row, keep: Row -> bool, f: Row -> SheetRow)
    ensures FilterMap(rows + [row], keep, f) == FilterMap(rows, keep, f) + if keep(row) then [f(row)] else []
  {
    assert (rows + [row])[..|rows|] == rows;
  }

  /** The output holds exactly the images of the kept rows. */
  lemma {:induction false} FilterMapMember(rows: Grid, keep: Row -> bool, f: Row -> SheetRow, r: SheetRow)
    ensures r in FilterMap(rows, keep, f) <==> exists i :: 0 <= i < |rows| && keep(rows[i]) && r == f(rows[i])
    decreases |rows|
  {
    if rows != [] {
      var n := |rows| - 1;
      FilterMapMember(rows[..n], keep, f, r);
      if exists i :: 0 <= i < |rows| && keep(rows[i]) && r == f(rows[i]) {
        var i :| 0 <= i < |rows| && keep(rows[i]) && r == f(rows[i]);
        if i < n {
          assert rows[..n][i] == rows[i];
        }
      }
    }
  }

  /** With every row kept, nothing is dropped. */
  lemma {:induction false} FilterMapAllKept(rows: Grid, keep: Row -> bool, f: Row -> SheetRow)
    requires forall i :: 0 <= i < |rows| ==> keep(rows[i])
    ensures |FilterMap(rows, keep, f)| == |rows|
    decreases |rows|
  {
    if rows != [] {
      FilterMapAllKept(rows[..|rows| - 1], keep, f);
    }
  }

  /** FilterMap over the rows lo..hi of a grid, indexed by the grid. */
  lemma FilterMapSlice(grid: Grid, lo: nat, hi: nat, keep: Row -> bool, f: Row -> SheetRow, r: SheetRow)
    requires lo <= hi <= |grid|
    ensures r in FilterMap(grid[lo..hi], keep, f) <==> exists i :: lo <= i < hi && keep(grid[i]) && r == f(grid[i])
  {
    var region := grid[lo..hi];
    FilterMapMember(region, keep, f, r);
    if exists i :: lo <= i < hi && keep(grid[i]) && r == f(grid[i]) {
      var i :| lo <= i < hi && keep(grid[i]) && r == f(grid[i]);
      assert region[i - lo] == grid[i];
    }
    if exists k :: 0 <= k < |region| && keep(region[k]) && r == f(region[k]) {
      var k :| 0 <= k < |region| && keep(region[k]) && r == f(region[k]);
      assert region[k] == grid[k + lo];
    }
  }

  datatype ExcelSheet = ExcelSheet(name: string, data: seq<SheetRow>, headers: seq<string>, rowCount: nat)

  /** ExcelData without its upload time stamp. */
  datatype ExcelData = ExcelData(fileName: string, sheets: seq<ExcelSheet>, totalRows: nat)

  /** A sheet as the workbook library hands it over. */
  datatype NamedGrid = NamedGrid(name: string, grid: Grid)

  /** The name and MIME type of an uploaded file. */
  datatype FileInfo = FileInfo(name: string, mimeType: string)

  const XlsxMime: string := "application/vnd.openxmlformats-officedocument.spreadsheetml.sheet"
  const XlsMime: string := "application/vnd.ms-excel"

  /** `validateExcelFile` / `isValidExcelFile`: an Excel MIME type, or a name
      ending in .xlsx or .xls in any letter case. */
  predicate IsExcelUpload(f: FileInfo) {
    f.mimeType == XlsxMime || f.mimeType == XlsMime
    || EndsWith(Lower(f.name), ".xlsx") || EndsWith(Lower(f.name), ".xls")
  }

  lemma LowerCharIdempotent(c: char)
    ensures LowerChar(LowerChar(c)) == LowerChar(c)
  {
  }

  /** The extension test ignores letter case: renaming a file to lower case
      does not change whether it is accepted. */
  lemma IsExcelUploadIgnoresCase(f: FileInfo)
    ensures IsExcelUpload(f) <==> IsExcelUpload(FileInfo(Lower(f.name), f.mimeType))
  {
    forall i | 0 <= i < |f.name| ensures Lower(Lower(f.name))[i] == Lower(f.name)[i] {
      LowerCharIdempotent(f.name[i]);
    }
    assert Lower(Lower(f.name)) == Lower(f.name);
  }
}
