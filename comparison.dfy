// What src/components/ComparisonView.tsx computes about two processed
// files: each file's distinct headers in first-seen order, the headers they
// share and those only one of them has, the column compatibility and the
// row and sheet differences. The markup itself is not modelled.
module Comparison {
  import opened Wrappers
  import opened Text
  import opened Sheet

  predicate Distinct(s: seq<string>) {
    forall i, j :: 0 <= i < j < |s| ==> s[i] != s[j]
  }

  function Elems(s: seq<string>): set<string> {
    set x | x in s
  }

  // ---------------------------------------------------------------------
  // getUniqueHeaders

  /** `allHeaders.add(h)` for each h in turn, the set kept in insertion order
      as `Array.from` lists it. */
  function AddAll(acc: seq<string>, hs: seq<string>): seq<string>
    decreases |hs|
  {
    if hs == [] then acc
    else
      var n := |hs| - 1;
      var before := AddAll(acc, hs[..n]);
      if hs[n] in before then before else before + [hs[n]]
  }

  /** The headers of every sheet, in sheet order, each listed once. */
  function UniqueHeaders(sheets: seq<ExcelSheet>): seq<string>
    decreases |sheets|
  {
    if sheets == [] then [] else AddAll(UniqueHeaders(sheets[..|sheets| - 1]), sheets[|sheets| - 1].headers)
  }

  /** Adding keeps the list free of repeats and holds exactly the old
      entries and the added ones, the old ones first and in place. */
  lemma {:induction false} AddAllFacts(acc: seq<string>, hs: seq<string>)
    requires Distinct(acc)
    ensures Distinct(AddAll(acc, hs))
    ensures Elems(AddAll(acc, hs)) == Elems(acc) + Elems(hs)
    ensures |acc| <= |AddAll(acc, hs)| && AddAll(acc, hs)[..|acc|] == acc
    decreases |hs|
  {
    if hs != [] {
      var n := |hs| - 1;
      AddAllFacts(acc, hs[..n]);
      assert hs == hs[..n] + [hs[n]];
      var before := AddAll(acc, hs[..n]);
      assert Elems(hs) == Elems(hs[..n]) + {hs[n]};
      if hs[n] !in before {
        assert (before + [hs[n]])[..|acc|] == before[..|acc|];
        assert Elems(before + [hs[n]]) == Elems(before) + {hs[n]};
      } else {
        assert hs[n] in Elems(before);
      }
    }
  }

  /** getUniqueHeaders lists each header of the file once, and every header
      it lists belongs to one of the file's sheets. */
  lemma {:induction false} UniqueHeadersFacts(sheets: seq<ExcelSheet>)
    ensures Distinct(UniqueHeaders(sheets))
    ensures forall h :: h in UniqueHeaders(sheets) <==> exists k :: 0 <= k < |sheets| && h in sheets[k].headers
    decreases |sheets|
  {
    if sheets != [] {
      var n := |sheets| - 1;
      UniqueHeadersFacts(sheets[..n]);
      AddAllFacts(UniqueHeaders(sheets[..n]), sheets[n].headers);
      assert UniqueHeaders(sheets) == AddAll(UniqueHeaders(sheets[..n]), sheets[n].headers);
      forall h ensures h in UniqueHeaders(sheets) <==> exists k :: 0 <= k < |sheets| && h in sheets[k].headers {
        assert h in UniqueHeaders(sheets) <==> h in Elems(UniqueHeaders(sheets));
        assert h in UniqueHeaders(sheets[..n]) <==> h in Elems(UniqueHeaders(sheets[..n]));
        assert h in sheets[n].headers <==> h in Elems(sheets[n].headers);
        if exists k :: 0 <= k < |sheets| && h in sheets[k].headers {
          var k :| 0 <= k < |sheets| && h in sheets[k].headers;
          if k < n {
            assert sheets[..n][k] == sheets[k];
          }
        }
      }
    }
  }

  /** The loop of one sheet's headers. */
  method AddHeaders(allHeaders: seq<string>, hs: seq<string>) returns (r: seq<string>)
    ensures r == AddAll(allHeaders, hs)
  {
    r := allHeaders;
    var j := 0;
    while j < |hs|
      invariant j <= |hs|
      invariant r == AddAll(allHeaders, hs[..j])
    {
      assert hs[..j + 1][..j] == hs[..j];
      if hs[j] !in r {
        r := r + [hs[j]];
      }
      j := j + 1;
    }
    assert hs[..j] == hs;
  }

  /** getUniqueHeaders: `data.sheets.forEach(sheet => sheet.headers.forEach(add))` */
  method GetUniqueHeaders(data: ExcelData) returns (headers: seq<string>)
    ensures headers == UniqueHeaders(data.sheets)
  {
    headers := [];
    var k := 0;
    while k < |data.sheets|
      invariant k <= |data.sheets|
      invariant headers == UniqueHeaders(data.sheets[..k])
    {
      assert data.sheets[..k + 1][..k] == data.sheets[..k];
      headers := AddHeaders(headers, data.sheets[k].headers);
      k := k + 1;
    }
    assert data.sheets[..k] == data.sheets;
  }

  // ---------------------------------------------------------------------
  // Common and unique headers

  /** `xs.filter(h => ys.includes(h))` when `inside`, `xs.filter(h =>
      !ys.includes(h))` otherwise. */
  function FilterIn(xs: seq<string>, ys: seq<string>, inside: bool): (r: seq<string>)
    ensures |r| <= |xs|
    decreases |xs|
  {
    if xs == [] then []
    else
      var n := |xs| - 1;
      FilterIn(xs[..n], ys, inside) + if (xs[n] in ys) == inside then [xs[n]] else []
  }

  /** A header is kept exactly when it is listed and its presence in the
      other list is the one asked for. */
  lemma {:induction false} FilterInMember(xs: seq<string>, ys: seq<string>, inside: bool, h: string)
    ensures h in FilterIn(xs, ys, inside) <==> h in xs && (h in ys) == inside
    decreases |xs|
  {
    if xs != [] {
      var n := |xs| - 1;
      FilterInMember(xs[..n], ys, inside, h);
      assert xs == xs[..n] + [xs[n]];
    }
  }

  /** A list without repeats gives one without repeats. */
  lemma {:induction false} FilterInDistinct(xs: seq<string>, ys: seq<string>, inside: bool)
    requires Distinct(xs)
    ensures Distinct(FilterIn(xs, ys, inside))
    decreases |xs|
  {
    if xs != [] {
      var n := |xs| - 1;
      assert Distinct(xs[..n]);
      FilterInDistinct(xs[..n], ys, inside);
      assert xs[n] !in xs[..n];
      FilterInMember(xs[..n], ys, inside, xs[n]);
    }
  }

  /** The two filters split the list. */
  lemma {:induction false} FilterInSplit(xs: seq<string>, ys: seq<string>)
    ensures |FilterIn(xs, ys, true)| + |FilterIn(xs, ys, false)| == |xs|
    decreases |xs|
  {
    if xs != [] {
      FilterInSplit(xs[..|xs| - 1], ys);
    }
  }

  /** The membership facts of one filter for every header. */
  lemma FilterInElems(xs: seq<string>, ys: seq<string>, inside: bool)
    ensures forall h :: h in FilterIn(xs, ys, inside) <==> h in xs && (h in ys) == inside
  {
    forall h ensures h in FilterIn(xs, ys, inside) <==> h in xs && (h in ys) == inside {
      FilterInMember(xs, ys, inside, h);
    }
  }

  /** A list without repeats has as many entries as elements. */
  lemma {:induction false} DistinctCard(s: seq<string>)
    requires Distinct(s)
    ensures |Elems(s)| == |s|
    decreases |s|
  {
    if s != [] {
      var n := |s| - 1;
      DistinctCard(s[..n]);
      assert s == s[..n] + [s[n]];
      assert Elems(s) == Elems(s[..n]) + {s[n]};
      assert s[n] !in Elems(s[..n]);
    }
  }

  /** Column compatibility, `common / max(columns) * 100`; None stands for the
      NaN shown when neither file has a header. */
  function Compatibility(common: nat, columns1: nat, columns2: nat): Option<real> {
    var m := if columns1 >= columns2 then columns1 else columns2;
    if m == 0 then None else Some(common as real / m as real * 100.0)
  }

  /** `Math.abs(a - b)` */
  function AbsDiff(a: nat, b: nat): nat {
    if a >= b then a - b else b - a
  }

  /** `fileName.split('.')[0]`: the name up to its first dot. */
  function BaseName(fileName: string): (r: string)
    ensures '.' !in r
    ensures |r| <= |fileName| && fileName[..|r|] == r
    ensures '.' !in fileName ==> r == fileName
  {
    if '.' in fileName then
      assert Split(fileName, '.')[0] == fileName[..IndexOfChar(fileName, '.')];
      Split(fileName, '.')[0]
    else Split(fileName, '.')[0]
  }

  // ---------------------------------------------------------------------
  // The component

  datatype Summary = Summary(
    name1: string, sheets1: nat, rows1: nat, columns1: nat,
    name2: string, sheets2: nat, rows2: nat, columns2: nat,
    commonHeaders: seq<string>, uniqueToFile1: seq<string>, uniqueToFile2: seq<string>,
    label1: string, label2: string,
    compatibility: Option<real>, rowDifference: nat, sheetDifference: nat)

  /** Without both files only the invitation to upload them is shown. */
  datatype View = Missing | Compared(summary: Summary)

  function SummaryOf(file1: ExcelData, file2: ExcelData): Summary {
    var h1 := UniqueHeaders(file1.sheets);
    var h2 := UniqueHeaders(file2.sheets);
    var common := FilterIn(h1, h2, true);
    Summary(file1.fileName, |file1.sheets|, file1.totalRows, |h1|,
            file2.fileName, |file2.sheets|, file2.totalRows, |h2|,
            common, FilterIn(h1, h2, false), FilterIn(h2, h1, false),
            BaseName(file1.fileName), BaseName(file2.fileName),
            Compatibility(|common|, |h1|, |h2|),
            AbsDiff(file1.totalRows, file2.totalRows), AbsDiff(|file1.sheets|, |file2.sheets|))
  }

  function ComparisonSpec(file1: Option<ExcelData>, file2: Option<ExcelData>): View {
    if file1.None? || file2.None? then Missing else Compared(SummaryOf(file1.value, file2.value))
  }

  method Compare(file1: Option<ExcelData>, file2: Option<ExcelData>) returns (v: View)
    ensures v == ComparisonSpec(file1, file2)
  {
    if file1.None? || file2.None? {
      return Missing;
    }
    var f1 := file1.value;
    var f2 := file2.value;
    var file1Headers := GetUniqueHeaders(f1);
    var file2Headers := GetUniqueHeaders(f2);
    var commonHeaders := FilterIn(file1Headers, file2Headers, true);
    var uniqueToFile1 := FilterIn(file1Headers, file2Headers, false);
    var uniqueToFile2 := FilterIn(file2Headers, file1Headers, false);
    v := Compared(Summary(f1.fileName, |f1.sheets|, f1.totalRows, |file1Headers|,
                          f2.fileName, |f2.sheets|, f2.totalRows, |file2Headers|,
                          commonHeaders, uniqueToFile1, uniqueToFile2,
                          BaseName(f1.fileName), BaseName(f2.fileName),
                          Compatibility(|commonHeaders|, |file1Headers|, |file2Headers|),
                          AbsDiff(f1.totalRows, f2.totalRows), AbsDiff(|f1.sheets|, |f2.sheets|)));
  }

  // ---------------------------------------------------------------------
  // What the comparison promises

  /** The common headers are those both files have, the unique ones those
      only one has; the common and the first file's unique headers split the
      first file's columns, and the common and the second file's unique
      headers split the second file's. */
  lemma HeaderPartition(file1: ExcelData, file2: ExcelData)
    ensures var s := SummaryOf(file1, file2);
      (forall h :: h in s.commonHeaders <==> h in UniqueHeaders(file1.sheets) && h in UniqueHeaders(file2.sheets)) &&
      (forall h :: h in s.uniqueToFile1 <==> h in UniqueHeaders(file1.sheets) && h !in UniqueHeaders(file2.sheets)) &&
      (forall h :: h in s.uniqueToFile2 <==> h in UniqueHeaders(file2.sheets) && h !in UniqueHeaders(file1.sheets)) &&
      |s.commonHeaders| + |s.uniqueToFile1| == s.columns1 &&
      |s.commonHeaders| + |s.uniqueToFile2| == s.columns2 &&
      Distinct(s.commonHeaders) && Distinct(s.uniqueToFile1) && Distinct(s.uniqueToFile2)
  {
    var h1 := UniqueHeaders(file1.sheets);
    var h2 := UniqueHeaders(file2.sheets);
    UniqueHeadersFacts(file1.sheets);
    UniqueHeadersFacts(file2.sheets);
    FilterInElems(h1, h2, true);
    FilterInElems(h1, h2, false);
    FilterInElems(h2, h1, true);
    FilterInElems(h2, h1, false);
    FilterInDistinct(h1, h2, true);
    FilterInDistinct(h1, h2, false);
    FilterInDistinct(h2, h1, true);
    FilterInDistinct(h2, h1, false);
    FilterInSplit(h1, h2);
    FilterInSplit(h2, h1);
    var c1 := FilterIn(h1, h2, true);
    var c2 := FilterIn(h2, h1, true);
    DistinctCard(c1);
    DistinctCard(c2);
    assert Elems(c1) == Elems(c2);
  }

  /** The compatibility is at most 100%, and exactly 100% when both files
      have the same headers; it is NaN only when neither has a header. */
  lemma CompatibilityBounds(file1: ExcelData, file2: ExcelData)
    ensures var s := SummaryOf(file1, file2);
      (s.compatibility.None? <==> s.columns1 == 0 && s.columns2 == 0) &&
      (s.compatibility.Some? ==> 0.0 <= s.compatibility.value <= 100.0) &&
      (s.compatibility.Some? ==>
        (s.compatibility.value == 100.0 <==> Elems(UniqueHeaders(file1.sheets)) == Elems(UniqueHeaders(file2.sheets))))
  {
    var h1 := UniqueHeaders(file1.sheets);
    var h2 := UniqueHeaders(file2.sheets);
    UniqueHeadersFacts(file1.sheets);
    UniqueHeadersFacts(file2.sheets);
    FilterInElems(h1, h2, true);
    HeaderPartition(file1, file2);
    RatioOfHeaders(h1, h2, FilterIn(h1, h2, true));
  }

  /** The compatibility of two header lists without repeats, whose common
      headers are listed once each. */
  lemma RatioOfHeaders(h1: seq<string>, h2: seq<string>, common: seq<string>)
    requires Distinct(h1) && Distinct(h2) && Distinct(common)
    requires forall h :: h in common <==> h in h1 && h in h2
    ensures Compatibility(|common|, |h1|, |h2|).None? <==> |h1| == 0 && |h2| == 0
    ensures Compatibility(|common|, |h1|, |h2|).Some? ==> 0.0 <= Compatibility(|common|, |h1|, |h2|).value <= 100.0
    ensures Compatibility(|common|, |h1|, |h2|).Some? ==>
      (Compatibility(|common|, |h1|, |h2|).value == 100.0 <==> Elems(h1) == Elems(h2))
  {
    CommonCard(h1, h2, common);
    var m := if |h1| >= |h2| then |h1| else |h2|;
    if m > 0 {
      CommonRatio(|common|, m);
    }
  }

  /** There are no more common headers than headers in either list, and as
      many as in both exactly when both lists hold the same headers. */
  lemma CommonCard(h1: seq<string>, h2: seq<string>, common: seq<string>)
    requires Distinct(h1) && Distinct(h2) && Distinct(common)
    requires forall h :: h in common <==> h in h1 && h in h2
    ensures |common| <= |h1| && |common| <= |h2|
    ensures |common| == |h1| && |common| == |h2| <==> Elems(h1) == Elems(h2)
  {
    DistinctCard(common);
    DistinctCard(h1);
    DistinctCard(h2);
    var a := Elems(h1);
    var b := Elems(h2);
    assert Elems(common) == a * b;
    SubsetCard(a * b, a);
    SubsetCard(a * b, b);
    if a == b {
      assert a * b == a;
    }
    if |common| == |h1| && |common| == |h2| {
    }
  }

  lemma CommonRatio(c: nat, m: nat)
    requires 0 < m && c <= m
    ensures 0.0 <= c as real / m as real * 100.0 <= 100.0
    ensures c as real / m as real * 100.0 == 100.0 <==> c == m
  {
    assert c as real / m as real <= 1.0;
  }

  /** A subset is no larger than its superset, and as large only when it is
      the whole superset. */
  lemma SubsetCard(x: set<string>, y: set<string>)
    requires x <= y
    ensures |x| <= |y|
    ensures |x| >= |y| ==> x == y
  {
    var d := y - x;
    assert y == x + d && x * d == {};
  }

  /** Swapping the files swaps the unique headers and keeps the common
      headers (as a set), the compatibility and both differences. */
  lemma SwapSymmetric(file1: ExcelData, file2: ExcelData)
    ensures var s := SummaryOf(file1, file2);
      var t := SummaryOf(file2, file1);
      t.uniqueToFile1 == s.uniqueToFile2 && t.uniqueToFile2 == s.uniqueToFile1 &&
      Elems(t.commonHeaders) == Elems(s.commonHeaders) && |t.commonHeaders| == |s.commonHeaders| &&
      t.compatibility == s.compatibility &&
      t.rowDifference == s.rowDifference && t.sheetDifference == s.sheetDifference
  {
    HeaderPartition(file1, file2);
    HeaderPartition(file2, file1);
    var s := SummaryOf(file1, file2);
    var t := SummaryOf(file2, file1);
    assert Elems(t.commonHeaders) == Elems(s.commonHeaders);
    DistinctCard(t.commonHeaders);
    DistinctCard(s.commonHeaders);
  }

  /** The comparison is shown exactly when both files are present. */
  lemma ShownWithBoth(file1: Option<ExcelData>, file2: Option<ExcelData>)
    ensures ComparisonSpec(file1, file2).Compared? <==> file1.Some? && file2.Some?
    ensures ComparisonSpec(file1, file2).Compared? ==>
      ComparisonSpec(file1, file2).summary.name1 == file1.value.fileName &&
      ComparisonSpec(file1, file2).summary.name2 == file2.value.fileName
  {
  }
}
