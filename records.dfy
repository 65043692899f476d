// The normalised payment record (AbonoRecord of src/types/excel.ts), the
// retention rule every normaliser applies before pushing a record, the
// `${fileName}_${index}` identifiers, and the sheet-by-sheet, row-by-row
// accumulation that all normalisers share.
module Records {
  import opened Wrappers
  import opened Text
  import opened Numbers
  import opened Sheet

  datatype AbonoRecord = AbonoRecord(
    id: string,
    beneficiario: string,
    documento_tipo: string,
    documento: string,
    documento_2: string,
    documento_3: string,
    monto_mn: real,
    monto: real,
    tc: string,
    monto_abonado: real,
    monto_abonado_2: real,
    cuenta_tipo: string,
    cuenta_numero: string,
    cuenta_nombre: string,
    estado: string,
    observaciones: string,
    banco: string,
    origen: string)

  /** A record with every text field "" and every amount 0, which each
      normaliser then fills in. */
  function Blank(id: string, banco: string, origen: string): AbonoRecord {
    AbonoRecord(id, "", "", "", "", "", 0.0, 0.0, "", 0.0, 0.0, "", "", "", "", "", banco, origen)
  }

  /** The bank a file comes from, as the caller's `bankType` names it. */
  datatype Bank = BBVA | BCP

  function BankName(b: Bank): string {
    match b
    case BBVA => "BBVA"
    case BCP => "BCP"
  }

  /** `text || '-'` */
  function OrDash(s: string): (r: string)
    ensures r != ""
    ensures s != "" ==> r == s
  {
    if s == "" then "-" else s
  }

  /** CombinedData without its processing time stamp. */
  datatype CombinedData = CombinedData(records: seq<AbonoRecord>, totalRecords: nat, sources: seq<string>)

  /** `record.beneficiario || record.monto > 0 || record.estado || record.cuenta_numero` */
  predicate Retained(r: AbonoRecord) {
    r.beneficiario != "" || r.monto > 0.0 || r.estado != "" || r.cuenta_numero != ""
  }

  /** `${fileName}_${index}` */
  function MakeId(fileName: string, index: nat): string {
    fileName + "_" + NatToString(index)
  }

  /** An identifier determines both the file name and the row index: the text
      after the last '_' is all digits, so it is the index. */
  lemma MakeIdInjective(f1: string, i1: nat, f2: string, i2: nat)
    requires MakeId(f1, i1) == MakeId(f2, i2)
    ensures f1 == f2 && i1 == i2
  {
    DigitSuffixDetermined(f1, NatToString(i1), f2, NatToString(i2));
    NatToStringInjective(i1, i2);
  }

  lemma DigitSuffixDetermined(f1: string, d1: string, f2: string, d2: string)
    requires IsDigits(d1) && IsDigits(d2)
    requires f1 + "_" + d1 == f2 + "_" + d2
    ensures f1 == f2 && d1 == d2
  {
    var s := f1 + "_" + d1;
    forall j | |f1| < j < |s| ensures s[j] != '_' {
      assert s[j] == d1[j - |f1| - 1];
    }
    forall j | |f2| < j < |s| ensures s[j] != '_' {
      assert s[j] == d2[j - |f2| - 1];
    }
    assert s[|f1|] == '_' && s[|f2|] == '_';
    assert |f1| == |f2|;
    assert f1 == s[..|f1|] == f2;
    assert d1 == s[|f1| + 1..] == d2;
  }

  /** `parseFloat(String(cell || '0')) || 0` */
  function AmountOrZero(cell: string): real {
    ParseAmount(if cell == "" then "0" else cell)
  }

  /** An empty or digit-free cell gives amount 0, so it alone never keeps a
      record. */
  lemma AmountOfDigitFree(cell: string)
    requires forall i :: 0 <= i < |cell| ==> !IsDigit(cell[i])
    ensures AmountOrZero(cell) == 0.0
  {
    if cell == "" {
      ParseAmountOfNat(0);
      assert NatToString(0) == "0";
    } else {
      ParseAmountWithoutDigits(cell);
    }
  }

  // ---------------------------------------------------------------------
  // The push-if-retained loop of every normaliser, as a function

  /** The records pushed while walking one sheet's rows in order: each row's
      candidate (None when the row yields no record) is kept when retained. */
  function KeepRetained(cands: seq<Option<AbonoRecord>>): (rs: seq<AbonoRecord>)
    ensures |rs| <= |cands|
    decreases |cands|
  {
    if cands == [] then []
    else
      var n := |cands| - 1;
      KeepRetained(cands[..n]) + if cands[n].Some? && Retained(cands[n].value) then [cands[n].value] else []
  }

  /** The records pushed while walking every sheet in order. */
  function Collected(perSheet: seq<seq<Option<AbonoRecord>>>): seq<AbonoRecord>
    decreases |perSheet|
  {
    if perSheet == [] then []
    else
      var n := |perSheet| - 1;
      Collected(perSheet[..n]) + KeepRetained(perSheet[n])
  }

  /** `cands.forEach(c => { if (c is retained) acc.push(c) })` */
  method PushRetained(acc: seq<AbonoRecord>, cands: seq<Option<AbonoRecord>>) returns (r: seq<AbonoRecord>)
    ensures r == acc + KeepRetained(cands)
  {
    r := acc;
    var i := 0;
    while i < |cands|
      invariant i <= |cands|
      invariant r == acc + KeepRetained(cands[..i])
    {
      assert cands[..i + 1][..i] == cands[..i];
      AppendAssoc(acc, KeepRetained(cands[..i]), if cands[i].Some? && Retained(cands[i].value) then [cands[i].value] else []);
      if cands[i].Some? && Retained(cands[i].value) {
        r := r + [cands[i].value];
      }
      i := i + 1;
    }
    assert cands[..i] == cands;
  }

  /** Keeping the retained records of one more candidate. */
  lemma KeepRetainedSnoc(cands: seq<Option<AbonoRecord>>, i: nat)
    requires i < |cands|
    ensures KeepRetained(cands[..i + 1]) == KeepRetained(cands[..i]) + KeepRetained([cands[i]])
  {
    assert cands[..i + 1][..i] == cands[..i];
    assert [cands[i]][..0] == [];
  }

  /** One sheet more of the accumulation over the first k sheets. */
  lemma CollectedPrefixStep(perSheet: seq<seq<Option<AbonoRecord>>>, k: nat)
    requires k < |perSheet|
    ensures Collected(perSheet[..k + 1]) == Collected(perSheet[..k]) + KeepRetained(perSheet[k])
  {
    assert perSheet[..k + 1][..k] == perSheet[..k];
  }

  /** The candidates of a list of sheets: row i of each sheet yields
      make(row, i), the index restarting with each sheet. */
  function Candidates(sheets: seq<ExcelSheet>, make: (SheetRow, nat) -> Option<AbonoRecord>): (c: seq<seq<Option<AbonoRecord>>>)
    ensures |c| == |sheets|
    ensures forall k :: 0 <= k < |sheets| ==> |c[k]| == |sheets[k].data|
    ensures forall k, i :: 0 <= k < |sheets| && 0 <= i < |sheets[k].data| ==> c[k][i] == make(sheets[k].data[i], i)
  {
    seq(|sheets|, k requires 0 <= k < |sheets| =>
      seq(|sheets[k].data|, i requires 0 <= i < |sheets[k].data| => make(sheets[k].data[i], i)))
  }

  /** `sheets.forEach(sheet => sheet.data.forEach((row, index) => ...push if retained))` */
  method CollectSheets(acc: seq<AbonoRecord>, sheets: seq<ExcelSheet>, make: (SheetRow, nat) -> Option<AbonoRecord>)
    returns (r: seq<AbonoRecord>)
    ensures r == acc + Collected(Candidates(sheets, make))
  {
    var cands := Candidates(sheets, make);
    r := acc;
    var k := 0;
    while k < |sheets|
      invariant k <= |sheets|
      invariant r == acc + Collected(cands[..k])
    {
      CollectedPrefixStep(cands, k);
      AppendAssoc(acc, Collected(cands[..k]), KeepRetained(cands[k]));
      r := PushRetained(r, cands[k]);
      k := k + 1;
    }
    assert cands[..k] == cands;
  }

  /** A record is collected from sheets exactly when some row of some sheet
      yields it and it is retained. */
  lemma CandidatesMember(sheets: seq<ExcelSheet>, make: (SheetRow, nat) -> Option<AbonoRecord>, r: AbonoRecord)
    ensures r in Collected(Candidates(sheets, make)) <==>
      Retained(r) && exists k, i :: 0 <= k < |sheets| && 0 <= i < |sheets[k].data| && make(sheets[k].data[i], i) == Some(r)
  {
    var c := Candidates(sheets, make);
    CollectedMember(c, r);
    if Yields(c, r) {
      var k, i :| 0 <= k < |c| && 0 <= i < |c[k]| && c[k][i] == Some(r);
      assert make(sheets[k].data[i], i) == Some(r);
    }
    if exists k, i :: 0 <= k < |sheets| && 0 <= i < |sheets[k].data| && make(sheets[k].data[i], i) == Some(r) {
      var k, i :| 0 <= k < |sheets| && 0 <= i < |sheets[k].data| && make(sheets[k].data[i], i) == Some(r);
      assert c[k][i] == Some(r);
    }
  }

  /** A record of bank `bank` from file `fileName`, named after row `index`,
      with no '-' in its account number. */
  predicate MadeFrom(r: AbonoRecord, bank: string, fileName: string, index: nat) {
    r.banco == bank && r.origen == fileName && r.id == MakeId(fileName, index) && '-' !in r.cuenta_numero
  }

  /** A reader of a file's rows: every object or array row, and nothing
      else, yields a record made from that row. */
  ghost predicate MakesRecords(make: (SheetRow, nat) -> Option<AbonoRecord>, bank: string, fileName: string) {
    forall row, i :: (make(row, i).Some? <==> !row.Scalar?) &&
      (make(row, i).Some? ==> MadeFrom(make(row, i).value, bank, fileName, i))
  }

  /** What such a reader collects: exactly the retained records of the
      object and array rows, each made from one of the file's rows. */
  lemma MadeMember(sheets: seq<ExcelSheet>, make: (SheetRow, nat) -> Option<AbonoRecord>,
                   bank: string, fileName: string, r: AbonoRecord)
    requires MakesRecords(make, bank, fileName)
    ensures r in Collected(Candidates(sheets, make)) <==>
      Retained(r) &&
      (exists k, i :: 0 <= k < |sheets| && 0 <= i < |sheets[k].data| &&
         !sheets[k].data[i].Scalar? && make(sheets[k].data[i], i) == Some(r))
    ensures r in Collected(Candidates(sheets, make)) ==> exists i: nat :: MadeFrom(r, bank, fileName, i)
  {
    CandidatesMember(sheets, make, r);
    if r in Collected(Candidates(sheets, make)) {
      var k, i :| 0 <= k < |sheets| && 0 <= i < |sheets[k].data| && make(sheets[k].data[i], i) == Some(r);
      assert MadeFrom(r, bank, fileName, i);
    }
  }

  /** A record is pushed exactly when some row produced it and it is retained. */
  lemma {:induction false} KeepRetainedMember(cands: seq<Option<AbonoRecord>>, r: AbonoRecord)
    ensures r in KeepRetained(cands) <==> Retained(r) && exists i :: 0 <= i < |cands| && cands[i] == Some(r)
    decreases |cands|
  {
    if cands != [] {
      var n := |cands| - 1;
      var init := cands[..n];
      KeepRetainedMember(init, r);
      var tail := if cands[n].Some? && Retained(cands[n].value) then [cands[n].value] else [];
      assert KeepRetained(cands) == KeepRetained(init) + tail;
      assert r in tail <==> Retained(r) && cands[n] == Some(r);
      if exists i :: 0 <= i < |cands| && cands[i] == Some(r) {
        var i :| 0 <= i < |cands| && cands[i] == Some(r);
        if i < n {
          assert init[i] == Some(r);
        }
      }
      if exists i :: 0 <= i < n && init[i] == Some(r) {
        var i :| 0 <= i < n && init[i] == Some(r);
        assert cands[i] == Some(r);
      }
    }
  }

  /** Some row of some sheet yields r. */
  ghost predicate Yields(perSheet: seq<seq<Option<AbonoRecord>>>, r: AbonoRecord) {
    exists k, i :: 0 <= k < |perSheet| && 0 <= i < |perSheet[k]| && perSheet[k][i] == Some(r)
  }

  lemma YieldsSnoc(perSheet: seq<seq<Option<AbonoRecord>>>, r: AbonoRecord)
    requires perSheet != []
    ensures Yields(perSheet, r) <==>
      Yields(perSheet[..|perSheet| - 1], r) || Some(r) in perSheet[|perSheet| - 1]
  {
    var n := |perSheet| - 1;
    var init := perSheet[..n];
    if Yields(perSheet, r) {
      var k, i :| 0 <= k < |perSheet| && 0 <= i < |perSheet[k]| && perSheet[k][i] == Some(r);
      if k < n {
        assert init[k][i] == Some(r);
      }
    }
    if Yields(init, r) {
      var k, i :| 0 <= k < n && 0 <= i < |init[k]| && init[k][i] == Some(r);
      assert perSheet[k][i] == Some(r);
    }
  }

  lemma {:induction false} CollectedMember(perSheet: seq<seq<Option<AbonoRecord>>>, r: AbonoRecord)
    ensures r in Collected(perSheet) <==> Retained(r) && Yields(perSheet, r)
    decreases |perSheet|
  {
    if perSheet != [] {
      var n := |perSheet| - 1;
      CollectedMember(perSheet[..n], r);
      KeepRetainedMember(perSheet[n], r);
      YieldsSnoc(perSheet, r);
      assert Collected(perSheet) == Collected(perSheet[..n]) + KeepRetained(perSheet[n]);
    }
  }

  /** Every pushed record is retained. */
  lemma CollectedRetained(perSheet: seq<seq<Option<AbonoRecord>>>)
    ensures forall r :: r in Collected(perSheet) ==> Retained(r)
  {
    forall r | r in Collected(perSheet) ensures Retained(r) {
      CollectedMember(perSheet, r);
    }
  }

  lemma CollectedSnoc(perSheet: seq<seq<Option<AbonoRecord>>>)
    requires perSheet != []
    ensures Collected(perSheet) == Collected(perSheet[..|perSheet| - 1]) + KeepRetained(perSheet[|perSheet| - 1])
  {
  }

  /** Accumulating over two runs of sheets is accumulating over each in turn. */
  lemma {:induction false} CollectedAppend(a: seq<seq<Option<AbonoRecord>>>, b: seq<seq<Option<AbonoRecord>>>)
    ensures Collected(a + b) == Collected(a) + Collected(b)
    decreases |b|
  {
    if b == [] {
      assert a + b == a;
    } else {
      var n := |b| - 1;
      var ab := a + b;
      assert ab[..|ab| - 1] == a + b[..n];
      assert ab[|ab| - 1] == b[n];
      CollectedAppend(a, b[..n]);
      CollectedSnoc(ab);
      CollectedSnoc(b);
    }
  }

  /** Within one sheet, when row i's candidate carries the identifier
      fileName_i, the pushed records have pairwise different identifiers, each
      naming a row of the sheet. */
  lemma {:induction false} KeepRetainedIds(cands: seq<Option<AbonoRecord>>, fileName: string)
    requires forall i :: 0 <= i < |cands| && cands[i].Some? ==> cands[i].value.id == MakeId(fileName, i)
    ensures forall r :: r in KeepRetained(cands) ==> exists i :: 0 <= i < |cands| && r.id == MakeId(fileName, i)
    ensures forall a, b :: 0 <= a < b < |KeepRetained(cands)| ==> KeepRetained(cands)[a].id != KeepRetained(cands)[b].id
    decreases |cands|
  {
    if cands != [] {
      var n := |cands| - 1;
      var init := KeepRetained(cands[..n]);
      KeepRetainedIds(cands[..n], fileName);
      forall r | r in init ensures exists i :: 0 <= i < |cands| && r.id == MakeId(fileName, i) {
        var i :| 0 <= i < n && r.id == MakeId(fileName, i);
      }
      if cands[n].Some? && Retained(cands[n].value) {
        var rs := KeepRetained(cands);
        assert rs == init + [cands[n].value];
        forall a | 0 <= a < |init| ensures init[a].id != MakeId(fileName, n) {
          assert init[a] in init;
          var i :| 0 <= i < n && init[a].id == MakeId(fileName, i);
          if init[a].id == MakeId(fileName, n) {
            MakeIdInjective(fileName, i, fileName, n);
          }
        }
      }
    }
  }
}
