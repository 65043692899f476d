// findBestMatch of src/utils/excelProcessor.ts: the header that best stands
// for a record field, searched pattern by pattern (the layout's own patterns
// first, then the generic ones) and, for each pattern, header by header.
module BestMatch {
  import opened Wrappers
  import opened Text

  /** fieldMappings: the generic patterns of each record field. */
  function GenericPatterns(field: string): seq<string> {
    if field == "beneficiario" then
      ["titular(archivo)", "titular(banco)", "beneficiario - nombre", "beneficiario", "titular",
       "cliente", "client", "nombre", "name", "cliente_nombre", "pasajero"]
    else if field == "documento_tipo" then
      ["documento - tipo", "documento - tipo documento", "tipo documento", "doc tipo"]
    else if field == "documento" then
      ["documento", "doc.identidad", "documento - documento", "numero documento"]
    else if field == "documento_2" then
      ["documento 2", "documento - documento 2", "segundo documento"]
    else if field == "documento_3" then
      ["documento 3", "documento - documento 3", "tercer documento"]
    else if field == "monto_mn" then
      ["monto - m/n", "monto mn", "monto moneda nacional", "monto soles"]
    else if field == "monto" then
      ["monto", "amount", "importe", "valor", "precio", "total", "suma",
       "monto - monto", "importe cargado por abonos", "importe situación"]
    else if field == "tc" then
      ["t/c", "tipo cambio", "tc", "cambio"]
    else if field == "monto_abonado" then
      ["monto abonado", "monto - abonado", "abonado"]
    else if field == "monto_abonado_2" then
      ["monto abonado 2", "monto - abonado 2", "segundo abonado"]
    else if field == "cuenta_tipo" then
      ["cuenta - t", "cuenta tipo", "tipo cuenta"]
    else if field == "cuenta_numero" then
      ["cuenta - n", "cuenta numero", "numero cuenta", "cuenta - cuenta", "cuenta", "no."]
    else if field == "cuenta_nombre" then
      ["cuenta - nombre", "nombre cuenta"]
    else if field == "estado" then
      ["estado", "status", "situacion", "condicion", "situación", "situación de proceso"]
    else if field == "observaciones" then
      ["observaciones", "observacion", "comentarios", "notas", "obs"]
    else if field == "banco" then
      ["banco", "entidad", "bank", "institución", "institucion"]
    else []
  }

  /** bbvaMappings: the patterns of the BBVA payment report. */
  function BbvaPatterns(field: string): seq<string> {
    if field == "beneficiario" then ["titular", "titular(archivo)", "titular(banco)"]
    else if field == "documento" then ["doc.identidad", "doc identidad", "documento"]
    else if field == "monto" then ["importe"]
    else if field == "monto_abonado" then ["importe"]
    else if field == "estado" then ["situación", "situacion", "situ", "estado"]
    else if field == "cuenta_numero" then ["cuenta"]
    else if field == "banco" then ["banco"]
    else []
  }

  /** bcpMappings: the patterns of the BCP payment report. */
  function BcpPatterns(field: string): seq<string> {
    if field == "beneficiario" then ["beneficiario - nombre", "beneficiario", "cliente", "nombre", "titular"]
    else if field == "documento_tipo" then
      ["documento - tipo", "documento-tipo", "tipo documento", "doc tipo", "tipo", "documento tipo", "documentotipo"]
    else if field == "documento" then
      ["documento", "numero documento", "doc", "numero", "documento - número", "documento-número", "documentonúmero"]
    else if field == "monto_mn" then ["monto - moneda", "moneda", "monto moneda"]
    else if field == "monto" then ["monto", "importe", "amount", "monto - monto"]
    else if field == "tc" then ["t/c", "tipo cambio", "tc"]
    else if field == "monto_abonado" then ["monto abonado - moneda", "monto abonado", "abonado"]
    else if field == "cuenta_tipo" then ["cuenta - t", "cuenta tipo", "tipo cuenta"]
    else if field == "cuenta_numero" then ["cuenta - número", "cuenta numero", "numero cuenta", "cuenta", "cuenta - n"]
    else if field == "estado" then ["estado", "status", "situación", "situacion"]
    else if field == "observaciones" then ["observación", "observacion", "obs"]
    else if field == "banco" then ["banco", "entidad", "institución", "institucion"]
    else []
  }

  /** replace(/[-\s_]/g, ''): hyphens, white space and underscores dropped. */
  function StripSeparators(s: string): (r: string)
    ensures |r| <= |s|
    ensures forall i :: 0 <= i < |r| ==> r[i] != '-' && r[i] != '_' && !IsSpace(r[i])
  {
    if s == [] then []
    else (if s[0] == '-' || s[0] == '_' || IsSpace(s[0]) then [] else [s[0]]) + StripSeparators(s[1..])
  }

  /** The header tests of the search. */
  datatype Test =
    | Loose(pattern: string)   // header contains the pattern or the pattern contains the header
    | Bcp(pattern: string)     // the seven-way test of the BCP patterns
    | DocTipo                  // the BCP documento_tipo special case
    | Doc                      // the BCP documento special case

  /** Every word of `a.split(' ')` occurs in b. */
  predicate EveryWordIn(a: string, b: string) {
    var words := Split(a, ' ');
    forall k :: 0 <= k < |words| ==> Contains(b, words[k])
  }

  predicate Passes(t: Test, header: string) {
    var h := Lower(header);
    match t
    case Loose(m) =>
      Contains(h, Lower(m)) || Contains(Lower(m), h)
    case Bcp(m) =>
      var ml := Lower(m);
      var hc := StripSeparators(h);
      var mc := StripSeparators(ml);
      Contains(hc, mc) || Contains(mc, hc) || Contains(h, ml) || Contains(ml, h)
      || EveryWordIn(ml, h) || EveryWordIn(h, ml) || hc == mc
    case DocTipo =>
      Contains(h, "documento") && Contains(h, "tipo") && !Contains(h, "dcumento")
    case Doc =>
      h == "documento" || (Contains(h, "documento") && !Contains(h, "tipo"))
  }

  /** The index of the first header passing t, or |headers| when none does. */
  function FindIndex(headers: seq<string>, t: Test): (i: nat)
    ensures i <= |headers|
    ensures forall j :: 0 <= j < i ==> !Passes(t, headers[j])
    ensures i < |headers| ==> Passes(t, headers[i])
  {
    if headers == [] then 0
    else if Passes(t, headers[0]) then 0
    else FindIndex(headers[1..], t) + 1
  }

  /** `headers.find(header => test)` */
  function Find(headers: seq<string>, t: Test): Option<string> {
    var i := FindIndex(headers, t);
    if i < |headers| then Some(headers[i]) else None
  }

  /** `if (found)`: undefined and "" are both falsy. */
  predicate Truthy(found: Option<string>) {
    found.Some? && found.value != ""
  }

  /** Which test a pattern list uses. */
  datatype Rule = LooseRule | BcpRule

  function TestOf(rule: Rule, pattern: string): Test {
    match rule
    case LooseRule => Loose(pattern)
    case BcpRule => Bcp(pattern)
  }

  /** `for (const match of patterns) { const found = headers.find(...); if (found) return found; }`
      with the loop falling through to None. */
  function ByPatterns(headers: seq<string>, patterns: seq<string>, rule: Rule): (r: Option<string>)
    ensures r.Some? ==> r.value in headers && r.value != ""
  {
    if patterns == [] then None
    else
      var found := Find(headers, TestOf(rule, patterns[0]));
      if Truthy(found) then found else ByPatterns(headers, patterns[1..], rule)
  }

  /** findBestMatch(headers, targetField, isBBVAFile, isBCPFile); None is null. */
  function FindBestMatch(headers: seq<string>, field: string, isBbva: bool, isBcp: bool): (r: Option<string>)
    ensures r.Some? ==> r.value in headers && r.value != ""
  {
    var generic := ByPatterns(headers, GenericPatterns(field), LooseRule);
    if isBbva then
      var layout := ByPatterns(headers, BbvaPatterns(field), LooseRule);
      if layout.Some? then layout else generic
    else if isBcp then
      var docTipo := Find(headers, DocTipo);
      var doc := Find(headers, Doc);
      if field == "documento_tipo" && Truthy(docTipo) then docTipo
      else if field == "documento" && Truthy(doc) then doc
      else
        var layout := ByPatterns(headers, BcpPatterns(field), BcpRule);
        if layout.Some? then layout else generic
    else generic
  }

  // ---------------------------------------------------------------------
  // Properties

  /** The search over a pattern list answers with the first header passing
      the first pattern for which the found header is non-empty: patterns
      are tried in list order, and within one pattern headers in header
      order. */
  lemma {:induction false} ByPatternsWinner(headers: seq<string>, patterns: seq<string>, rule: Rule) returns (k: nat)
    ensures k <= |patterns|
    ensures forall j :: 0 <= j < k ==> !Truthy(Find(headers, TestOf(rule, patterns[j])))
    ensures k < |patterns| ==>
      Truthy(Find(headers, TestOf(rule, patterns[k]))) &&
      ByPatterns(headers, patterns, rule) == Find(headers, TestOf(rule, patterns[k]))
    ensures k == |patterns| ==> ByPatterns(headers, patterns, rule) == None
    decreases |patterns|
  {
    if patterns == [] {
      k := 0;
    } else {
      var found := Find(headers, TestOf(rule, patterns[0]));
      ByPatternsStep(headers, patterns, rule, found);
      if Truthy(found) {
        k := 0;
      } else {
        var k' := ByPatternsWinner(headers, patterns[1..], rule);
        k := k' + 1;
        forall j | 0 <= j < k ensures !Truthy(Find(headers, TestOf(rule, patterns[j]))) {
          if j > 0 {
            assert patterns[j] == patterns[1..][j - 1];
          }
        }
      }
    }
  }

  /** One pattern of the search: its header when truthy, else the rest. */
  lemma ByPatternsStep(headers: seq<string>, patterns: seq<string>, rule: Rule, found: Option<string>)
    requires patterns != [] && found == Find(headers, TestOf(rule, patterns[0]))
    ensures ByPatterns(headers, patterns, rule) == if Truthy(found) then found else ByPatterns(headers, patterns[1..], rule)
  {
  }

  /** Searching a list and then another is searching their concatenation:
      the layout list takes priority over the generic list. */
  lemma {:induction false} ByPatternsAppend(headers: seq<string>, a: seq<string>, b: seq<string>, rule: Rule)
    ensures ByPatterns(headers, a + b, rule) ==
      if ByPatterns(headers, a, rule).Some? then ByPatterns(headers, a, rule) else ByPatterns(headers, b, rule)
    decreases |a|
  {
    if a == [] {
      assert a + b == b;
    } else {
      assert (a + b)[0] == a[0] && (a + b)[1..] == a[1..] + b;
      ByPatternsAppend(headers, a[1..], b, rule);
    }
  }

  /** For a BBVA file the search is one search over the BBVA patterns
      followed by the generic ones; without a layout it is the generic
      search alone. */
  lemma LayoutThenGeneric(headers: seq<string>, field: string, isBcp: bool)
    ensures FindBestMatch(headers, field, true, isBcp) ==
      ByPatterns(headers, BbvaPatterns(field) + GenericPatterns(field), LooseRule)
    ensures FindBestMatch(headers, field, false, false) ==
      ByPatterns(headers, GenericPatterns(field), LooseRule)
  {
    ByPatternsAppend(headers, BbvaPatterns(field), GenericPatterns(field), LooseRule);
  }

  /** When no header is blank, a pattern finds something exactly when some
      header passes its test. */
  lemma FindWithoutBlanks(headers: seq<string>, t: Test)
    requires forall i :: 0 <= i < |headers| ==> headers[i] != ""
    ensures Truthy(Find(headers, t)) <==> exists i :: 0 <= i < |headers| && Passes(t, headers[i])
  {
    var i := FindIndex(headers, t);
    if exists j :: 0 <= j < |headers| && Passes(t, headers[j]) {
      var j :| 0 <= j < |headers| && Passes(t, headers[j]);
      assert i <= j;
    }
  }

  /** A blank first header passes every loose test, so `find` stops at it and
      the falsy result skips the pattern: the loose search then finds
      nothing at all, even when a later header matches. */
  lemma {:induction false} LeadingBlankHidesAll(headers: seq<string>, patterns: seq<string>)
    requires |headers| > 0 && headers[0] == ""
    ensures ByPatterns(headers, patterns, LooseRule) == None
    decreases |patterns|
  {
    if patterns != [] {
      ContainsEmpty(Lower(patterns[0]));
      assert Passes(Loose(patterns[0]), headers[0]);
      LeadingBlankHidesAll(headers, patterns[1..]);
    }
  }

  /** With the BCP layout, a field documento_tipo resolves to the first
      header containing both "documento" and "tipo" (and not "dcumento"). */
  lemma BcpDocumentoTipo(headers: seq<string>, i: nat)
    requires i < |headers| && Passes(DocTipo, headers[i])
    requires forall j :: 0 <= j < i ==> !Passes(DocTipo, headers[j])
    ensures FindBestMatch(headers, "documento_tipo", false, true) == Some(headers[i])
    ensures Contains(Lower(headers[i]), "documento") && Contains(Lower(headers[i]), "tipo")
  {
    assert FindIndex(headers, DocTipo) == i;
    var w :| 0 <= w <= |Lower(headers[i])| - 9 && OccursAt(Lower(headers[i]), "documento", w);
    assert |headers[i]| >= 9;
  }

  /** "documento" itself does not contain "tipo". */
  lemma DocumentoHasNoTipo()
    ensures !Contains("documento", "tipo")
  {
    forall i | 0 <= i <= 5 ensures !OccursAt("documento", "tipo", i) {
      assert "documento"[i..i + 4][0] == "documento"[i];
    }
  }

  /** With the BCP layout, a field documento resolves to the first header that
      is "documento" or contains "documento" without "tipo", so the header
      chosen never contains "tipo". */
  lemma BcpDocumento(headers: seq<string>, i: nat)
    requires i < |headers| && Passes(Doc, headers[i])
    requires forall j :: 0 <= j < i ==> !Passes(Doc, headers[j])
    ensures FindBestMatch(headers, "documento", false, true) == Some(headers[i])
    ensures !Contains(Lower(headers[i]), "tipo")
  {
    assert FindIndex(headers, Doc) == i;
    if Lower(headers[i]) != "documento" {
      var w :| 0 <= w <= |Lower(headers[i])| - 9 && OccursAt(Lower(headers[i]), "documento", w);
    }
    assert |headers[i]| >= 9;
    if Lower(headers[i]) == "documento" {
      DocumentoHasNoTipo();
    }
  }

  /** When no header passes the documento special case, the BCP pattern list
      takes over, and its first pattern "documento" also matches
      "Documento - Tipo": the type column is then returned for the number. */
  lemma BcpDocumentoFallsBackToTipo()
    ensures FindBestMatch(["Documento - Tipo"], "documento", false, true) == Some("Documento - Tipo")
  {
    var h := "Documento - Tipo";
    TipoHeaderFacts();
    DocumentoPatternsHead();
    assert Find([h], Doc) == None;
    assert Find([h], Bcp("documento")) == Some(h);
    assert ByPatterns([h], BcpPatterns("documento"), BcpRule) == Some(h);
    BcpDocumentoLayout([h]);
  }

  /** Without a documento header, the BCP pattern list decides when it finds one. */
  lemma BcpDocumentoLayout(headers: seq<string>)
    requires !Truthy(Find(headers, Doc)) && ByPatterns(headers, BcpPatterns("documento"), BcpRule).Some?
    ensures FindBestMatch(headers, "documento", false, true) == ByPatterns(headers, BcpPatterns("documento"), BcpRule)
  {
  }

  lemma DocumentoPatternsHead()
    ensures |BcpPatterns("documento")| > 0 && BcpPatterns("documento")[0] == "documento"
  {
  }

  lemma TipoHeaderFacts()
    ensures !Passes(Doc, "Documento - Tipo")
    ensures Passes(Bcp("documento"), "Documento - Tipo")
  {
    var l := Lower("Documento - Tipo");
    assert l == "documento - tipo";
    assert OccursAt(l, "documento", 0);
    assert OccursAt(l, "tipo", 12);
    assert Lower("documento") == "documento";
  }
}
