// Comma-separated text as section 2 of RFC 4180 defines it, with '\n' as
// the line break (the exporters join lines with '\n', not CRLF): the
// quoting the exporters write, and a reader for it that serves as the
// reference their output is checked against.
module Csv {
  import opened Wrappers
  import opened Text

  /** `value.replace(/"/g, '""')` */
  function DoubleQuotes(v: string): (r: string)
    ensures |r| >= |v|
  {
    if v == [] then []
    else (if v[0] == '"' then "\"\"" else [v[0]]) + DoubleQuotes(v[1..])
  }

  /** A field enclosed in double quotes, each inner quote doubled (rule 7). */
  function QuoteField(v: string): string {
    "\"" + DoubleQuotes(v) + "\""
  }

  /** A field that may stand unquoted (rules 5 and 6). */
  predicate IsBare(v: string) {
    ',' !in v && '"' !in v && '\n' !in v
  }

  /** e is a correct encoding of the value v: quoted, or v itself when bare. */
  predicate Encodes(e: string, v: string) {
    e == QuoteField(v) || (e == v && IsBare(v))
  }

  // ---------------------------------------------------------------------
  // The reader

  /** The inside of a quoted field, after its opening quote: "" stands for
      one quote and a lone quote closes the field. Gives the value and the
      text after the closing quote. */
  function ReadQuoted(s: string): (r: Option<(string, string)>)
    ensures r.Some? ==> |r.value.1| < |s|
    decreases |s|
  {
    if s == [] then None
    else if s[0] == '"' then
      if |s| > 1 && s[1] == '"' then
        match ReadQuoted(s[2..])
        case None => None
        case Some(p) => Some(("\"" + p.0, p.1))
      else Some(("", s[1..]))
    else
      match ReadQuoted(s[1..])
      case None => None
      case Some(p) => Some(([s[0]] + p.0, p.1))
  }

  /** An unquoted field runs up to the next ',' or line break; a quote inside
      it is malformed. */
  function ReadBare(s: string): (r: Option<(string, string)>)
    ensures r.Some? ==> |r.value.1| <= |s|
    ensures r.Some? ==> r.value.1 == [] || r.value.1[0] == ',' || r.value.1[0] == '\n'
    decreases |s|
  {
    if s == [] || s[0] == ',' || s[0] == '\n' then Some(("", s))
    else if s[0] == '"' then None
    else
      match ReadBare(s[1..])
      case None => None
      case Some(p) => Some(([s[0]] + p.0, p.1))
  }

  function ReadField(s: string): (r: Option<(string, string)>)
    ensures r.Some? ==> |r.value.1| <= |s|
  {
    if |s| > 0 && s[0] == '"' then ReadQuoted(s[1..]) else ReadBare(s)
  }

  /** One line of fields separated by ',': the fields and the text from the
      line break (or the end) on. */
  function ReadRecord(s: string): (r: Option<(seq<string>, string)>)
    ensures r.Some? ==> |r.value.1| <= |s|
    ensures r.Some? ==> r.value.1 == [] || r.value.1[0] == '\n'
    decreases |s|
  {
    match ReadField(s)
    case None => None
    case Some(p) =>
      if p.1 != [] && p.1[0] == ',' then
        match ReadRecord(p.1[1..])
        case None => None
        case Some(q) => Some(([p.0] + q.0, q.1))
      else if p.1 == [] || p.1[0] == '\n' then Some(([p.0], p.1))
      else None
  }

  /** A whole text: lines separated by '\n'. */
  function ReadAll(s: string): Option<seq<seq<string>>>
    decreases |s|
  {
    match ReadRecord(s)
    case None => None
    case Some(p) =>
      if p.1 == [] then Some([p.0])
      else
        match ReadAll(p.1[1..])
        case None => None
        case Some(rest) => Some([p.0] + rest)
  }

  // ---------------------------------------------------------------------
  // Reading what was written

  lemma {:induction false} ReadQuotedOf(v: string, rest: string)
    requires rest == [] || rest[0] != '"'
    ensures ReadQuoted(DoubleQuotes(v) + "\"" + rest) == Some((v, rest))
    decreases |v|
  {
    if v == [] {
      assert DoubleQuotes(v) + "\"" + rest == "\"" + rest;
    } else {
      ReadQuotedOf(v[1..], rest);
      var inner := DoubleQuotes(v[1..]);
      var head := if v[0] == '"' then "\"\"" else [v[0]];
      assert DoubleQuotes(v) == head + inner;
      AppendAssoc(head, inner, "\"");
      AppendAssoc(head, inner + "\"", rest);
      var tail := inner + "\"" + rest;
      if v[0] == '"' {
        ReadQuotedPair(tail);
        assert "\"" + v[1..] == v;
      } else {
        ReadQuotedOther(v[0], tail);
        assert [v[0]] + v[1..] == v;
      }
    }
  }

  /** A doubled quote reads as one quote of the value. */
  lemma ReadQuotedPair(tail: string)
    ensures ReadQuoted("\"\"" + tail) ==
      match ReadQuoted(tail)
      case None => None
      case Some(p) => Some(("\"" + p.0, p.1))
  {
    assert ("\"\"" + tail)[2..] == tail;
  }

  /** Any other character is part of the value. */
  lemma ReadQuotedOther(c: char, tail: string)
    requires c != '"'
    ensures ReadQuoted([c] + tail) ==
      match ReadQuoted(tail)
      case None => None
      case Some(p) => Some(([c] + p.0, p.1))
  {
    assert ([c] + tail)[1..] == tail;
  }

  lemma {:induction false} ReadBareOf(v: string, rest: string)
    requires IsBare(v)
    requires rest == [] || rest[0] == ',' || rest[0] == '\n'
    ensures ReadBare(v + rest) == Some((v, rest))
    decreases |v|
  {
    if v == [] {
      assert v + rest == rest;
    } else {
      assert (v + rest)[1..] == v[1..] + rest;
      ReadBareOf(v[1..], rest);
      assert [v[0]] + v[1..] == v;
    }
  }

  /** Every correctly encoded field reads back as its value. */
  lemma ReadFieldOf(e: string, v: string, rest: string)
    requires Encodes(e, v)
    requires rest == [] || rest[0] == ',' || rest[0] == '\n'
    ensures ReadField(e + rest) == Some((v, rest))
  {
    if e == QuoteField(v) {
      ReadQuotedOf(v, rest);
      assert (e + rest)[1..] == DoubleQuotes(v) + "\"" + rest;
    } else {
      ReadBareOf(v, rest);
      if |v| > 0 {
        assert v[0] != '"';
      }
    }
  }

  /** A line of correctly encoded fields joined with ',' reads back as the
      list of values. */
  lemma {:induction false} ReadRecordOf(es: seq<string>, vs: seq<string>, rest: string)
    requires |es| == |vs| > 0
    requires forall k :: 0 <= k < |es| ==> Encodes(es[k], vs[k])
    requires rest == [] || rest[0] == '\n'
    ensures ReadRecord(Join(es, ",") + rest) == Some((vs, rest))
    decreases |es|
  {
    if |es| == 1 {
      ReadFieldOf(es[0], vs[0], rest);
      assert Join(es, ",") == es[0];
      assert vs == [vs[0]];
    } else {
      var tail := Join(es[1..], ",") + rest;
      assert Join(es, ",") + rest == es[0] + ("," + tail);
      ReadFieldOf(es[0], vs[0], "," + tail);
      ReadRecordOf(es[1..], vs[1..], rest);
      assert ("," + tail)[1..] == tail;
      assert [vs[0]] + vs[1..] == vs;
    }
  }

  /** Each line's fields joined with ','. */
  function RecordTexts(lines: seq<seq<string>>): (ts: seq<string>)
    ensures |ts| == |lines|
    ensures forall i :: 0 <= i < |lines| ==> ts[i] == Join(lines[i], ",")
  {
    if lines == [] then [] else [Join(lines[0], ",")] + RecordTexts(lines[1..])
  }

  /** Lines of correctly encoded fields joined with '\n' read back as the
      table of values. */
  lemma {:induction false} ReadAllOf(lines: seq<seq<string>>, table: seq<seq<string>>)
    requires |lines| == |table| > 0
    requires forall i :: 0 <= i < |lines| ==> |lines[i]| == |table[i]| > 0
    requires forall i, k :: 0 <= i < |lines| && 0 <= k < |lines[i]| ==> Encodes(lines[i][k], table[i][k])
    ensures ReadAll(Join(RecordTexts(lines), "\n")) == Some(table)
    decreases |lines|
  {
    var texts := RecordTexts(lines);
    if |lines| == 1 {
      ReadRecordOf(lines[0], table[0], "");
      assert Join(lines[0], ",") + "" == Join(lines[0], ",");
      assert Join(texts, "\n") == texts[0];
      assert table == [table[0]];
    } else {
      assert texts[1..] == RecordTexts(lines[1..]);
      var tail := Join(RecordTexts(lines[1..]), "\n");
      assert Join(texts, "\n") == texts[0] + ("\n" + tail);
      ReadRecordOf(lines[0], table[0], "\n" + tail);
      ReadAllOf(lines[1..], table[1..]);
      ReadAllStep(texts[0], tail, table[0], table[1..]);
      assert [table[0]] + table[1..] == table;
    }
  }

  lemma ReadAllStep(first: string, tail: string, record: seq<string>, records: seq<seq<string>>)
    requires ReadRecord(first + ("\n" + tail)) == Some((record, "\n" + tail))
    requires ReadAll(tail) == Some(records)
    ensures ReadAll(first + ("\n" + tail)) == Some([record] + records)
  {
    assert ("\n" + tail)[1..] == tail;
  }
}
