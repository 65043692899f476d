// The JavaScript string operations the spreadsheet engine relies on:
// trim, toLowerCase, includes, join, split, replace(/-/g, ''), the
// accent and punctuation stripping of the fuzzy column matcher and the
// "L - " prefix strip of BBVA identity documents.
module Text {

  /** Concatenation regroups freely. */
  lemma AppendAssoc<T>(a: seq<T>, b: seq<T>, c: seq<T>)
    ensures (a + b) + c == a + (b + c)
  {
  }

  /** A concatenation ends with the last element of its non-empty right part. */
  lemma AppendSplitLast<T>(a: seq<T>, b: seq<T>)
    requires b != []
    ensures a + b == (a + b[..|b| - 1]) + [b[|b| - 1]]
    ensures b == b[..|b| - 1] + [b[|b| - 1]]
  {
  }

  /** White space as String.prototype.trim and the regex class \s see it:
      the ASCII white space, no-break space, the Unicode space separators,
      the byte order mark and the line and paragraph separators. */
  predicate IsSpace(c: char) {
    c == ' ' || '\t' <= c <= '\r' ||
    (c >= '\U{A0}' &&
     ('\U{2000}' <= c <= '\U{200A}' ||
      c in "\U{A0}\U{1680}\U{2028}\U{2029}\U{202F}\U{205F}\U{3000}\U{FEFF}"))
  }

  /** Leading white space removed (trimStart, and the \s* of a regex). */
  function TrimStart(s: string): string {
    if |s| > 0 && IsSpace(s[0]) then TrimStart(s[1..]) else s
  }

  /** Trailing white space removed. */
  function TrimEnd(s: string): string {
    if |s| > 0 && IsSpace(s[|s| - 1]) then TrimEnd(s[..|s| - 1]) else s
  }

  /** trimStart leaves a suffix of s: what it drops is white space and what it
      keeps does not start with white space. */
  lemma {:induction false} TrimStartSlice(s: string)
    ensures |TrimStart(s)| <= |s| && TrimStart(s) == s[|s| - |TrimStart(s)|..]
    ensures forall i :: 0 <= i < |s| - |TrimStart(s)| ==> IsSpace(s[i])
    ensures TrimStart(s) == [] || !IsSpace(TrimStart(s)[0])
    decreases |s|
  {
    if |s| > 0 && IsSpace(s[0]) {
      TrimStartSlice(s[1..]);
    }
  }

  /** trimEnd leaves a prefix of s: what it drops is white space and what it
      keeps does not end with white space. */
  lemma {:induction false} TrimEndSlice(s: string)
    ensures |TrimEnd(s)| <= |s| && TrimEnd(s) == s[..|TrimEnd(s)|]
    ensures forall i :: |TrimEnd(s)| <= i < |s| ==> IsSpace(s[i])
    ensures TrimEnd(s) == [] || !IsSpace(TrimEnd(s)[|TrimEnd(s)| - 1])
    decreases |s|
  {
    if |s| > 0 && IsSpace(s[|s| - 1]) {
      TrimEndSlice(s[..|s| - 1]);
    }
  }

  /** String.prototype.trim. */
  function Trim(s: string): string {
    TrimEnd(TrimStart(s))
  }

  /** The trimmed string is a slice of the original, starting after the leading
      white space, and neither of its ends is white space. */
  lemma TrimSlice(s: string) returns (a: nat)
    ensures a + |Trim(s)| <= |s| && Trim(s) == s[a..a + |Trim(s)|]
    ensures forall i :: 0 <= i < a ==> IsSpace(s[i])
    ensures forall i :: a + |Trim(s)| <= i < |s| ==> IsSpace(s[i])
    ensures Trim(s) == [] || (!IsSpace(Trim(s)[0]) && !IsSpace(Trim(s)[|Trim(s)| - 1]))
  {
    TrimStartSlice(s);
    TrimEndSlice(TrimStart(s));
    a := |s| - |TrimStart(s)|;
  }

  /** A string trims to "" exactly when every character is white space. */
  lemma TrimEmptyIff(s: string)
    ensures Trim(s) == "" <==> forall i :: 0 <= i < |s| ==> IsSpace(s[i])
  {
    var a := TrimSlice(s);
    TrimStartSlice(s);
    if forall i :: 0 <= i < |s| ==> IsSpace(s[i]) {
      assert TrimStart(s) == [];
    }
  }

  /** String.prototype.toLowerCase on ASCII and the Latin-1 supplement
      (U+00C0..U+00DE without U+00D7, which is where Spanish capitals live). */
  function LowerChar(c: char): char {
    if 'A' <= c <= 'Z' || ('\U{C0}' <= c <= '\U{DE}' && c != '\U{D7}') then (c as int + 32) as char else c
  }

  function Lower(s: string): (r: string)
    ensures |r| == |s| && forall i :: 0 <= i < |s| ==> r[i] == LowerChar(s[i])
  {
    seq(|s|, i requires 0 <= i < |s| => LowerChar(s[i]))
  }

  /** Lower-casing works character by character, so it commutes with slicing
      and concatenation. */
  lemma LowerSlice(s: string, a: nat, b: nat)
    requires a <= b <= |s|
    ensures Lower(s[a..b]) == Lower(s)[a..b]
  {
  }

  lemma LowerConcat(s: string, t: string)
    ensures Lower(s + t) == Lower(s) + Lower(t)
  {
  }

  /** The decomposition to NFD followed by removal of the combining marks, on
      the accented Latin letters of Spanish, Portuguese and French text. */
  function StripAccentChar(c: char): char {
    if c < '\U{C0}' then c
    else if c in "áàäâã" then 'a' else if c in "ÁÀÄÂÃ" then 'A'
    else if c in "éèëê" then 'e' else if c in "ÉÈËÊ" then 'E'
    else if c in "íìïî" then 'i' else if c in "ÍÌÏÎ" then 'I'
    else if c in "óòöôõ" then 'o' else if c in "ÓÒÖÔÕ" then 'O'
    else if c in "úùüû" then 'u' else if c in "ÚÙÜÛ" then 'U'
    else if c == 'ñ' then 'n' else if c == 'Ñ' then 'N'
    else if c == 'ç' then 'c' else if c == 'Ç' then 'C'
    else c
  }

  function StripAccents(s: string): (r: string)
    ensures |r| == |s| && forall i :: 0 <= i < |s| ==> r[i] == StripAccentChar(s[i])
  {
    seq(|s|, i requires 0 <= i < |s| => StripAccentChar(s[i]))
  }

  /** The regex class \w: ASCII letters, digits and '_'. */
  predicate IsWordChar(c: char) {
    'a' <= c <= 'z' || 'A' <= c <= 'Z' || '0' <= c <= '9' || c == '_'
  }

  /** replace(/[^\w\s]/g, ''): every character that is neither a word
      character nor white space is dropped, the others kept in order. */
  function KeepWordAndSpace(s: string): (r: string)
    ensures |r| <= |s|
    ensures forall i :: 0 <= i < |r| ==> IsWordChar(r[i]) || IsSpace(r[i])
    ensures (forall i :: 0 <= i < |s| ==> IsWordChar(s[i]) || IsSpace(s[i])) ==> r == s
  {
    if s == [] then []
    else (if IsWordChar(s[0]) || IsSpace(s[0]) then [s[0]] else []) + KeepWordAndSpace(s[1..])
  }

  /** String.prototype.includes: p occurs in s as a contiguous run. */
  predicate Contains(s: string, p: string) {
    exists i :: 0 <= i <= |s| - |p| && OccursAt(s, p, i)
  }

  /** p occurs in s starting at index i. */
  predicate OccursAt(s: string, p: string, i: int) {
    0 <= i <= |s| - |p| && s[i..i + |p|] == p
  }

  lemma ContainsEmpty(s: string)
    ensures Contains(s, "")
  {
    assert OccursAt(s, "", 0);
  }

  lemma ContainsSelf(s: string)
    ensures Contains(s, s)
  {
    assert OccursAt(s, s, 0);
  }

  /** An occurrence inside a slice is an occurrence in the whole string. */
  lemma ContainsInSlice(s: string, a: nat, b: nat, p: string)
    requires a <= b <= |s| && Contains(s[a..b], p)
    ensures Contains(s, p)
  {
    var i :| 0 <= i <= (b - a) - |p| && OccursAt(s[a..b], p, i);
    forall k | 0 <= k < |p| ensures s[a + i..a + i + |p|][k] == p[k] {
      assert p[k] == s[a..b][i + k];
    }
    assert OccursAt(s, p, a + i);
  }

  /** A lower-case pattern found in the trimmed, lower-cased string is found in
      the lower-cased string itself. */
  lemma ContainsLowerTrim(s: string, p: string)
    requires Contains(Lower(Trim(s)), p)
    ensures Contains(Lower(s), p)
  {
    var a := TrimSlice(s);
    LowerSlice(s, a, a + |Trim(s)|);
    ContainsInSlice(Lower(s), a, a + |Trim(s)|, p);
  }

  predicate StartsWith(s: string, p: string) {
    |p| <= |s| && s[..|p|] == p
  }

  predicate EndsWith(s: string, p: string) {
    |p| <= |s| && s[|s| - |p|..] == p
  }

  /** Array.prototype.join. */
  function Join(parts: seq<string>, sep: string): string {
    if |parts| == 0 then ""
    else if |parts| == 1 then parts[0]
    else parts[0] + sep + Join(parts[1..], sep)
  }

  /** An occurrence inside one part is an occurrence in the joined text. */
  lemma {:induction false} ContainsPartOfJoin(parts: seq<string>, sep: string, k: nat, p: string)
    requires k < |parts| && Contains(parts[k], p)
    ensures Contains(Join(parts, sep), p)
  {
    if |parts| == 1 {
    } else if k == 0 {
      assert Join(parts, sep)[0..|parts[0]|] == parts[0];
      ContainsInSlice(Join(parts, sep), 0, |parts[0]|, p);
    } else {
      ContainsPartOfJoin(parts[1..], sep, k - 1, p);
      var j := Join(parts, sep);
      var off := |parts[0]| + |sep|;
      assert j[off..|j|] == Join(parts[1..], sep);
      ContainsInSlice(j, off, |j|, p);
    }
  }

  /** A pattern without the separator's character that occurs in a text joined
      with single spaces occurs inside one of the parts. */
  lemma {:induction false} ContainsJoinedPart(parts: seq<string>, p: string)
    requires |p| > 0 && ' ' !in p
    requires Contains(Join(parts, " "), p)
    ensures exists k :: 0 <= k < |parts| && Contains(parts[k], p)
  {
    var j := Join(parts, " ");
    var i :| 0 <= i <= |j| - |p| && OccursAt(j, p, i);
    if |parts| == 0 {
    } else if |parts| == 1 {
      assert Contains(parts[0], p);
    } else {
      var n := |parts[0]|;
      var rest := Join(parts[1..], " ");
      assert j == parts[0] + " " + rest;
      if i + |p| <= n {
        assert parts[0][i..i + |p|] == j[i..i + |p|];
        assert OccursAt(parts[0], p, i);
      } else if i <= n {
        OccurrenceCovers(j, p, i, n);
        assert false;
      } else {
        assert rest[i - n - 1..i - n - 1 + |p|] == j[i..i + |p|];
        assert OccursAt(rest, p, i - n - 1);
        ContainsJoinedPart(parts[1..], p);
        var k :| 0 <= k < |parts| - 1 && Contains(parts[1..][k], p);
        assert Contains(parts[k + 1], p);
      }
    }
  }

  /** Inside an occurrence, the pattern's characters are the text's. */
  lemma OccurrenceCovers(s: string, p: string, i: int, n: int)
    requires OccursAt(s, p, i) && i <= n < i + |p|
    ensures p[n - i] == s[n]
  {
    assert p[n - i] == s[i..i + |p|][n - i];
  }

  /** parts.map(x => x.toLowerCase()) */
  function LowerAll(parts: seq<string>): (r: seq<string>)
    ensures |r| == |parts| && forall i :: 0 <= i < |parts| ==> r[i] == Lower(parts[i])
  {
    seq(|parts|, i requires 0 <= i < |parts| => Lower(parts[i]))
  }

  /** parts.map(x => x.trim()) */
  function TrimAll(parts: seq<string>): (r: seq<string>)
    ensures |r| == |parts| && forall i :: 0 <= i < |parts| ==> r[i] == Trim(parts[i])
  {
    seq(|parts|, i requires 0 <= i < |parts| => Trim(parts[i]))
  }

  /** Lower-casing a joined text is joining the lower-cased parts. */
  lemma {:induction false} LowerJoin(parts: seq<string>)
    ensures Lower(Join(parts, " ")) == Join(LowerAll(parts), " ")
  {
    if |parts| > 1 {
      LowerJoin(parts[1..]);
      assert LowerAll(parts[1..]) == LowerAll(parts)[1..];
      LowerConcat(parts[0] + " ", Join(parts[1..], " "));
      LowerConcat(parts[0], " ");
    }
  }

  /** replace(/c/g, ''): every occurrence of c removed, all other characters
      kept with their multiplicities. */
  function RemoveAll(s: string, c: char): (r: string)
    ensures c !in r
    ensures forall x :: x != c ==> multiset(r)[x] == multiset(s)[x]
    ensures c !in s ==> r == s
  {
    if s == [] then []
    else
      assert s == [s[0]] + s[1..];
      (if s[0] == c then [] else [s[0]]) + RemoveAll(s[1..], c)
  }

  /** /^\d+$/.test(s) */
  predicate IsDigits(s: string) {
    |s| > 0 && forall i :: 0 <= i < |s| ==> '0' <= s[i] <= '9'
  }

  // replace(/^L\s*-\s*/i, ''): a leading "L", optional white space, a hyphen
  // and optional white space are removed; anything else is left alone.
  function StripIdPrefix(s: string): (r: string)
    ensures EndsWith(s, r)
    ensures r != s ==> |s| > 0 && (s[0] == 'L' || s[0] == 'l') && '-' in s
  {
    if |s| > 0 && (s[0] == 'L' || s[0] == 'l') then
      var t := TrimStart(s[1..]);
      TrimStartSlice(s[1..]);
      if |t| > 0 && t[0] == '-' then
        assert t[0] == s[|s| - |t|];
        TrimStartSlice(t[1..]);
        TrimStart(t[1..])
      else s
    else s
  }

  /** The prefix "L", white space, "-", white space is removed exactly, and
      the identity number after it is returned whole. */
  lemma StripIdPrefixOf(lead: char, before: string, after: string, id: string)
    requires lead == 'L' || lead == 'l'
    requires forall i :: 0 <= i < |before| ==> IsSpace(before[i])
    requires forall i :: 0 <= i < |after| ==> IsSpace(after[i])
    requires id == [] || !IsSpace(id[0])
    ensures StripIdPrefix([lead] + (before + (['-'] + (after + id)))) == id
  {
    var rest := after + id;
    var t := ['-'] + rest;
    assert t[0] == '-' && t[1..] == rest;
    TrimStartOver(after, id);
    var s := [lead] + (before + t);
    assert s[0] == lead && s[1..] == before + t;
    TrimStartOver(before, t);
  }

  /** TrimStart skips a white-space prefix and stops at the first other
      character. */
  lemma {:induction false} TrimStartOver(w: string, rest: string)
    requires forall i :: 0 <= i < |w| ==> IsSpace(w[i])
    requires rest == [] || !IsSpace(rest[0])
    ensures TrimStart(w + rest) == rest
  {
    if w != [] {
      assert (w + rest)[1..] == w[1..] + rest;
      TrimStartOver(w[1..], rest);
    }
  }

  function IndexOfChar(s: string, c: char): (i: nat)
    requires c in s
    ensures i < |s| && s[i] == c && c !in s[..i]
  {
    if s[0] == c then 0 else IndexOfChar(s[1..], c) + 1
  }

  /** String.prototype.split with a one-character separator. */
  function Split(s: string, c: char): (r: seq<string>)
    ensures |r| >= 1
    ensures forall k :: 0 <= k < |r| ==> c !in r[k]
    decreases |s|
  {
    if c !in s then [s]
    else
      var i := IndexOfChar(s, c);
      [s[..i]] + Split(s[i + 1..], c)
  }

  /** Splitting and joining again with the same separator gives the string
      back. */
  lemma {:induction false} SplitJoin(s: string, c: char)
    ensures Join(Split(s, c), [c]) == s
    decreases |s|
  {
    if c in s {
      var i := IndexOfChar(s, c);
      var rest := s[i + 1..];
      var parts := Split(s, c);
      assert parts[0] == s[..i] && parts[1..] == Split(rest, c);
      assert Join(parts, [c]) == s[..i] + [c] + Join(Split(rest, c), [c]);
      SplitJoin(rest, c);
      assert s == s[..i] + [c] + rest;
    }
  }
}
