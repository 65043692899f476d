// Decimal text of naturals (template literals such as `${fileName}_${index}`)
// and the amount parser `parseFloat(text) || 0`.
module Numbers {
  import opened Wrappers
  import opened Text

  predicate IsDigit(c: char) {
    '0' <= c <= '9'
  }

  function DigitChar(d: nat): (c: char)
    requires d < 10
    ensures IsDigit(c) && c as int - '0' as int == d
  {
    ('0' as int + d) as char
  }

  /** The decimal text of n, as String(n) writes it: no sign, no leading zero. */
  function NatToString(n: nat): (s: string)
    ensures IsDigits(s)
    ensures n >= 10 ==> |s| >= 2
    decreases n
  {
    if n < 10 then [DigitChar(n)] else NatToString(n / 10) + [DigitChar(n % 10)]
  }

  function DigitValue(c: char): nat
    requires IsDigit(c)
  {
    c as int - '0' as int
  }

  /** The value of a run of decimal digits ("" reads as 0). */
  function DigitsValue(s: string): nat
    requires forall i :: 0 <= i < |s| ==> IsDigit(s[i])
  {
    if s == [] then 0 else DigitsValue(s[..|s| - 1]) * 10 + DigitValue(s[|s| - 1])
  }

  /** Reading the decimal text back gives the number. */
  lemma {:induction false} NatToStringValue(n: nat)
    ensures DigitsValue(NatToString(n)) == n
    decreases n
  {
    if n >= 10 {
      NatToStringValue(n / 10);
      var s := NatToString(n);
      assert s[..|s| - 1] == NatToString(n / 10);
    }
  }

  /** Different numbers have different decimal texts. */
  lemma NatToStringInjective(a: nat, b: nat)
    requires NatToString(a) == NatToString(b)
    ensures a == b
  {
    NatToStringValue(a);
    NatToStringValue(b);
  }

  /** The longest prefix of s made of decimal digits. */
  function LeadingDigits(s: string): (r: string)
    ensures |r| <= |s| && r == s[..|r|]
    ensures forall i :: 0 <= i < |r| ==> IsDigit(r[i])
    ensures |r| < |s| ==> !IsDigit(s[|r|])
  {
    if |s| > 0 && IsDigit(s[0]) then [s[0]] + LeadingDigits(s[1..]) else []
  }

  function Pow10(k: nat): (p: nat)
    ensures p >= 1
  {
    if k == 0 then 1 else 10 * Pow10(k - 1)
  }

  /** The longest decimal prefix digits[.digits] of u, as parseFloat reads
      it after the sign; None when no digit is there. */
  function ParseDecimal(u: string): Option<real> {
    var whole := LeadingDigits(u);
    var rest := u[|whole|..];
    var frac := if |rest| > 0 && rest[0] == '.' then LeadingDigits(rest[1..]) else "";
    if whole == [] && frac == [] then None
    else Some(DigitsValue(whole) as real +
              if frac == [] then 0.0 else DigitsValue(frac) as real / Pow10(|frac|) as real)
  }

  /** parseFloat: leading white space, an optional sign, then the longest
      decimal prefix; NaN (None) when no digit is there. */
  function ParseFloat(s: string): Option<real> {
    var t := TrimStart(s);
    var neg := |t| > 0 && t[0] == '-';
    var u := if |t| > 0 && (t[0] == '-' || t[0] == '+') then t[1..] else t;
    match ParseDecimal(u)
    case None => None
    case Some(magnitude) => Some(if neg then -magnitude else magnitude)
  }

  /** parseFloat(text) || 0: the parsed number, or 0 for text that holds none. */
  function ParseAmount(s: string): real {
    match ParseFloat(s)
    case None => 0.0
    case Some(x) => x
  }

  /** Text without any digit holds no decimal prefix. */
  lemma ParseDecimalWithoutDigits(u: string)
    requires forall i :: 0 <= i < |u| ==> !IsDigit(u[i])
    ensures ParseDecimal(u) == None
  {
    assert LeadingDigits(u) == [];
    var rest := u[0..];
    if |rest| > 0 && rest[0] == '.' {
      assert LeadingDigits(rest[1..]) == [];
    }
  }

  /** Text without any digit reads as amount 0. */
  lemma ParseAmountWithoutDigits(s: string)
    requires forall i :: 0 <= i < |s| ==> !IsDigit(s[i])
    ensures ParseAmount(s) == 0.0
  {
    var t := TrimStart(s);
    TrimStartSlice(s);
    var u := if |t| > 0 && (t[0] == '-' || t[0] == '+') then t[1..] else t;
    assert u == s[|s| - |u|..];
    ParseDecimalWithoutDigits(u);
  }

  /** A run of digits is its own decimal prefix. */
  lemma ParseDecimalOfDigits(s: string)
    requires forall i :: 0 <= i < |s| ==> IsDigit(s[i])
    requires s != []
    ensures ParseDecimal(s) == Some(DigitsValue(s) as real)
  {
    LeadingDigitsAll(s);
    var rest := s[|LeadingDigits(s)|..];
    assert rest == [];
  }

  /** A run of digits parses as its decimal value. */
  lemma ParseFloatOfDigits(s: string)
    requires IsDigits(s)
    ensures ParseFloat(s) == Some(DigitsValue(s) as real)
  {
    assert !IsSpace(s[0]) && s[0] != '-' && s[0] != '+';
    assert TrimStart(s) == s;
    ParseDecimalOfDigits(s);
  }

  /** The decimal text of a natural reads back as that natural. */
  lemma ParseAmountOfNat(n: nat)
    ensures ParseAmount(NatToString(n)) == n as real
  {
    ParseFloatOfDigits(NatToString(n));
    NatToStringValue(n);
  }

  /** A text made only of digits is its own longest digit prefix. */
  lemma {:induction false} LeadingDigitsAll(s: string)
    requires forall i :: 0 <= i < |s| ==> IsDigit(s[i])
    ensures LeadingDigits(s) == s
  {
    if s != [] {
      LeadingDigitsAll(s[1..]);
    }
  }
}
