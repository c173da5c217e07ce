/** The string operations the screens rely on: Java's String.trim, the first-empty-field scan of the
    form validators, zero-padded decimal output and the subset of Double.parseDouble that the
    wage field uses. */
module Text {
  import opened Wrappers

  // ---------------------------------------------------------------- trimming

  /** String.trim removes every character whose code is at most that of the space. */
  predicate IsTrimmable(c: char) {
    c <= ' '
  }

  predicate IsBlank(s: string) {
    forall k :: 0 <= k < |s| ==> IsTrimmable(s[k])
  }

  /** Drops the leading trimmable characters. */
  function TrimStart(s: string): (r: string)
    ensures |r| <= |s| && r == s[|s| - |r|..]
    ensures r == [] || !IsTrimmable(r[0])
    ensures IsBlank(s[..|s| - |r|])
  {
    if s != [] && IsTrimmable(s[0]) then TrimStart(s[1..]) else s
  }

  /** Drops the trailing trimmable characters. */
  function TrimEnd(s: string): (r: string)
    ensures |r| <= |s| && r == s[..|r|]
    ensures r == [] || !IsTrimmable(r[|r| - 1])
    ensures IsBlank(s[|r|..])
  {
    if s != [] && IsTrimmable(s[|s| - 1]) then TrimEnd(s[..|s| - 1]) else s
  }

  /** Java's String.trim. */
  function Trim(s: string): (r: string)
    ensures r == [] <==> IsBlank(s)
    ensures r != [] ==> !IsTrimmable(r[0]) && !IsTrimmable(r[|r| - 1])
    ensures r <= TrimStart(s) && TrimStart(s) == s[|s| - |TrimStart(s)|..]
  {
    var t := TrimStart(s);
    var r := TrimEnd(t);
    assert r == [] ==> IsBlank(s) by {
      if r == [] {
        assert t[|r|..] == t;
        assert s == s[..|s| - |t|] + t;
      }
    }
    r
  }

  /** Trimming twice is trimming once. */
  lemma TrimIdempotent(s: string)
    ensures Trim(Trim(s)) == Trim(s)
  {
    TrimOfTrimmed(Trim(s));
  }

  /** A string that is empty or whose ends are not trimmable is its own trim. */
  lemma TrimOfTrimmed(r: string)
    requires r == [] || (!IsTrimmable(r[0]) && !IsTrimmable(r[|r| - 1]))
    ensures Trim(r) == r
  {
    if r != [] {
      TrimOfUntrimmable(r);
    } else {
      assert IsBlank(r);
    }
  }

  /** A string whose ends are not trimmable is its own trim. */
  lemma TrimOfUntrimmable(s: string)
    requires s != [] && !IsTrimmable(s[0]) && !IsTrimmable(s[|s| - 1])
    ensures Trim(s) == s
  {
    var t := TrimStart(s);
    assert t == s;
    var r := TrimEnd(t);
  }

  // ---------------------------------------------------------------- validation order

  /** The index of the first empty string in fields, or |fields| when none is empty: the form
      validators check their fields in a fixed order and stop at the first empty one. */
  function {:induction false} FirstEmpty(fields: seq<string>): (k: nat)
    ensures k <= |fields|
    ensures k < |fields| ==> fields[k] == []
    ensures forall j :: 0 <= j < k ==> fields[j] != []
  {
    if fields == [] || fields[0] == [] then 0 else 1 + FirstEmpty(fields[1..])
  }

  // ---------------------------------------------------------------- decimal digits

  predicate IsDigit(c: char) {
    '0' <= c <= '9'
  }

  predicate AllDigits(s: string) {
    forall k :: 0 <= k < |s| ==> IsDigit(s[k])
  }

  function DigitChar(d: nat): (c: char)
    requires d < 10
    ensures IsDigit(c)
  {
    ('0' as int + d) as char
  }

  function DigitValue(c: char): nat
    requires IsDigit(c)
  {
    c as int - '0' as int
  }

  function Pow10(n: nat): (p: nat)
    ensures p >= 1
  {
    if n == 0 then 1 else 10 * Pow10(n - 1)
  }

  /** The value of a string of decimal digits (0 for the empty string). */
  function DigitsValue(s: string): nat
    requires AllDigits(s)
  {
    if s == [] then 0 else DigitsValue(s[..|s| - 1]) * 10 + DigitValue(s[|s| - 1])
  }

  /** The decimal representation of n with no leading zeros, as Java prints an int. */
  function Decimal(n: nat): (r: string)
    ensures r != [] && AllDigits(r)
  {
    if n < 10 then [DigitChar(n)] else Decimal(n / 10) + [DigitChar(n % 10)]
  }

  /** The decimal representation of n padded with leading zeros to at least width digits,
      as the date patterns "yyyy", "MM", "dd", "HH", "mm" and the format "%02d" print numbers. */
  function ZeroPad(n: nat, width: nat): (r: string)
    ensures AllDigits(r) && |r| >= width
  {
    var d := Decimal(n);
    if |d| >= width then d else seq(width - |d|, _ => '0') + d
  }

  lemma {:induction false} DecimalRoundTrip(n: nat)
    ensures DigitsValue(Decimal(n)) == n
  {
    if n >= 10 {
      DecimalRoundTrip(n / 10);
      var d := Decimal(n);
      assert d[..|d| - 1] == Decimal(n / 10);
    }
  }

  lemma {:induction false} DecimalLength(n: nat, width: nat)
    requires 1 <= width && n < Pow10(width)
    ensures |Decimal(n)| <= width
  {
    if n >= 10 {
      DecimalLength(n / 10, width - 1);
    }
  }

  lemma {:induction false} LeadingZerosValue(z: nat, s: string)
    requires AllDigits(s)
    ensures AllDigits(seq(z, _ => '0') + s)
    ensures DigitsValue(seq(z, _ => '0') + s) == DigitsValue(s)
    decreases |s|
  {
    var zs: string := seq(z, _ => '0');
    if s == [] {
      assert zs + s == zs;
      ZerosValue(z);
    } else {
      var s' := s[..|s| - 1];
      assert (zs + s)[..|zs + s| - 1] == zs + s';
      LeadingZerosValue(z, s');
    }
  }

  lemma {:induction false} ZerosValue(z: nat)
    ensures DigitsValue(seq(z, _ => '0')) == 0
  {
    if z > 0 {
      var zs: string := seq(z, _ => '0');
      assert zs[..z - 1] == seq(z - 1, _ => '0');
      ZerosValue(z - 1);
    }
  }

  /** Zero padding is read back exactly, and stays within width digits for small numbers. */
  lemma ZeroPadRoundTrip(n: nat, width: nat)
    ensures DigitsValue(ZeroPad(n, width)) == n
    ensures 1 <= width && n < Pow10(width) ==> |ZeroPad(n, width)| == width
  {
    DecimalRoundTrip(n);
    var d := Decimal(n);
    if |d| < width {
      LeadingZerosValue(width - |d|, d);
    }
    if 1 <= width && n < Pow10(width) {
      DecimalLength(n, width);
    }
  }

  // ---------------------------------------------------------------- Double.parseDouble

  /** The index of the first '.' in s, or |s| when there is none. */
  function DotIndex(s: string): (k: nat)
    ensures k <= |s| && (k < |s| ==> s[k] == '.')
    ensures forall j :: 0 <= j < k ==> s[j] != '.'
  {
    if s == [] || s[0] == '.' then 0 else 1 + DotIndex(s[1..])
  }

  /** Unsigned "digits", "digits.digits", "digits." or ".digits", with at least one digit. */
  function ParseUnsigned(s: string): Option<real> {
    var k := DotIndex(s);
    var whole := s[..k];
    var frac := if k < |s| then s[k + 1..] else [];
    if AllDigits(whole) && AllDigits(frac) && |whole| + |frac| > 0 then
      Some(DigitsValue(whole) as real + FractionValue(frac))
    else None
  }

  /** The value of the digits after a decimal point: FractionValue("25") == 0.25. */
  function FractionValue(s: string): real
    requires AllDigits(s)
  {
    if s == [] then 0.0 else (DigitValue(s[0]) as real + FractionValue(s[1..])) / 10.0
  }

  /** The type suffixes parseDouble allows after the number: 'd', 'D', 'f' and 'F'. */
  predicate IsTypeSuffix(ch: char) {
    ch == 'd' || ch == 'D' || ch == 'f' || ch == 'F'
  }

  /** The trimmed text without its type suffix, if it ends with one. */
  function StripSuffix(t: string): string {
    if |t| > 0 && IsTypeSuffix(t[|t| - 1]) then t[..|t| - 1] else t
  }

  /** Double.parseDouble on the plain decimal forms, after the trim it performs itself and with
      one optional type suffix; None stands for the NumberFormatException it throws on anything
      else. */
  function ParseDecimal(s: string): (r: Option<real>)
    ensures IsBlank(s) ==> r == None
  {
    var t := StripSuffix(Trim(s));
    if t == [] then None else ParseSigned(t)
  }

  /** A type suffix after a number changes nothing, and a suffix alone is not a number. */
  lemma {:induction false} ParseDecimalSuffix(s: string, suffix: char)
    requires s != [] && AllDigits(s) && IsTypeSuffix(suffix)
    ensures ParseDecimal(s + [suffix]) == ParseDecimal(s) == Some(DigitsValue(s) as real)
    ensures ParseDecimal([suffix]) == None
  {
    var t := s + [suffix];
    assert IsDigit(t[0]) && t[|t| - 1] == suffix;
    TrimOfUntrimmable(t);
    assert t[..|t| - 1] == s;
    ParseDecimalOfDigits(s);
    ParseSignedOfDigits(s);
    TrimOfUntrimmable([suffix]);
  }

  function ParseSigned(t: string): Option<real>
    requires t != []
  {
    if t[0] == '-' then
      match ParseUnsigned(t[1..])
      case Some(v) => Some(-v)
      case None => None
    else if t[0] == '+' then ParseUnsigned(t[1..])
    else ParseUnsigned(t)
  }

  /** A wage written as a whole number is read back as that number. */
  lemma ParseDecimalOfDecimal(n: nat)
    ensures ParseDecimal(Decimal(n)) == Some(n as real)
  {
    var d := Decimal(n);
    DecimalRoundTrip(n);
    ParseDecimalOfDigits(d);
  }

  lemma {:induction false} ParseDecimalOfDigits(s: string)
    requires s != [] && AllDigits(s)
    ensures ParseDecimal(s) == Some(DigitsValue(s) as real)
  {
    TrimOfDigits(s);
    StripSuffixOfDigits(s);
    ParseSignedOfDigits(s);
  }

  lemma StripSuffixOfDigits(s: string)
    requires s != [] && AllDigits(s)
    ensures StripSuffix(s) == s
  {
    assert IsDigit(s[|s| - 1]);
  }

  lemma {:induction false} TrimOfDigits(s: string)
    requires s != [] && AllDigits(s)
    ensures Trim(s) == s
  {
    assert IsDigit(s[0]) && IsDigit(s[|s| - 1]);
    TrimOfUntrimmable(s);
  }

  lemma {:induction false} ParseSignedOfDigits(s: string)
    requires s != [] && AllDigits(s)
    ensures ParseSigned(s) == Some(DigitsValue(s) as real)
  {
    assert IsDigit(s[0]);
    UnsignedIsSigned(s);
    ParseUnsignedOfDigits(s);
  }

  lemma {:induction false} UnsignedIsSigned(t: string)
    requires t != [] && t[0] != '-' && t[0] != '+'
    ensures ParseSigned(t) == ParseUnsigned(t)
  {
  }

  lemma {:induction false} ParseUnsignedOfDigits(s: string)
    requires s != [] && AllDigits(s)
    ensures ParseUnsigned(s) == Some(DigitsValue(s) as real)
  {
    DotIndexOfDigits(s);
    assert s[..|s|] == s;
  }

  lemma {:induction false} DotIndexOfDigits(s: string)
    requires AllDigits(s)
    ensures DotIndex(s) == |s|
  {
    if s != [] {
      DotIndexOfDigits(s[1..]);
    }
  }
}
