/**
 * The C++ standard-library conversions the log path relies on:
 * `std::stol` and `std::stoul` (base 10, on a 64-bit `long`),
 * `std::to_string` on an unsigned value, and integer division, which
 * truncates toward zero.
 */
module StdConv {
  import opened Wrappers

  /** The exceptions `std::stol` and `std::stoul` throw. */
  datatype ConvError = InvalidArgument | OutOfRange

  const LongMin: int := -0x8000_0000_0000_0000
  const LongMax: int := 0x7FFF_FFFF_FFFF_FFFF
  const ULongMax: int := 0xFFFF_FFFF_FFFF_FFFF

  /** `isspace` in the "C" locale: space, '\t', '\n', vertical tab, form feed, '\r'. */
  predicate IsSpace(c: char)
  {
    c == ' ' || ('\t' <= c <= '\r')
  }

  predicate IsDigit(c: char)
  {
    '0' <= c <= '9'
  }

  predicate AllDigits(s: string)
  {
    forall k :: 0 <= k < |s| ==> IsDigit(s[k])
  }

  function DigitValue(c: char): (d: nat)
    requires IsDigit(c)
    ensures d < 10
  {
    c as int - '0' as int
  }

  function DigitChar(d: nat): (c: char)
    requires d < 10
    ensures IsDigit(c) && DigitValue(c) == d
  {
    ('0' as int + d) as char
  }

  /** The value of a string of decimal digits, most significant first. */
  function DigitsValue(s: string): nat
    requires AllDigits(s)
  {
    if s == [] then 0 else DigitsValue(s[..|s| - 1]) * 10 + DigitValue(s[|s| - 1])
  }

  /** `std::to_string` of a non-negative value: its decimal digits, no sign, no padding. */
  function ToDecimal(n: nat): (s: string)
    ensures s != [] && AllDigits(s)
    ensures DigitsValue(s) == n
    ensures |s| > 1 ==> s[0] != '0'
  {
    if n < 10 then [DigitChar(n)]
    else
      var s := ToDecimal(n / 10) + [DigitChar(n % 10)];
      assert s[..|s| - 1] == ToDecimal(n / 10);
      s
  }

  /** First index at or after `i` that is not white space. */
  function SkipSpace(s: string, i: nat): (j: nat)
    requires i <= |s|
    ensures i <= j <= |s|
    ensures forall k :: i <= k < j ==> IsSpace(s[k])
    ensures j < |s| ==> !IsSpace(s[j])
    decreases |s| - i
  {
    if i == |s| || !IsSpace(s[i]) then i else SkipSpace(s, i + 1)
  }

  /** End of the run of digits that starts at `i`. */
  function DigitRunEnd(s: string, i: nat): (j: nat)
    requires i <= |s|
    ensures i <= j <= |s|
    ensures AllDigits(s[i..j])
    ensures j < |s| ==> !IsDigit(s[j])
    decreases |s| - i
  {
    if i == |s| || !IsDigit(s[i]) then i else DigitRunEnd(s, i + 1)
  }

  /** A recognised subject sequence: its sign and the value of its digits. */
  datatype Numeral = Numeral(negative: bool, magnitude: nat)

  /**
   * What `strtol`/`strtoul` recognise in base 10: leading white space, an
   * optional sign, then the longest run of digits; anything after it is
   * ignored. None when no digit follows.
   */
  function ScanNumeral(s: string): Option<Numeral>
  {
    var i := SkipSpace(s, 0);
    var j := if i < |s| && (s[i] == '-' || s[i] == '+') then i + 1 else i;
    var e := DigitRunEnd(s, j);
    if e == j then None else Some(Numeral(i < |s| && s[i] == '-', DigitsValue(s[j..e])))
  }

  /** `std::stol`: the value as a 64-bit `long`, or the exception it throws. */
  function Stol(s: string): (r: Result<int, ConvError>)
    ensures r.Ok? ==> LongMin <= r.value <= LongMax
    ensures r == Err(InvalidArgument) <==> ScanNumeral(s).None?
  {
    match ScanNumeral(s)
    case None => Err(InvalidArgument)
    case Some(Numeral(negative, m)) =>
      var v: int := if negative then -(m as int) else m;
      if v < LongMin || LongMax < v then Err(OutOfRange) else Ok(v)
  }

  /**
   * `std::stoul`: the value as a 64-bit `unsigned long`. As with `strtoul`,
   * a leading '-' is accepted and negates the value modulo 2^64; only a
   * magnitude above ULONG_MAX is out of range.
   */
  function Stoul(s: string): (r: Result<nat, ConvError>)
    ensures r.Ok? ==> r.value <= ULongMax
    ensures r == Err(InvalidArgument) <==> ScanNumeral(s).None?
  {
    match ScanNumeral(s)
    case None => Err(InvalidArgument)
    case Some(Numeral(negative, m)) =>
      if ULongMax < m then Err(OutOfRange)
      else if negative then Ok((ULongMax + 1 - m) % (ULongMax + 1))
      else Ok(m)
  }

  /** C++ `/` on integers: the quotient truncated toward zero. */
  function TruncDiv(a: int, b: int): (q: int)
    requires b > 0
    ensures a >= 0 ==> 0 <= a - q * b < b
    ensures a < 0 ==> -b < a - q * b <= 0
  {
    if a >= 0 then a / b else -((-a) / b)
  }

  // ---- Properties ----

  /** A string with no digit at all is rejected by both conversions. */
  lemma NonNumericRejected(s: string)
    requires forall k :: 0 <= k < |s| ==> !IsDigit(s[k])
    ensures Stol(s) == Err(InvalidArgument)
    ensures Stoul(s) == Err(InvalidArgument)
  {
    var i := SkipSpace(s, 0);
    var j := if i < |s| && (s[i] == '-' || s[i] == '+') then i + 1 else i;
    assert DigitRunEnd(s, j) == j;
  }

  /** White space from `i` up to a non-space at `j`: the skip stops at `j`. */
  lemma SkipSpaceStops(s: string, i: nat, j: nat)
    requires i <= j < |s|
    requires forall k :: i <= k < j ==> IsSpace(s[k])
    requires !IsSpace(s[j])
    ensures SkipSpace(s, i) == j
  {
  }

  /** Digits from `i` up to a non-digit (or the end) at `j`: the run ends at `j`. */
  lemma DigitRunStops(s: string, i: nat, j: nat)
    requires i <= j <= |s|
    requires forall k :: i <= k < j ==> IsDigit(s[k])
    requires j == |s| || !IsDigit(s[j])
    ensures DigitRunEnd(s, i) == j
  {
  }

  /**
   * Leading white space, then a run of digits, then anything that does
   * not start with a digit: the scan reads the value of that run.
   */
  lemma ScanDigits(pre: string, d: string, rest: string)
    requires forall k :: 0 <= k < |pre| ==> IsSpace(pre[k])
    requires d != [] && AllDigits(d)
    requires rest == [] || !IsDigit(rest[0])
    ensures ScanNumeral(pre + d + rest) == Some(Numeral(false, DigitsValue(d)))
  {
    var s := pre + d + rest;
    var p, q := |pre|, |pre| + |d|;
    assert forall k :: 0 <= k < p ==> s[k] == pre[k];
    assert forall k :: p <= k < q ==> s[k] == d[k - p];
    assert q < |s| ==> s[q] == rest[0];
    assert s[p..q] == d;
    SkipSpaceStops(s, 0, p);
    DigitRunStops(s, p, q);
  }

  /** The decimal text of `n` between white space and a non-digit scans back as `n`. */
  lemma ScanDecimal(pre: string, n: nat, rest: string)
    requires forall k :: 0 <= k < |pre| ==> IsSpace(pre[k])
    requires rest == [] || !IsDigit(rest[0])
    ensures ScanNumeral(pre + ToDecimal(n) + rest) == Some(Numeral(false, n))
  {
    ScanDigits(pre, ToDecimal(n), rest);
  }

  /** An unsigned numeral in range converts to its value. */
  lemma StolOfScan(s: string, n: nat)
    requires ScanNumeral(s) == Some(Numeral(false, n)) && n <= LongMax
    ensures Stol(s) == Ok(n)
  {
  }

  lemma StoulOfScan(s: string, n: nat)
    requires ScanNumeral(s) == Some(Numeral(false, n)) && n <= ULongMax
    ensures Stoul(s) == Ok(n)
  {
  }

  /** `std::stol` reads back what `std::to_string` wrote. */
  lemma StolOfDecimal(n: nat)
    requires n <= LongMax
    ensures Stol(ToDecimal(n)) == Ok(n)
  {
    var d := ToDecimal(n);
    ScanDecimal("", n, "");
    assert "" + d + "" == d;
    StolOfScan(d, n);
  }

  /** `std::stoul` reads back what `std::to_string` wrote. */
  lemma StoulOfDecimal(n: nat)
    requires n <= ULongMax
    ensures Stoul(ToDecimal(n)) == Ok(n)
  {
    var d := ToDecimal(n);
    ScanDecimal("", n, "");
    assert "" + d + "" == d;
    StoulOfScan(d, n);
  }
}
