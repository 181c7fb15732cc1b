/**
  Python's `int(s)` on a base-10 string and `str(n)` on an integer.
  The stored `last_block` setting is text that the poll converts with `int`.
 */
module Decimal {
  import opened Wrappers

  predicate IsDigit(ch: char) {
    '0' <= ch <= '9'
  }

  /** A non-empty run of ASCII digits. */
  predicate IsDigits(s: string) {
    |s| > 0 && forall i :: 0 <= i < |s| ==> IsDigit(s[i])
  }

  /** The text `int` accepts here: digits with an optional leading sign. */
  predicate IsIntLiteral(s: string) {
    IsDigits(s) || (|s| > 1 && (s[0] == '+' || s[0] == '-') && IsDigits(s[1..]))
  }

  /**
    CPython's default limit on the digits `int(s)` reads and `str(n)` writes
    (`sys.int_info.default_max_str_digits`); beyond it both raise ValueError.
   */
  const MaxStrDigits: nat := 4300

  /** The number of digits in text of the form `IsIntLiteral` describes. */
  function DigitCount(s: string): nat {
    if |s| > 0 && (s[0] == '+' || s[0] == '-') then |s| - 1 else |s|
  }

  /** Value of a digit string, most significant digit first. */
  function DigitsValue(s: string): nat
    requires forall i :: 0 <= i < |s| ==> IsDigit(s[i])
  {
    if s == [] then 0
    else DigitsValue(s[..|s| - 1]) * 10 + DigitValue(s[|s| - 1])
  }

  function DigitValue(ch: char): nat
    requires IsDigit(ch)
  {
    (ch as int) - ('0' as int)
  }

  /** `int(s)`: the integer the text denotes, or None where Python raises ValueError. */
  function ParseInt(s: string): (r: Option<int>)
    ensures r.Some? <==> IsIntLiteral(s) && DigitCount(s) <= MaxStrDigits
    ensures r.Some? && IsDigits(s) ==> r.value >= 0
  {
    if DigitCount(s) > MaxStrDigits then None
    else if |s| > 1 && (s[0] == '+' || s[0] == '-') && IsDigits(s[1..]) then
      var magnitude: int := DigitsValue(s[1..]);
      Some(if s[0] == '-' then -magnitude else magnitude)
    else if IsDigits(s) then
      Some(DigitsValue(s))
    else
      None
  }

  function DigitChar(d: nat): char
    requires d < 10
  {
    (('0' as int) + d) as char
  }

  /** `str(n)` for a natural number: digits without leading zeros. */
  function ShowNat(n: nat): (s: string)
    ensures IsDigits(s)
    ensures |s| > 1 ==> s[0] != '0'
  {
    if n < 10 then [DigitChar(n)] else ShowNat(n / 10) + [DigitChar(n % 10)]
  }

  /** `str(n)` for any integer. */
  function ShowInt(n: int): (s: string)
    ensures IsIntLiteral(s)
  {
    if n < 0 then "-" + ShowNat(-n) else ShowNat(n)
  }

  /** Reading back the digits `str` wrote gives the number. */
  lemma {:induction false} DigitsRoundTrip(n: nat)
    ensures DigitsValue(ShowNat(n)) == n
  {
    if n >= 10 {
      DigitsRoundTrip(n / 10);
      var s := ShowNat(n);
      assert s[..|s| - 1] == ShowNat(n / 10);
    }
  }

  /** `int(str(n)) == n` for every integer `str` can write within the digit limit. */
  lemma ParseShow(n: int)
    requires DigitCount(ShowInt(n)) <= MaxStrDigits
    ensures ParseInt(ShowInt(n)) == Some(n)
  {
    var s := ShowInt(n);
    if n < 0 {
      assert s[1..] == ShowNat(-n);
      DigitsRoundTrip(-n);
    } else {
      DigitsRoundTrip(n);
    }
  }
}
