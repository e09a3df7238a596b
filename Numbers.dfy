/**
 * The two number conversions a card's id goes through: String(n) when the
 * template writes `data-id="${recipe.id}"`, and parseInt(text, 10) when a
 * click handler reads the attribute back (section 19.2.5 of ECMA-262).
 * Ids are integers; NaN is Option's None.
 */
module Numbers {
  import opened Wrappers
  import opened Text
  import opened Sequences

  predicate IsDigit(c: char)
  {
    '0' <= c <= '9'
  }

  predicate AllDigits(s: string)
  {
    forall i :: 0 <= i < |s| ==> IsDigit(s[i])
  }

  function DigitValue(c: char): nat
    requires IsDigit(c)
  {
    c as int - '0' as int
  }

  function DigitChar(d: nat): (c: char)
    requires d < 10
    ensures IsDigit(c) && DigitValue(c) == d
  {
    ('0' as int + d) as char
  }

  /** The decimal digits of n, most significant first: never empty, and "0" only for n == 0. */
  function NatToDecimal(n: nat): (s: string)
    ensures s != [] && AllDigits(s)
    ensures s[0] == '0' ==> n == 0
    decreases n
  {
    if n < 10 then [DigitChar(n)]
    else
      var front := NatToDecimal(n / 10);
      assert (front + [DigitChar(n % 10)])[0] == front[0];
      front + [DigitChar(n % 10)]
  }

  /** String(n) for an integer n: a minus sign in front of the digits of |n| when n is negative. */
  function IntToDecimal(n: int): (s: string)
    ensures s != [] && (s[0] == '-' <==> n < 0)
    ensures n >= 0 ==> AllDigits(s)
  {
    if n < 0 then "-" + NatToDecimal(-n) else NatToDecimal(n)
  }

  /** The length of the run of decimal digits s starts with. */
  function LeadingDigits(s: string): (n: nat)
    ensures n <= |s| && AllDigits(s[..n])
    ensures n < |s| ==> !IsDigit(s[n])
  {
    if s != [] && IsDigit(s[0]) then
      var n := LeadingDigits(s[1..]);
      PrefixOfTail(s, n);
      1 + n
    else
      0
  }

  /** The value of a string of decimal digits, read most significant digit first. */
  function DigitsValue(s: string): nat
    requires AllDigits(s)
  {
    if s == [] then 0
    else DigitsValue(s[..|s| - 1]) * 10 + DigitValue(s[|s| - 1])
  }

  /** The text parseInt actually reads: the input without leading whitespace and without one sign. */
  function UnsignedPart(s: string): string
  {
    var t := TrimStart(s);
    if |t| > 0 && (t[0] == '-' || t[0] == '+') then t[1..] else t
  }

  /**
   * parseInt(s, 10): leading whitespace is skipped, one sign is read, then
   * the longest run of digits; anything after it is ignored. Without a
   * digit there the result is NaN (None).
   */
  function ParseInt(s: string): (r: Option<int>)
    ensures r.None? <==> UnsignedPart(s) == [] || !IsDigit(UnsignedPart(s)[0])
    ensures r.Some? && |TrimStart(s)| > 0 && TrimStart(s)[0] == '-' ==> r.value <= 0
    ensures r.Some? && !(|TrimStart(s)| > 0 && TrimStart(s)[0] == '-') ==> r.value >= 0
    ensures r.Some? ==> (if r.value < 0 then -r.value else r.value)
                        == DigitsValue(UnsignedPart(s)[..LeadingDigits(UnsignedPart(s))])
  {
    var t := TrimStart(s);
    var body := UnsignedPart(s);
    var n := LeadingDigits(body);
    var magnitude: int := if n == 0 then 0 else DigitsValue(body[..n]);
    if n == 0 then None
    else if |t| > 0 && t[0] == '-' then Some(-magnitude)
    else Some(magnitude)
  }

  // ---------------------------------------------------------------------
  // Lemmas

  /** Reading back the digits NatToDecimal writes gives the number. */
  lemma {:induction false} DecimalValue(n: nat)
    ensures DigitsValue(NatToDecimal(n)) == n
    decreases n
  {
    var s := NatToDecimal(n);
    if n < 10 {
      assert s[..|s| - 1] == [];
    } else {
      var front := NatToDecimal(n / 10);
      assert s == front + [DigitChar(n % 10)];
      assert s[..|s| - 1] == front;
      DecimalValue(n / 10);
    }
  }

  /** A string of digits parses to its value in full. */
  lemma {:induction false} DigitsParse(d: string)
    requires d != [] && AllDigits(d)
    ensures LeadingDigits(d) == |d| && d[..|d|] == d
  {
  }

  /** parseInt reads back every id String wrote: the round trip of a card's id attribute. */
  lemma {:induction false} ParseIntOfDecimal(n: int)
    ensures ParseInt(IntToDecimal(n)) == Some(n)
  {
    var s := IntToDecimal(n);
    assert !IsWhitespace(s[0]);
    assert TrimStart(s) == s;
    var digits := NatToDecimal(if n < 0 then -n else n);
    if n < 0 {
      assert s[1..] == digits;
    }
    assert UnsignedPart(s) == digits;
    DigitsParse(digits);
    DecimalValue(if n < 0 then -n else n);
  }
}
