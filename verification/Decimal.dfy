/** Base-10 text of unbounded integers: math/big's SetString(s, 10) and String. */
module Decimal {
  import opened Prelude

  predicate IsDigit(c: char) {
    '0' <= c <= '9'
  }

  ghost predicate AllDigits(s: string) {
    forall i :: 0 <= i < |s| ==> IsDigit(s[i])
  }

  function Digit(n: nat): char
    requires n < 10
  {
    ('0' as int + n) as char
  }

  function ParseNat(s: string): Option<nat> {
    if s == [] then None
    else
      var c := s[|s| - 1];
      if !IsDigit(c) then None
      else if |s| == 1 then Some(c as int - '0' as int)
      else match ParseNat(s[..|s| - 1])
           case Some(high) => Some(high * 10 + (c as int - '0' as int))
           case None => None
  }

  function PrintNat(n: nat): string {
    if n < 10 then [Digit(n)] else PrintNat(n / 10) + [Digit(n % 10)]
  }

  /** An optional sign, then at least one digit, and nothing else. */
  function ParseInt(s: string): Option<int> {
    if s == [] then None
    else if s[0] == '-' then
      if ParseNat(s[1..]).Some? then Some(-(ParseNat(s[1..]).value as int)) else None
    else ParseNat(if s[0] == '+' then s[1..] else s)
  }

  function PrintInt(n: int): string {
    if n < 0 then "-" + PrintNat(-n) else PrintNat(n)
  }

  lemma {:induction false} NatRoundTrip(n: nat)
    ensures ParseNat(PrintNat(n)) == Some(n)
    ensures IsDigit(PrintNat(n)[0])
  {
    if n >= 10 {
      NatRoundTrip(n / 10);
      var s := PrintNat(n);
      assert s[..|s| - 1] == PrintNat(n / 10);
    }
  }

  const DIGITS := "0123456789"

  function Pow10(k: nat): nat {
    if k == 0 then 1 else 10 * Pow10(k - 1)
  }

  lemma TenTimes(a: nat, p: nat)
    ensures a * (10 * p) == 10 * (a * p)
  {}

  /** The k-th digit from the right of a printed number counts its powers of ten. */
  lemma {:induction false} DigitsByPlace(n: nat, k: nat) returns (above: nat, digit: nat, below: nat)
    requires k < |PrintNat(n)|
    ensures n == above * (10 * Pow10(k)) + digit * Pow10(k) + below && below < Pow10(k)
    ensures digit < 10 && PrintNat(n)[|PrintNat(n)| - 1 - k] == DIGITS[digit]
  {
    if k == 0 {
      above, digit, below := n / 10, n % 10, 0;
    } else {
      var lower: nat;
      above, digit, lower := DigitsByPlace(n / 10, k - 1);
      below := 10 * lower + n % 10;
      TenTimes(above, 10 * Pow10(k - 1));
      TenTimes(digit, Pow10(k - 1));
    }
  }

  /** Every integer prints to text that parses back to it. */
  lemma RoundTrip(n: int)
    ensures ParseInt(PrintInt(n)) == Some(n)
  {
    if n < 0 {
      NatRoundTrip(-n);
      MinusNegates(PrintNat(-n));
    } else {
      NatRoundTrip(n);
    }
  }

  /** One sign may lead: plus says nothing, minus negates, and neither stands without digits. */
  lemma SignsMean(s: string)
    ensures ParseInt("+" + s) == ParseNat(s)
    ensures ParseInt("-" + s) == match ParseNat(s) case None => None case Some(n) => Some(-(n as int))
  {
    assert ("+" + s)[1..] == s && ("-" + s)[1..] == s;
  }

  lemma MinusNegates(s: string)
    requires ParseNat(s).Some?
    ensures ParseInt("-" + s) == Some(-(ParseNat(s).value as int))
  {
    assert ("-" + s)[1..] == s;
  }

  lemma {:induction false} ParsesExactlyDigits(s: string)
    ensures ParseNat(s).Some? <==> s != [] && AllDigits(s)
  {
    if |s| > 1 {
      ParsesExactlyDigits(s[..|s| - 1]);
      assert s == s[..|s| - 1] + [s[|s| - 1]];
    }
  }

  function StripZeros(s: string): string {
    if |s| > 1 && s[0] == '0' then StripZeros(s[1..]) else s
  }

  lemma {:induction false} LeadingZeroParses(s: string)
    requires |s| > 1 && s[0] == '0'
    ensures ParseNat(s) == ParseNat(s[1..])
  {
    var n := |s|;
    assert s[1..][|s[1..]| - 1] == s[n - 1];
    if n > 2 {
      LeadingZeroParses(s[..n - 1]);
      assert s[..n - 1][1..] == s[1..][..n - 2];
    } else {
      assert s[..n - 1] == [s[0]];
    }
  }

  lemma {:induction false} PrintsWithoutZeros(s: string)
    requires ParseNat(s).Some?
    requires |s| == 1 || s[0] != '0'
    ensures PrintNat(ParseNat(s).value) == s
    ensures |s| > 1 ==> ParseNat(s).value >= 10
  {
    if |s| > 1 {
      var high := s[..|s| - 1];
      PrintsWithoutZeros(high);
      assert ParseNat(high).value > 0;
      assert s == high + [s[|s| - 1]];
    }
  }

  lemma {:induction false} NatCanonical(s: string)
    requires ParseNat(s).Some?
    ensures PrintNat(ParseNat(s).value) == StripZeros(s)
  {
    if |s| > 1 && s[0] == '0' {
      LeadingZeroParses(s);
      NatCanonical(s[1..]);
    } else {
      PrintsWithoutZeros(s);
    }
  }

  /** The text without its plus sign and leading zeros; a negative zero loses its sign. */
  function Canonical(s: string): string {
    if s == [] then s
    else if s[0] == '+' then StripZeros(s[1..])
    else if s[0] == '-' then (if StripZeros(s[1..]) == "0" then "0" else "-" + StripZeros(s[1..]))
    else StripZeros(s)
  }

  /** Parsing then printing any accepted text gives its canonical form. */
  lemma PrintsCanonical(s: string)
    requires ParseInt(s).Some?
    ensures PrintInt(ParseInt(s).value) == Canonical(s)
  {
    if s[0] == '-' {
      NatCanonical(s[1..]);
      var n := ParseNat(s[1..]).value;
      NatRoundTrip(n);
      assert ParseNat("0") == Some(0);
    } else if s[0] == '+' {
      NatCanonical(s[1..]);
    } else {
      NatCanonical(s);
    }
  }
}
