/** Decimal text of integers: `std::to_string` for printing, and
    `td::to_integer_safe<uintN>` for parsing a field into a fixed-width
    unsigned integer. `to_integer_safe` parses and then insists that printing
    the result reproduces the input exactly, so it accepts precisely the
    canonical decimal spellings of the values that fit. */
module Decimal {
  import opened Wrappers
  import opened Bits

  predicate IsDigit(c: char)
  {
    '0' <= c <= '9'
  }

  predicate AllDigits(s: string)
  {
    forall i :: 0 <= i < |s| ==> IsDigit(s[i])
  }

  /** Non-empty, digits only, no leading zero except for "0" itself. */
  predicate Canonical(s: string)
  {
    |s| > 0 && AllDigits(s) && (s[0] != '0' || |s| == 1)
  }

  function DigitChar(d: nat): (c: char)
    requires d < 10
    ensures IsDigit(c) && c as nat - '0' as nat == d
  {
    "0123456789"[d]
  }

  /** The value of a string of decimal digits. */
  function DigitsValue(s: string): nat
    requires AllDigits(s)
  {
    if |s| == 0 then 0 else 10 * DigitsValue(s[..|s| - 1]) + (s[|s| - 1] as nat - '0' as nat)
  }

  /** `std::to_string` of a non-negative integer. */
  function Decimal(n: nat): (s: string)
    ensures Canonical(s)
  {
    if n < 10 then [DigitChar(n)] else Decimal(n / 10) + [DigitChar(n % 10)]
  }

  /** `std::to_string` of a signed integer. */
  function SignedDecimal(i: int): (s: string)
    ensures |s| > 0
    ensures i >= 0 <==> s[0] != '-'
  {
    if i < 0 then "-" + Decimal(-i) else Decimal(i)
  }

  /** `td::to_integer_safe<uintN>`, with `bound` = 2^N. */
  function ParseUnsigned(s: string, bound: nat): (r: Option<nat>)
  {
    if Canonical(s) && DigitsValue(s) < bound then Some(DigitsValue(s)) else None
  }

  lemma {:induction false} DigitsValueDecimal(n: nat)
    ensures DigitsValue(Decimal(n)) == n
  {
    if n >= 10 {
      var s := Decimal(n);
      assert s[..|s| - 1] == Decimal(n / 10);
      DigitsValueDecimal(n / 10);
    }
  }

  lemma {:induction false} LeadingNonZero(s: string)
    requires |s| > 0 && AllDigits(s) && s[0] != '0'
    ensures DigitsValue(s) >= 1
  {
    if |s| > 1 {
      LeadingNonZero(s[..|s| - 1]);
    }
  }

  lemma {:induction false} DecimalDigitsValue(s: string)
    requires Canonical(s)
    ensures Decimal(DigitsValue(s)) == s
  {
    if |s| > 1 {
      var init := s[..|s| - 1];
      assert Canonical(init);
      LeadingNonZero(init);
      DecimalDigitsValue(init);
      assert s == init + [s[|s| - 1]];
    }
  }

  /** `to_integer_safe` accepts exactly the canonical spelling of a value below the bound. */
  lemma ParseUnsignedSpec(s: string, bound: nat, n: nat)
    ensures ParseUnsigned(s, bound) == Some(n) <==> s == Decimal(n) && n < bound
  {
    if ParseUnsigned(s, bound) == Some(n) {
      DecimalDigitsValue(s);
    }
    if s == Decimal(n) && n < bound {
      DigitsValueDecimal(n);
    }
  }

  /** A 64-bit value printed in decimal reads back as itself. */
  lemma Uint64ReadBack(n: Uint64)
    ensures ParseUnsigned(Decimal(n), Two64) == Some(n)
  {
    ParseUnsignedSpec(Decimal(n), Two64, n);
  }

  /** Reads back what `SignedDecimal` writes: an optional minus sign and a canonical
      magnitude, with no negative zero. */
  function ParseSigned(s: string): Option<int>
  {
    if |s| > 0 && s[0] == '-' then
      var m := s[1..];
      if Canonical(m) && DigitsValue(m) > 0 then Some(-(DigitsValue(m) as int)) else None
    else if Canonical(s) then Some(DigitsValue(s))
    else None
  }

  /** Signed decimal text reads back as the integer it was written from. */
  lemma SignedRoundTrip(i: int)
    ensures ParseSigned(SignedDecimal(i)) == Some(i)
  {
    if i < 0 {
      NegativeReadBack(i);
    } else {
      NonNegativeReadBack(i);
    }
  }

  lemma NegativeReadBack(i: int)
    requires i < 0
    ensures ParseSigned(SignedDecimal(i)) == Some(i)
  {
    var n: nat := -i;
    var m := Decimal(n);
    var s := "-" + m;
    assert SignedDecimal(i) == s;
    assert s[0] == '-' && s[1..] == m;
    DigitsValueDecimal(n);
    assert Canonical(m) && DigitsValue(m) == n;
  }

  lemma NonNegativeReadBack(i: int)
    requires i >= 0
    ensures ParseSigned(SignedDecimal(i)) == Some(i)
  {
    var s := Decimal(i);
    assert SignedDecimal(i) == s;
    assert Canonical(s);
    assert IsDigit(s[0]);
    DigitsValueDecimal(i);
  }
}
