/**
 * JavaScript's `parseInt(token)` on the decimal tokens a chat command is made
 * of: an optional sign, then the longest run of decimal digits; no digits is
 * `NaN`, written `None` here. The decimal rendering of integers is its partner.
 */
module Numbers {
  import opened Options

  predicate IsDigit(c: char)
  {
    '0' <= c <= '9'
  }

  predicate AllDigits(s: string)
  {
    forall i :: 0 <= i < |s| ==> IsDigit(s[i])
  }

  /** The value of a decimal digit (only ever applied to digits). */
  function DigitValue(c: char): nat
  {
    if IsDigit(c) then c as int - '0' as int else 0
  }

  function DigitChar(d: nat): (c: char)
    requires d < 10
    ensures IsDigit(c) && DigitValue(c) == d
  {
    ('0' as int + d) as char
  }

  /** The longest prefix of `s` made of decimal digits. */
  function DigitPrefix(s: string): (ds: string)
    ensures ds <= s
    ensures AllDigits(ds)
    ensures |ds| == |s| || !IsDigit(s[|ds|])
  {
    if s != [] && IsDigit(s[0]) then [s[0]] + DigitPrefix(s[1..]) else []
  }

  /** The number a run of decimal digits denotes. */
  function DigitsValue(ds: string): nat
  {
    if ds == [] then 0 else 10 * DigitsValue(ds[..|ds| - 1]) + DigitValue(ds[|ds| - 1])
  }

  /** The decimal rendering of a natural number, without leading zeros. */
  function NatToString(n: nat): (s: string)
    ensures |s| >= 1 && AllDigits(s)
    ensures DigitsValue(s) == n
    ensures |s| > 1 ==> s[0] != '0'
  {
    if n < 10 then [DigitChar(n)]
    else
      var s := NatToString(n / 10) + [DigitChar(n % 10)];
      assert s[..|s| - 1] == NatToString(n / 10);
      s
  }

  /** The decimal rendering of an integer, with a leading `-` when it is negative. */
  function IntToString(n: int): (s: string)
    ensures |s| >= 1 && (IsDigit(s[0]) || s[0] == '-')
    ensures forall i :: 1 <= i < |s| ==> IsDigit(s[i])
  {
    if n < 0 then "-" + NatToString(-n) else NatToString(n)
  }

  /** `s` begins with a digit, or with a sign followed by a digit. */
  predicate StartsWithNumber(s: string)
  {
    || (|s| >= 1 && IsDigit(s[0]))
    || (|s| >= 2 && (s[0] == '-' || s[0] == '+') && IsDigit(s[1]))
  }

  /** `parseInt(s)` for a token without leading white space and without a
      `0x` prefix; `None` stands for `NaN`. */
  function ParseInt(s: string): (r: Option<int>)
    ensures r.None? <==> !StartsWithNumber(s)
  {
    var signed := |s| > 0 && (s[0] == '-' || s[0] == '+');
    var digits := DigitPrefix(if signed then s[1..] else s);
    if digits == [] then None
    else Some(WithSign(s[0] == '-', DigitsValue(digits)))
  }

  /** A magnitude with the sign `parseInt` read in front of it. */
  function WithSign(negative: bool, magnitude: nat): int
  {
    if negative then -(magnitude as int) else magnitude
  }

  /** The digit run of a rendered number ends where the rendering ends. */
  lemma {:induction false} DigitPrefixOfDigits(ds: string, suffix: string)
    requires AllDigits(ds)
    requires suffix == [] || !IsDigit(suffix[0])
    ensures DigitPrefix(ds + suffix) == ds
    decreases |ds|
  {
    if ds == [] {
      assert ds + suffix == suffix;
    } else {
      assert (ds + suffix)[1..] == ds[1..] + suffix;
      DigitPrefixOfDigits(ds[1..], suffix);
      assert [ds[0]] + ds[1..] == ds;
    }
  }

  /** `parseInt` on a digit run followed by text that does not start with a digit. */
  lemma ParseIntDigits(ds: string, suffix: string)
    requires |ds| >= 1 && AllDigits(ds)
    requires suffix == [] || !IsDigit(suffix[0])
    ensures ParseInt(ds + suffix) == Some(WithSign(false, DigitsValue(ds)))
  {
    DigitPrefixOfDigits(ds, suffix);
    assert (ds + suffix)[0] == ds[0];
  }

  /** `parseInt` on a minus sign, a digit run, and text that does not start
      with a digit. */
  lemma ParseIntNegative(ds: string, suffix: string)
    requires |ds| >= 1 && AllDigits(ds)
    requires suffix == [] || !IsDigit(suffix[0])
    ensures ParseInt("-" + (ds + suffix)) == Some(WithSign(true, DigitsValue(ds)))
  {
    DigitPrefixOfDigits(ds, suffix);
    var s := "-" + (ds + suffix);
    assert s[0] == '-' && s[1..] == ds + suffix;
  }

  /** `parseInt` on a plus sign, a digit run, and text that does not start
      with a digit (so `"+2"` gives 2). */
  lemma ParseIntPlus(ds: string, suffix: string)
    requires |ds| >= 1 && AllDigits(ds)
    requires suffix == [] || !IsDigit(suffix[0])
    ensures ParseInt("+" + (ds + suffix)) == Some(DigitsValue(ds) as int)
  {
    DigitPrefixOfDigits(ds, suffix);
    var s := "+" + (ds + suffix);
    assert s[0] == '+' && s[1..] == ds + suffix;
  }

  /** `parseInt` reads back a rendered integer, whatever non-digit text
      follows it (so `"2abc"` gives 2). */
  lemma ParseIntRoundTrip(n: int, suffix: string)
    requires suffix == [] || !IsDigit(suffix[0])
    ensures ParseInt(IntToString(n) + suffix) == Some(n)
  {
    if n < 0 {
      NegativeRoundTrip(-n, suffix);
    } else {
      NatRoundTrip(n, suffix);
    }
  }

  /** The round trip for a negative number, given by its magnitude. */
  lemma NegativeRoundTrip(m: nat, suffix: string)
    requires m > 0
    requires suffix == [] || !IsDigit(suffix[0])
    ensures ParseInt(IntToString(-(m as int)) + suffix) == Some(-(m as int))
  {
    var ds := NatToString(m);
    ParseIntNegative(ds, suffix);
    NegativeText(m, suffix);
    assert WithSign(true, DigitsValue(ds)) == -(m as int);
  }

  /** A negative number's rendering is a minus sign and its magnitude's. */
  lemma NegativeText(m: nat, suffix: string)
    requires m > 0
    ensures IntToString(-(m as int)) + suffix == "-" + (NatToString(m) + suffix)
  {
  }

  /** The round trip for a number that is not negative. */
  lemma NatRoundTrip(n: nat, suffix: string)
    requires suffix == [] || !IsDigit(suffix[0])
    ensures ParseInt(IntToString(n) + suffix) == Some(n)
  {
    var ds := NatToString(n);
    ParseIntDigits(ds, suffix);
    assert WithSign(false, DigitsValue(ds)) == n;
    assert IntToString(n) == ds;
  }
}
