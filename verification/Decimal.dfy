/** Decimal text of integers: `String(n)`, `parseInt(s, 10)` and `padStart`. */
module Decimal {
  import opened Text
  import opened Wrappers

  predicate IsDigit(c: char) {
    '0' <= c <= '9'
  }

  predicate AllDigits(s: string) {
    forall i :: 0 <= i < |s| ==> IsDigit(s[i])
  }

  function DigitChar(d: nat): (c: char)
    requires d < 10
    ensures IsDigit(c) && DigitValue(c) == d
  {
    ('0' as int + d) as char
  }

  function DigitValue(c: char): (d: nat)
    requires IsDigit(c)
    ensures d < 10
  {
    c as int - '0' as int
  }

  function Digits(n: nat): (s: string)
    ensures s != [] && AllDigits(s)
  {
    if n < 10 then [DigitChar(n)] else Digits(n / 10) + [DigitChar(n % 10)]
  }

  /** String(n) for an integer n. */
  function ToDecimal(n: int): string {
    if n < 0 then ['-'] + Digits(-n) else Digits(n)
  }

  function NatValue(s: string): nat
    requires AllDigits(s)
  {
    if s == [] then 0 else 10 * NatValue(s[..|s| - 1]) + DigitValue(s[|s| - 1])
  }

  function LeadingDigits(s: string): (r: string)
    ensures AllDigits(r) && r <= s
  {
    if s == [] || !IsDigit(s[0]) then [] else [s[0]] + LeadingDigits(s[1..])
  }

  /** The number that the leading digits spell, if there is one. */
  function Magnitude(s: string): Option<nat> {
    if LeadingDigits(s) == [] then None else Some(NatValue(LeadingDigits(s)))
  }

  /** parseInt(s, 10); None is NaN. */
  function ParseInt(s: string): Option<int> {
    var t := TrimStart(s);
    var signed := t != [] && (t[0] == '+' || t[0] == '-');
    match Magnitude(if signed then t[1..] else t)
    case None => None
    case Some(n) => Some(if signed && t[0] == '-' then -(n as int) else n)
  }

  function PadStart(s: string, width: nat, c: char): (r: string)
    ensures |r| == if |s| >= width then |s| else width
  {
    if |s| >= width then s else [c] + PadStart(s, width - 1, c)
  }

  lemma {:induction false} DigitsHaveValue(n: nat)
    ensures NatValue(Digits(n)) == n
  {
    if n >= 10 {
      DigitsHaveValue(n / 10);
      var s := Digits(n);
      assert s[..|s| - 1] == Digits(n / 10);
    } else {
      assert NatValue([]) == 0;
      assert Digits(n)[..0] == [];
    }
  }

  lemma {:induction false} AllLeading(s: string)
    requires AllDigits(s)
    ensures LeadingDigits(s) == s
  {
    if s != [] {
      AllLeading(s[1..]);
    }
  }

  lemma MagnitudeOfDigits(s: string)
    requires s != [] && AllDigits(s)
    ensures Magnitude(s) == Some(NatValue(s))
  {
    AllLeading(s);
  }

  lemma ParseUnsigned(s: string)
    requires s != [] && AllDigits(s)
    ensures ParseInt(s) == Some(NatValue(s) as int)
  {
    assert IsDigit(s[0]);
    assert TrimStart(s) == s;
    MagnitudeOfDigits(s);
  }

  lemma ParseNegative(t: string)
    requires |t| > 1 && t[0] == '-' && AllDigits(t[1..])
    ensures ParseInt(t) == Some(-(NatValue(t[1..]) as int))
  {
    assert TrimStart(t) == t;
    MagnitudeOfDigits(t[1..]);
  }

  /** An integer survives its decimal text. */
  lemma ParseIntOfDecimal(n: int)
    ensures ParseInt(ToDecimal(n)) == Some(n)
  {
    var m: nat := if n < 0 then -n else n;
    DigitsHaveValue(m);
    if n < 0 {
      assert ToDecimal(n)[1..] == Digits(m);
      ParseNegative(ToDecimal(n));
    } else {
      ParseUnsigned(Digits(m));
    }
  }

  lemma {:induction false} PaddingKeepsValue(s: string, width: nat)
    requires AllDigits(s)
    ensures AllDigits(PadStart(s, width, '0')) && NatValue(PadStart(s, width, '0')) == NatValue(s)
  {
    if |s| < width {
      PaddingKeepsValue(s, width - 1);
      LeadingZero(PadStart(s, width - 1, '0'));
    }
  }

  lemma {:induction false} LeadingZero(s: string)
    requires AllDigits(s)
    ensures AllDigits(['0'] + s) && NatValue(['0'] + s) == NatValue(s)
  {
    if s == [] {
      assert (['0'] + s)[..0] == [];
    } else {
      LeadingZero(s[..|s| - 1]);
      assert (['0'] + s)[..|s|] == ['0'] + s[..|s| - 1];
    }
  }
}
