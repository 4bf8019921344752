/** Decimal printing of integers as Python's f-string does it, and its inverse.
    Cursors and job keys are built from these digits. */
module Decimal {
  import opened Common

  function Digit(n: nat): char
    requires n < 10
  {
    '0' + n as char
  }

  predicate IsDigit(c: char) {
    '0' <= c <= '9'
  }

  function DigitValue(c: char): nat
    requires IsDigit(c)
  {
    c as int - '0' as int
  }

  function PrintNat(n: nat): (s: string)
    ensures |s| > 0
    ensures forall i :: 0 <= i < |s| ==> IsDigit(s[i])
  {
    if n < 10 then [Digit(n)] else PrintNat(n / 10) + [Digit(n % 10)]
  }

  function PrintInt(n: int): string {
    if n < 0 then "-" + PrintNat(-n) else PrintNat(n)
  }

  predicate AllDigits(s: string) {
    forall i :: 0 <= i < |s| ==> IsDigit(s[i])
  }

  function ParseNat(s: string): nat
    requires AllDigits(s)
  {
    if s == [] then 0 else ParseNat(s[..|s| - 1]) * 10 + DigitValue(s[|s| - 1])
  }

  /** int() of a plain decimal literal; None stands for ValueError. */
  function ParseInt(s: string): Option<int> {
    if s == [] then None
    else if s[0] == '-' then
      (if |s| > 1 && AllDigits(s[1..]) then Some(0 - ParseNat(s[1..])) else None)
    else if AllDigits(s) then Some(ParseNat(s))
    else None
  }

  lemma {:induction false} ParsePrintNat(n: nat)
    ensures ParseNat(PrintNat(n)) == n
  {
    if n >= 10 {
      ParsePrintNat(n / 10);
      var s := PrintNat(n);
      assert s[..|s| - 1] == PrintNat(n / 10);
    } else {
      assert PrintNat(n)[..0] == [];
    }
  }

  /** Printing then reading gives the number back, negatives included. */
  lemma ParsePrintInt(n: int)
    ensures ParseInt(PrintInt(n)) == Some(n)
  {
    if n < 0 {
      ParsePrintNat(-n);
      assert PrintInt(n)[1..] == PrintNat(-n);
    } else {
      ParsePrintNat(n);
    }
  }

  /** Two numbers never print alike. */
  lemma PrintIntInjective(a: int, b: int)
    requires PrintInt(a) == PrintInt(b)
    ensures a == b
  {
    ParsePrintInt(a);
    ParsePrintInt(b);
  }

  /** Which texts are numbers: digits, at least one, perhaps behind one minus sign. */
  lemma NumbersAreDigits(s: string)
    ensures ParseInt(s).Some? <==>
              exists sign, digits ::
                s == sign + digits && (sign == "" || sign == "-") && digits != "" && AllDigits(digits)
  {
    if ParseInt(s).Some? {
      if s[0] == '-' {
        assert s == "-" + s[1..];
      } else {
        assert s == "" + s;
      }
    }
    if sign, digits :| s == sign + digits && (sign == "" || sign == "-") && digits != "" && AllDigits(digits) {
      assert sign == "-" ==> s[1..] == digits;
      assert sign == "" ==> s == digits;
    }
  }

  lemma KnownNumbers()
    ensures PrintInt(0) == "0" && PrintInt(-1203) == "-1203"
  {
    assert PrintNat(12) == "12" by { assert PrintNat(1) == "1"; }
    assert PrintNat(120) == "120";
    assert PrintNat(1203) == "1203";
  }
}
