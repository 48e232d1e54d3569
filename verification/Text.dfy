/** Strings as the program compares and builds them: string order, and counts in decimal. */
module Text {

  /** The order of two strings by their first difference, a prefix coming first. */
  predicate Before(a: string, b: string) {
    b != "" && (a == "" || a[0] < b[0] || (a[0] == b[0] && Before(a[1..], b[1..])))
  }

  const NUMERALS := ['0', '1', '2', '3', '4', '5', '6', '7', '8', '9']

  function Numeral(d: nat): char
    requires d < 10
  {
    NUMERALS[d]
  }

  function Digits(n: nat): string {
    (if n < 10 then "" else Digits(n / 10)) + [Numeral(n % 10)]
  }

  lemma {:induction false} DigitsArePlain(n: nat)
    ensures 0 < |Digits(n)| && forall c | c in Digits(n) :: c in NUMERALS
    decreases n
  {
    if n >= 10 {
      DigitsArePlain(n / 10);
    }
  }

  /** Two counts written alike are the same count. */
  lemma {:induction false} DigitsInjective(m: nat, n: nat)
    requires Digits(m) == Digits(n)
    ensures m == n
    decreases m
  {
    var a, b := Digits(m), Digits(n);
    assert a[|a| - 1] == Numeral(m % 10) && b[|b| - 1] == Numeral(n % 10);
    assert a[..|a| - 1] == (if m < 10 then "" else Digits(m / 10));
    assert b[..|b| - 1] == (if n < 10 then "" else Digits(n / 10));
    if m >= 10 {
      DigitsArePlain(m / 10);
    }
    if n >= 10 {
      DigitsArePlain(n / 10);
    }
    if m >= 10 && n >= 10 {
      DigitsInjective(m / 10, n / 10);
    }
  }

  predicate AllNumerals(s: string) {
    s != "" && forall i | 0 <= i < |s| :: '0' <= s[i] <= '9'
  }

  /** The number that a string of numerals writes; leading zeros do not change it. */
  function Number(s: string): nat
    requires forall i | 0 <= i < |s| :: '0' <= s[i] <= '9'
  {
    if s == "" then 0 else Number(s[..|s| - 1]) * 10 + (s[|s| - 1] - '0') as nat
  }

  lemma NumeralOf(d: nat)
    requires d < 10
    ensures '0' <= Numeral(d) <= '9' && (Numeral(d) - '0') as nat == d
  {
  }

  lemma NumberLast(s: string, c: char)
    requires (s == "" || AllNumerals(s)) && '0' <= c <= '9'
    ensures AllNumerals(s + [c]) && Number(s + [c]) == Number(s) * 10 + (c - '0') as nat
  {
    assert (s + [c])[..|s|] == s;
  }

  lemma {:induction false} NumberOfDigits(n: nat)
    ensures AllNumerals(Digits(n)) && Number(Digits(n)) == n
    decreases n
  {
    hide Numeral, Number, AllNumerals;
    NumeralOf(n % 10);
    NumberOfNone();
    var front := if n < 10 then "" else Digits(n / 10);
    if n >= 10 {
      NumberOfDigits(n / 10);
    }
    NumberLast(front, Numeral(n % 10));
  }

  lemma NumberOfNone()
    ensures Number("") == 0
  {
  }
}
