/** atoi (section 7.22.1.2 of ISO C11) and the decimal numerals that %d prints. */
module Decimal {

  predicate IsSpace(c: char) {
    c == ' ' || 9 <= c as int <= 13
  }

  predicate IsDigit(c: char) {
    '0' <= c <= '9'
  }

  function Digits(s: string, acc: int): int {
    if s == [] || !IsDigit(s[0]) then acc else Digits(s[1..], acc * 10 + (s[0] as int - '0' as int))
  }

  function Atoi(s: string): int {
    if s == [] then 0
    else if IsSpace(s[0]) then Atoi(s[1..])
    else if s[0] == '-' then -Digits(s[1..], 0)
    else if s[0] == '+' then Digits(s[1..], 0)
    else Digits(s, 0)
  }

  /** The value fits an int; otherwise atoi is undefined. */
  predicate AtoiDefined(s: string) {
    -0x8000_0000 <= Atoi(s) < 0x8000_0000
  }

  function Numeral(n: nat): (s: string)
    ensures s != [] && forall c <- s :: IsDigit(c)
  {
    if n < 10 then [('0' as int + n) as char] else Numeral(n / 10) + [('0' as int + n % 10) as char]
  }

  lemma {:induction false} DigitsConcat(a: string, b: string, acc: int)
    requires forall c <- a :: IsDigit(c)
    ensures Digits(a + b, acc) == Digits(b, Digits(a, acc))
  {
    if a == [] {
      assert a + b == b;
    } else {
      assert (a + b)[1..] == a[1..] + b;
      DigitsConcat(a[1..], b, acc * 10 + (a[0] as int - '0' as int));
    }
  }

  lemma {:induction false} DigitsOfNumeral(n: nat)
    ensures Digits(Numeral(n), 0) == n
  {
    if n >= 10 {
      DigitsOfNumeral(n / 10);
      DigitsConcat(Numeral(n / 10), [('0' as int + n % 10) as char], 0);
    }
  }

  /** atoi reads back what %d prints. */
  lemma AtoiOfNumeral(n: nat)
    ensures Atoi(Numeral(n)) == n
  {
    assert IsDigit(Numeral(n)[0]);
    DigitsOfNumeral(n);
  }

  /** atoi skips white space, takes one sign, and stops at the first character that is no digit. */
  lemma {:induction false} AtoiReadsIntegers(spaces: string, sign: string, n: nat, rest: string)
    requires forall c <- spaces :: c == ' ' || c == '\t' || c == '\n' || c == '\r' || c as int == 11 || c as int == 12
    requires sign == "" || sign == "+" || sign == "-"
    requires rest != [] ==> !('0' <= rest[0] <= '9')
    ensures Atoi(spaces + sign + Numeral(n) + rest) == if sign == "-" then -(n as int) else n
  {
    var t := spaces + sign + Numeral(n) + rest;
    if spaces == [] {
      var digits := Numeral(n);
      assert t == sign + (digits + rest);
      assert IsDigit(digits[0]);
      DigitsConcat(digits, rest, 0);
      DigitsOfNumeral(n);
      if sign == "" {
        assert t == digits + rest;
      } else {
        assert t[1..] == digits + rest;
      }
    } else {
      assert spaces[0] in spaces && forall c <- spaces[1..] :: c in spaces;
      assert t[1..] == spaces[1..] + sign + Numeral(n) + rest;
      AtoiReadsIntegers(spaces[1..], sign, n, rest);
    }
  }

  /** A text that starts with anything else is 0, wherever its digits are. */
  lemma AtoiOfOtherText(s: string)
    requires s == [] || !(s[0] == ' ' || 9 <= s[0] as int <= 13 || s[0] == '+' || s[0] == '-' || '0' <= s[0] <= '9')
    ensures Atoi(s) == 0
  {
  }
}
