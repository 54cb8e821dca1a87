/** Decimal numbers as the source prints them (`format!`) and reads them back
    (`str::parse` for an unsigned type with a largest value). */
module Decimal {
  import opened Wrappers

  predicate IsDigit(c: char) { '0' <= c <= '9' }

  function Digit(d: nat): char
    requires d < 10
  {
    '0' + d as char
  }

  function Print(n: nat): string {
    (if n < 10 then "" else Print(n / 10)) + [Digit(n % 10)]
  }

  function Value(digits: string): nat {
    if digits == "" then 0
    else
      var last := digits[|digits| - 1];
      10 * Value(digits[..|digits| - 1]) + (if IsDigit(last) then last as int - '0' as int else 0)
  }

  /** One optional leading plus sign, then at least one digit; too large a value
      is an error. */
  function Parse(s: string, max: nat): Option<nat> {
    var digits := if |s| > 1 && s[0] == '+' then s[1..] else s;
    if digits != "" && (forall c <- digits :: IsDigit(c)) && Value(digits) <= max
    then Some(Value(digits)) else None
  }

  lemma {:induction false} PrintDigits(n: nat)
    ensures |Print(n)| > 0 && (forall c <- Print(n) :: IsDigit(c)) && Value(Print(n)) == n
  {
    if n >= 10 {
      PrintDigits(n / 10);
    }
    var front := if n < 10 then "" else Print(n / 10);
    assert Print(n)[..|front|] == front;
  }

  /** Reading back a printed number gives that number, unless it is too large. */
  lemma ParsePrint(n: nat, max: nat)
    ensures Parse(Print(n), max) == if n <= max then Some(n) else None
  {
    PrintDigits(n);
    assert Print(n)[0] in Print(n);
  }

  lemma ValueSnoc(digits: string, d: nat)
    requires d < 10
    ensures IsDigit(Digit(d)) && Value(digits + [Digit(d)]) == 10 * Value(digits) + d
  {
    assert (digits + [Digit(d)])[..|digits|] == digits;
  }

  /** Any digits are read, leading zeros too, with or without a plus sign; nothing
      else is. */
  lemma ParseExactly(s: string, max: nat, n: nat)
    ensures Parse(s, max) == Some(n) <==>
      exists digits: string :: (s == digits || s == "+" + digits) && digits != ""
        && (forall c <- digits :: IsDigit(c)) && Value(digits) == n <= max
  {
    if Parse(s, max) == Some(n) {
      var digits := if |s| > 1 && s[0] == '+' then s[1..] else s;
      assert s == digits || s == "+" + digits;
    }
    if digits: string :| (s == digits || s == "+" + digits) && digits != ""
                         && (forall c <- digits :: IsDigit(c)) && Value(digits) == n <= max {
      assert digits[0] in digits;
      assert s == "+" + digits ==> s[1..] == digits;
    }
  }
}
