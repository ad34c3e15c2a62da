/** Decimal integer parsing and printing as Go's strconv.Atoi and strconv.Itoa do it. */
module Strconv {
  import opened Wrappers

  const MinInt: int := -0x8000_0000_0000_0000
  const MaxInt: int := 0x7fff_ffff_ffff_ffff

  predicate IsDigit(c: char) {
    '0' <= c <= '9'
  }

  predicate AllDigits(s: string) {
    forall i :: 0 <= i < |s| ==> IsDigit(s[i])
  }

  /** The value of a string of decimal digits, most significant first. */
  function DigitsValue(s: string): nat
    requires AllDigits(s)
  {
    if |s| == 0 then 0
    else DigitsValue(s[..|s| - 1]) * 10 + (s[|s| - 1] as int - '0' as int)
  }

  /** What follows one optional leading '+' or '-'. */
  function Unsigned(s: string): string {
    if |s| > 0 && (s[0] == '-' || s[0] == '+') then s[1..] else s
  }

  /**
   * strconv.Atoi: an optional '+' or '-' followed by at least one decimal
   * digit, whose value fits a 64-bit int; anything else is an error.
   */
  function Atoi(s: string): (r: Option<int>)
    ensures r.Some? <==> |Unsigned(s)| > 0 && AllDigits(Unsigned(s)) &&
                         (if s[0] == '-' then DigitsValue(Unsigned(s)) <= -MinInt else DigitsValue(Unsigned(s)) <= MaxInt)
    ensures r.Some? ==> r.value == if s[0] == '-' then 0 - DigitsValue(Unsigned(s)) as int else DigitsValue(Unsigned(s))
    ensures r.Some? ==> MinInt <= r.value <= MaxInt
    ensures 0 < |s| && AllDigits(s) && DigitsValue(s) <= MaxInt ==> r == Some(DigitsValue(s))
  {
    var digits := Unsigned(s);
    if |digits| == 0 || !AllDigits(digits) then None
    else
      var n: int := if s[0] == '-' then 0 - DigitsValue(digits) as int else DigitsValue(digits);
      if MinInt <= n <= MaxInt then Some(n) else None
  }

  /** A few inputs of the max-downloads field and what they parse to. */
  lemma AtoiExamples()
    ensures Atoi("") == None && Atoi("+") == None && Atoi("1a") == None && Atoi(" 5") == None
    ensures Atoi("-5") == Some(-5) && Atoi("+12") == Some(12) && Atoi("007") == Some(7)
  {
    assert !IsDigit('a') && !IsDigit(' ');
    assert DigitsValue("5") == 5 && DigitsValue("12") == 12 && DigitsValue("007") == 7 by {
      assert "12"[..1] == "1" && "007"[..2] == "00" && "00"[..1] == "0";
    }
  }

  /** The decimal digits of a natural number, without leading zeros. */
  function NatToString(n: nat): (s: string)
    ensures |s| > 0 && AllDigits(s)
  {
    var d := ['0' + (n % 10) as char];
    if n < 10 then d else NatToString(n / 10) + d
  }

  /** strconv.Itoa: a '-' before the digits of a negative number. */
  function Itoa(n: int): (s: string) {
    if n < 0 then "-" + NatToString(-n) else NatToString(n)
  }

  lemma {:induction false} NatToStringValue(n: nat)
    ensures DigitsValue(NatToString(n)) == n
  {
    var s := NatToString(n);
    if n >= 10 {
      NatToStringValue(n / 10);
      assert s[..|s| - 1] == NatToString(n / 10);
    }
  }

  /** Every 64-bit integer printed by Itoa parses back to itself. */
  lemma AtoiItoa(n: int)
    requires MinInt <= n <= MaxInt
    ensures Atoi(Itoa(n)) == Some(n)
  {
    if n < 0 {
      NatToStringValue(-n);
      assert Itoa(n)[1..] == NatToString(-n);
    } else {
      NatToStringValue(n);
    }
  }
}
