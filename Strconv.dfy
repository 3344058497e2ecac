/**
 * The part of Go's `strconv` package the plugin relies on: `Atoi`, which reads a
 * base-10 `int` (64 bits wide on the platforms the scheduler runs on), and `Itoa`,
 * its right inverse, which writes one that `Atoi` reads back.
 *
 * `Atoi` accepts an optional `+` or `-` followed by one or more ASCII digits whose
 * value fits in an int64; every other string (the empty one included) is an error.
 */
module Strconv {
  import opened Wrappers
  import opened GoInt

  predicate IsDigit(c: char) {
    '0' <= c <= '9'
  }

  predicate AllDigits(d: string) {
    forall i :: 0 <= i < |d| ==> IsDigit(d[i])
  }

  /** The value of a string of decimal digits, most significant first. */
  function DigitsValue(d: string): nat
    requires AllDigits(d)
  {
    if d == [] then 0 else 10 * DigitsValue(d[..|d| - 1]) + (d[|d| - 1] - '0') as int
  }

  /** Decimal integer text: an optional `+` or `-`, then one or more ASCII digits. */
  predicate IsIntegerText(s: string)
  {
    && |s| > 0
    && (if s[0] == '+' || s[0] == '-' then |s| > 1 && AllDigits(s[1..]) else AllDigits(s))
  }

  /** The value that integer text denotes. */
  function SignedValue(s: string): int
    requires IsIntegerText(s)
  {
    if s[0] == '-' then -(DigitsValue(s[1..]) as int)
    else if s[0] == '+' then DigitsValue(s[1..])
    else DigitsValue(s)
  }

  /**
   * `strconv.Atoi`: `None` stands for the error Go returns (invalid syntax or out of
   * range). A string parses exactly when it is integer text whose value fits in an
   * int64, and then to that value.
   */
  function Atoi(s: string): (r: Option<Int64>)
    ensures r.Some? <==> IsIntegerText(s) && MinInt64 <= SignedValue(s) <= MaxInt64
    ensures r.Some? ==> r.value == SignedValue(s)
  {
    var signed := |s| > 0 && (s[0] == '+' || s[0] == '-');
    var digits := if signed then s[1..] else s;
    if |digits| == 0 || !AllDigits(digits) then None
    else
      var v: int := if signed && s[0] == '-' then -(DigitsValue(digits) as int) else DigitsValue(digits);
      if MinInt64 <= v <= MaxInt64 then Some(v) else None
  }

  /** The decimal digits of a natural number, without leading zeros. */
  function NatDigits(n: nat): (d: string)
    ensures |d| > 0 && AllDigits(d)
  {
    if n < 10 then ['0' + n as char] else NatDigits(n / 10) + ['0' + (n % 10) as char]
  }

  /** `strconv.Itoa`: a minus sign for negative values, then the digits. */
  function Itoa(n: int): string
  {
    if n < 0 then "-" + NatDigits(-n) else NatDigits(n)
  }

  lemma {:induction false} NatDigitsValue(n: nat)
    ensures DigitsValue(NatDigits(n)) == n
  {
    if n >= 10 {
      var d := NatDigits(n);
      assert d[..|d| - 1] == NatDigits(n / 10);
      NatDigitsValue(n / 10);
    }
  }

  /** Every int64 that `Itoa` writes, `Atoi` reads back. */
  lemma AtoiItoa(n: Int64)
    ensures Atoi(Itoa(n)) == Some(n)
  {
    if n < 0 {
      var m: nat := -(n as int);
      assert Itoa(n)[1..] == NatDigits(m);
      NatDigitsValue(m);
    } else {
      NatDigitsValue(n);
    }
  }

  /** A successful parse comes only from a sign-optional, non-empty run of digits. */
  lemma AtoiAcceptsOnlyIntegers(s: string)
    requires Atoi(s).Some?
    ensures |s| > 0
    ensures IsDigit(s[0]) || ((s[0] == '+' || s[0] == '-') && |s| > 1)
    ensures forall i :: 0 < i < |s| ==> IsDigit(s[i])
  {
    if s[0] == '+' || s[0] == '-' {
      assert forall i :: 0 < i < |s| ==> s[i] == s[1..][i - 1];
    }
  }

  /** A leading `+` changes nothing: `"+12"` reads as `"12"`, and `"+0003"` as `"3"`. */
  lemma AtoiPlusSign(d: string)
    requires |d| > 0 && AllDigits(d)
    ensures Atoi("+" + d) == Atoi(d)
  {
    assert ("+" + d)[1..] == d;
  }

  /** A leading `-` negates, as long as the negated value fits in an int64. */
  lemma AtoiMinusSign(d: string)
    requires |d| > 0 && AllDigits(d) && DigitsValue(d) <= -MinInt64
    ensures Atoi("-" + d) == Some(-(DigitsValue(d) as int))
  {
    assert ("-" + d)[1..] == d;
  }

  /** The label values a pod manifest may carry. */
  lemma AtoiExamples()
    ensures Atoi("") == None
    ensures Atoi("+") == None && Atoi("-") == None
    ensures Atoi("3") == Some(3) && Atoi("+3") == Some(3) && Atoi("-1") == Some(-1)
    ensures Atoi("007") == Some(7)
    ensures Atoi("1a") == None && Atoi(" 1") == None
  {
    assert "+3"[1..] == "3" && "-1"[1..] == "1";
    assert DigitsValue("007") == 7 by {
      assert "007"[..2] == "00" && "00"[..1] == "0";
    }
    assert !IsDigit("1a"[1]) && !IsDigit(" 1"[0]);
  }
}
