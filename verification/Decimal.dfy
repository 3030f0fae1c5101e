/** Decimal notation of natural numbers, as Python's `str` writes it and `int` reads it. */
module Decimal {

  predicate IsDigit(c: char) { '0' <= c <= '9' }

  predicate AllDigits(s: string) { forall i | 0 <= i < |s| :: IsDigit(s[i]) }

  function Digit(n: nat): char
    requires n < 10
  {
    (n as char) + '0'
  }

  function Print(n: nat): (s: string)
    ensures s != "" && AllDigits(s) && Value(s) == n && (s[0] == '0' <==> n == 0)
  {
    if n < 10 then [Digit(n)]
    else
      var s := Print(n / 10) + [Digit(n % 10)];
      assert s[..|s| - 1] == Print(n / 10);
      s
  }

  /** The number a string of digits stands for. */
  function Value(s: string): nat
    requires AllDigits(s)
  {
    if s == "" then 0 else 10 * Value(s[..|s| - 1]) + (s[|s| - 1] - '0') as nat
  }

  lemma PrintAppends(n: nat, d: nat)
    requires n > 0 && d < 10
    ensures Print(10 * n + d) == Print(n) + [Digit(d)]
  {
    assert (10 * n + d) / 10 == n && (10 * n + d) % 10 == d;
  }

  /** Without leading zeros, no two strings of digits stand for the same number. */
  lemma {:induction false} ValuePrints(s: string)
    requires s != "" && AllDigits(s) && (s[0] == '0' ==> |s| == 1)
    ensures Print(Value(s)) == s
  {
    var t, d := s[..|s| - 1], (s[|s| - 1] - '0') as nat;
    assert s == t + [Digit(d)];
    if |s| > 1 {
      ValuePrints(t);
      PrintAppends(Value(t), d);
    }
  }

  function Power10(d: nat): nat { if d == 0 then 1 else 10 * Power10(d - 1) }

  lemma {:induction false} PrintLength(n: nat, d: nat)
    requires d >= 1 && n < Power10(d)
    ensures |Print(n)| <= d
    decreases d
  {
    if n >= 10 { PrintLength(n / 10, d - 1); }
  }
}
