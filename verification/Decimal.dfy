/** Decimal text of unsigned integers as Rust's `to_string` writes it and `str::parse` reads it. */
module Decimal {
  import opened Common

  predicate IsDigit(c: char) {
    '0' <= c <= '9'
  }

  predicate AllDigits(s: string) {
    forall i :: 0 <= i < |s| ==> IsDigit(s[i])
  }

  function Digit(d: nat): (c: char)
    requires d < 10
    ensures IsDigit(c)
  {
    '0' + d as char
  }

  /** No leading zeros, and at least one digit. */
  function Text(n: nat): (s: string)
    ensures s != [] && AllDigits(s)
    ensures n > 0 ==> s[0] != '0'
    ensures n < 10 ==> |s| == 1
  {
    if n < 10 then [Digit(n)] else Text(n / 10) + [Digit(n % 10)]
  }

  function Value(s: string): nat
    requires AllDigits(s)
  {
    if s == [] then 0 else 10 * Value(s[..|s| - 1]) + (s[|s| - 1] - '0') as nat
  }

  /** `str::parse` for an unsigned type: an optional plus sign, then digits, within the range of the type. */
  function Parse(s: string, max: nat): (r: Option<nat>)
    ensures r.Some? ==> r.value <= max
  {
    var digits := if s != [] && s[0] == '+' then s[1..] else s;
    if digits == [] || !AllDigits(digits) || Value(digits) > max then None else Some(Value(digits))
  }

  const MAX_U32: nat := 0xFFFF_FFFF
  const MAX_U64: nat := 0xFFFF_FFFF_FFFF_FFFF

  lemma {:induction false} ValueOfText(n: nat)
    ensures Value(Text(n)) == n
  {
    if n >= 10 {
      ValueOfText(n / 10);
      assert Text(n)[..|Text(n)| - 1] == Text(n / 10);
    } else {
      assert Text(n)[..0] == [];
    }
  }

  /** What was printed parses back. */
  lemma ParseOfText(n: nat, max: nat)
    ensures Parse(Text(n), max) == if n <= max then Some(n) else None
  {
    ValueOfText(n);
    assert IsDigit(Text(n)[0]);
  }

  /** The accepted texts of n: its digits, with any leading zeros, behind an optional plus sign. */
  lemma ParseIff(s: string, max: nat, n: nat)
    ensures Parse(s, max) == Some(n) <==>
      n <= max && exists digits :: digits != [] && AllDigits(digits) && Value(digits) == n
                                   && (s == digits || s == "+" + digits)
  {
    var digits := if s != [] && s[0] == '+' then s[1..] else s;
    assert s == digits || s == "+" + digits;
    forall d: string | d != [] && AllDigits(d) && (s == d || s == "+" + d) ensures d == digits {
      assert IsDigit(d[0]);
      assert s == "+" + d ==> s[1..] == d;
    }
  }

  lemma TextIsInjective(m: nat, n: nat)
    requires Text(m) == Text(n)
    ensures m == n
  {
    ValueOfText(m);
    ValueOfText(n);
  }
}
