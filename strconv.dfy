// strconv.Atoi and strconv.Itoa for the 64-bit int of the platforms the
// agent is built for.
module Strconv {
  import opened Wrappers

  const MinInt64: int := -0x8000_0000_0000_0000
  const MaxInt64: int := 0x7FFF_FFFF_FFFF_FFFF

  predicate IsDigit(c: char) { '0' <= c <= '9' }

  predicate AllDigits(s: string)
  {
    forall i :: 0 <= i < |s| ==> IsDigit(s[i])
  }

  // The value of a string of decimal digits.
  function DigitsValue(s: string): (v: nat)
    requires AllDigits(s)
  {
    if s == [] then 0
    else DigitsValue(s[..|s| - 1]) * 10 + (s[|s| - 1] as int - '0' as int)
  }

  // The decimal digits of n, without leading zeros ("0" for zero).
  function Digits(n: nat): (s: string)
    ensures |s| >= 1 && AllDigits(s)
    ensures DigitsValue(s) == n
    ensures |s| > 1 ==> s[0] != '0'
  {
    var c := ((n % 10) + '0' as int) as char;
    if n < 10 then [c]
    else
      var s := Digits(n / 10) + [c];
      assert s[..|s| - 1] == Digits(n / 10);
      s
  }

  // strconv.Itoa
  function Itoa(n: int): (s: string)
    ensures |s| >= 1
  {
    if n < 0 then "-" + Digits(-n) else Digits(n)
  }

  // strconv.Atoi: an optional sign, then one or more decimal digits and
  // nothing else, within the range of a 64-bit int.
  function Atoi(s: string): (r: Option<int>)
    ensures r.Some? ==> MinInt64 <= r.value <= MaxInt64
    ensures r.Some? ==> |s| >= 1
  {
    if s == [] then None
    else
      var neg := s[0] == '-';
      var body := if s[0] == '-' || s[0] == '+' then s[1..] else s;
      if body == [] || !AllDigits(body) then None
      else
        var mag: int := DigitsValue(body);
        var v := if neg then 0 - mag else mag;
        if MinInt64 <= v <= MaxInt64 then Some(v) else None
  }

  // Atoi reads back what Itoa writes.
  lemma AtoiItoa(n: int)
    requires MinInt64 <= n <= MaxInt64
    ensures Atoi(Itoa(n)) == Some(n)
  {
    if n < 0 {
      assert ("-" + Digits(-n))[1..] == Digits(-n);
    }
  }

  // A character other than a digit after the sign makes Atoi fail, so a
  // trailing newline must be removed before parsing.
  lemma AtoiRejectsNonDigit(s: string, i: nat)
    requires 0 < i < |s| && !IsDigit(s[i])
    ensures Atoi(s).None?
  {
    var body := if s[0] == '-' || s[0] == '+' then s[1..] else s;
    if s[0] == '-' || s[0] == '+' {
      assert body[i - 1] == s[i];
    } else {
      assert body[i] == s[i];
    }
  }

  // Itoa writes only a sign and digits.
  lemma ItoaChars(n: int)
    ensures forall i :: 0 <= i < |Itoa(n)| ==> Itoa(n)[i] == '-' || IsDigit(Itoa(n)[i])
  {
  }

  // Itoa writes neither a space nor a newline.
  lemma ItoaNoSpace(n: int)
    ensures ' ' !in Itoa(n) && '\n' !in Itoa(n)
  {
    ItoaChars(n);
  }
}
