/** strconv.FormatInt and ParseInt in base 10 over 64-bit integers. */
module Decimal {
  import opened Options
  import opened ByteStrings

  const MIN_INT64 := -0x8000_0000_0000_0000
  const MAX_INT64 := 0x7fff_ffff_ffff_ffff

  predicate InInt64(n: int) {
    MIN_INT64 <= n <= MAX_INT64
  }

  predicate IsDigit(c: Byte) {
    48 <= c <= 57
  }

  function Digits(n: nat): (r: Bytes)
    ensures r != [] && forall c | c in r :: IsDigit(c)
  {
    if n < 10 then [48 + n] else Digits(n / 10) + [48 + n % 10]
  }

  function Format(n: int): Bytes {
    if n < 0 then [45] + Digits(-n) else Digits(n)
  }

  function DigitsValue(s: Bytes): Option<nat> {
    if s == [] then Some(0)
    else
      var last, rest := s[|s| - 1], DigitsValue(s[..|s| - 1]);
      if rest.None? || !IsDigit(last) then None else Some(rest.value * 10 + (last - 48))
  }

  // An optional sign, then at least one digit; out of range is an error.
  function Parse(s: Bytes): Option<int> {
    if s == [] then None
    else
      var signed := s[0] == 43 || s[0] == 45;
      var body := if signed then s[1..] else s;
      var v := DigitsValue(body);
      if body == [] || v.None? then None
      else
        var abs: int := v.value;
        var n := if s[0] == 45 then -abs else abs;
        if InInt64(n) then Some(n) else None
  }

  lemma {:induction false} DigitsRoundTrip(n: nat)
    ensures DigitsValue(Digits(n)) == Some(n)
  {
    if n < 10 {
      assert Digits(n)[..0] == [];
    } else {
      DigitsRoundTrip(n / 10);
      assert Digits(n)[..|Digits(n)| - 1] == Digits(n / 10);
    }
  }

  lemma RoundTrip(n: int)
    requires InInt64(n)
    ensures Parse(Format(n)) == Some(n)
  {
    if n < 0 {
      DigitsRoundTrip(-n);
      assert Format(n)[1..] == Digits(-n);
    } else {
      DigitsRoundTrip(n);
      assert IsDigit(Digits(n)[0]);
    }
  }

  // The usual notation: the last digit counts ones, the rest counts tens, and a minus sign
  // goes first.
  lemma Notation(n: int)
    ensures 0 <= n < 10 ==> Format(n) == [48 + n]
    ensures 10 <= n ==> Format(n) == Format(n / 10) + [48 + n % 10]
    ensures n < 0 ==> Format(n) == [45] + Format(-n)
  {
  }
}
