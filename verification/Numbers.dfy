/** Decimal text. */
module Numbers {
  import opened Records

  predicate IsDigit(c: char) { '0' <= c <= '9' }

  predicate AllDigits(s: string) {
    forall i :: 0 <= i < |s| ==> IsDigit(s[i])
  }

  function Itoa(n: nat): (s: string)
    ensures s != "" && AllDigits(s)
  {
    var last := '0' + (n % 10) as char;
    if n < 10 then [last] else Itoa(n / 10) + [last]
  }

  function DigitsValue(s: string): nat
    requires AllDigits(s)
  {
    if s == "" then 0 else DigitsValue(s[..|s| - 1]) * 10 + (s[|s| - 1] as int - '0' as int)
  }

  lemma {:induction false} ItoaValue(n: nat)
    ensures DigitsValue(Itoa(n)) == n
  {
    var s := Itoa(n);
    if n < 10 {
      assert DigitsValue(s[..0]) == 0;
    } else {
      ItoaValue(n / 10);
      assert s[..|s| - 1] == Itoa(n / 10);
    }
  }

  const MAX_INT64 := 0x7FFF_FFFF_FFFF_FFFF

  /** strconv.Atoi: an optional sign, digits, and a 64-bit range. */
  function Atoi(s: string): Option<int> {
    var negative := s != "" && s[0] == '-';
    var digits := if s != "" && (s[0] == '-' || s[0] == '+') then s[1..] else s;
    if digits == "" || !AllDigits(digits) then None
    else
      var n: int := DigitsValue(digits);
      if negative then (if n > MAX_INT64 + 1 then None else Some(-n))
      else if n > MAX_INT64 then None else Some(n)
  }

  lemma AtoiItoa(n: nat)
    requires n <= MAX_INT64
    ensures Atoi(Itoa(n)) == Some(n)
  {
    ItoaValue(n);
    assert IsDigit(Itoa(n)[0]);
  }

  /** Text reads as a number exactly if it is an optional sign and decimal digits, and the number fits 64
      bits. */
  lemma AtoiExactly(s: string)
    ensures var signed := |s| > 0 && (s[0] as int == 45 || s[0] as int == 43);
      var digits := if signed then s[1..] else s;
      var decimal := digits != "" && forall i :: 0 <= i < |digits| ==> 48 <= digits[i] as int <= 57;
      Atoi(s) ==
        if !decimal then None
        else
          var n := DigitsValue(digits) * if signed && s[0] as int == 45 then -1 else 1;
          if -0x8000_0000_0000_0000 <= n <= 0x7FFF_FFFF_FFFF_FFFF then Some(n) else None
  {
  }
}
