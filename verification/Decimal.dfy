/** strconv in base ten: printing an integer and reading it back. */
module Decimal {
  import opened MatchCommand

  predicate IsDigit(c: char) {
    '0' <= c <= '9'
  }

  predicate AllDigits(s: string) {
    forall i :: 0 <= i < |s| ==> IsDigit(s[i])
  }

  function DigitChar(d: nat): char
    requires d < 10
  {
    '0' + d as char
  }

  function DigitValue(c: char): nat
    requires IsDigit(c)
  {
    (c - '0') as nat
  }

  function FormatNat(n: nat): (s: string)
    ensures s != "" && AllDigits(s)
  {
    if n < 10 then [DigitChar(n)] else FormatNat(n / 10) + [DigitChar(n % 10)]
  }

  function FormatInt(n: int): string {
    if n < 0 then "-" + FormatNat(-n) else FormatNat(n)
  }

  function NatValue(s: string): nat
    requires AllDigits(s)
  {
    if s == "" then 0 else NatValue(s[..|s| - 1]) * 10 + DigitValue(s[|s| - 1])
  }

  /** An optional sign and at least one digit; no range limit. */
  function ParseInt(s: string): Option<int> {
    if s == "" then None
    else
      var signed := s[0] == '-' || s[0] == '+';
      var body := if signed then s[1..] else s;
      if body == "" || !AllDigits(body) then None
      else if s[0] == '-' then Some(0 - (NatValue(body) as int))
      else Some(NatValue(body) as int)
  }

  /** ParseInt with the 64-bit range check of the source. */
  function ParseInt64(s: string): Option<int> {
    var v := ParseInt(s);
    if v.Some? && !InInt64(v.value) then None else v
  }

  predicate InInt64(n: int) {
    -0x8000_0000_0000_0000 <= n < 0x8000_0000_0000_0000
  }

  /** strconv.ParseUint with 32 bits: digits only. */
  function ParseUint32(s: string): Option<int> {
    if s != "" && AllDigits(s) && NatValue(s) < 0x1_0000_0000 then Some(NatValue(s)) else None
  }

  lemma {:induction false} NatValueOfFormat(n: nat)
    ensures NatValue(FormatNat(n)) == n
  {
    var s := FormatNat(n);
    if n < 10 {
      assert s[..0] == "";
    } else {
      NatValueOfFormat(n / 10);
      assert s[..|s| - 1] == FormatNat(n / 10);
    }
  }

  lemma ParseOfFormat(n: int)
    ensures ParseInt(FormatInt(n)) == Some(n)
    ensures InInt64(n) ==> ParseInt64(FormatInt(n)) == Some(n)
  {
    var m := if n < 0 then -n else n;
    NatValueOfFormat(m);
    assert n < 0 ==> FormatInt(n)[1..] == FormatNat(m);
    assert n >= 0 ==> FormatInt(n)[0] == FormatNat(m)[0] && IsDigit(FormatNat(m)[0]);
  }

  /** Either sign in front of a number counts, and the digits are the usual ones. */
  lemma SignsAndDigits(n: nat, d: nat)
    requires d < 10
    ensures ParseInt("+" + FormatNat(n)) == Some(n) && ParseInt("-" + FormatNat(n)) == Some(0 - n)
    ensures FormatNat(d) == "0123456789"[d..d + 1]
  {
    NatValueOfFormat(n);
    assert ("+" + FormatNat(n))[1..] == FormatNat(n) && ("-" + FormatNat(n))[1..] == FormatNat(n);
    assert d == 0 || d == 1 || d == 2 || d == 3 || d == 4 || d == 5 || d == 6 || d == 7 || d == 8 || d == 9;
  }

  lemma FormatInjective(m: int, n: int)
    ensures FormatInt(m) == FormatInt(n) <==> m == n
  {
    ParseOfFormat(m);
    ParseOfFormat(n);
  }
}
