/** Decimal integers as strconv.FormatInt and strconv.ParseInt write and read them. */
module Decimal {
  import opened ExecHook

  const INT64_LIMIT: int := 0x8000_0000_0000_0000

  const DIGITS: string := "0123456789"

  /** The value of a digit. */
  function DigitValue(c: char): Option<nat> {
    if '0' <= c <= '9' then Some((c as int) - ('0' as int)) else None
  }

  lemma DigitRoundTrip(d: nat)
    requires d < 10
    ensures DigitValue(DIGITS[d]) == Some(d)
  {
  }

  function FormatNat(n: nat): (r: string)
    ensures r != []
  {
    if n < 10 then [DIGITS[n]] else FormatNat(n / 10) + [DIGITS[n % 10]]
  }

  /** The number a non-empty string of digits stands for. */
  function ParseNat(s: string): Option<nat> {
    if s == [] then None
    else
      var d := DigitValue(s[|s| - 1]);
      if |s| == 1 then d
      else
        var high := ParseNat(s[..|s| - 1]);
        if d.None? || high.None? then None else Some(high.value * 10 + d.value)
  }

  function FormatInt(n: int): string {
    if n < 0 then "-" + FormatNat(-n) else FormatNat(n)
  }

  /** An optional sign, then digits, within 64 bits. */
  function ParseInt(s: string): Option<int> {
    if s == [] then None
    else
      var v := ParseNat(if s[0] == '-' || s[0] == '+' then s[1..] else s);
      if v.None? then None
      else if s[0] == '-' then if v.value <= INT64_LIMIT then Some(0 - v.value) else None
      else if v.value < INT64_LIMIT then Some(v.value) else None
  }

  lemma {:induction false} NatRoundTrip(n: nat)
    ensures ParseNat(FormatNat(n)) == Some(n) && FormatNat(n)[0] != '-' && FormatNat(n)[0] != '+'
  {
    DigitRoundTrip(n % 10);
    if n < 10 {
      DigitRoundTrip(n);
    } else {
      NatRoundTrip(n / 10);
      var s := FormatNat(n);
      assert s[..|s| - 1] == FormatNat(n / 10) && s[|s| - 1] == DIGITS[n % 10];
    }
  }

  /** Every 64-bit integer is read back from what was written. */
  lemma IntRoundTrip(n: int)
    requires -INT64_LIMIT <= n < INT64_LIMIT
    ensures ParseInt(FormatInt(n)) == Some(n)
  {
    hide FormatNat, ParseNat;
    if n < 0 {
      NatRoundTrip(-n);
      var s := "-" + FormatNat(-n);
      assert s[0] == '-' && s[1..] == FormatNat(-n);
    } else {
      NatRoundTrip(n);
    }
  }

  /** The written form is not the only one: a plus sign is read as well. */
  lemma PlusSignRead(n: nat)
    requires n < INT64_LIMIT
    ensures ParseInt("+" + FormatNat(n)) == Some(n) && "+" + FormatNat(n) != FormatInt(n)
  {
    NatRoundTrip(n);
    hide FormatNat, ParseNat;
    assert ("+" + FormatNat(n))[1..] == FormatNat(n);
    assert FormatNat(n)[0] != ("+" + FormatNat(n))[0];
  }
}
