/** Decimal and hexadecimal numerals. */
module Numerals {
  import opened Options

  predicate AllDigits(s: string) {
    forall i :: 0 <= i < |s| ==> '0' <= s[i] <= '9'
  }

  function Decimal(s: string): nat
    requires AllDigits(s)
  {
    if s == "" then 0 else Decimal(s[..|s| - 1]) * 10 + (s[|s| - 1] as int - '0' as int)
  }

  function DecimalText(n: nat): (s: string)
    ensures s != "" && AllDigits(s) && Decimal(s) == n
  {
    var last := ('0' as int + n % 10) as char;
    if n < 10 then assert [last][..0] == ""; [last]
    else
      var front := DecimalText(n / 10);
      assert (front + [last])[..|front|] == front;
      front + [last]
  }

  function HexDigit(c: char): (r: Option<nat>)
    ensures r.Some? ==> r.value < 16
  {
    if '0' <= c <= '9' then Some(c as int - '0' as int)
    else if 'a' <= c <= 'f' then Some(c as int - 'a' as int + 10)
    else if 'A' <= c <= 'F' then Some(c as int - 'A' as int + 10)
    else None
  }

  /** A hexadecimal digit stands for its place among the sixteen, in capitals or not. */
  lemma HexDigitExactly(c: char, v: nat)
    ensures HexDigit(c) == Some(v) <==> v < 16 && ("0123456789abcdef"[v] == c || "0123456789ABCDEF"[v] == c)
  {
  }

  predicate IsHex(c: char) {
    HexDigit(c).Some?
  }

  function HexOf(s: string): nat {
    if s == "" then 0
    else
      var last := HexDigit(s[|s| - 1]);
      HexOf(s[..|s| - 1]) * 16 + (if last.Some? then last.value else 0)
  }
}
