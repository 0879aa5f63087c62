/** Whole numbers in hexadecimal, as chunk sizes are written. */
module Hex {
  predicate IsHex(c: char) {
    '0' <= c <= '9' || 'a' <= c <= 'f' || 'A' <= c <= 'F'
  }

  predicate AllHex(s: string) {
    forall i :: 0 <= i < |s| ==> IsHex(s[i])
  }

  function HexOf(d: nat): (c: char)
    requires d < 16
    ensures IsHex(c)
  {
    if d < 10 then '0' + d as char else 'a' + (d - 10) as char
  }

  function ValueOf(c: char): (d: nat)
    requires IsHex(c)
    ensures d < 16
  {
    if c <= '9' then (c - '0') as nat
    else if c <= 'F' then (c - 'A') as nat + 10
    else (c - 'a') as nat + 10
  }

  function HexDigits(n: nat): (s: string)
    ensures |s| > 0 && AllHex(s)
  {
    if n < 16 then [HexOf(n)] else HexDigits(n / 16) + [HexOf(n % 16)]
  }

  function HexValue(s: string): nat
    requires AllHex(s)
  {
    if s == "" then 0 else HexValue(s[..|s| - 1]) * 16 + ValueOf(s[|s| - 1])
  }

  lemma {:induction false} ValueOfDigits(n: nat)
    ensures HexValue(HexDigits(n)) == n
  {
    if n >= 16 {
      ValueOfDigits(n / 16);
      assert HexDigits(n)[..|HexDigits(n)| - 1] == HexDigits(n / 16);
    } else {
      assert HexDigits(n)[..0] == "";
    }
  }
}
