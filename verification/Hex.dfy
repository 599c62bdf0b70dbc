/** Hexadecimal texts. */
module Hex {

  function Lower(s: string): string {
    seq(|s|, i requires 0 <= i < |s| =>
      if 'A' <= s[i] <= 'Z' then (s[i] as int + 32) as char else s[i])
  }

  predicate IsHex(c: char) {
    '0' <= c <= '9' || 'a' <= c <= 'f'
  }

  function HexValue(c: char): (v: nat)
    requires IsHex(c)
    ensures v < 16
  {
    if c <= '9' then c as int - '0' as int else c as int - 'a' as int + 10
  }

  /** 64 hex digits of either case: the well-formed transaction ids. */
  predicate IsTxid(s: string) {
    |s| == 64 && forall i :: 0 <= i < 64 ==> IsHex(Lower(s)[i])
  }

  /** A transaction id is a number; the case of its digits does not matter to the chain. */
  predicate SameTransfer(a: string, b: string) {
    Lower(a) == Lower(b)
  }
}
