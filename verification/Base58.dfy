/**
 Base58 and the Tron address form built on it. The hash is a parameter: nothing
 below depends on what it computes, only on its output having 32 bytes.
 */
module Base58 {
  import opened Hex
  import opened Radix

  type Byte = x: nat | x < 256

  const ALPHABET: string := "123456789" + "ABCDEFGHJKLMNPQRSTUVWXYZ" + "abcdefghijkmnopqrstuvwxyz"

  // ---------- specification ----------

  function ZeroPrefix(b: seq<Byte>): (z: nat)
    ensures z <= |b| && (z < |b| ==> b[z] != 0) && forall i :: 0 <= i < z ==> b[i] == 0
  {
    if b != [] && b[0] == 0 then 1 + ZeroPrefix(b[1..]) else 0
  }

  function Letters(d: seq<nat>): string
    requires IsNumeral(d, 58)
  {
    seq(|d|, i requires 0 <= i < |d| => ALPHABET[d[i]])
  }

  function Ones(z: nat): string {
    seq(z, i => '1')
  }

  /** One '1' per leading zero byte, then the number in base 58. */
  function Encoded(b: seq<Byte>): string {
    Ones(ZeroPrefix(b)) + Letters(Minimal(Value(b, 256), 58))
  }

  // ---------- the source's loops ----------

  method Encode(bytes: seq<Byte>) returns (out: string)
    ensures out == Encoded(bytes)
  {
    hide Value, Minimal, Letters, ZeroPrefix;
    var n: nat := 0;
    NoBytes(bytes);
    for i := 0 to |bytes|
      invariant n == Value(bytes[..i], 256)
    {
      ValueAppend(bytes[..i], bytes[i], 256);
      assert bytes[..i + 1] == bytes[..i] + [bytes[i]];
      n := n * 256 + bytes[i];
    }
    assert bytes[..|bytes|] == bytes;
    out := "";
    while n > 0
      invariant Letters(Minimal(Value(bytes, 256), 58)) == Letters(Minimal(n, 58)) + out
      decreases n
    {
      LastLetter(n);
      out := [ALPHABET[n % 58]] + out;
      n := n / 58;
    }
    NoLetters();
    ghost var text := out;
    var k := 0;
    while k < |bytes|
      invariant k <= ZeroPrefix(bytes)
      invariant out == Ones(k) + text
    {
      if bytes[k] != 0 {
        break;
      }
      out := "1" + out;
      k := k + 1;
    }
  }

  lemma NoBytes(bytes: seq<Byte>)
    ensures Value(bytes[..0], 256) == 0
  {
  }

  lemma NoLetters()
    ensures Letters(Minimal(0, 58)) == ""
  {
  }

  lemma LastLetter(n: nat)
    requires n > 0
    ensures n / 58 < n
    ensures Letters(Minimal(n, 58)) == Letters(Minimal(n / 58, 58)) + [ALPHABET[n % 58]]
  {
    Shrinks(n, 58);
  }

  // ---------- reading the text back ----------

  function IndexIn(s: string, c: char): (i: nat)
    ensures i <= |s| && (i < |s| ==> s[i] == c)
  {
    if s == [] || s[0] == c then 0 else 1 + IndexIn(s[1..], c)
  }

  function OnesPrefix(s: string): (z: nat)
    ensures z <= |s|
  {
    if s != "" && s[0] == '1' then 1 + OnesPrefix(s[1..]) else 0
  }

  function Indices(s: string): seq<nat> {
    seq(|s|, i requires 0 <= i < |s| => IndexIn(ALPHABET, s[i]))
  }

  /** Reference reader: a zero byte per leading '1', then the number in base 256. */
  function Read(s: string): seq<Byte> {
    var z := OnesPrefix(s);
    seq(z, i => 0) + Minimal(Value(Indices(s[z..]), 58), 256)
  }

  lemma Increasing(i: nat)
    requires i < 57
    ensures ALPHABET[i] < ALPHABET[i + 1]
  {
  }

  lemma {:induction false} AllIncreasing(i: nat, j: nat)
    requires i < j < 58
    ensures ALPHABET[i] < ALPHABET[j]
  {
    Increasing(j - 1);
    if i + 1 < j {
      AllIncreasing(i, j - 1);
    }
  }

  lemma {:induction false} IndexInAt(s: string, i: nat)
    requires i < |s| && forall k :: 0 <= k < i ==> s[k] != s[i]
    ensures IndexIn(s, s[i]) == i
  {
    if i > 0 {
      assert s[0] != s[i];
      IndexInAt(s[1..], i - 1);
    }
  }

  lemma LetterIndex(d: nat)
    requires d < 58
    ensures IndexIn(ALPHABET, ALPHABET[d]) == d && (ALPHABET[d] == '1' <==> d == 0)
  {
    forall k | 0 <= k < d ensures ALPHABET[k] != ALPHABET[d] {
      AllIncreasing(k, d);
    }
    IndexInAt(ALPHABET, d);
    if d > 0 {
      AllIncreasing(0, d);
    }
  }

  lemma LettersBack(d: seq<nat>)
    requires IsNumeral(d, 58)
    ensures Indices(Letters(d)) == d
  {
    forall i | 0 <= i < |d| ensures Indices(Letters(d))[i] == d[i] {
      LetterIndex(d[i]);
    }
  }

  lemma {:induction false} OnesStripped(z: nat, t: string)
    requires t == "" || t[0] != '1'
    ensures OnesPrefix(Ones(z) + t) == z && (Ones(z) + t)[z..] == t
  {
    if z == 0 {
      assert Ones(0) + t == t;
    } else {
      OnesStripped(z - 1, t);
      assert (Ones(z) + t)[1..] == Ones(z - 1) + t;
    }
  }

  /** Reading an encoding gives every byte sequence back, leading zero bytes included. */
  lemma RoundTrip(b: seq<Byte>)
    ensures Read(Encoded(b)) == b
  {
    var z := ZeroPrefix(b);
    var zeros, rest := seq(z, i => 0), b[z..];
    var n := Value(b, 256);
    assert b == zeros + rest;
    LeadingZeros(z, rest, 256);
    MinimalOfValue(rest, 256);
    var d := Minimal(n, 58);
    var t := Letters(d);
    if n > 0 {
      MinimalLeads(n, 58);
      LetterIndex(d[0]);
    }
    OnesStripped(z, t);
    LettersBack(d);
    ValueOfMinimal(n, 58);
  }

  lemma Injective(a: seq<Byte>, b: seq<Byte>)
    ensures Encoded(a) == Encoded(b) <==> a == b
  {
    RoundTrip(a);
    RoundTrip(b);
  }

  // ---------- addresses ----------

  lemma Powers()
    ensures Pow(58, 33) == 15599970876632771988160814054146447252125923204784443097088
    ensures Pow(256, 24) == 6277101735386680763835789423207666416102355444464034512896
  {
    assert Pow(58, 1) == 58 * Pow(58, 0);
    PowAdd(58, 1, 1);
    PowAdd(58, 2, 2);
    PowAdd(58, 4, 4);
    PowAdd(58, 8, 8);
    PowAdd(58, 16, 16);
    PowAdd(58, 32, 1);
    assert Pow(256, 1) == 256 * Pow(256, 0);
    PowAdd(256, 1, 1);
    PowAdd(256, 2, 2);
    PowAdd(256, 4, 4);
    PowAdd(256, 8, 8);
    PowAdd(256, 16, 8);
  }

  /** A 25-byte payload with version byte 0x41 is written with 34 characters, the first a 'T'. */
  lemma VersionByteGivesT(p: seq<Byte>)
    requires |p| == 25 && p[0] == 0x41
    ensures |Encoded(p)| == 34 && Encoded(p)[0] == 'T'
  {
    var n := Value(p, 256);
    ValueByFirst(p, 256);
    ValueBound(p[1..], 256);
    assert 65 * Pow(256, 24) <= n < 66 * Pow(256, 24);
    Powers();
    LeadingDigit(n, 58, 26, 33);
  }

  /** Pairs of hex digits up to the first pair that is not one. */
  function FromHex(h: string): seq<Byte> {
    if |h| >= 2 && IsHex(h[0]) && IsHex(h[1]) then
      [HexValue(h[0]) * 16 + HexValue(h[1])] + FromHex(h[2..])
    else []
  }

  /** A hash with 32-byte output. */
  type Hash = f: seq<Byte> -> seq<Byte> | forall x :: |f(x)| == 32
    witness (x: seq<Byte>) => seq(32, i => 0)

  /** Lower-cased, without one leading "0x". */
  function Prepared(hex: string): string {
    var h := Lower(hex);
    if |h| >= 2 && h[0] == '0' && h[1] == 'x' then h[2..] else h
  }

  function WithVersion(h: string): string {
    if |h| == 40 then "41" + h else h
  }

  function Checked(p: seq<Byte>, sha: Hash): seq<Byte> {
    p + sha(sha(p))[..4]
  }

  function TronText(hex: string, sha: Hash): string {
    var h := WithVersion(Prepared(hex));
    if |h| == 42 then Encoded(Checked(FromHex(h), sha)) else hex
  }

  method TronHexToBase58(hex: string, sha: Hash) returns (text: string)
    ensures text == TronText(hex, sha)
  {
    var h := Prepared(hex);
    if |h| == 40 {
      h := "41" + h;
    }
    if |h| != 42 {
      return hex;
    }
    var payload := FromHex(h);
    var c1 := sha(payload);
    var c2 := sha(c1);
    text := Encode(payload + c2[..4]);
  }

  /** 20 hex-coded bytes, with or without "0x", with or without the version byte. */
  ghost predicate IsAddress(hex: string) {
    var h := WithVersion(Prepared(hex));
    |h| == 42 && h[0] == '4' && h[1] == '1' && forall i :: 0 <= i < 42 ==> IsHex(h[i])
  }

  /** The 40 hex digits that name the account. */
  function Account(hex: string): string
    requires IsAddress(hex)
  {
    WithVersion(Prepared(hex))[2..]
  }

  lemma {:induction false} FromHexLength(h: string)
    requires |h| % 2 == 0 && forall i :: 0 <= i < |h| ==> IsHex(h[i])
    ensures |FromHex(h)| == |h| / 2
  {
    if h != "" {
      FromHexLength(h[2..]);
    }
  }

  lemma HexValueInjective(c: char, d: char)
    requires IsHex(c) && IsHex(d) && HexValue(c) == HexValue(d)
    ensures c == d
  {
  }

  lemma {:induction false} FromHexInjective(g: string, h: string)
    requires |g| == |h| && |g| % 2 == 0 && FromHex(g) == FromHex(h)
    requires forall i :: 0 <= i < |g| ==> IsHex(g[i]) && IsHex(h[i])
    ensures g == h
  {
    if g != "" {
      assert FromHex(g)[0] == FromHex(h)[0];
      HexValueInjective(g[0], h[0]);
      HexValueInjective(g[1], h[1]);
      assert FromHex(g)[1..] == FromHex(g[2..]) && FromHex(h)[1..] == FromHex(h[2..]);
      FromHexInjective(g[2..], h[2..]);
      assert g == [g[0], g[1]] + g[2..] && h == [h[0], h[1]] + h[2..];
    }
  }

  /** Every address text has 34 characters and begins with 'T', whatever the hash. */
  lemma AddressShape(hex: string, sha: Hash)
    requires IsAddress(hex)
    ensures |TronText(hex, sha)| == 34 && TronText(hex, sha)[0] == 'T'
  {
    var h := WithVersion(Prepared(hex));
    FromHexLength(h);
    assert FromHex(h)[0] == HexValue('4') * 16 + HexValue('1') == 0x41;
    VersionByteGivesT(Checked(FromHex(h), sha));
  }

  /** Two spellings give the same text exactly when they name the same account. */
  lemma SameTextIff(a: string, b: string, sha: Hash)
    requires IsAddress(a) && IsAddress(b)
    ensures TronText(a, sha) == TronText(b, sha) <==> Account(a) == Account(b)
  {
    var g, h := WithVersion(Prepared(a)), WithVersion(Prepared(b));
    FromHexLength(g);
    FromHexLength(h);
    var p, q := FromHex(g), FromHex(h);
    Injective(Checked(p, sha), Checked(q, sha));
    assert Checked(p, sha)[..21] == p && Checked(q, sha)[..21] == q;
    assert g == "41" + Account(a) && h == "41" + Account(b);
    if p == q {
      FromHexInjective(g, h);
    }
  }
}
