/** What a Tron address text says, byte by byte, told by the hex digits it was made from. */
module TronAddresses {
  import opened Hex
  import opened Radix
  import opened Base58

  const DIGITS: string := "0123456789abcdef"

  /** The character is the v-th digit, in lower or upper case. */
  ghost predicate HasValue(c: char, v: nat) {
    v < 16 && (c == DIGITS[v] || (v >= 10 && c == "ABCDEF"[v - 10]))
  }

  /** The values of a text's digits, one by one. */
  ghost predicate AreValues(d: seq<nat>, s: string) {
    |d| == |s| && forall i :: 0 <= i < |s| ==> HasValue(s[i], d[i])
  }

  // ---------- the alphabet ----------

  /** The i-th letter: digits without 0, capitals without I and O, small letters without l, each run in order. */
  lemma AlphabetIs(i: nat)
    requires i < 58
    ensures |ALPHABET| == 58
    ensures ALPHABET[i] as int ==
      if i < 9 then '1' as int + i
      else if i < 17 then 'A' as int + (i - 9)
      else if i < 22 then 'J' as int + (i - 17)
      else if i < 33 then 'P' as int + (i - 22)
      else if i < 44 then 'a' as int + (i - 33)
      else 'm' as int + (i - 44)
  {
    var capitals := "ABCDEFGHJKLMNPQRSTUVWXYZ";
    var smalls := "abcdefghijkmnopqrstuvwxyz";
    if i < 9 {
      assert ALPHABET[i] == "123456789"[i];
    } else if i < 33 {
      assert ALPHABET[i] == capitals[i - 9];
    } else {
      assert ALPHABET[i] == smalls[i - 33];
    }
  }

  // ---------- digits ----------

  lemma ValueOfDigit(c: char, v: nat)
    requires HasValue(c, v)
    ensures var l := Lower([c])[0]; IsHex(l) && HexValue(l) == v
  {
    assert Lower([c])[0] == if 'A' <= c <= 'Z' then (c as int + 32) as char else c;
    if v < 8 {
      assert v == 0 || v == 1 || v == 2 || v == 3 || v == 4 || v == 5 || v == 6 || v == 7;
    } else {
      assert v == 8 || v == 9 || v == 10 || v == 11 || v == 12 || v == 13 || v == 14 || v == 15;
    }
  }

  lemma LowerIs(s: string, i: nat)
    requires i < |s|
    ensures |Lower(s)| == |s| && Lower(s)[i] == Lower([s[i]])[0]
  {
  }

  lemma LowerValues(d: seq<nat>, s: string)
    requires AreValues(d, s)
    ensures |Lower(s)| == |s| && forall i :: 0 <= i < |s| ==> IsHex(Lower(s)[i]) && HexValue(Lower(s)[i]) == d[i]
  {
    forall i | 0 <= i < |s| ensures |Lower(s)| == |s| && IsHex(Lower(s)[i]) && HexValue(Lower(s)[i]) == d[i] {
      LowerIs(s, i);
      assert HasValue(s[i], d[i]);
      ValueOfDigit(s[i], d[i]);
    }
  }

  lemma LowerJoin(a: string, b: string)
    ensures Lower(a + b) == Lower(a) + Lower(b)
  {
  }

  // ---------- the payload ----------

  /** The bytes are those of the leading pairs of hex digits, j of them. */
  lemma {:induction false} Payload(h: string, j: nat)
    requires 2 * j <= |h| && forall i :: 0 <= i < 2 * j ==> IsHex(h[i])
    requires 2 * j + 2 <= |h| ==> !IsHex(h[2 * j]) || !IsHex(h[2 * j + 1])
    ensures |FromHex(h)| == j
    ensures forall i :: 0 <= i < j ==> FromHex(h)[i] == HexValue(h[2 * i]) * 16 + HexValue(h[2 * i + 1])
  {
    if j > 0 {
      var rest := h[2..];
      assert forall i :: 0 <= i < |rest| ==> rest[i] == h[i + 2];
      Payload(rest, j - 1);
      assert FromHex(h) == [HexValue(h[0]) * 16 + HexValue(h[1])] + FromHex(rest);
      forall i | 0 <= i < j ensures FromHex(h)[i] == HexValue(h[2 * i]) * 16 + HexValue(h[2 * i + 1]) {
        if i > 0 {
          assert FromHex(h)[i] == FromHex(rest)[i - 1];
          assert rest[2 * (i - 1)] == h[2 * i] && rest[2 * i - 1] == h[2 * i + 1];
        }
      }
    }
  }

  /** Bytes made of pairs of digits are the same number. */
  lemma {:induction false} PairsValue(b: seq<Byte>, d: seq<nat>)
    requires |d| == 2 * |b| && forall i :: 0 <= i < |b| ==> b[i] == d[2 * i] * 16 + d[2 * i + 1]
    ensures Value(b, 256) == Value(d, 16)
  {
    if b != [] {
      var n := |b| - 1;
      PairsValue(b[..n], d[..2 * n]);
      var one := d[..2 * n + 1];
      assert d[..|d| - 1] == one && one[..|one| - 1] == d[..2 * n];
      assert Value(d, 16) == Value(one, 16) * 16 + d[2 * n + 1];
      assert Value(one, 16) == Value(d[..2 * n], 16) * 16 + d[2 * n];
    }
  }

  // ---------- addresses ----------

  /**
   A 42-digit text is read back as its 21 bytes and four more: the first four of the hash of the hash of
   those bytes.
   */
  lemma TextSays(hex: string, sha: Hash, digits: string, d: seq<nat>)
    requires AreValues(d, digits) && |digits| == 42 && WithVersion(Prepared(hex)) == Lower(digits)
    ensures var b := Read(TronText(hex, sha));
      |b| == 25 && Value(b[..21], 256) == Value(d, 16) && b[21..] == sha(sha(b[..21]))[..4]
    ensures forall i :: 0 <= i < 21 ==> Read(TronText(hex, sha))[i] == d[2 * i] * 16 + d[2 * i + 1]
  {
    LowerValues(d, digits);
    var h := Lower(digits);
    Payload(h, 21);
    var p := FromHex(h);
    RoundTrip(Checked(p, sha));
    hide Read, Encoded, FromHex, Lower, AreValues, HasValue;
    PairsValue(p, d);
    assert Checked(p, sha)[..21] == p && Checked(p, sha)[21..] == sha(sha(p))[..4];
  }

  /** The ways to write an account's 40 digits. */
  ghost predicate IsPrefix(s: string) {
    s == "" || s == "41" || s == "0x" || s == "0X" || s == "0x41" || s == "0X41"
  }

  lemma PreparedForm(prefix: string, account: string, d: seq<nat>)
    requires IsPrefix(prefix) && |account| == 40 && AreValues(d, account)
    ensures WithVersion(Prepared(prefix + account)) == Lower("41" + account)
  {
    LowerValues(d, account);
    LowerJoin(prefix, account);
    LowerJoin("41", account);
    LowerPrefix(prefix);
    var tail := Lower(account);
    assert tail[1] != 'x';
    hide Lower;
    if prefix == "" {
      assert "" + tail == tail;
    } else if prefix == "41" {
      assert ("41" + tail)[0] == '4';
    } else if prefix == "0x" || prefix == "0X" {
      assert ("0x" + tail)[2..] == tail;
    } else {
      assert ("0x41" + tail)[2..] == "41" + tail;
    }
  }

  lemma LowerPrefix(prefix: string)
    requires IsPrefix(prefix)
    ensures Lower(prefix) == if prefix == "0X" then "0x" else if prefix == "0X41" then "0x41" else prefix
    ensures Lower("41") == "41"
  {
  }

  /** The version byte, the account of the given digits, and the double hash's first four bytes. */
  ghost predicate Says(b: seq<Byte>, d: seq<nat>, sha: Hash) {
    |b| == 25 && b[0] == 0x41 && Value(b[1..21], 256) == Value(d, 16) && b[21..] == sha(sha(b[..21]))[..4]
  }

  /**
   However an account is written, with or without 0x and the version byte and in either case, its text
   says: the byte 0x41, the account's 20 bytes, and the double hash's first four.
   */
  lemma AddressSays(prefix: string, account: string, d: seq<nat>, sha: Hash)
    requires IsPrefix(prefix) && |account| == 40 && AreValues(d, account)
    ensures Says(Read(TronText(prefix + account, sha)), d, sha)
  {
    var digits, all := "41" + account, [4, 1] + d;
    VersionDigits(account, d);
    PreparedForm(prefix, account, d);
    hide *;
    TextSays(prefix + account, sha, digits, all);
    AccountBytes(Read(TronText(prefix + account, sha)), d);
    SaysIt(Read(TronText(prefix + account, sha)), d, sha);
  }

  lemma SaysIt(b: seq<Byte>, d: seq<nat>, sha: Hash)
    requires |b| == 25 && b[0] == 0x41 && Value(b[1..21], 256) == Value(d, 16) && b[21..] == sha(sha(b[..21]))[..4]
    ensures Says(b, d, sha)
  {
  }

  lemma VersionDigits(account: string, d: seq<nat>)
    requires |account| == 40 && AreValues(d, account)
    ensures AreValues([4, 1] + d, "41" + account) && |"41" + account| == 42
  {
    assert HasValue('4', 4) && HasValue('1', 1);
    hide HasValue;
  }

  lemma AccountBytes(b: seq<Byte>, d: seq<nat>)
    requires |b| == 25 && |d| == 40
    requires var all := [4, 1] + d; forall i :: 0 <= i < 21 ==> b[i] == all[2 * i] * 16 + all[2 * i + 1]
    ensures b[0] == 0x41 && Value(b[1..21], 256) == Value(d, 16)
  {
    var all, rest := [4, 1] + d, b[1..21];
    assert b[0] == all[2 * 0] * 16 + all[2 * 0 + 1];
    forall i | 0 <= i < 20 ensures rest[i] == d[2 * i] * 16 + d[2 * i + 1] {
      assert rest[i] == b[i + 1] && all[2 * (i + 1)] == d[2 * i] && all[2 * (i + 1) + 1] == d[2 * i + 1];
    }
    hide Value;
    PairsValue(rest, d);
  }

  /** Any other length, 0x aside, is given back as it is. */
  lemma OtherLengthsStay(hex: string, sha: Hash)
    requires var dressed := |hex| >= 2 && (hex[..2] == "0x" || hex[..2] == "0X");
      var n := if dressed then |hex| - 2 else |hex|;
      n != 40 && n != 42
    ensures TronText(hex, sha) == hex
  {
    if |hex| >= 2 {
      assert Lower(hex)[0] == '0' <==> hex[0] == '0';
      assert Lower(hex)[1] == 'x' <==> hex[1] == 'x' || hex[1] == 'X';
      assert hex[..2] == [hex[0], hex[1]];
    }
    hide Encoded, Checked, FromHex;
  }

  /**
   A text of 42 characters whose j-th pair is the first that is no pair of digits is cut there: the
   j bytes before it are written, with the checksum of those.
   */
  lemma BadDigitCuts(hex: string, sha: Hash, j: nat)
    requires var h := WithVersion(Prepared(hex));
      && |h| == 42 && j < 21 && (!IsHex(h[2 * j]) || !IsHex(h[2 * j + 1]))
      && forall i :: 0 <= i < 2 * j ==> IsHex(h[i])
    ensures var b, h := Read(TronText(hex, sha)), WithVersion(Prepared(hex));
      && |b| == j + 4 && b[j..] == sha(sha(b[..j]))[..4]
      && forall i :: 0 <= i < j ==> b[i] == HexValue(h[2 * i]) * 16 + HexValue(h[2 * i + 1])
  {
    var h := WithVersion(Prepared(hex));
    Payload(h, j);
    var p := FromHex(h);
    RoundTrip(Checked(p, sha));
    hide Read, Encoded, FromHex, Prepared;
    assert Checked(p, sha)[..j] == p && Checked(p, sha)[j..] == sha(sha(p))[..4];
  }
}
