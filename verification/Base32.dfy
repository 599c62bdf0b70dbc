/**
 Base32 as the panel's two-factor secrets use it: an encoder and a decoder that
 shift bits through an accumulator masked to 16 bits.

 Shifts, masks and ors of non-negative numbers are written as multiplication,
 division and remainder by powers of two (`BitOperations` and `VariableShifts` tie the two readings).
 */
module Base32 {
  import opened Radix

  type Byte = x: nat | x < 256

  const ALPHABET: string := "ABCDEFGHIJKLMNOPQRSTUVWXYZ234567"

  // ---------- the numeral reading of both directions ----------

  /** Characters needed for n bytes: ceil(8n / 5). */
  function EncodedLength(n: nat): nat {
    (8 * n + 4) / 5
  }

  /** Zero bits that fill the last five-bit group of n bytes. */
  function PadBits(n: nat): (r: nat)
    ensures r < 5
  {
    5 * EncodedLength(n) - 8 * n
  }

  /** n followed by k zero bits: n << k. */
  function ZerosAfter(n: nat, k: nat): nat {
    if k == 0 then n else 2 * ZerosAfter(n, k - 1)
  }

  lemma {:induction false} ZerosScale(n: nat, k: nat)
    ensures ZerosAfter(n, k) == n * Pow(2, k)
  {
    if k > 0 {
      ZerosScale(n, k - 1);
      Twice(n, Pow(2, k - 1));
    }
  }

  lemma Twice(n: nat, p: nat)
    ensures 2 * (n * p) == n * (2 * p)
  {
  }

  /** Section 6 of RFC 4648 without padding: all bits of the bytes as one number, in base 32. */
  function EncodedDigits(b: seq<Byte>): seq<nat> {
    Digits(ZerosAfter(Value(b, 256), PadBits(|b|)), 32, EncodedLength(|b|))
  }

  function Letters(d: seq<nat>): string
    requires IsNumeral(d, 32)
  {
    seq(|d|, i requires 0 <= i < |d| => ALPHABET[d[i]])
  }

  function Encoded(b: seq<Byte>): string {
    Letters(EncodedDigits(b))
  }

  predicate IsLetter(c: char) {
    'A' <= c <= 'Z' || '2' <= c <= '7'
  }

  function IndexOf(c: char): (d: nat)
    requires IsLetter(c)
    ensures d < 32 && ALPHABET[d] == c
  {
    if c <= '7' then c as int - '2' as int + 26 else c as int - 'A' as int
  }

  function Upper(s: string): string {
    seq(|s|, i requires 0 <= i < |s| =>
      if 'a' <= s[i] <= 'z' then (s[i] as int - 32) as char else s[i])
  }

  function DropTrailingPad(s: string): string {
    if s != [] && s[|s| - 1] == '=' then DropTrailingPad(s[..|s| - 1]) else s
  }

  function OnlyLetters(s: string): (r: string)
    ensures forall i :: 0 <= i < |r| ==> IsLetter(r[i])
  {
    if s == [] then []
    else OnlyLetters(s[..|s| - 1]) + if IsLetter(s[|s| - 1]) then [s[|s| - 1]] else []
  }

  /** What the decoder looks at: upper-cased, trailing `=` removed, every other character dropped. */
  function Clean(s: string): (r: string)
    ensures forall i :: 0 <= i < |r| ==> IsLetter(r[i])
  {
    OnlyLetters(DropTrailingPad(Upper(s)))
  }

  function Indices(s: string): (d: seq<nat>)
    requires forall i :: 0 <= i < |s| ==> IsLetter(s[i])
    ensures |d| == |s| && IsNumeral(d, 32)
  {
    seq(|s|, i requires 0 <= i < |s| => IndexOf(s[i]))
  }

  /** v >> r */
  function Shifted(v: nat, r: nat): nat {
    v / Pow(2, r)
  }

  function DecodedDigits(d: seq<nat>): seq<Byte>
    requires IsNumeral(d, 32)
  {
    Digits(Shifted(Value(d, 32), 5 * |d| % 8), 256, 5 * |d| / 8)
  }

  function Decoded(s: string): seq<Byte> {
    DecodedDigits(Indices(Clean(s)))
  }

  // ---------- the accumulator ----------

  /** The accumulator holds the last `bits` bits of the number read so far; `done` is the rest. */
  ghost predicate Holds(done: nat, value: nat, bits: nat, all: nat) {
    done * Pow(2, bits) + value % Pow(2, bits) == all
  }

  /** A number q-fold with x below, read modulo p*q. */
  lemma AppendRemainder(value: nat, q: nat, x: nat, p: nat)
    requires x < q && p >= 1
    ensures (value * q + x) % (p * q) == value % p * q + x
  {
    DivModUnique(value, x, q);
    ModSplit(value * q + x, q, p);
  }

  lemma ShiftInNumbers(done: nat, value: nat, all: nat, x: nat, p: nat, q: nat, pq: nat, full: nat, rest: nat)
    requires p >= 1 && rest >= 1 && x < q && done * p + value % p == all
    requires pq == p * q && full == rest * pq
    ensures pq >= 1 && full >= 1
    ensures done * pq + (value * q + x) % full % pq == all * q + x
  {
    var n := value * q + x;
    MulMono(1, p, q);
    MulMono(1, rest, pq);
    ModOfMod(n, rest, pq);
    AppendRemainder(value, q, x, p);
    Distribute(done, p, value % p, q);
  }

  lemma PowersOfTwo()
    ensures Pow(2, 5) == 32 && Pow(2, 8) == 256 && Pow(2, 16) == 0x10000
  {
    assert Pow(2, 2) == 4;
    assert Pow(2, 5) == 8 * Pow(2, 2);
    PowAdd(2, 5, 3);
    PowAdd(2, 8, 8);
  }

  lemma SixteenBits(bits: nat)
    requires bits <= 16
    ensures Pow(2, 16 - bits) * Pow(2, bits) == 0x10000
  {
    PowAdd(2, 16 - bits, bits);
    PowersOfTwo();
  }

  /** Shifting w new bits in and masking to 16 bits loses no live bit. */
  lemma ShiftIn(done: nat, value: nat, bits: nat, all: nat, x: nat, w: nat)
    requires Holds(done, value, bits, all) && x < Pow(2, w) && bits + w <= 16
    ensures Holds(done, (value * Pow(2, w) + x) % 0x10000, bits + w, all * Pow(2, w) + x)
  {
    hide Pow;
    PowAdd(2, bits, w);
    SixteenBits(bits + w);
    ShiftInNumbers(done, value, all, x, Pow(2, bits), Pow(2, w), Pow(2, bits + w), 0x10000, Pow(2, 16 - (bits + w)));
  }

  /** The top w of the lowest `bits` bits: `(value >>> (bits - w)) & (2^w - 1)`. */
  function TopBits(value: nat, bits: nat, w: nat): (t: nat)
    requires w <= bits
    ensures t < Pow(2, w)
  {
    value / Pow(2, bits - w) % Pow(2, w)
  }

  lemma ShiftOutNumbers(done: nat, value: nat, all: nat, low: nat, q: nat, p: nat)
    requires low >= 1 && q >= 1 && p == q * low && p >= 1 && done * p + value % p == all
    ensures (done * q + value / low % q) * low + value % low == all
  {
    ModSplitAt(value, low, q, p);
    Distribute(done, q, value / low % q, low);
  }

  /** Taking the top w of the live bits out. */
  lemma ShiftOut(done: nat, value: nat, bits: nat, all: nat, w: nat)
    requires Holds(done, value, bits, all) && w <= bits
    ensures Holds(done * Pow(2, w) + TopBits(value, bits, w), value, bits - w, all)
  {
    hide Pow;
    PowAdd(2, w, bits - w);
    ShiftOutNumbers(done, value, all, Pow(2, bits - w), Pow(2, w), Pow(2, bits));
  }

  lemma ScaleRemainder(v: nat, p: nat, k: nat, pk: nat)
    requires p >= 1 && k >= 1 && pk == p * k
    ensures pk >= 1 && v * k % pk == v % p * k
  {
    ModSplitAt(v * k, k, p, pk);
    DivModUnique(v, 0, k);
  }

  /** The bit operations of the source, on words without overflow, are this arithmetic. */
  lemma BitOperations(value: bv32, byte: bv32, index: bv32)
    requires value <= 0xffff && byte <= 0xff && index <= 31
    ensures ((value << 8) | byte) & 0xffff == (value * 256 + byte) % 0x10000
    ensures ((value << 5) | index) & 0xffff == (value * 32 + index) % 0x10000
    ensures value & 31 == value % 32 && value & 255 == value % 256
  {
  }

  /**
   So are the shifts by an amount that varies: the loops hold fewer than 13 bits, so `bits - 5` and
   `bits - 8` are at most 7, and 1 to 4 bits are left for the last group.
   */
  lemma VariableShifts(value: bv32)
    requires value <= 0xffff
    ensures value >> 0 == value / 1
    ensures value >> 1 == value / 2
    ensures value >> 2 == value / 4
    ensures value >> 3 == value / 8
    ensures value >> 4 == value / 16
    ensures value >> 5 == value / 32
    ensures value >> 6 == value / 64
    ensures value >> 7 == value / 128
    ensures (value << 1) & 31 == value * 2 % 32
    ensures (value << 2) & 31 == value * 4 % 32
    ensures (value << 3) & 31 == value * 8 % 32
    ensures (value << 4) & 31 == value * 16 % 32
  {
  }

  // ---------- the two loops ----------

  method Encode(buf: seq<Byte>) returns (out: string)
    ensures out == Encoded(buf)
  {
    hide Pow, Holds, TopBits, Value, Digits, PadBits, EncodedDigits, ZerosAfter;
    var bits, value: nat := 0, 0;
    out := "";
    PowersOfTwo();
    ghost var digits: seq<nat> := [];
    EmptyHolds();
    assert buf[..0] == [];
    for i := 0 to |buf|
      invariant bits < 5
      invariant IsNumeral(digits, 32) && out == Letters(digits)
      invariant 5 * |digits| + bits == 8 * i
      invariant Holds(Value(digits, 32), value, bits, Value(buf[..i], 256))
    {
      ShiftIn(Value(digits, 32), value, bits, Value(buf[..i], 256), buf[i], 8);
      ValueAppend(buf[..i], buf[i], 256);
      assert buf[..i + 1] == buf[..i] + [buf[i]];
      value := (value * 256 + buf[i]) % 0x10000;
      bits := bits + 8;
      while bits >= 5
        invariant IsNumeral(digits, 32) && out == Letters(digits)
        invariant 5 * |digits| + bits == 8 * (i + 1)
        invariant Holds(Value(digits, 32), value, bits, Value(buf[..i + 1], 256))
      {
        var top := TopBits(value, bits, 5);
        ShiftOut(Value(digits, 32), value, bits, Value(buf[..i + 1], 256), 5);
        ValueAppend(digits, top, 32);
        out := out + [ALPHABET[top]];
        digits := digits + [top];
        bits := bits - 5;
      }
    }
    assert buf[..|buf|] == buf;
    PadOf(|buf|, |digits|, bits);
    if bits > 0 {
      var last := value * Pow(2, 5 - bits) % 32;
      LastGroup(digits, value, bits, Value(buf, 256));
      ZerosScale(Value(buf, 256), 5 - bits);
      out := out + [ALPHABET[last]];
      digits := digits + [last];
    } else {
      NothingLeft(Value(digits, 32), value, Value(buf, 256));
      ZerosScale(Value(buf, 256), 0);
    }
    WholeNumber(digits, buf);
  }

  lemma PadOf(n: nat, done: nat, bits: nat)
    requires bits < 5 && 5 * done + bits == 8 * n
    ensures EncodedLength(n) == (if bits == 0 then done else done + 1)
    ensures PadBits(n) == if bits == 0 then 0 else 5 - bits
  {
    if bits == 0 {
      DivModUnique(done, 4, 5);
    } else {
      DivModUnique(done + 1, bits - 1, 5);
    }
  }

  lemma EmptyHolds()
    ensures Holds(Value([], 32), 0, 0, Value([], 256)) && Holds(Value([], 256), 0, 0, Value([], 32))
  {
  }

  lemma NothingLeft(done: nat, value: nat, all: nat)
    ensures Holds(done, value, 0, all) ==> done == all
    ensures Pow(2, 0) == 1
  {
  }

  lemma WholeNumber(digits: seq<nat>, buf: seq<Byte>)
    requires IsNumeral(digits, 32) && 5 * |digits| == 8 * |buf| + PadBits(|buf|)
    ensures Value(digits, 32) == ZerosAfter(Value(buf, 256), PadBits(|buf|)) ==> digits == EncodedDigits(buf)
  {
    DigitsOfValue(digits, 32);
  }

  /** Filling the last group with zero bits scales the whole number. */
  lemma LastGroup(digits: seq<nat>, value: nat, bits: nat, all: nat)
    requires 0 < bits < 5
    ensures Holds(Value(digits, 32), value, bits, all)
      ==> Value(digits + [value * Pow(2, 5 - bits) % 32], 32) == all * Pow(2, 5 - bits)
  {
    PowAdd(2, bits, 5 - bits);
    PowersOfTwo();
    var p, k, done := Pow(2, bits), Pow(2, 5 - bits), Value(digits, 32);
    ScaleRemainder(value, p, k, 32);
    ValueAppend(digits, value * k % 32, 32);
    ScaledSum(done, p, value % p, k);
  }

  lemma ScaledSum(done: nat, p: nat, rest: nat, k: nat)
    requires p * k == 32
    ensures (done * p + rest) * k == done * 32 + rest * k
  {
    Distribute(done, p, rest, k);
  }

  method Decode(str: string) returns (out: seq<Byte>)
    ensures out == Decoded(str)
  {
    hide Pow, Holds, TopBits, Value, Digits, Clean, DecodedDigits;
    var clean := Clean(str);
    var bits, value: nat := 0, 0;
    out := [];
    PowersOfTwo();
    ghost var d := Indices(clean);
    EmptyHolds();
    for i := 0 to |clean|
      invariant bits < 8
      invariant 8 * |out| + bits == 5 * i
      invariant Holds(Value(out, 256), value, bits, Value(d[..i], 32))
    {
      ShiftIn(Value(out, 256), value, bits, Value(d[..i], 32), d[i], 5);
      ValueAppend(d[..i], d[i], 32);
      assert d[..i + 1] == d[..i] + [d[i]];
      value := (value * 32 + IndexOf(clean[i])) % 0x10000;
      bits := bits + 5;
      if bits >= 8 {
        var top := TopBits(value, bits, 8);
        ShiftOut(Value(out, 256), value, bits, Value(d[..i + 1], 32), 8);
        ValueAppend(out, top, 256);
        out := out + [top];
        bits := bits - 8;
      }
    }
    assert d[..|clean|] == d;
    WholeBytes(out, value, bits, d);
  }

  lemma WholeBytes(out: seq<Byte>, value: nat, bits: nat, d: seq<nat>)
    requires IsNumeral(d, 32) && bits < 8 && 8 * |out| + bits == 5 * |d|
    requires Holds(Value(out, 256), value, bits, Value(d, 32))
    ensures out == DecodedDigits(d)
  {
    DivModUnique(Value(out, 256), value % Pow(2, bits), Pow(2, bits));
    DigitsOfValue(out, 256);
  }

  // ---------- what the pair promises ----------

  lemma LetterIndex(d: nat)
    requires d < 32
    ensures IsLetter(ALPHABET[d]) && IndexOf(ALPHABET[d]) == d
  {
    LetterAt(d);
  }

  lemma LetterAt(d: nat)
    requires d < 32
    ensures ALPHABET[d] as int == if d < 26 then 'A' as int + d else '2' as int + d - 26
  {
    assert d < 8 ==> d == 0 || d == 1 || d == 2 || d == 3 || d == 4 || d == 5 || d == 6 || d == 7;
    assert 8 <= d < 16 ==> d == 8 || d == 9 || d == 10 || d == 11 || d == 12 || d == 13 || d == 14 || d == 15;
    assert 16 <= d < 24 ==> d == 16 || d == 17 || d == 18 || d == 19 || d == 20 || d == 21 || d == 22 || d == 23;
    assert 24 <= d ==> d == 24 || d == 25 || d == 26 || d == 27 || d == 28 || d == 29 || d == 30 || d == 31;
  }

  lemma {:induction false} LettersStay(s: string)
    requires forall i :: 0 <= i < |s| ==> IsLetter(s[i])
    ensures OnlyLetters(s) == s
  {
    if s != [] {
      LettersStay(s[..|s| - 1]);
    }
  }

  lemma CleanLetters(d: seq<nat>)
    requires IsNumeral(d, 32)
    ensures Clean(Letters(d)) == Letters(d) && Indices(Letters(d)) == d
  {
    forall i | 0 <= i < |d| ensures IsLetter(Letters(d)[i]) && IndexOf(Letters(d)[i]) == d[i] {
      LetterIndex(d[i]);
    }
    assert Upper(Letters(d)) == Letters(d);
    assert d != [] ==> Letters(d)[|d| - 1] != '=';
    LettersStay(Letters(d));
  }

  /** Decoding an encoding gives every byte sequence back. */
  lemma RoundTrip(b: seq<Byte>)
    ensures Decoded(Encoded(b)) == b
  {
    var d := EncodedDigits(b);
    CleanLetters(d);
    UnpaddedNumber(b);
    DigitsOfValue(b, 256);
  }

  /** The decoder drops exactly the pad bits the encoder added. */
  lemma UnpaddedNumber(b: seq<Byte>)
    ensures DecodedDigits(EncodedDigits(b)) == Digits(Value(b, 256), 256, |b|)
  {
    hide Pow, Value, Shifted, PadBits, EncodedDigits, Digits;
    EncodedBits(b);
    EncodedValue(b);
    ShiftedBack(Value(b, 256), PadBits(|b|));
  }

  lemma ShiftedBack(x: nat, k: nat)
    ensures Shifted(ZerosAfter(x, k), k) == x
  {
    ZerosScale(x, k);
    DivModUnique(x, 0, Pow(2, k));
  }

  lemma EncodedBits(b: seq<Byte>)
    ensures var d := EncodedDigits(b); 5 * |d| % 8 == PadBits(|b|) && 5 * |d| / 8 == |b|
  {
    DivModUnique(|b|, PadBits(|b|), 8);
  }

  lemma EncodedNumber(b: seq<Byte>) returns (n: nat)
    ensures n == ZerosAfter(Value(b, 256), PadBits(|b|)) && n < Pow(32, EncodedLength(|b|))
    ensures EncodedDigits(b) == Digits(n, 32, EncodedLength(|b|))
  {
    n := ZerosAfter(Value(b, 256), PadBits(|b|));
    EncodedFits(b);
    hide Pow, Value, Digits, PadBits, EncodedLength, ZerosAfter;
  }

  lemma EncodedValue(b: seq<Byte>)
    ensures Value(EncodedDigits(b), 32) == ZerosAfter(Value(b, 256), PadBits(|b|))
  {
    hide Pow, Value, Digits, EncodedDigits, PadBits, EncodedLength;
    var n := EncodedNumber(b);
    ValueOfDigits(n, 32, EncodedLength(|b|));
  }

  lemma EncodedFits(b: seq<Byte>)
    ensures ZerosAfter(Value(b, 256), PadBits(|b|)) < Pow(32, EncodedLength(|b|))
  {
    hide Pow, Value, ZerosAfter;
    ByteWidth(b);
    PowersOf32(EncodedLength(|b|));
    ZerosBound(Value(b, 256), 8 * |b|, PadBits(|b|));
  }

  lemma {:induction false} ZerosBound(v: nat, n: nat, k: nat)
    requires v < Pow(2, n)
    ensures ZerosAfter(v, k) < Pow(2, n + k)
  {
    if k > 0 {
      ZerosBound(v, n, k - 1);
    }
  }

  lemma ByteWidth(b: seq<Byte>)
    ensures Value(b, 256) < Pow(2, 8 * |b|)
  {
    hide Pow, Value;
    PowersOfTwo();
    BitWidth(b, 8);
  }

  lemma PowersOf32(n: nat)
    ensures Pow(32, n) == Pow(2, 5 * n)
  {
    hide Pow;
    PowersOfTwo();
    PowOfPow(5, n);
  }

  lemma BitWidth(d: seq<nat>, w: nat)
    requires IsNumeral(d, Pow(2, w))
    ensures Value(d, Pow(2, w)) < Pow(2, w * |d|)
  {
    ValueBound(d, Pow(2, w));
    PowOfPow(w, |d|);
  }

  lemma {:induction false} PowOfPow(w: nat, n: nat)
    ensures Pow(Pow(2, w), n) == Pow(2, w * n)
  {
    if n > 0 {
      PowOfPow(w, n - 1);
      PowAdd(2, w, w * (n - 1));
      assert w + w * (n - 1) == w * n;
    }
  }

  /** The encoding has ceil(8n/5) characters, all of the alphabet, and no padding. */
  lemma EncodedShape(b: seq<Byte>)
    ensures 5 * (|Encoded(b)| - 1) < 8 * |b| <= 5 * |Encoded(b)|
    ensures forall i :: 0 <= i < |Encoded(b)| ==> IsLetter(Encoded(b)[i])
  {
    forall i | 0 <= i < |Encoded(b)| ensures IsLetter(Encoded(b)[i]) {
      LetterIndex(EncodedDigits(b)[i]);
    }
  }

  /** Letter case, trailing `=` and foreign characters make no difference to the decoder. */
  lemma DressingIgnored(b: seq<Byte>, s: string)
    requires OnlyLetters(Upper(s)) == Encoded(b)
    ensures Decoded(s) == b
  {
    TrailingPadIsNoLetter(Upper(s));
    RoundTrip(b);
    CleanLetters(EncodedDigits(b));
  }

  lemma {:induction false} TrailingPadIsNoLetter(s: string)
    ensures OnlyLetters(DropTrailingPad(s)) == OnlyLetters(s)
  {
    if s != [] && s[|s| - 1] == '=' {
      TrailingPadIsNoLetter(s[..|s| - 1]);
    }
  }

  /** Exactly the letter strings with no superfluous character and zero spare bits are encodings. */
  lemma CanonicalIff(d: seq<nat>)
    requires IsNumeral(d, 32)
    ensures Encoded(Decoded(Letters(d))) == Letters(d)
       <==> 5 * |d| % 8 < 5 && Value(d, 32) % Pow(2, 5 * |d| % 8) == 0
  {
    CleanLetters(d);
    CleanLetters(EncodedDigits(DecodedDigits(d)));
    CanonicalNumber(d);
  }

  lemma CanonicalNumber(d: seq<nat>)
    requires IsNumeral(d, 32)
    ensures EncodedDigits(DecodedDigits(d)) == d
       <==> 5 * |d| % 8 < 5 && Value(d, 32) % Pow(2, 5 * |d| % 8) == 0
  {
    hide Pow, Value, Digits, PadBits, Shifted, DecodedDigits;
    var e := EncodedDigits(DecodedDigits(d));
    LengthAfter(d);
    if 5 * |d| % 8 < 5 {
      ReencodedValue(d);
      SameNumber(e, d);
      BackAndForth(Value(d, 32), 5 * |d| % 8);
    }
  }

  lemma ReencodedValue(d: seq<nat>)
    requires IsNumeral(d, 32) && 5 * |d| % 8 < 5
    ensures var b: seq<Byte> := DecodedDigits(d);
            Value(EncodedDigits(b), 32) == ZerosAfter(Shifted(Value(d, 32), 5 * |d| % 8), 5 * |d| % 8)
  {
    hide Pow, Value, PadBits, Shifted, EncodedDigits, DecodedDigits;
    DecodedValue(d);
    EncodedValue(DecodedDigits(d));
    LengthAfter(d);
  }

  lemma LengthAfter(d: seq<nat>)
    requires IsNumeral(d, 32)
    ensures var b: seq<Byte> := DecodedDigits(d);
            if 5 * |d| % 8 < 5 then PadBits(|b|) == 5 * |d| % 8 && |EncodedDigits(b)| == |d|
            else |EncodedDigits(b)| < |d|
  {
    var n, r := 5 * |d| / 8, 5 * |d| % 8;
    assert |DecodedDigits(d)| == n;
    DivMod(5 * |d|, 8);
    if r < 5 {
      DivModUnique(|d|, 4 - r, 5);
    } else {
      DivModUnique(|d| - 1, 9 - r, 5);
    }
  }

  lemma BackAndForth(v: nat, r: nat)
    ensures ZerosAfter(Shifted(v, r), r) == v <==> v % Pow(2, r) == 0
  {
    ZerosScale(Shifted(v, r), r);
    DivMod(v, Pow(2, r));
  }

  lemma DecodedValue(d: seq<nat>)
    requires IsNumeral(d, 32)
    ensures Value(DecodedDigits(d), 256) == Shifted(Value(d, 32), 5 * |d| % 8)
  {
    hide Pow, Value, Digits, Shifted;
    var r, n := 5 * |d| % 8, 5 * |d| / 8;
    PowersOfTwo();
    BitWidth(d, 5);
    PowOfPow(8, n);
    ShiftedBound(Value(d, 32), r, 8 * n);
    ValueOfDigits(Shifted(Value(d, 32), r), 256, n);
  }

  lemma ShiftedBound(v: nat, r: nat, n: nat)
    requires v < Pow(2, r + n)
    ensures Shifted(v, r) < Pow(2, n)
  {
    PowAdd(2, r, n);
    DivBound(v, Pow(2, r), Pow(2, n));
  }

  lemma SameNumber(d: seq<nat>, e: seq<nat>)
    requires IsNumeral(d, 32) && IsNumeral(e, 32) && |d| == |e|
    ensures d == e <==> Value(d, 32) == Value(e, 32)
  {
    DigitsOfValue(d, 32);
    DigitsOfValue(e, 32);
  }

  // ---------- what the decoder does not see ----------

  lemma {:induction false} OnlyLettersJoin(a: string, b: string)
    ensures OnlyLetters(a + b) == OnlyLetters(a) + OnlyLetters(b)
  {
    if b == "" {
      assert a + b == a;
    } else {
      var n := |b| - 1;
      OnlyLettersJoin(a, b[..n]);
      assert (a + b)[..|a + b| - 1] == a + b[..n];
    }
  }

  lemma UpperJoin(a: string, b: string)
    ensures Upper(a + b) == Upper(a) + Upper(b)
  {
  }

  /** A character that is no letter of either case and none of the digits 2 to 7 is skipped, wherever it stands. */
  lemma ForeignIgnored(a: string, c: char, b: string)
    requires !('a' <= c <= 'z') && !('A' <= c <= 'Z') && !('2' <= c <= '7')
    ensures Decoded(a + [c] + b) == Decoded(a + b)
  {
    hide *;
    CleanJoin(a + [c], b);
    CleanJoin(a, [c]);
    CleanJoin(a, b);
    NoLetter(c);
    assert Clean(a) + "" == Clean(a);
    SameClean(a + [c] + b, a + b);
  }

  lemma CleanJoin(a: string, b: string)
    ensures Clean(a + b) == Clean(a) + Clean(b)
  {
    hide OnlyLetters, Upper, DropTrailingPad;
    UpperJoin(a, b);
    TrailingPadIsNoLetter(Upper(a + b));
    TrailingPadIsNoLetter(Upper(a));
    TrailingPadIsNoLetter(Upper(b));
    OnlyLettersJoin(Upper(a), Upper(b));
  }

  lemma NoLetter(c: char)
    requires !('a' <= c <= 'z') && !('A' <= c <= 'Z') && !('2' <= c <= '7')
    ensures Clean([c]) == ""
  {
    TrailingPadIsNoLetter(Upper([c]));
    assert Upper([c]) == [c] && [c][..0] == "";
    hide DropTrailingPad;
  }

  lemma SameClean(s: string, t: string)
    requires Clean(s) == Clean(t)
    ensures Decoded(s) == Decoded(t)
  {
    hide Clean, DecodedDigits, Indices;
  }

  /** The texts differ in the case of letters alone. */
  ghost predicate SameButCase(s: string, t: string) {
    |s| == |t| && forall i :: 0 <= i < |s| ==> (
      s[i] == t[i] || ('a' <= s[i] <= 'z' && t[i] as int == s[i] as int - 32)
      || ('a' <= t[i] <= 'z' && s[i] as int == t[i] as int - 32))
  }

  lemma CaseIgnored(s: string, t: string)
    requires SameButCase(s, t)
    ensures Decoded(s) == Decoded(t)
  {
    assert Upper(s) == Upper(t);
    hide DecodedDigits, Indices, DropTrailingPad, OnlyLetters;
  }
}
