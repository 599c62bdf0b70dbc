/** Positional numerals, most significant digit first. */
module Radix {

  function Pow(b: nat, e: nat): (p: nat)
    ensures b >= 1 ==> p >= 1
  {
    if e == 0 then 1 else b * Pow(b, e - 1)
  }

  /** Every digit is below the base. */
  ghost predicate IsNumeral(d: seq<nat>, b: nat) {
    forall i :: 0 <= i < |d| ==> d[i] < b
  }

  function Value(d: seq<nat>, b: nat): nat {
    if d == [] then 0 else Value(d[..|d| - 1], b) * b + d[|d| - 1]
  }

  /** The lowest `len` digits of `n`. */
  function Digits(n: nat, b: nat, len: nat): (d: seq<nat>)
    requires b >= 1
    ensures |d| == len && IsNumeral(d, b)
    decreases len
  {
    if len == 0 then [] else Digits(n / b, b, len - 1) + [n % b]
  }

  lemma ValueAppend(d: seq<nat>, x: nat, b: nat)
    ensures Value(d + [x], b) == Value(d, b) * b + x
  {
    assert (d + [x])[..|d|] == d;
  }

  lemma MulMono(x: int, y: int, b: nat)
    requires x <= y
    ensures x * b <= y * b
  {
  }

  lemma DivBound(n: nat, b: nat, p: nat)
    requires b >= 1 && n < b * p
    ensures n / b < p
  {
    DivMod(n, b);
    if n / b >= p {
      MulMono(p, n / b, b);
      assert false;
    }
  }

  lemma PowZero(b: nat)
    ensures Pow(b, 0) == 1
  {
  }

  lemma QuotientBound(n: nat, b: nat, len: nat)
    requires b >= 1 && len >= 1 && n < Pow(b, len)
    ensures n / b < Pow(b, len - 1)
  {
    DivBound(n, b, Pow(b, len - 1));
  }

  lemma DigitsStep(n: nat, b: nat, len: nat) returns (q: nat, r: nat)
    requires b >= 1 && len >= 1
    ensures Digits(n, b, len) == Digits(q, b, len - 1) + [r] && n == q * b + r
    ensures n < Pow(b, len) ==> q < Pow(b, len - 1)
  {
    q, r := n / b, n % b;
    assert Digits(n, b, len) == Digits(q, b, len - 1) + [r];
    hide Pow, Digits;
    DivMod(n, b);
    if n < Pow(b, len) {
      QuotientBound(n, b, len);
    }
  }

  lemma {:induction false} ValueOfDigits(n: nat, b: nat, len: nat)
    requires b >= 1 && n < Pow(b, len)
    ensures Value(Digits(n, b, len), b) == n
    decreases len
  {
    PowZero(b);
    if len > 0 {
      hide Pow, Digits, Value;
      var q, r := DigitsStep(n, b, len);
      ValueOfDigits(q, b, len - 1);
      ValueAppend(Digits(q, b, len - 1), r, b);
    }
  }

  lemma {:induction false} ValueBound(d: seq<nat>, b: nat)
    requires b >= 1 && IsNumeral(d, b)
    ensures Value(d, b) < Pow(b, |d|)
  {
    if d != [] {
      var init, last := d[..|d| - 1], d[|d| - 1];
      ValueBound(init, b);
      var q, p := Value(init, b), Pow(b, |init|);
      assert Value(d, b) == q * b + last;
      assert Pow(b, |d|) == b * p;
      NextBound(q, p, last, b);
    }
  }

  lemma NextBound(q: nat, p: nat, last: nat, b: nat)
    requires q < p && last < b
    ensures q * b + last < b * p
  {
    MulMono(q + 1, p, b);
  }

  lemma QuotientUnique(q1: int, r1: nat, q2: int, r2: nat, b: nat)
    requires r1 < b && r2 < b && q1 * b + r1 == q2 * b + r2
    ensures q1 == q2 && r1 == r2
  {
    if q1 > q2 {
      MulMono(q2 + 1, q1, b);
    } else if q1 < q2 {
      MulMono(q1 + 1, q2, b);
    }
  }

  lemma DivModUnique(q: nat, r: nat, b: nat)
    requires r < b
    ensures (q * b + r) / b == q && (q * b + r) % b == r
  {
    var n := q * b + r;
    QuotientUnique(n / b, n % b, q, r, b);
  }

  lemma {:induction false} DigitsOfValue(d: seq<nat>, b: nat)
    requires b >= 1 && IsNumeral(d, b)
    ensures Digits(Value(d, b), b, |d|) == d
  {
    if d != [] {
      DigitsOfValue(d[..|d| - 1], b);
      DivModUnique(Value(d[..|d| - 1], b), d[|d| - 1], b);
    }
  }

  lemma DivMod(n: nat, b: nat)
    requires b >= 1
    ensures n == n / b * b + n % b && n % b < b
  {
  }

  /** Regrouping (k*m + d)*p + r by the position m*p. */
  lemma Regroup(k: nat, m: nat, d: nat, p: nat, r: nat, mp: nat)
    requires d < m && r < p && mp == m * p
    ensures (k * m + d) * p + r == k * mp + (d * p + r)
    ensures d * p + r < mp
  {
    Distribute(k, m, d, p);
    MulMono(d + 1, m, p);
  }

  /** Splitting a remainder: the digit above position p, and what is below it. */
  lemma ModSplit(v: nat, p: nat, m: nat)
    requires p >= 1 && m >= 1
    ensures v % (m * p) == (v / p % m) * p + v % p
  {
    ModSplitAt(v, p, m, m * p);
  }

  lemma ModSplitAt(v: nat, p: nat, m: nat, mp: nat)
    requires p >= 1 && m >= 1 && mp == m * p
    ensures mp >= 1 && v % mp == (v / p % m) * p + v % p
  {
    MulMono(1, m, p);
    DivMod(v, p);
    DivMod(v / p, m);
    Regroup(v / p / m, m, v / p % m, p, v % p, mp);
    DivModUnique(v / p / m, (v / p % m) * p + v % p, mp);
  }

  lemma {:induction false} PowAdd(b: nat, x: nat, y: nat)
    ensures Pow(b, x + y) == Pow(b, x) * Pow(b, y)
  {
    if x > 0 {
      PowAdd(b, x - 1, y);
      Reassociate(b, Pow(b, x - 1), Pow(b, y), Pow(b, x), Pow(b, x - 1 + y));
    }
  }

  lemma Reassociate(b: nat, p: nat, q: nat, bp: nat, pq: nat)
    requires bp == b * p && pq == p * q
    ensures b * pq == bp * q
  {
  }

  lemma ModOfMod(n: nat, r: nat, m: nat)
    requires r >= 1 && m >= 1
    ensures n % (r * m) % m == n % m
  {
    ModSplit(n, m, r);
    DivModUnique(n / m % r, n % m, m);
  }

  lemma Distribute(x: int, p: int, y: int, q: int)
    ensures (x * p + y) * q == x * (p * q) + y * q
  {
  }

  // ---------- numerals without leading zeros ----------

  /** The digits of `n` with no leading zero; zero has no digits. */
  function Minimal(n: nat, b: nat): (d: seq<nat>)
    requires b >= 2
    ensures IsNumeral(d, b)
    decreases n
  {
    if n == 0 then [] else Shrinks(n, b); Minimal(n / b, b) + [n % b]
  }

  lemma Shrinks(n: nat, b: nat)
    requires b >= 2 && n >= 1
    ensures n / b < n
  {
    DivMod(n, b);
    if n / b >= n {
      MulMono(2, b, n / b);
      assert false;
    }
  }

  lemma {:induction false} ValueOfMinimal(n: nat, b: nat)
    requires b >= 2
    ensures Value(Minimal(n, b), b) == n
    decreases n
  {
    if n > 0 {
      Shrinks(n, b);
      ValueOfMinimal(n / b, b);
      ValueAppend(Minimal(n / b, b), n % b, b);
      DivMod(n, b);
    }
  }

  lemma {:induction false} MinimalLeads(n: nat, b: nat)
    requires b >= 2 && n >= 1
    ensures Minimal(n, b) != [] && Minimal(n, b)[0] != 0
    decreases n
  {
    var q, r := n / b, n % b;
    Shrinks(n, b);
    DivMod(n, b);
    if q >= 1 {
      MinimalLeads(q, b);
    }
  }

  lemma {:induction false} MinimalOfValue(d: seq<nat>, b: nat)
    requires b >= 2 && IsNumeral(d, b) && (d == [] || d[0] != 0)
    ensures Minimal(Value(d, b), b) == d
    ensures d != [] ==> Value(d, b) >= 1
  {
    if d != [] {
      var init, last := d[..|d| - 1], d[|d| - 1];
      MinimalOfValue(init, b);
      DivModUnique(Value(init, b), last, b);
      if init != [] {
        MulMono(1, Value(init, b), b);
      }
    }
  }

  lemma {:induction false} LeadingZeros(z: nat, d: seq<nat>, b: nat)
    ensures Value(seq(z, i => 0) + d, b) == Value(d, b)
  {
    if d == [] {
      assert seq(z, i => 0) + d == seq(z, i => 0);
      ZeroValue(z, b);
    } else {
      var init := d[..|d| - 1];
      LeadingZeros(z, init, b);
      assert seq(z, i => 0) + d == (seq(z, i => 0) + init) + [d[|d| - 1]];
      ValueAppend(seq(z, i => 0) + init, d[|d| - 1], b);
    }
  }

  lemma {:induction false} ZeroValue(z: nat, b: nat)
    ensures Value(seq(z, i => 0), b) == 0
  {
    if z > 0 {
      assert seq(z, i => 0)[..z - 1] == seq(z - 1, i => 0);
      ZeroValue(z - 1, b);
    }
  }

  /** The first digit counts whole top positions. */
  lemma {:induction false} ValueByFirst(d: seq<nat>, b: nat)
    requires d != []
    ensures Value(d, b) == d[0] * Pow(b, |d| - 1) + Value(d[1..], b)
  {
    if |d| > 1 {
      var init, last := d[..|d| - 1], d[|d| - 1];
      ValueByFirst(init, b);
      assert d[1..] == init[1..] + [last];
      ValueAppend(init[1..], last, b);
      assert Value(d, b) == Value(init, b) * b + last;
      assert Pow(b, |d| - 1) == b * Pow(b, |init| - 1);
      hide Pow, Value;
      ByFirstStep(d[0], Pow(b, |init| - 1), Pow(b, |d| - 1), Value(init[1..], b), b);
    }
  }

  lemma ByFirstStep(first: nat, p: nat, bp: nat, rest: nat, b: nat)
    requires bp == b * p
    ensures (first * p + rest) * b == first * bp + rest * b
  {
    Distribute(first, p, rest, b);
  }

  /** Between q and q+1 times b^k the numeral has k+1 digits and begins with q. */
  lemma {:induction false} LeadingDigit(n: nat, b: nat, q: nat, k: nat)
    requires b >= 2 && 0 < q < b
    requires q * Pow(b, k) <= n < (q + 1) * Pow(b, k)
    ensures |Minimal(n, b)| == k + 1 && Minimal(n, b)[0] == q
    decreases k
  {
    assert Pow(b, 0) == 1;
    if k == 0 {
      DivModUnique(0, n, b);
      assert Minimal(n / b, b) == [];
    } else {
      assert Pow(b, k) == b * Pow(b, k - 1);
      hide Pow;
      QuotientRange(n, b, q, Pow(b, k - 1), Pow(b, k));
      LeadingDigit(n / b, b, q, k - 1);
    }
  }

  lemma QuotientRange(n: nat, b: nat, q: nat, p: nat, bp: nat)
    requires b >= 1 && p >= 1 && q >= 1 && bp == b * p
    requires q * bp <= n < (q + 1) * bp
    ensures n >= 1 && q * p <= n / b < (q + 1) * p
  {
    DivMod(n, b);
    MulMono(1, p, b);
    MulMono(1, q, bp);
    Reassociate(q, p, b, q * p, bp);
    Reassociate(q + 1, p, b, (q + 1) * p, bp);
    if n / b < q * p {
      MulMono(n / b + 1, q * p, b);
      assert false;
    }
    if n / b >= (q + 1) * p {
      MulMono((q + 1) * p, n / b, b);
      assert false;
    }
  }
}
