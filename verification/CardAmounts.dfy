/** The slot search that gives every open card invoice its own amount. */
module CardAmounts {

  /** Some amount already taken is within the tolerance. */
  predicate Blocked(taken: seq<int>, candidate: int, tol: nat) {
    exists i :: 0 <= i < |taken| && -(tol as int) <= taken[i] - candidate <= tol
  }

  /** Offsets tried: multiples of the step, up to 999. */
  function Slots(tol: nat): nat {
    999 / (tol + 1) + 1
  }

  /** The k-th candidate. */
  function Slot(base: int, tol: nat, k: nat): int {
    base + k * (tol + 1)
  }

  ghost predicate SomeSlotFree(base: int, tol: nat, taken: seq<int>) {
    exists k :: 0 <= k < Slots(tol) && !Blocked(taken, Slot(base, tol, k), tol)
  }

  /** The amount is the first free candidate. */
  ghost predicate IsFirstFree(r: int, base: int, tol: nat, taken: seq<int>) {
    exists k :: 0 <= k < Slots(tol) && r == Slot(base, tol, k) && !Blocked(taken, r, tol)
      && forall j :: 0 <= j < k ==> Blocked(taken, Slot(base, tol, j), tol)
  }

  /** The first free candidate from the k-th on, or the price itself when there is none. */
  function Search(base: int, tol: nat, taken: seq<int>, k: nat): (r: int)
    ensures (exists j :: k <= j < Slots(tol) && !Blocked(taken, Slot(base, tol, j), tol))
      ==> exists j :: k <= j < Slots(tol) && r == Slot(base, tol, j) && !Blocked(taken, r, tol)
                      && forall i :: k <= i < j ==> Blocked(taken, Slot(base, tol, i), tol)
    ensures (forall j :: k <= j < Slots(tol) ==> Blocked(taken, Slot(base, tol, j), tol)) ==> r == base
    decreases Slots(tol) - k
  {
    if k >= Slots(tol) then base
    else if !Blocked(taken, Slot(base, tol, k), tol) then Slot(base, tol, k)
    else Search(base, tol, taken, k + 1)
  }

  function CardAmount(base: int, enabled: bool, tol: nat, taken: seq<int>): int {
    if base <= 0 || !enabled || taken == [] then base else Search(base, tol, taken, 0)
  }

  /** `enabled` is the store's unique-amount switch in a mode that matches deposits automatically. */
  method UniqueCardAmount(base: int, enabled: bool, tol: nat, taken: seq<int>) returns (r: int)
    ensures r == CardAmount(base, enabled, tol, taken)
  {
    if base <= 0 || !enabled {
      return base;
    }
    if |taken| == 0 {
      return base;
    }
    var i := 0;
    ghost var k := 0;
    var step := tol + 1;
    while i <= 999
      invariant i == k * step
      invariant Search(base, tol, taken, 0) == Search(base, tol, taken, k)
      decreases 1000 - i
    {
      var candidate := base + i;
      SlotInRange(k, tol);
      assert candidate == Slot(base, tol, k);
      if !Blocked(taken, candidate, tol) {
        return candidate;
      }
      k := k + 1;
      NextSlot(k, step);
      i := i + step;
    }
    SlotInRange(k, tol);
    return base;
  }

  /** With a free slot the amount is the first free one; the empty table blocks nothing. */
  lemma AmountIsFirstFree(base: int, tol: nat, taken: seq<int>)
    requires base > 0 && SomeSlotFree(base, tol, taken)
    ensures IsFirstFree(CardAmount(base, true, tol, taken), base, tol, taken)
  {
    if taken == [] {
      assert base == Slot(base, tol, 0);
    }
  }

  lemma NextSlot(k: nat, step: nat)
    requires k >= 1
    ensures (k - 1) * step + step == k * step
  {
  }

  /** The loop's bound 999 and the number of slots say the same. */
  lemma SlotInRange(k: nat, tol: nat)
    ensures k * (tol + 1) <= 999 <==> k < Slots(tol)
  {
    var step := tol + 1;
    var q := 999 / step;
    assert q * step <= 999 < (q + 1) * step;
    if k <= q {
      MulUp(k, q, step);
    } else {
      MulUp(q + 1, k, step);
    }
  }

  lemma MulUp(x: nat, y: nat, step: nat)
    requires x <= y
    ensures x * step <= y * step
  {
  }

  // ---------- the pigeonhole ----------

  /** Candidates one taken amount can block: a window of 2*tol+1 holds at most two, one when tol is 0. */
  function Reach(tol: nat): nat {
    if tol == 0 then 1 else 2
  }

  ghost function FreeSlots(slots: set<nat>, base: int, tol: nat, taken: seq<int>): set<nat> {
    set k | k in slots && !Blocked(taken, Slot(base, tol, k), tol)
  }

  predicate Near(base: int, tol: nat, t: int, k: nat) {
    -(tol as int) <= t - Slot(base, tol, k) <= tol
  }

  ghost function NearSlots(slots: set<nat>, base: int, tol: nat, t: int): set<nat> {
    set k | k in slots && Near(base, tol, t, k)
  }

  /** Two candidates near the same amount are neighbours. */
  lemma NearNeighbours(base: int, tol: nat, t: int, j: nat, k: nat)
    requires Near(base, tol, t, j) && Near(base, tol, t, k) && j < k
    ensures k == j + 1 && tol > 0
  {
    var step := tol + 1;
    assert (k - j) * step == k * step - j * step;
    if k - j >= 2 {
      MulUp(2, k - j, step);
      assert false;
    }
  }

  lemma BlocksFew(slots: set<nat>, base: int, tol: nat, t: int)
    ensures |NearSlots(slots, base, tol, t)| <= Reach(tol)
  {
    hide Near;
    var hit := NearSlots(slots, base, tol, t);
    if hit != {} {
      var a :| a in hit;
      var rest := hit - {a};
      if rest != {} {
        var b :| b in rest;
        NearNeighbours(base, tol, t, if a < b then a else b, if a < b then b else a);
        forall c | c in rest ensures c == b {
          if c != b {
            NearNeighbours(base, tol, t, if a < c then a else c, if a < c then c else a);
            NearNeighbours(base, tol, t, if b < c then b else c, if b < c then c else b);
            assert false;
          }
        }
        assert rest == {b} && hit == {a} + rest;
        assert tol > 0;
      } else {
        assert hit == {a};
      }
    }
  }

  lemma {:induction false} FreeCount(slots: set<nat>, base: int, tol: nat, taken: seq<int>)
    ensures |FreeSlots(slots, base, tol, taken)| >= |slots| - Reach(tol) * |taken|
  {
    if taken == [] {
      assert FreeSlots(slots, base, tol, taken) == slots;
    } else {
      var rest, t := taken[..|taken| - 1], taken[|taken| - 1];
      FreeCount(slots, base, tol, rest);
      var free := FreeSlots(slots, base, tol, rest);
      var hit := NearSlots(free, base, tol, t);
      BlocksFew(free, base, tol, t);
      forall k: nat ensures Blocked(taken, Slot(base, tol, k), tol)
        <==> Blocked(rest, Slot(base, tol, k), tol) || Near(base, tol, t, k)
      {
        BlockedSplit(taken, Slot(base, tol, k), tol);
      }
      assert FreeSlots(slots, base, tol, taken) == free - hit;
      assert |free - hit| == |free| - |hit|;
    }
  }

  lemma BlockedSplit(taken: seq<int>, c: int, tol: nat)
    requires taken != []
    ensures Blocked(taken, c, tol)
       <==> Blocked(taken[..|taken| - 1], c, tol) || -(tol as int) <= taken[|taken| - 1] - c <= tol
  {
    if Blocked(taken, c, tol) {
      var i :| 0 <= i < |taken| && -(tol as int) <= taken[i] - c <= tol;
      assert i < |taken| - 1 ==> taken[..|taken| - 1][i] == taken[i];
    }
    if -(tol as int) <= taken[|taken| - 1] - c <= tol {
      assert Blocked(taken, c, tol);
    }
  }

  lemma {:induction false} Counted(n: nat) returns (s: set<nat>)
    ensures |s| == n && forall k :: k in s <==> 0 <= k < n
  {
    if n == 0 {
      s := {};
    } else {
      s := Counted(n - 1);
      s := s + {n - 1};
    }
  }

  /** While slots outnumber what the taken amounts can block, the search cannot fail. */
  lemma SearchSucceeds(base: int, tol: nat, taken: seq<int>)
    requires Reach(tol) * |taken| < Slots(tol)
    ensures SomeSlotFree(base, tol, taken)
  {
    var slots := Counted(Slots(tol));
    FreeCount(slots, base, tol, taken);
    var free := FreeSlots(slots, base, tol, taken);
    assert free != {};
    var k :| k in free;
  }

  /** With no tolerance the 500 rows the query returns can never exhaust the slots. */
  lemma ZeroToleranceSucceeds(base: int, taken: seq<int>)
    requires |taken| <= 500
    ensures SomeSlotFree(base, 0, taken)
  {
    SearchSucceeds(base, 0, taken);
  }

  /** What a found amount is: within 999 of the price and clear of every taken amount. */
  lemma FoundAmount(r: int, base: int, tol: nat, taken: seq<int>)
    requires IsFirstFree(r, base, tol, taken)
    ensures base <= r <= base + 999
    ensures forall i :: 0 <= i < |taken| ==> taken[i] - r > tol || r - taken[i] > tol
  {
    var k :| 0 <= k < Slots(tol) && r == Slot(base, tol, k) && !Blocked(taken, r, tol)
      && forall j :: 0 <= j < k ==> Blocked(taken, Slot(base, tol, j), tol);
    SlotInRange(k, tol);
  }

  /** Switched off, or for no price, the price stays as it is. */
  lemma NoSearch(base: int, enabled: bool, tol: nat, taken: seq<int>)
    requires base <= 0 || !enabled
    ensures CardAmount(base, enabled, tol, taken) == base
  {
  }
}
