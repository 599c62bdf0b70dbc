/**
 Card-to-card invoices and the bank deposits matched to them, for one seller.
 Invoices are listed in creation order; deposits are kept newest first.
 */
module CardDeposits {
  import opened Results
  import opened Ledger
  import opened CardAmounts

  /** Open covers PENDING and REVIEW, whatever the payment is for: an order or a top-up. */
  datatype State = Open | Settled | Rejected | Lapsed

  datatype Invoice = Invoice(id: Id, amount: int, createdAt: int, state: State, last4: string, receiptRef: string)

  datatype Rules = Rules(tolerance: nat, windowMin: nat, unique: bool, requireLast4: bool, autoConfirm: bool)

  datatype DepositStatus = Matched | Unmatched | Ambiguous | Ignored

  /** `text` is the message without white space, cut at 60 characters. */
  datatype Deposit = Deposit(id: Id, at: int, amount: int, ref: string, last4: string, text: string,
                             status: DepositStatus, payment: Option<Id>)

  const NEWEST := 200
  const MINUTE := 60000

  function Digits(s: string): string {
    if s == "" then "" else (if '0' <= s[0] <= '9' then [s[0]] else "") + Digits(s[1..])
  }

  function Filter<T(!new)>(p: T -> bool, s: seq<T>): (r: seq<T>)
    ensures forall x :: x in r <==> x in s && p(x)
    ensures |r| <= |s|
  {
    if s == [] then [] else (if p(s[0]) then [s[0]] else []) + Filter(p, s[1..])
  }

  function Reverse<T(!new)>(s: seq<T>): (r: seq<T>)
    ensures |r| == |s| && forall x :: x in r <==> x in s
  {
    if s == [] then [] else Reverse(s[1..]) + [s[0]]
  }

  function WindowStart(rules: Rules, now: int): int {
    now - (if rules.windowMin < 5 then 5 else rules.windowMin) * MINUTE
  }

  predicate Live(inv: Invoice, since: int) {
    inv.state == Open && inv.createdAt >= since
  }

  /** The query: open invoices inside the window, newest first. */
  function LiveNewestFirst(invoices: seq<Invoice>, since: int): seq<Invoice> {
    Reverse(Filter(inv => Live(inv, since), invoices))
  }

  /** The rows a deposit is compared with: the newest 200 of them. */
  function Seen(invoices: seq<Invoice>, rules: Rules, now: int): seq<Invoice> {
    var all := LiveNewestFirst(invoices, WindowStart(rules, now));
    if |all| > NEWEST then all[..NEWEST] else all
  }

  predicate Within(inv: Invoice, amount: int, tol: nat) {
    -(tol as int) <= inv.amount - amount <= tol
  }

  predicate SameRef(inv: Invoice, ref: string) {
    inv.receiptRef != "" && Digits(inv.receiptRef) == Digits(ref)
  }

  /** The invoices a deposit may mean. */
  function Candidates(rows: seq<Invoice>, rules: Rules, d: Deposit): seq<Invoice> {
    var near := Filter((inv: Invoice) => Within(inv, d.amount, rules.tolerance), rows);
    var byRef := if d.ref == "" then [] else Filter((inv: Invoice) => SameRef(inv, d.ref), rows);
    var cands := if |byRef| == 1 then byRef else near;
    if rules.requireLast4 && d.last4 != "" && |cands| > 1
    then Filter((inv: Invoice) => inv.last4 == d.last4, cands) else cands
  }

  /** How the confirmation of the chosen payment went. */
  datatype Confirmation = Fine | FailedBefore | FailedAfter

  datatype Match = Match(status: DepositStatus, payment: Option<Id>)

  function Settle(invoices: seq<Invoice>, id: Id): (r: seq<Invoice>)
    ensures |r| == |invoices|
    ensures forall i :: 0 <= i < |r| ==>
      r[i] == (if invoices[i].id == id then invoices[i].(state := Settled) else invoices[i])
  {
    seq(|invoices|, i requires 0 <= i < |invoices| =>
      if invoices[i].id == id then invoices[i].(state := Settled) else invoices[i])
  }

  function MatchDeposit(invoices: seq<Invoice>, rules: Rules, now: int, d: Deposit,
                        c: Confirmation): (seq<Invoice>, Match) {
    var cands := Candidates(Seen(invoices, rules, now), rules, d);
    if d.amount <= 0 then (invoices, Match(Ignored, None))
    else if |cands| == 0 then (invoices, Match(Unmatched, None))
    else if |cands| > 1 then (invoices, Match(Ambiguous, None))
    else if !rules.autoConfirm then (invoices, Match(Unmatched, Some(cands[0].id)))
    else match c
      case Fine => (Settle(invoices, cands[0].id), Match(Matched, Some(cands[0].id)))
      case FailedAfter => (Settle(invoices, cands[0].id), Match(Unmatched, Some(cands[0].id)))
      case FailedBefore => (invoices, Match(Unmatched, Some(cands[0].id)))
  }

  // ---------- separation of open invoices ----------

  ghost predicate FarApart(x: Invoice, y: Invoice, tol: nat) {
    x.amount - y.amount > tol || y.amount - x.amount > tol
  }

  ghost predicate Separated(invoices: seq<Invoice>, since: int, tol: nat) {
    forall i, j :: 0 <= i < j < |invoices| && Live(invoices[i], since) && Live(invoices[j], since)
      ==> FarApart(invoices[i], invoices[j], tol)
  }

  ghost predicate DistinctIds(invoices: seq<Invoice>) {
    forall i, j :: 0 <= i < j < |invoices| ==> invoices[i].id != invoices[j].id
  }

  function Amounts(rows: seq<Invoice>): seq<int> {
    seq(|rows|, i requires 0 <= i < |rows| => rows[i].amount)
  }

  /**
   A further live invoice keeps the live ones apart exactly when none of them is within the tolerance of its
   amount.
   */
  lemma AppendIff(invoices: seq<Invoice>, added: Invoice, since: int, tol: nat)
    requires Separated(invoices, since, tol) && Live(added, since)
    ensures Separated(invoices + [added], since, tol)
       <==> !Blocked(Amounts(LiveNewestFirst(invoices, since)), added.amount, tol)
  {
    var rows, all := LiveNewestFirst(invoices, since), invoices + [added];
    if Blocked(Amounts(rows), added.amount, tol) {
      var m :| 0 <= m < |rows| && -(tol as int) <= Amounts(rows)[m] - added.amount <= tol;
      assert rows[m] in rows;
      var i :| 0 <= i < |invoices| && invoices[i] == rows[m];
      assert all[i] == invoices[i] && all[|invoices|] == added;
      assert !FarApart(all[i], all[|invoices|], tol);
    } else {
      forall i | 0 <= i < |invoices| && Live(invoices[i], since) ensures FarApart(invoices[i], added, tol) {
        assert invoices[i] in rows;
        var k :| 0 <= k < |rows| && rows[k] == invoices[i];
        assert Amounts(rows)[k] == invoices[i].amount;
      }
    }
  }

  /** Time passing and invoices closing only shrink the live set. */
  lemma ShrinkKeepsApart(before: seq<Invoice>, after: seq<Invoice>, since: int, later: int, tol: nat)
    requires Separated(before, since, tol) && |after| == |before| && since <= later
    requires forall i :: 0 <= i < |after| ==>
      after[i].amount == before[i].amount && (Live(after[i], later) ==> Live(before[i], since))
    ensures Separated(after, later, tol)
  {
    forall i, j | 0 <= i < j < |after| && Live(after[i], later) && Live(after[j], later)
      ensures FarApart(after[i], after[j], tol)
    {
      assert FarApart(before[i], before[j], tol);
    }
  }

  /** Reopening a rejected invoice keeps the live ones apart exactly when none of them is within the tolerance of it. */
  lemma ReopenIff(invoices: seq<Invoice>, k: nat, since: int, tol: nat)
    requires k < |invoices| && invoices[k].state == Rejected && invoices[k].createdAt >= since
    requires Separated(invoices, since, tol)
    ensures Separated(invoices[k := invoices[k].(state := Open)], since, tol)
       <==> !Blocked(Amounts(LiveNewestFirst(invoices, since)), invoices[k].amount, tol)
  {
    var open := invoices[k := invoices[k].(state := Open)];
    var rows := LiveNewestFirst(invoices, since);
    if Blocked(Amounts(rows), invoices[k].amount, tol) {
      var m :| 0 <= m < |rows| && -(tol as int) <= Amounts(rows)[m] - invoices[k].amount <= tol;
      assert rows[m] in rows;
      var i :| 0 <= i < |invoices| && invoices[i] == rows[m];
      assert i != k && open[i] == invoices[i];
      assert !FarApart(open[if i < k then i else k], open[if i < k then k else i], tol);
    } else {
      forall i | 0 <= i < |invoices| && i != k && Live(invoices[i], since)
        ensures FarApart(invoices[i], invoices[k], tol) {
        assert invoices[i] in rows;
        var m :| 0 <= m < |rows| && rows[m] == invoices[i];
        assert Amounts(rows)[m] == invoices[i].amount;
      }
      forall i, j | 0 <= i < j < |open| && Live(open[i], since) && Live(open[j], since)
        ensures FarApart(open[i], open[j], tol) {
        if i != k && j != k {
          assert FarApart(invoices[i], invoices[j], tol);
        }
      }
    }
  }

  // ---------- what a deposit confirms ----------

  lemma {:induction false} FilterSingle<T(!new)>(p: T -> bool, s: seq<T>, i: nat)
    requires i < |s| && p(s[i]) && forall j :: 0 <= j < |s| && j != i ==> !p(s[j])
    ensures Filter(p, s) == [s[i]]
  {
    if i == 0 {
      FilterNone(p, s[1..]);
    } else {
      FilterSingle(p, s[1..], i - 1);
    }
  }

  lemma {:induction false} FilterNone<T(!new)>(p: T -> bool, s: seq<T>)
    requires forall j :: 0 <= j < |s| ==> !p(s[j])
    ensures Filter(p, s) == []
  {
    if s != [] {
      FilterNone(p, s[1..]);
    }
  }

  /** Order of the rows does not matter for separation. */
  ghost predicate RowsApart(rows: seq<Invoice>, tol: nat) {
    forall i, j :: 0 <= i < j < |rows| ==> FarApart(rows[i], rows[j], tol)
  }

  lemma {:induction false} FilterApart(invoices: seq<Invoice>, since: int, tol: nat)
    requires Separated(invoices, since, tol)
    ensures RowsApart(Filter(inv => Live(inv, since), invoices), tol)
  {
    if invoices != [] {
      var rest := invoices[1..];
      assert Separated(rest, since, tol) by {
        forall i, j | 0 <= i < j < |rest| && Live(rest[i], since) && Live(rest[j], since)
          ensures FarApart(rest[i], rest[j], tol) {
          assert FarApart(invoices[i + 1], invoices[j + 1], tol);
        }
      }
      FilterApart(rest, since, tol);
      var kept := Filter(inv => Live(inv, since), rest);
      if Live(invoices[0], since) {
        forall j | 0 <= j < |kept| ensures FarApart(invoices[0], kept[j], tol) {
          assert kept[j] in kept;
          var m :| 0 <= m < |rest| && rest[m] == kept[j];
          assert FarApart(invoices[0], invoices[m + 1], tol);
        }
        assert Filter(inv => Live(inv, since), invoices) == [invoices[0]] + kept;
      } else {
        assert Filter(inv => Live(inv, since), invoices) == kept;
      }
    }
  }

  lemma {:induction false} ReverseApart(rows: seq<Invoice>, tol: nat)
    requires RowsApart(rows, tol)
    ensures RowsApart(Reverse(rows), tol)
  {
    if rows != [] {
      var rest := rows[1..];
      assert RowsApart(rest, tol) by {
        forall i, j | 0 <= i < j < |rest| ensures FarApart(rest[i], rest[j], tol) {
          assert FarApart(rows[i + 1], rows[j + 1], tol);
        }
      }
      ReverseApart(rest, tol);
      forall i | 0 <= i < |Reverse(rest)| ensures FarApart(Reverse(rest)[i], rows[0], tol) {
        assert Reverse(rest)[i] in Reverse(rest);
        var m :| 0 <= m < |rest| && rest[m] == Reverse(rest)[i];
        assert FarApart(rows[0], rows[m + 1], tol);
      }
    }
  }

  /** A deposit without a reference that is near one row alone settles that row's invoice. */
  lemma OneNearSettles(invoices: seq<Invoice>, rules: Rules, now: int, d: Deposit, k: nat)
    requires k < |invoices| && DistinctIds(invoices) && invoices[k] in Seen(invoices, rules, now)
    requires rules.autoConfirm && d.ref == "" && d.amount > 0 && Within(invoices[k], d.amount, rules.tolerance)
    requires var rows := Seen(invoices, rules, now);
      forall i, j :: 0 <= i < |rows| && 0 <= j < |rows| && i != j && rows[i] == invoices[k]
        ==> !Within(rows[j], d.amount, rules.tolerance)
    ensures MatchDeposit(invoices, rules, now, d, Fine)
         == (invoices[k := invoices[k].(state := Settled)], Match(Matched, Some(invoices[k].id)))
  {
    var rows := Seen(invoices, rules, now);
    var m :| 0 <= m < |rows| && rows[m] == invoices[k];
    FilterSingle((inv: Invoice) => Within(inv, d.amount, rules.tolerance), rows, m);
    assert Candidates(rows, rules, d) == [invoices[k]];
    assert Settle(invoices, invoices[k].id) == invoices[k := invoices[k].(state := Settled)];
  }

  /** A deposit without a reference that is near no row settles nothing. */
  lemma NoneNearUnmatched(invoices: seq<Invoice>, rules: Rules, now: int, d: Deposit)
    requires d.ref == "" && d.amount > 0
    requires var rows := Seen(invoices, rules, now);
      forall j :: 0 <= j < |rows| ==> !Within(rows[j], d.amount, rules.tolerance)
    ensures MatchDeposit(invoices, rules, now, d, Fine) == (invoices, Match(Unmatched, None))
  {
    var rows := Seen(invoices, rules, now);
    FilterNone((inv: Invoice) => Within(inv, d.amount, rules.tolerance), rows);
    assert Candidates(rows, rules, d) == [];
  }

  lemma SeenApart(invoices: seq<Invoice>, rules: Rules, now: int)
    requires Separated(invoices, WindowStart(rules, now), rules.tolerance)
    ensures RowsApart(Seen(invoices, rules, now), rules.tolerance)
    ensures RowsApart(LiveNewestFirst(invoices, WindowStart(rules, now)), rules.tolerance)
  {
    var since := WindowStart(rules, now);
    FilterApart(invoices, since, rules.tolerance);
    ReverseApart(Filter(inv => Live(inv, since), invoices), rules.tolerance);
  }

  /**
   While the open invoices are apart, a deposit of exactly one live invoice's amount and without a
   reference settles that invoice, and no other, exactly when it is among the newest 200.
   */
  lemma ExactDepositIff(invoices: seq<Invoice>, rules: Rules, now: int, d: Deposit, k: nat)
    requires k < |invoices| && Live(invoices[k], WindowStart(rules, now)) && DistinctIds(invoices)
    requires Separated(invoices, WindowStart(rules, now), rules.tolerance)
    requires rules.autoConfirm && d.ref == "" && d.amount == invoices[k].amount > 0
    ensures MatchDeposit(invoices, rules, now, d, Fine)
         == (invoices[k := invoices[k].(state := Settled)], Match(Matched, Some(invoices[k].id)))
       <==> invoices[k] in Seen(invoices, rules, now)
  {
    var since, tol := WindowStart(rules, now), rules.tolerance;
    var all, rows := LiveNewestFirst(invoices, since), Seen(invoices, rules, now);
    SeenApart(invoices, rules, now);
    assert invoices[k] in all;
    var m :| 0 <= m < |all| && all[m] == invoices[k];
    forall j | 0 <= j < |all| && j != m ensures !Within(all[j], d.amount, tol) {
      assert FarApart(all[if j < m then j else m], all[if j < m then m else j], tol);
    }
    assert forall j :: 0 <= j < |rows| ==> rows[j] == all[j];
    if m < |rows| {
      assert rows[m] in rows;
      forall i, j | 0 <= i < |rows| && 0 <= j < |rows| && i != j && rows[i] == invoices[k]
        ensures !Within(rows[j], d.amount, tol) {
        assert Within(rows[i], d.amount, tol) && rows[i] == all[i];
        assert i == m;
      }
      OneNearSettles(invoices, rules, now, d, k);
    } else {
      forall j | 0 <= j < |rows| ensures rows[j] != invoices[k] {
        assert Within(invoices[k], d.amount, tol);
      }
      NoneNearUnmatched(invoices, rules, now, d);
    }
  }

  // ---------- deposits that are off by a little ----------

  /** A live invoice of a price among the newest 200 of separated invoices, all of positive amounts. */
  ghost predicate InPlay(invoices: seq<Invoice>, rules: Rules, now: int, k: nat, price: int) {
    && k < |invoices| && DistinctIds(invoices) && (forall i :: 0 <= i < |invoices| ==> invoices[i].amount > 0)
    && Separated(invoices, WindowStart(rules, now), rules.tolerance)
    && invoices[k] in Seen(invoices, rules, now) && invoices[k].amount == price
  }

  ghost predicate SettlesOwn(invoices: seq<Invoice>, rules: Rules, now: int, d: Deposit, k: nat)
    requires k < |invoices|
  {
    MatchDeposit(invoices, rules, now, d, Fine)
      == (invoices[k := invoices[k].(state := Settled)], Match(Matched, Some(invoices[k].id)))
  }

  /** The deposit settles an invoice of the price, whatever the other separated invoices are. */
  ghost predicate AlwaysSettles(rules: Rules, now: int, d: Deposit, price: int) {
    forall invoices, k :: InPlay(invoices, rules, now, k, price) ==> SettlesOwn(invoices, rules, now, d, k)
  }

  /** Paid too little by no more than the tolerance, for a price so low that no other amount fits below it. */
  predicate CheapAndShort(rules: Rules, d: Deposit, price: int) {
    0 < d.amount < price <= rules.tolerance + 1 && price - d.amount <= rules.tolerance
  }

  /**
   The tolerance makes no other amount safe: a deposit without a reference is sure to settle its
   invoice exactly when it is of the exact amount, apart from prices within the tolerance of nothing.
   */
  lemma OffByIff(rules: Rules, now: int, d: Deposit, price: int)
    requires rules.autoConfirm && d.ref == "" && price > 0
    ensures AlwaysSettles(rules, now, d, price) <==> d.amount == price || CheapAndShort(rules, d, price)
  {
    if d.amount == price || CheapAndShort(rules, d, price) {
      forall invoices, k | InPlay(invoices, rules, now, k, price) ensures SettlesOwn(invoices, rules, now, d, k) {
        SafeDeposit(invoices, rules, now, d, k, price);
      }
    } else if -(rules.tolerance as int) <= price - d.amount <= rules.tolerance && d.amount > 0 {
      var invoices := NearbyInvoice(rules, now, d, price);
      assert !SettlesOwn(invoices, rules, now, d, 0);
    } else {
      var invoices := LoneInvoice(rules, now, d, price);
      assert !SettlesOwn(invoices, rules, now, d, 0);
    }
  }

  lemma SafeDeposit(invoices: seq<Invoice>, rules: Rules, now: int, d: Deposit, k: nat, price: int)
    requires rules.autoConfirm && d.ref == "" && price > 0 && InPlay(invoices, rules, now, k, price)
    requires d.amount == price || CheapAndShort(rules, d, price)
    ensures SettlesOwn(invoices, rules, now, d, k)
  {
    var rows, tol := Seen(invoices, rules, now), rules.tolerance;
    SeenApart(invoices, rules, now);
    forall i, j | 0 <= i < |rows| && 0 <= j < |rows| && i != j && rows[i] == invoices[k]
      ensures !Within(rows[j], d.amount, tol) {
      assert FarApart(rows[if j < i then j else i], rows[if j < i then i else j], tol);
      assert rows[j] in rows;
      SeenIsListed(invoices, rules, now, rows[j]);
    }
    assert Within(invoices[k], d.amount, tol);
    OneNearSettles(invoices, rules, now, d, k);
  }

  lemma SeenIsListed(invoices: seq<Invoice>, rules: Rules, now: int, x: Invoice)
    requires x in Seen(invoices, rules, now)
    ensures x in invoices && Live(x, WindowStart(rules, now))
  {
    assert x in LiveNewestFirst(invoices, WindowStart(rules, now));
  }

  lemma LiveOne(a: Invoice, since: int)
    requires Live(a, since)
    ensures LiveNewestFirst([a], since) == [a]
  {
    FilterSingle(inv => Live(inv, since), [a], 0);
    var none: seq<Invoice> := [];
    assert [a][1..] == none && Reverse(none) == none;
    assert Reverse([a]) == [a];
  }

  /** Out of the tolerance a deposit settles nothing, even next to a single invoice. */
  lemma LoneInvoice(rules: Rules, now: int, d: Deposit, price: int) returns (invoices: seq<Invoice>)
    requires d.ref == "" && price > 0
      && !(d.amount > 0 && -(rules.tolerance as int) <= price - d.amount <= rules.tolerance)
    ensures InPlay(invoices, rules, now, 0, price) && MatchDeposit(invoices, rules, now, d, Fine).1.status != Matched
  {
    var a := Invoice("a", price, now, Open, "", "");
    invoices := [a];
    LiveOne(a, WindowStart(rules, now));
    assert Seen(invoices, rules, now) == [a];
    if d.amount > 0 {
      NoneNearUnmatched(invoices, rules, now, d);
    }
  }

  /** Inside the tolerance another invoice can be as near to the deposit, and leave it ambiguous. */
  lemma NearbyInvoice(rules: Rules, now: int, d: Deposit, price: int) returns (invoices: seq<Invoice>)
    requires d.ref == "" && price > 0 && d.amount > 0 && d.amount != price && !CheapAndShort(rules, d, price)
    requires -(rules.tolerance as int) <= price - d.amount <= rules.tolerance
    ensures InPlay(invoices, rules, now, 0, price) && MatchDeposit(invoices, rules, now, d, Fine).1.status == Ambiguous
  {
    var tol, since := rules.tolerance, WindowStart(rules, now);
    var other := if d.amount > price then price + tol + 1 else price - tol - 1;
    var a, b := Invoice("a", price, now, Open, d.last4, ""), Invoice("b", other, now, Open, d.last4, "");
    invoices := [a, b];
    assert FarApart(a, b, tol);
    LiveTwo(a, b, since);
    assert Seen(invoices, rules, now) == [b, a];
    BothNear(a, b, rules, d);
  }

  lemma BothNear(a: Invoice, b: Invoice, rules: Rules, d: Deposit)
    requires d.ref == "" && a.last4 == d.last4 == b.last4
    requires Within(a, d.amount, rules.tolerance) && Within(b, d.amount, rules.tolerance)
    ensures |Candidates([b, a], rules, d)| >= 2
  {
    var near := Filter((inv: Invoice) => Within(inv, d.amount, rules.tolerance), [b, a]);
    FilterAll((inv: Invoice) => Within(inv, d.amount, rules.tolerance), [b, a]);
    FilterAll((inv: Invoice) => inv.last4 == d.last4, near);
  }

  lemma {:induction false} FilterAll<T(!new)>(p: T -> bool, s: seq<T>)
    requires forall x :: x in s ==> p(x)
    ensures Filter(p, s) == s
  {
    if s != [] {
      assert s[0] in s;
      FilterAll(p, s[1..]);
    }
  }

  lemma LiveTwo(a: Invoice, b: Invoice, since: int)
    requires Live(a, since) && Live(b, since)
    ensures LiveNewestFirst([a, b], since) == [b, a]
  {
    FilterSingle(inv => Live(inv, since), [b], 0);
    assert [a, b][1..] == [b];
    assert Filter(inv => Live(inv, since), [a, b]) == [a, b];
    var none: seq<Invoice> := [];
    assert [b][1..] == none && Reverse(none) == none;
    assert Reverse([b]) == [b];
  }

  // ---------- when a match respects the amount ----------

  /** The rows that carry the deposit's reference. */
  function ReferenceRows(invoices: seq<Invoice>, rules: Rules, now: int, d: Deposit): seq<Invoice> {
    if d.ref == "" then [] else Filter((inv: Invoice) => SameRef(inv, d.ref), Seen(invoices, rules, now))
  }

  /** Exactly one row carries the deposit's reference, and its amount is out of the tolerance. */
  predicate ReferenceOverrides(invoices: seq<Invoice>, rules: Rules, now: int, d: Deposit) {
    var rows := ReferenceRows(invoices, rules, now, d);
    |rows| == 1 && !Within(rows[0], d.amount, rules.tolerance)
  }

  /** A settled invoice was live, and within the tolerance of the deposit unless a reference overrode the amount. */
  lemma AmountRespectedIff(invoices: seq<Invoice>, rules: Rules, now: int, d: Deposit, c: Confirmation, k: nat)
    requires DistinctIds(invoices) && k < |invoices|
    requires MatchDeposit(invoices, rules, now, d, c).1 == Match(Matched, Some(invoices[k].id))
    ensures Live(invoices[k], WindowStart(rules, now))
    ensures Within(invoices[k], d.amount, rules.tolerance) <==> !ReferenceOverrides(invoices, rules, now, d)
  {
    var rows := Seen(invoices, rules, now);
    var chosen := Candidates(rows, rules, d)[0];
    assert chosen in Candidates(rows, rules, d) && chosen in rows;
    SeenIsListed(invoices, rules, now, chosen);
    var i :| 0 <= i < |invoices| && invoices[i] == chosen;
    assert i == k;
    var byRef := ReferenceRows(invoices, rules, now, d);
    if |byRef| == 1 {
      assert Candidates(rows, rules, d) == byRef;
    }
  }

  /** Whatever was settled is one of the table's live invoices. */
  lemma MatchedIsLive(invoices: seq<Invoice>, rules: Rules, now: int, d: Deposit, c: Confirmation) returns (k: nat)
    requires MatchDeposit(invoices, rules, now, d, c).1.status == Matched
    ensures k < |invoices| && MatchDeposit(invoices, rules, now, d, c).1.payment == Some(invoices[k].id)
    ensures Live(invoices[k], WindowStart(rules, now))
  {
    var rows := Seen(invoices, rules, now);
    var chosen := Candidates(rows, rules, d)[0];
    assert chosen in Candidates(rows, rules, d) && chosen in rows;
    SeenIsListed(invoices, rules, now, chosen);
    k :| 0 <= k < |invoices| && invoices[k] == chosen;
  }

  /** A lone matching reference settles an invoice of any other amount. */
  lemma ReferenceBeatsAmount(rules: Rules, now: int, price: int, paid: int)
    requires rules.autoConfirm && price > 0 && paid > 0
      && (price - paid > rules.tolerance || paid - price > rules.tolerance)
    ensures var inv := Invoice("a", price, now, Open, "", "77");
      var d := Deposit("d", now, paid, "77", "", "", Unmatched, None);
      MatchDeposit([inv], rules, now, d, Fine).1 == Match(Matched, Some("a")) && !Within(inv, paid, rules.tolerance)
  {
    var inv, d := Invoice("a", price, now, Open, "", "77"), Deposit("d", now, paid, "77", "", "", Unmatched, None);
    LiveOne(inv, WindowStart(rules, now));
    assert Seen([inv], rules, now) == [inv];
    FilterSingle((x: Invoice) => SameRef(x, d.ref), [inv], 0);
    assert Candidates([inv], rules, d) == [inv];
  }
}
