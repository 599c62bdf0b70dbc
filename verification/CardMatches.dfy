/** Which invoice a deposit means, told row by row, and what the matcher does about it. */
module CardMatches {
  import opened Results
  import opened Ledger
  import opened CardAmounts
  import opened CardDeposits

  // ---------- the rows a deposit means ----------

  predicate Near(inv: Invoice, rules: Rules, d: Deposit) {
    inv.amount <= d.amount + rules.tolerance && d.amount <= inv.amount + rules.tolerance
  }

  predicate Carries(inv: Invoice, d: Deposit) {
    d.ref != "" && inv.receiptRef != "" && Digits(inv.receiptRef) == Digits(d.ref)
  }

  /** The only row that carries the deposit's reference. */
  ghost predicate OnlyCarrier(rows: seq<Invoice>, d: Deposit, i: int) {
    0 <= i < |rows| && Carries(rows[i], d) && forall j :: 0 <= j < |rows| && j != i ==> !Carries(rows[j], d)
  }

  ghost predicate SeveralNear(rows: seq<Invoice>, rules: Rules, d: Deposit) {
    exists i, j :: 0 <= i < j < |rows| && Near(rows[i], rules, d) && Near(rows[j], rules, d)
  }

  /** Among several near rows the card decides, where the seller asks for its last four digits. */
  ghost predicate CardFits(rows: seq<Invoice>, rules: Rules, d: Deposit, i: int)
    requires 0 <= i < |rows|
  {
    rules.requireLast4 && d.last4 != "" && SeveralNear(rows, rules, d) ==> rows[i].last4 == d.last4
  }

  /** A lone reference goes before the amount. */
  ghost predicate Meant(rows: seq<Invoice>, rules: Rules, d: Deposit, i: int)
    requires 0 <= i < |rows|
  {
    if exists r :: OnlyCarrier(rows, d, r) then OnlyCarrier(rows, d, i)
    else Near(rows[i], rules, d) && CardFits(rows, rules, d, i)
  }

  // ---------- filters by their members ----------

  ghost predicate Nobody<T(!new)>(p: T -> bool, s: seq<T>) {
    forall j :: 0 <= j < |s| ==> !p(s[j])
  }

  ghost predicate Only<T(!new)>(p: T -> bool, s: seq<T>, i: int) {
    0 <= i < |s| && p(s[i]) && forall j :: 0 <= j < |s| && j != i ==> !p(s[j])
  }

  ghost predicate Several<T(!new)>(p: T -> bool, s: seq<T>) {
    exists i, j :: 0 <= i < j < |s| && p(s[i]) && p(s[j])
  }

  lemma {:induction false} FilterPair<T(!new)>(p: T -> bool, s: seq<T>, i: nat, j: nat)
    requires i < j < |s| && p(s[i]) && p(s[j])
    ensures |Filter(p, s)| >= 2
  {
    if i > 0 {
      FilterPair(p, s[1..], i - 1, j - 1);
    } else {
      assert s[1..][j - 1] == s[j] && s[1..][j - 1] in s[1..];
      assert s[j] in Filter(p, s[1..]);
    }
  }

  lemma FilterCases<T(!new)>(p: T -> bool, s: seq<T>)
    ensures Filter(p, s) == [] <==> Nobody(p, s)
    ensures |Filter(p, s)| >= 2 <==> Several(p, s)
    ensures forall i :: Only(p, s, i) ==> Filter(p, s) == [s[i]]
    ensures |Filter(p, s)| == 1 ==> exists i :: Only(p, s, i)
  {
    forall i | Only(p, s, i) ensures Filter(p, s) == [s[i]] {
      FilterSingle(p, s, i);
    }
    if Nobody(p, s) {
      FilterNone(p, s);
    } else {
      var i :| 0 <= i < |s| && p(s[i]);
      assert s[i] in Filter(p, s);
      if j :| 0 <= j < |s| && j != i && p(s[j]) {
        FilterPair(p, s, if i < j then i else j, if i < j then j else i);
        assert Several(p, s);
      } else {
        assert Only(p, s, i);
      }
    }
  }

  lemma {:induction false} FilterTwice<T(!new)>(p: T -> bool, q: T -> bool, both: T -> bool, s: seq<T>)
    requires forall x :: both(x) <==> q(x) && p(x)
    ensures Filter(p, Filter(q, s)) == Filter(both, s)
  {
    if s != [] {
      FilterTwice(p, q, both, s[1..]);
      var rest := Filter(q, s[1..]);
      if q(s[0]) {
        assert ([s[0]] + rest)[1..] == rest;
        assert Filter(q, s) == [s[0]] + rest;
      } else {
        assert [] + rest == rest && [] + Filter(both, s[1..]) == Filter(both, s[1..]);
      }
    }
  }

  // ---------- the matcher ----------

  lemma CandidateFilters(rows: seq<Invoice>, rules: Rules, d: Deposit)
    returns (byRef: Invoice -> bool, near: Invoice -> bool, fits: Invoice -> bool)
    ensures forall inv :: byRef(inv) <==> SameRef(inv, d.ref)
    ensures forall inv :: near(inv) <==> Near(inv, rules, d)
    ensures forall inv :: fits(inv) <==> inv.last4 == d.last4
    ensures Candidates(rows, rules, d) ==
      if d.ref != "" && |Filter(byRef, rows)| == 1 then Filter(byRef, rows)
      else if rules.requireLast4 && d.last4 != "" && |Filter(near, rows)| >= 2 then Filter(fits, Filter(near, rows))
      else Filter(near, rows)
  {
    byRef := (inv: Invoice) => SameRef(inv, d.ref);
    near := (inv: Invoice) => Within(inv, d.amount, rules.tolerance);
    fits := (inv: Invoice) => inv.last4 == d.last4;
    hide Filter, SameRef;
  }

  /** The candidates are the rows that are meant. */
  lemma CandidatesAreMeant(rows: seq<Invoice>, rules: Rules, d: Deposit) returns (p: Invoice -> bool)
    ensures Candidates(rows, rules, d) == Filter(p, rows)
    ensures forall i :: 0 <= i < |rows| ==> (p(rows[i]) <==> Meant(rows, rules, d, i))
  {
    var byRef, near, fits := CandidateFilters(rows, rules, d);
    hide Candidates, Filter, SameRef, Near, Carries;
    CarrierIff(rows, d, byRef);
    if d.ref != "" && |Filter(byRef, rows)| == 1 {
      p := byRef;
      hide OnlyCarrier;
      var r :| OnlyCarrier(rows, d, r);
      RefIsCarrier(rows, d, r, byRef);
    } else {
      hide OnlyCarrier;
      assert !exists r :: OnlyCarrier(rows, d, r);
      SeveralNearIff(rows, rules, d, near);
      if rules.requireLast4 && d.last4 != "" && |Filter(near, rows)| >= 2 {
        p := (inv: Invoice) => Near(inv, rules, d) && inv.last4 == d.last4;
        FilterTwice(fits, near, p, rows);
      } else {
        p := near;
      }
      hide SeveralNear;
    }
  }

  lemma SeveralNearIff(rows: seq<Invoice>, rules: Rules, d: Deposit, near: Invoice -> bool)
    requires forall inv :: near(inv) <==> Near(inv, rules, d)
    ensures SeveralNear(rows, rules, d) <==> |Filter(near, rows)| >= 2
  {
    FilterCases(near, rows);
    assert SeveralNear(rows, rules, d) <==> Several(near, rows);
  }

  lemma RefIsCarrier(rows: seq<Invoice>, d: Deposit, r: int, byRef: Invoice -> bool)
    requires OnlyCarrier(rows, d, r) && forall inv :: byRef(inv) <==> SameRef(inv, d.ref)
    ensures forall i :: 0 <= i < |rows| ==> (byRef(rows[i]) <==> OnlyCarrier(rows, d, i))
  {
  }

  lemma CarrierIff(rows: seq<Invoice>, d: Deposit, byRef: Invoice -> bool)
    requires forall inv :: byRef(inv) <==> SameRef(inv, d.ref)
    ensures forall i :: OnlyCarrier(rows, d, i) <==> d.ref != "" && Only(byRef, rows, i)
    ensures (exists i :: OnlyCarrier(rows, d, i)) <==> d.ref != "" && |Filter(byRef, rows)| == 1
  {
    FilterCases(byRef, rows);
    if i :| OnlyCarrier(rows, d, i) {
      assert Only(byRef, rows, i);
    }
    if d.ref != "" && |Filter(byRef, rows)| == 1 {
      var i :| Only(byRef, rows, i);
      assert OnlyCarrier(rows, d, i);
    }
  }

  /** Row i is meant and no other one is. */
  ghost predicate OnlyMeant(rows: seq<Invoice>, rules: Rules, d: Deposit, i: int) {
    0 <= i < |rows| && Meant(rows, rules, d, i) && forall j :: 0 <= j < |rows| && j != i ==> !Meant(rows, rules, d, j)
  }

  ghost predicate SeveralMeant(rows: seq<Invoice>, rules: Rules, d: Deposit) {
    exists i, j :: 0 <= i < j < |rows| && Meant(rows, rules, d, i) && Meant(rows, rules, d, j)
  }

  /** One meant row is settled, several leave the deposit ambiguous, none leaves it unmatched. */
  lemma MatchIff(invoices: seq<Invoice>, rules: Rules, now: int, d: Deposit)
    requires rules.autoConfirm && d.amount > 0
    ensures var rows, (after, m) := Seen(invoices, rules, now), MatchDeposit(invoices, rules, now, d, Fine);
      && (m.status == Ambiguous <==> SeveralMeant(rows, rules, d))
      && (m.status == Matched <==> exists i :: OnlyMeant(rows, rules, d, i))
      && (m.status == Unmatched <==> forall i :: 0 <= i < |rows| ==> !Meant(rows, rules, d, i))
      && (m.status != Matched ==> after == invoices && m.payment == None)
      && (forall i :: OnlyMeant(rows, rules, d, i)
            ==> m.payment == Some(rows[i].id) && after == Settle(invoices, rows[i].id))
  {
    var rows := Seen(invoices, rules, now);
    var p := CandidatesAreMeant(rows, rules, d);
    FilterCases(p, rows);
    hide Candidates, Meant, Seen, Filter;
    assert SeveralMeant(rows, rules, d) <==> Several(p, rows);
    forall i ensures OnlyMeant(rows, rules, d, i) <==> Only(p, rows, i) {
    }
    assert (exists i :: OnlyMeant(rows, rules, d, i)) <==> |Filter(p, rows)| == 1 by {
      if |Filter(p, rows)| == 1 {
        var i :| Only(p, rows, i);
        assert OnlyMeant(rows, rules, d, i);
      }
    }
  }

  /** Without automatic confirmation, or when it fails, the invoice is named and not matched. */
  lemma UnconfirmedIff(invoices: seq<Invoice>, rules: Rules, now: int, d: Deposit, c: Confirmation)
    requires d.amount > 0 && (!rules.autoConfirm || c != Fine)
    ensures var rows, (after, m) := Seen(invoices, rules, now), MatchDeposit(invoices, rules, now, d, c);
      && m.status != Matched && (m.status == Ambiguous <==> SeveralMeant(rows, rules, d))
      && (m.payment.Some? <==> exists i :: OnlyMeant(rows, rules, d, i))
      && (forall i :: OnlyMeant(rows, rules, d, i) ==> m.payment == Some(rows[i].id))
      && (after == invoices || (rules.autoConfirm && c == FailedAfter && m.payment.Some?
                                && after == Settle(invoices, m.payment.value)))
  {
    var rows := Seen(invoices, rules, now);
    var p := CandidatesAreMeant(rows, rules, d);
    FilterCases(p, rows);
    hide Candidates, Meant, Seen, Filter;
    assert SeveralMeant(rows, rules, d) <==> Several(p, rows);
    forall i ensures OnlyMeant(rows, rules, d, i) <==> Only(p, rows, i) {
    }
    if |Filter(p, rows)| == 1 {
      var i :| Only(p, rows, i);
      assert OnlyMeant(rows, rules, d, i);
    }
  }

  /** Row k is near, comes from the deposit's card, and is the only such row. */
  ghost predicate OnlyFromCard(rows: seq<Invoice>, rules: Rules, d: Deposit, k: int) {
    && 0 <= k < |rows| && Near(rows[k], rules, d) && rows[k].last4 == d.last4
    && forall j :: 0 <= j < |rows| && j != k && Near(rows[j], rules, d) ==> rows[j].last4 != d.last4
  }

  /**
   Where the seller asks for the card's last four digits and several invoices are near, an invoice is
   settled exactly when it alone of them names the deposit's card; when none does, nothing is settled.
   */
  lemma CardDecides(invoices: seq<Invoice>, rules: Rules, now: int, d: Deposit)
    requires rules.autoConfirm && rules.requireLast4 && d.last4 != "" && d.amount > 0
    requires var rows := Seen(invoices, rules, now);
      SeveralNear(rows, rules, d) && !exists r :: OnlyCarrier(rows, d, r)
    ensures var rows, (after, m) := Seen(invoices, rules, now), MatchDeposit(invoices, rules, now, d, Fine);
      && (m.status == Matched <==> exists k :: OnlyFromCard(rows, rules, d, k))
      && (forall k :: OnlyFromCard(rows, rules, d, k)
            ==> m.payment == Some(rows[k].id) && after == Settle(invoices, rows[k].id))
      && ((forall k :: 0 <= k < |rows| && Near(rows[k], rules, d) ==> rows[k].last4 != d.last4)
            ==> (after, m) == (invoices, Match(Unmatched, None)))
  {
    var rows := Seen(invoices, rules, now);
    MatchIff(invoices, rules, now, d);
    hide MatchDeposit, Seen, Near, Settle;
    MeantByCard(rows, rules, d);
    hide OnlyMeant, OnlyFromCard, SeveralMeant;
    if k :| OnlyMeant(rows, rules, d, k) {
      assert OnlyFromCard(rows, rules, d, k);
    }
    if k :| OnlyFromCard(rows, rules, d, k) {
      assert OnlyMeant(rows, rules, d, k);
    }
  }

  lemma MeantByCard(rows: seq<Invoice>, rules: Rules, d: Deposit)
    requires rules.requireLast4 && d.last4 != "" && SeveralNear(rows, rules, d) && !exists r :: OnlyCarrier(rows, d, r)
    ensures forall k :: OnlyFromCard(rows, rules, d, k) <==> OnlyMeant(rows, rules, d, k)
    ensures forall k :: 0 <= k < |rows| ==> (Meant(rows, rules, d, k)
                                             <==> Near(rows[k], rules, d) && rows[k].last4 == d.last4)
  {
    hide Near, OnlyCarrier, SeveralNear;
    forall k | 0 <= k < |rows|
      ensures Meant(rows, rules, d, k) <==> Near(rows[k], rules, d) && rows[k].last4 == d.last4
    {
      assert CardFits(rows, rules, d, k) <==> rows[k].last4 == d.last4;
    }
    hide Meant;
    forall k ensures OnlyFromCard(rows, rules, d, k) <==> OnlyMeant(rows, rules, d, k) {
    }
  }

  // ---------- the rows that are seen ----------

  /** Open, and made no longer ago than the window, which is at least five minutes. */
  predicate InTime(inv: Invoice, rules: Rules, now: int) {
    inv.state == Open && (now - inv.createdAt <= rules.windowMin * 60000 || now - inv.createdAt <= 300000)
  }

  function CountInTime(invoices: seq<Invoice>, rules: Rules, now: int): nat {
    if invoices == [] then 0
    else CountInTime(invoices[1..], rules, now) + if InTime(invoices[0], rules, now) then 1 else 0
  }

  lemma {:induction false} FilterJoin<T(!new)>(p: T -> bool, a: seq<T>, b: seq<T>)
    ensures Filter(p, a + b) == Filter(p, a) + Filter(p, b)
  {
    if a == [] {
      assert a + b == b;
    } else {
      assert (a + b)[1..] == a[1..] + b;
      FilterJoin(p, a[1..], b);
    }
  }

  lemma {:induction false} ReverseJoin<T(!new)>(a: seq<T>, b: seq<T>)
    ensures Reverse(a + b) == Reverse(b) + Reverse(a)
  {
    if a == [] {
      assert a + b == b;
    } else {
      assert (a + b)[1..] == a[1..] + b;
      ReverseJoin(a[1..], b);
    }
  }

  lemma {:induction false} CountIsFilter(invoices: seq<Invoice>, rules: Rules, now: int)
    ensures |LiveNewestFirst(invoices, WindowStart(rules, now))| == CountInTime(invoices, rules, now)
  {
    if invoices != [] {
      CountIsFilter(invoices[1..], rules, now);
    }
  }

  /** The live rows around one of them: the later ones come first. */
  lemma LiveAround(invoices: seq<Invoice>, k: nat, since: int)
    requires k < |invoices| && Live(invoices[k], since)
    ensures LiveNewestFirst(invoices, since)
         == LiveNewestFirst(invoices[k + 1..], since) + [invoices[k]] + LiveNewestFirst(invoices[..k], since)
  {
    var p, x := (inv: Invoice) => Live(inv, since), invoices[k];
    var front, back := invoices[..k], invoices[k + 1..];
    assert invoices == front + ([x] + back);
    FilterJoin(p, front, [x] + back);
    FilterJoin(p, [x], back);
    FilterSingle(p, [x], 0);
    ReverseJoin(Filter(p, front), [x] + Filter(p, back));
    ReverseJoin([x], Filter(p, back));
    LiveOne(x, since);
  }

  /** A deposit is compared with an invoice exactly when it is open, in time, and fewer than 200 such ones are newer. */
  lemma SeenIff(invoices: seq<Invoice>, rules: Rules, now: int, k: nat)
    requires k < |invoices| && DistinctIds(invoices)
    ensures invoices[k] in Seen(invoices, rules, now)
       <==> InTime(invoices[k], rules, now) && CountInTime(invoices[k + 1..], rules, now) < 200
  {
    var since := WindowStart(rules, now);
    if Live(invoices[k], since) {
      LiveAround(invoices, k, since);
      CountIsFilter(invoices[k + 1..], rules, now);
      var newer, older := LiveNewestFirst(invoices[k + 1..], since), LiveNewestFirst(invoices[..k], since);
      forall i | 0 <= i < |newer| ensures newer[i] != invoices[k] {
        assert newer[i] in newer && newer[i] in invoices[k + 1..];
      }
      var all := newer + [invoices[k]] + older;
      assert all[|newer|] == invoices[k];
      if |newer| < NEWEST {
        assert all[..if |all| > NEWEST then NEWEST else |all|][|newer|] == invoices[k];
      } else {
        assert all[..NEWEST] == newer[..NEWEST];
      }
    } else if invoices[k] in Seen(invoices, rules, now) {
      SeenIsListed(invoices, rules, now, invoices[k]);
    }
  }

  // ---------- references ----------

  /** References are compared by their digits alone, in order. */
  lemma {:induction false} DigitsJoin(a: string, b: string)
    ensures Digits(a + b) == Digits(a) + Digits(b)
  {
    if a == "" {
      assert a + b == b;
    } else {
      assert (a + b)[1..] == a[1..] + b;
      DigitsJoin(a[1..], b);
    }
  }

  lemma OneDigit(c: char)
    ensures Digits([c]) == if c in "0123456789" then [c] else ""
  {
    assert [c][1..] == "";
  }
}
