/** How long a deposit is remembered: repeats are looked for among the newest 40 accepted ones alone. */
module DepositRepeats {
  import opened Results
  import opened Ledger
  import opened CardAmounts
  import opened CardDeposits
  import opened CardRuns

  /** Entries of one deposit, whatever became of it. */
  predicate Same(x: Deposit, y: Deposit) {
    x == y.(status := x.status, payment := x.payment)
  }

  ghost predicate SameRing(a: seq<Deposit>, b: seq<Deposit>) {
    |a| == |b| && forall i :: 0 <= i < |a| ==> Same(a[i], b[i])
  }

  predicate Accepts(b: Book, d: Deposit) {
    d.amount > 0 && !IsDuplicate(b.ring, d)
  }

  /** The deposits a run accepted, newest first, before those of the ring it started with. */
  ghost function Accepted(b: Book, rules: Rules, run: seq<Step>): seq<Deposit> {
    if run == [] then b.ring
    else
      var mid, s := After(b, rules, run[..|run| - 1]), run[|run| - 1];
      var earlier := Accepted(b, rules, run[..|run| - 1]);
      if s.Receive? && Possible(mid, rules, s) && Accepts(mid, s.d) then [s.d] + earlier else earlier
  }

  /**
   A deposit repeats an earlier one when both have the same reference digits, or neither has a reference and
   both the same amount and text, or both the same amount within two minutes.
   */
  lemma RepeatsIff(prior: Deposit, d: Deposit)
    ensures Repeats(prior, d)
       <==> (|| (prior.ref != "" && d.ref != "" && Digits(prior.ref) == Digits(d.ref))
             || (prior.ref == "" && d.ref == "" && prior.amount == d.amount && prior.text == d.text)
             || (prior.amount == d.amount && prior.at - d.at < 120000 && d.at - prior.at < 120000))
  {
    hide Digits;
  }

  /** Deposits of the ring that wait for an invoice. */
  function Waiting(ring: seq<Deposit>): nat {
    if ring == [] then 0
    else Waiting(ring[1..]) + if ring[0].status == Unmatched || ring[0].status == Ambiguous then 1 else 0
  }

  lemma {:induction false} OpenCount(ring: seq<Deposit>, i: nat)
    requires i < |ring| && (ring[i].status == Unmatched || ring[i].status == Ambiguous)
    ensures Waiting(ring[..i]) < |OpenOnes(ring)| && OpenOnes(ring)[Waiting(ring[..i])] == ring[i]
  {
    OpenOnesUnfold(ring);
    if i > 0 {
      OpenCount(ring[1..], i - 1);
      assert ring[..i][0] == ring[0] && ring[..i][1..] == ring[1..][..i - 1];
    }
  }

  /** The newest 15 waiting deposits are matched again. */
  lemma RetriedAre(ring: seq<Deposit>, i: nat)
    requires i < |ring| && (ring[i].status == Unmatched || ring[i].status == Ambiguous) && Waiting(ring[..i]) < 15
    ensures ring[i] in Retried(ring)
  {
    OpenCount(ring, i);
    var n := Waiting(ring[..i]);
    assert Retried(ring)[n] == ring[i];
  }

  lemma RetriedAreWaiting(ring: seq<Deposit>)
    ensures |Retried(ring)| == (if Waiting(ring) < 15 then Waiting(ring) else 15)
    ensures forall d :: d in Retried(ring) ==> d in ring && (d.status == Unmatched || d.status == Ambiguous)
  {
    OpenLength(ring);
    forall d | d in Retried(ring) ensures d in ring && (d.status == Unmatched || d.status == Ambiguous) {
      assert d in OpenOnes(ring);
    }
  }

  lemma {:induction false} OpenLength(ring: seq<Deposit>)
    ensures |OpenOnes(ring)| == Waiting(ring)
  {
    if ring != [] {
      OpenOnesUnfold(ring);
      OpenLength(ring[1..]);
    }
  }

  /** A filed receipt opens an open or rejected invoice, and what it leaves empty stays as it was. */
  lemma ProofIs(invoices: seq<Invoice>, id: Id, ref: string, last4: string, i: nat)
    requires i < |invoices|
    ensures var inv, a := invoices[i], WithProof(invoices, id, ref, last4)[i];
      && (inv.id != id || (inv.state != Open && inv.state != State.Rejected) ==> a == inv)
      && (inv.id == id && (inv.state == Open || inv.state == State.Rejected) ==>
            && a.state == Open && a.amount == inv.amount && a.createdAt == inv.createdAt && a.id == id
            && (ref != "" ==> a.receiptRef == ref) && (ref == "" ==> a.receiptRef == inv.receiptRef)
            && (last4 != "" ==> a.last4 == last4) && (last4 == "" ==> a.last4 == inv.last4))
  {
  }

  // ---------- the ring holds the newest ----------

  /** A deposit of the ring, by its entry. */
  ghost predicate Listed(ring: seq<Deposit>, d: Deposit) {
    exists i :: 0 <= i < |ring| && Same(ring[i], d)
  }

  lemma RematchOneSame(b: Book, rules: Rules, d: Deposit, c: Confirmation)
    requires RingGood(b) && Listed(b.ring, d)
    ensures SameRing(RematchOne(b, rules, d, c).ring, b.ring)
  {
    hide MatchDeposit;
    var j :| 0 <= j < |b.ring| && Same(b.ring[j], d);
    var i := IndexOf(b.ring, d.id);
    if i < |b.ring| && i != j {
      assert false;
    }
  }

  lemma SameTwice(a: seq<Deposit>, b: seq<Deposit>, c: seq<Deposit>)
    requires SameRing(a, b) && SameRing(b, c)
    ensures SameRing(a, c)
  {
  }

  lemma StillListed(a: seq<Deposit>, b: seq<Deposit>, d: Deposit)
    requires SameRing(a, b) && Listed(b, d)
    ensures Listed(a, d)
  {
    var i :| 0 <= i < |b| && Same(b[i], d);
    assert Same(a[i], d);
  }

  /** The retried deposits are entries of the ring. */
  ghost predicate Entered(b: Book, todo: seq<Deposit>) {
    Todo(b, todo) && forall i :: 0 <= i < |todo| ==> Listed(b.ring, todo[i])
  }

  lemma EnteredFront(b: Book, todo: seq<Deposit>)
    requires todo != [] && Entered(b, todo)
    ensures Entered(b, todo[..|todo| - 1]) && Todo(b, todo[..|todo| - 1]) && Listed(b.ring, todo[|todo| - 1])
  {
    hide Pending, Listed;
  }

  lemma {:induction false} RematchAllSame(b: Book, rules: Rules, todo: seq<Deposit>, cs: seq<Confirmation>)
    requires |cs| == |todo| && RingGood(b) && Entered(b, todo)
    ensures SameRing(RematchAll(b, rules, todo, cs).ring, b.ring)
  {
    if todo != [] {
      var n := |todo| - 1;
      var mid := RematchAll(b, rules, todo[..n], cs[..n]);
      EnteredFront(b, todo);
      assert RematchAll(b, rules, todo, cs) == RematchOne(mid, rules, todo[n], cs[n]) by {
        hide RematchOne;
      }
      hide *;
      RematchAllKeeps(b, rules, todo[..n], cs[..n]);
      RematchAllSame(b, rules, todo[..n], cs[..n]);
      StillListed(mid.ring, b.ring, todo[n]);
      RematchOneSame(mid, rules, todo[n], cs[n]);
      SameTwice(RematchOne(mid, rules, todo[n], cs[n]).ring, mid.ring, b.ring);
    }
  }

  lemma RematchStepSame(b: Book, rules: Rules, cs: seq<Confirmation>)
    requires RingGood(b) && |cs| == |Retried(b.ring)|
    ensures SameRing(RematchAll(b, rules, Retried(b.ring), cs).ring, b.ring)
  {
    var todo := Retried(b.ring);
    RetriedIsTodo(b);
    forall i | 0 <= i < |todo| ensures Listed(b.ring, todo[i]) {
      assert todo[i] in OpenOnes(b.ring);
      var k :| 0 <= k < |b.ring| && b.ring[k] == todo[i];
      assert Same(b.ring[k], todo[i]);
    }
    hide RematchAll;
    RematchAllSame(b, rules, todo, cs);
  }

  lemma FrontGrows(entry: Deposit, d: Deposit, ring: seq<Deposit>, all: seq<Deposit>)
    requires Same(entry, d) && SameRing(ring, Front(all))
    ensures SameRing(Front([entry] + ring), Front([d] + all))
  {
  }

  lemma StepSame(b: Book, rules: Rules, s: Step, all: seq<Deposit>)
    requires RingGood(b) && Possible(b, rules, s) && SameRing(b.ring, Front(all))
    ensures SameRing(Do(b, rules, s).ring, Front(if s.Receive? && Accepts(b, s.d) then [s.d] + all else all))
  {
    if s.Receive? && Accepts(b, s.d) {
      var m := MatchDeposit(b.invoices, rules, b.now, s.d, s.c).1;
      var entry := s.d.(status := m.status, payment := m.payment);
      assert Do(b, rules, s).ring == Front([entry] + b.ring);
      hide MatchDeposit, Front, SameRing;
      FrontGrows(entry, s.d, b.ring, all);
    } else if s.Rematch? {
      RematchStepSame(b, rules, s.cs);
      hide RematchAll, Front;
      SameTwice(Do(b, rules, s).ring, b.ring, Front(all));
    } else {
      assert Do(b, rules, s).ring == b.ring;
    }
  }

  /** After any run the ring holds the newest 40 accepted deposits. */
  lemma {:induction false} RingIsNewest(b: Book, rules: Rules, run: seq<Step>)
    requires RingGood(b)
    ensures SameRing(After(b, rules, run).ring, Front(Accepted(b, rules, run)))
  {
    if run != [] {
      var front, s := run[..|run| - 1], run[|run| - 1];
      var mid := After(b, rules, front);
      RingIsNewest(b, rules, front);
      RunKeepsRing(b, rules, front);
      hide RingGood, Do, SameRing, Front;
      if Possible(mid, rules, s) {
        StepSame(mid, rules, s, Accepted(b, rules, front));
      }
    }
  }

  lemma SameDuplicates(a: seq<Deposit>, b: seq<Deposit>, d: Deposit)
    requires SameRing(a, b)
    ensures IsDuplicate(a, d) <==> IsDuplicate(b, d)
  {
    if i :| 0 <= i < |a| && Repeats(a[i], d) {
      assert Same(a[i], b[i]) && Repeats(b[i], d);
    }
    if i :| 0 <= i < |b| && Repeats(b[i], d) {
      assert Same(a[i], b[i]) && Repeats(a[i], d);
    }
  }

  lemma AcceptedIsEntered(b: Book, rules: Rules, d: Deposit, c: Confirmation)
    requires RingGood(b) && Possible(b, rules, Receive(d, c)) && Accepts(b, d)
    ensures IngestInto(b, rules, d, c).ring != b.ring
  {
    var next := IngestInto(b, rules, d, c);
    assert next.ring[0].id == d.id;
    hide MatchDeposit;
    assert forall i :: 0 <= i < |b.ring| ==> b.ring[i].id != d.id;
  }

  /** A deposit changes nothing exactly when it is of no amount or one of the newest 40 accepted ones repeats it. */
  lemma DroppedIff(b: Book, rules: Rules, run: seq<Step>, d: Deposit, c: Confirmation)
    requires RingGood(b) && Possible(After(b, rules, run), rules, Receive(d, c))
    ensures var end, all := After(b, rules, run), Accepted(b, rules, run);
      IngestInto(end, rules, d, c) == end
      <==> d.amount <= 0 || exists i :: 0 <= i < |all| && i < RING && Repeats(all[i], d)
  {
    var end, all := After(b, rules, run), Accepted(b, rules, run);
    RingIsNewest(b, rules, run);
    RunKeepsRing(b, rules, run);
    SameDuplicates(end.ring, Front(all), d);
    if Accepts(end, d) {
      AcceptedIsEntered(end, rules, d, c);
    }
    hide RingGood, SameRing, After, Accepted, Repeats, Possible, MatchDeposit;
    assert |Front(all)| == if |all| > RING then RING else |all|;
    if i :| 0 <= i < |all| && i < RING && Repeats(all[i], d) {
      assert Repeats(Front(all)[i], d);
    }
    if i :| 0 <= i < |Front(all)| && Repeats(Front(all)[i], d) {
      assert Repeats(all[i], d);
    }
  }

  // ---------- one deposit, one invoice ----------

  lemma {:induction false} AcceptedOnTop(b: Book, rules: Rules, run: seq<Step>)
    ensures var all := Accepted(b, rules, run); |all| >= |b.ring| && all[|all| - |b.ring|..] == b.ring
  {
    if run != [] {
      AcceptedOnTop(b, rules, run[..|run| - 1]);
      hide Accepts, Possible, After;
    }
  }

  /** Once a deposit was accepted, its repeats settle nothing while fewer than 40 further ones were accepted. */
  lemma RepeatSettlesNothing(b: Book, rules: Rules, d: Deposit, c: Confirmation, run: seq<Step>,
                             again: Deposit, c2: Confirmation)
    requires RingGood(b) && Possible(b, rules, Receive(d, c)) && Accepts(b, d) && Repeats(d, again)
    requires var next := IngestInto(b, rules, d, c);
      |Accepted(next, rules, run)| - |next.ring| < RING && Possible(After(next, rules, run), rules, Receive(again, c2))
    ensures var end := After(IngestInto(b, rules, d, c), rules, run); IngestInto(end, rules, again, c2) == end
  {
    var next := IngestInto(b, rules, d, c);
    var all := Accepted(next, rules, run);
    IngestKeeps(b, rules, d, c);
    AcceptedOnTop(next, rules, run);
    EnteredFirst(b, rules, d, c);
    var n := |all| - |next.ring|;
    assert all[n] == all[n..][0];
    hide IngestInto, After, Accepted, RingGood, Possible, MatchDeposit;
    DroppedIff(next, rules, run, again, c2);
  }

  lemma EnteredFirst(b: Book, rules: Rules, d: Deposit, c: Confirmation)
    requires Accepts(b, d)
    ensures var ring := IngestInto(b, rules, d, c).ring; ring != [] && Same(ring[0], d)
  {
    hide MatchDeposit;
  }

  // ---------- a deposit that settles two invoices ----------

  lemma {:induction false} AfterJoined(b: Book, rules: Rules, run: seq<Step>, more: seq<Step>)
    ensures After(b, rules, run + more) == After(After(b, rules, run), rules, more)
  {
    if more == [] {
      assert run + more == run;
    } else {
      var all := run + more;
      assert all[..|all| - 1] == run + more[..|more| - 1];
      AfterJoined(b, rules, run, more[..|more| - 1]);
      hide Possible, Do;
    }
  }

  function Unary(n: nat): (id: Id)
    ensures |id| == n
  {
    seq(n, _ => 'x')
  }

  /** The n-th of a series of deposits of growing amounts. */
  function Nth(price: int, n: nat): Deposit {
    Deposit(Unary(n), 0, price + n, "", "", "", Unmatched, None)
  }

  function Others(price: int, n: nat): (run: seq<Step>)
    ensures |run| == n
  {
    seq(n, i requires 0 <= i < n => Receive(Nth(price, i + 1), Fine))
  }

  /** The first invoice is settled, and the ring holds the newest of the deposits 0 to n. */
  ghost predicate Series(b: Book, price: int, n: nat) {
    && b.now == 0 && b.invoices == [NewInvoice("a", price, 0).(state := Settled)]
    && |b.ring| == (if n + 1 < RING then n + 1 else RING)
    && forall i :: 0 <= i < |b.ring| ==> Same(b.ring[i], Nth(price, n - i))
  }

  lemma SettledUnseen(price: int, rules: Rules)
    ensures Seen([NewInvoice("a", price, 0).(state := Settled)], rules, 0) == []
  {
    var invoices := [NewInvoice("a", price, 0).(state := Settled)];
    FilterNone((inv: Invoice) => Live(inv, WindowStart(rules, 0)), invoices);
    assert LiveNewestFirst(invoices, WindowStart(rules, 0)) == [];
  }

  /** The series differs in amounts and ids. */
  lemma SeriesDiffers(b: Book, price: int, n: nat)
    requires Series(b, price, n)
    ensures !IsDuplicate(b.ring, Nth(price, n + 1)) && forall i :: 0 <= i < |b.ring| ==> b.ring[i].id != Unary(n + 1)
  {
    forall i | 0 <= i < |b.ring| ensures !Repeats(b.ring[i], Nth(price, n + 1)) && b.ring[i].id != Unary(n + 1) {
      assert Same(b.ring[i], Nth(price, n - i)) && |b.ring[i].id| == n - i;
    }
  }

  lemma SeriesNext(b: Book, rules: Rules, price: int, n: nat)
    requires price > 0 && Series(b, price, n)
    ensures Possible(b, rules, Receive(Nth(price, n + 1), Fine))
    ensures Series(IngestInto(b, rules, Nth(price, n + 1), Fine), price, n + 1)
  {
    var d := Nth(price, n + 1);
    SeriesDiffers(b, price, n);
    SettledUnseen(price, rules);
    NoneNearUnmatched(b.invoices, rules, 0, d);
    hide MatchDeposit, IsDuplicate, Unary, Seen;
    var next := IngestInto(b, rules, d, Fine);
    assert next.ring == Front([d] + b.ring);
    assert forall i :: 0 < i < |next.ring| ==> next.ring[i] == b.ring[i - 1];
  }

  lemma {:induction false} SeriesRun(b: Book, rules: Rules, price: int, n: nat)
    requires price > 0 && Series(b, price, 0)
    ensures Series(After(b, rules, Others(price, n)), price, n)
  {
    if n == 0 {
      assert After(b, rules, Others(price, 0)) == b;
    } else {
      var run := Others(price, n);
      assert run[..n - 1] == Others(price, n - 1) && run[n - 1] == Receive(Nth(price, n), Fine);
      SeriesRun(b, rules, price, n - 1);
      hide Series, IngestInto, Possible, Others;
      SeriesNext(After(b, rules, run[..n - 1]), rules, price, n - 1);
    }
  }

  lemma FirstMatch(rules: Rules, price: int)
    requires price > 0 && rules.autoConfirm
    ensures var inv := NewInvoice("a", price, 0);
      MatchDeposit([inv], rules, 0, Nth(price, 0), Fine) == ([inv.(state := Settled)], Match(Matched, Some("a")))
  {
    var inv := NewInvoice("a", price, 0);
    LiveOne(inv, WindowStart(rules, 0));
    assert Seen([inv], rules, 0) == [inv];
    hide MatchDeposit, LiveNewestFirst, Seen;
    OneNearSettles([inv], rules, 0, Nth(price, 0), 0);
    assert [inv][0 := inv.(state := Settled)] == [inv.(state := Settled)];
  }

  /** A top-up and the deposit that settles it. */
  lemma FirstSettled(rules: Rules, price: int)
    requires price > 0 && rules.autoConfirm
    ensures Series(After(Book([], [], 0), rules, [TopUp("a", price), Receive(Nth(price, 0), Fine)]), price, 0)
  {
    var run, b := [TopUp("a", price), Receive(Nth(price, 0), Fine)], Book([], [], 0);
    var inv, d := NewInvoice("a", price, 0), Nth(price, 0);
    var placed := Book([inv], [], 0);
    FirstMatch(rules, price);
    assert run[..1] == [run[0]] && run[..1][..0] == [] && run[..2] == run;
    hide MatchDeposit;
    assert !IsDuplicate([], d);
    var entry := d.(status := Matched, payment := Some("a"));
    assert IngestInto(placed, rules, d, Fine) == Book([inv.(state := Settled)], [entry], 0);
    hide IngestInto, Unary;
    assert After(b, rules, run[..1]) == placed;
    assert Possible(placed, rules, run[1]);
    assert After(b, rules, run) == Do(placed, rules, run[1]);
    var after := Book([inv.(state := Settled)], [entry], 0);
    assert Same(entry, Nth(price, 0 - 0));
    assert Series(after, price, 0);
  }

  /** Two invoices of one amount, the first of them settled. */
  function Pair(price: int): seq<Invoice> {
    [NewInvoice("a", price, 0).(state := Settled), NewInvoice("b", price, 0)]
  }

  lemma SecondIsSeen(rules: Rules, price: int)
    ensures Seen(Pair(price), rules, 0) == [Pair(price)[1]]
  {
    FilterSingle((x: Invoice) => Live(x, WindowStart(rules, 0)), Pair(price), 1);
    assert Reverse([Pair(price)[1]]) == [Pair(price)[1]] by {
      LiveOne(Pair(price)[1], WindowStart(rules, 0));
      FilterSingle((x: Invoice) => Live(x, WindowStart(rules, 0)), [Pair(price)[1]], 0);
    }
  }

  lemma SecondOfPair(rules: Rules, price: int, d: Deposit)
    requires rules.autoConfirm && d.ref == "" && d.amount == price > 0
    ensures MatchDeposit(Pair(price), rules, 0, d, Fine)
      == (Pair(price)[1 := Pair(price)[1].(state := Settled)], Match(Matched, Some("b")))
  {
    var pair := Pair(price);
    SecondIsSeen(rules, price);
    hide MatchDeposit, LiveNewestFirst, Seen;
    OneNearSettles(pair, rules, 0, d, 1);
  }

  /** After 40 others nothing in the ring repeats the first deposit. */
  lemma Forgotten(b: Book, price: int, again: Deposit)
    requires Series(b, price, RING) && again == Nth(price, 0).(id := "again")
    ensures !IsDuplicate(b.ring, again) && forall i :: 0 <= i < |b.ring| ==> b.ring[i].id != again.id
  {
    forall i | 0 <= i < |b.ring| ensures !Repeats(b.ring[i], again) && b.ring[i].id != again.id {
      assert Same(b.ring[i], Nth(price, RING - i)) && b.ring[i].id[0] == 'x';
    }
  }

  /** A second invoice of the amount, and the first deposit offered again: it settles this one too. */
  lemma AgainSettles(b: Book, rules: Rules, price: int, again: Deposit)
    requires price > 0 && rules.autoConfirm && Series(b, price, RING) && again == Nth(price, 0).(id := "again")
    ensures var end := After(b, rules, [TopUp("b", price), Receive(again, Fine)]);
      end.invoices == Pair(price)[1 := Pair(price)[1].(state := Settled)]
  {
    var run := [TopUp("b", price), Receive(again, Fine)];
    var placed := b.(invoices := Pair(price));
    Forgotten(b, price, again);
    SecondOfPair(rules, price, again);
    assert run[..1] == [run[0]] && run[..1][..0] == [] && run[..2] == run;
    assert b.invoices + [NewInvoice("b", price, 0)] == Pair(price);
    hide MatchDeposit, IsDuplicate;
    assert After(b, rules, run[..1]) == placed;
    assert After(b, rules, run) == IngestInto(placed, rules, again, Fine);
  }

  /**
   After 40 other deposits one that was matched already is accepted again, and settles a second invoice of its
   amount.
   */
  lemma SettlesTwice(rules: Rules, price: int) returns (run: seq<Step>)
    requires price > 0 && rules.autoConfirm
    ensures var d := Nth(price, 0);
      && |run| == RING + 4 && run[1] == Receive(d, Fine) && run[RING + 3] == Receive(d.(id := "again"), Fine)
      && After(Book([], [], 0), rules, run).invoices == Pair(price)[1 := Pair(price)[1].(state := Settled)]
  {
    var b, again := Book([], [], 0), Nth(price, 0).(id := "again");
    var first := [TopUp("a", price), Receive(Nth(price, 0), Fine)];
    var last := [TopUp("b", price), Receive(again, Fine)];
    run := first + Others(price, RING) + last;
    hide After, Series, Nth;
    AfterJoined(b, rules, first + Others(price, RING), last);
    AfterJoined(b, rules, first, Others(price, RING));
    FirstSettled(rules, price);
    SeriesRun(After(b, rules, first), rules, price, RING);
    AgainSettles(After(b, rules, first + Others(price, RING)), rules, price, again);
  }
}
