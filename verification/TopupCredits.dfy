/** The exact amount a customer's top-up is credited with. */
module TopupCredits {
  import opened Results
  import opened Ledger
  import opened Payments
  import opened PaymentRuns
  import opened MoneyTheorems
  import opened MoneySteps
  import opened Hex

  /** The row holds the payment's amount and the bonus of the given percentage, in its customer's wallet. */
  ghost predicate CreditsWith(t: Tx, p: Payment, id: Id, pct: int) {
    Some(t.account) == p.customer && t.kind == Topup && t.amount == p.amount + Bonus(p.amount, pct)
      && t.ref == PaymentRef(id)
  }

  ghost predicate OpenTopup(db: Db, id: Id) {
    && id in db.payments && db.payments[id].status != Confirmed
    && db.payments[id].kind == ForTopup && db.payments[id].customer.Some?
  }

  lemma CreditRow(db: Db, id: Id, reviewer: Option<Id>, env: Env, start: Opening)
    requires Inv(db, start) && OpenTopup(db, id)
    requires if reviewer.Some? then CanReview(db, reviewer.value, db.payments[id]) else db.payments[id].status != Lapsed
    ensures var rows := ConfirmPayment(db, id, reviewer, env).0.customers.rows;
      && |rows| == |db.customers.rows| + 1
      && CreditsWith(rows[|rows| - 1], db.payments[id], id, env.bonusPct)
  {
    ConfirmCredits(db, id, reviewer, env, start);
    hide Inv, ConfirmPayment, Bonus;
  }

  /** A step that confirms a customer's top-up writes its row with the bonus of that moment. */
  lemma StepCredits(db: Db, s: Step, env: Env, id: Id, start: Opening)
    requires Inv(db, start) && OpenTopup(db, id) && Confirms(db, s, env, id)
    ensures var rows := Call(db, s, env).0.customers.rows;
      && |rows| == |db.customers.rows| + 1
      && CreditsWith(rows[|rows| - 1], db.payments[id], id, env.bonusPct)
  {
    NotByHand(db, s, env, id, start);
    ConfirmsByConfirming(db, s, env, id);
    PreparedIsGood(db, s, env, id, start);
    hide Inv, Call, ConfirmPayment, Confirms, CanReview, CreditsWith;
    CreditRow(Prepared(db, s, id), id, ReviewerOf(s), env, start);
    SameCredit(db, s, env, id);
  }

  /** Handing an order over confirms no top-up. */
  lemma NotByHand(db: Db, s: Step, env: Env, id: Id, start: Opening)
    requires Inv(db, start) && OpenTopup(db, id) && Confirms(db, s, env, id)
    ensures !s.Retry?
  {
    LinkOf(db, id, start);
    hide Inv;
  }

  lemma PreparedIsGood(db: Db, s: Step, env: Env, id: Id, start: Opening)
    requires Inv(db, start) && OpenTopup(db, id) && Confirms(db, s, env, id)
    ensures Inv(Prepared(db, s, id), start)
  {
    if s.Prove? {
      hide Inv, IsTxid;
      WithPaymentKeeps(db, id, Filed(db.payments[id], s.proof.txid), start);
    }
  }

  lemma SameCredit(db: Db, s: Step, env: Env, id: Id)
    requires id in db.payments
    ensures var ready := Prepared(db, s, id);
      ready.customers == db.customers && id in ready.payments
      && forall t: Tx :: CreditsWith(t, ready.payments[id], id, env.bonusPct)
           ==> CreditsWith(t, db.payments[id], id, env.bonusPct)
  {
  }

  ghost predicate CreditedBy(db: Db, run: Run, id: Id, k: nat, i: nat)
    requires k < |run|
  {
    var end := After(db, run);
    && !IsSettledTopup(After(db, run[..k]), id) && IsSettledTopup(After(db, run[..k + 1]), id)
    && id in end.payments && i < |end.customers.rows|
    && CreditsWith(end.customers.rows[i], end.payments[id], id, run[k].1.bonusPct)
  }

  /** A row written earlier is still there, and the payment is still the same. */
  lemma CreditStays(db: Db, run: Run, id: Id, k: nat, i: nat, start: Opening)
    requires Inv(db, start) && run != [] && k < |run| - 1 && CreditedBy(db, run[..|run| - 1], id, k, i)
    ensures CreditedBy(db, run, id, k, i)
  {
    var n := |run| - 1;
    assert run[..n][..k] == run[..k] && run[..n][..k + 1] == run[..k + 1];
    LastStepGrows(db, run, start);
    hide Inv, After, Evolves, Grows, IsSettledTopup, CreditsWith;
    if After(db, run) != After(db, run[..n]) {
      RowStays(After(db, run[..n]), After(db, run), id, i, run[k].1.bonusPct);
    }
  }

  lemma LastStepGrows(db: Db, run: Run, start: Opening)
    requires Inv(db, start) && run != []
    ensures var mid, end := After(db, run[..|run| - 1]), After(db, run);
      end == mid || (Grows(mid, end) && Evolves(mid, end))
  {
    var n := |run| - 1;
    var mid := After(db, run[..n]);
    RunKeeps(db, run[..n], start);
    if Possible(mid, run[n].0) {
      hide Inv, Call, Possible, Grows, Evolves;
      StepGrows(mid, run[n].0, run[n].1);
      StepKeeps(mid, run[n].0, run[n].1, start);
    }
  }

  lemma RowStays(db: Db, next: Db, id: Id, i: nat, pct: int)
    requires Grows(db, next) && Evolves(db, next) && id in db.payments
    requires i < |db.customers.rows| && CreditsWith(db.customers.rows[i], db.payments[id], id, pct)
    ensures id in next.payments && i < |next.customers.rows|
      && CreditsWith(next.customers.rows[i], next.payments[id], id, pct)
  {
    assert EvolvedPayment(db.payments[id], next.payments[id]);
  }

  /**
   A customer's top-up that a run confirmed was confirmed by one of its steps, and its row holds the
   amount with the bonus of exactly that step.
   */
  lemma {:induction false} CreditedAsConfirmed(db: Db, run: Run, id: Id, start: Opening) returns (k: nat, i: nat)
    requires Inv(db, start) && !IsSettledTopup(db, id)
    requires var end := After(db, run); IsSettledTopup(end, id) && end.payments[id].customer.Some?
    ensures k < |run| && CreditedBy(db, run, id, k, i)
  {
    var n := |run| - 1;
    var mid := After(db, run[..n]);
    var (s, env) := run[n];
    RunKeeps(db, run[..n], start);
    assert run[..n + 1] == run;
    if IsSettledTopup(mid, id) {
      SameCustomer(mid, s, env, id, start);
      hide Inv, CreditedBy, IsSettledTopup, Call, Possible;
      k, i := CreditedAsConfirmed(db, run[..n], id, start);
      CreditStays(db, run, id, k, i, start);
    } else {
      k, i := n, |mid.customers.rows|;
      assert Possible(mid, s);
      hide Inv, Call, Possible, CreditsWith, After;
      LastStepCredits(mid, s, env, id, start);
    }
  }

  lemma SameCustomer(db: Db, s: Step, env: Env, id: Id, start: Opening)
    requires Inv(db, start) && id in db.payments
    ensures Possible(db, s) ==> id in Call(db, s, env).0.payments
                                && Call(db, s, env).0.payments[id].customer == db.payments[id].customer
  {
    if Possible(db, s) {
      StepKeeps(db, s, env, start);
      hide Inv, Call;
      assert EvolvedPayment(db.payments[id], Call(db, s, env).0.payments[id]);
    }
  }

  lemma LastStepCredits(db: Db, s: Step, env: Env, id: Id, start: Opening)
    requires Inv(db, start) && Possible(db, s) && !IsSettledTopup(db, id)
    requires var end := Call(db, s, env).0; IsSettledTopup(end, id) && end.payments[id].customer.Some?
    ensures var end := Call(db, s, env).0;
      && |end.customers.rows| == |db.customers.rows| + 1
      && CreditsWith(end.customers.rows[|db.customers.rows|], end.payments[id], id, env.bonusPct)
  {
    hide Inv, Call, Possible, Confirms;
    if id !in db.payments {
      NewPayments(db, s, env, id);
      assert false;
    }
    StepKeeps(db, s, env, start);
    assert EvolvedPayment(db.payments[id], Call(db, s, env).0.payments[id]);
    ConfirmsIff(db, s, env, id);
    StepCredits(db, s, env, id, start);
  }
}
