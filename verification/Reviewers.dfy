/** Who may decide on a payment, told by the payment's own fields. */
module Reviewers {
  import opened Results
  import opened Ledger
  import opened Payments
  import opened PaymentRuns
  import opened MoneyTheorems
  import opened MoneySteps
  import opened Hex

  /** A person decides on the payment: a confirmation or a rejection with somebody's name to it. */
  predicate DecidedBy(s: Step, r: Id, id: Id) {
    s == Confirm(id, Some(r)) || s == Reject(r, id)
  }

  /**
   A decision on an open payment succeeds exactly when it comes from an owner, or from the payment's own
   seller on an order or on a customer's top-up; a reseller's own top-up is for the owner. Any other
   decision changes nothing at all.
   */
  lemma DecisionIff(db: Db, s: Step, env: Env, r: Id, id: Id)
    requires DecidedBy(s, r, id) && id in db.payments && db.payments[id].status != Confirmed
    ensures var p, next := db.payments[id], Call(db, s, env).0;
      var entitled := r in db.owners || (p.admin == r && (p.kind == ForOrder || p.customer.Some?));
      && id in next.payments
      && (entitled ==> next.payments[id] == p.(status := if s.Confirm? then Confirmed else Rejected))
      && (!entitled ==> next == db && Call(db, s, env).1 == Thrown(Forbidden))
  {
    if s.Confirm? {
      ConfirmTouchesOne(db, id, Some(r), env);
    }
    hide Settle;
  }

  /** The top-up of a reseller's own wallet. */
  ghost predicate OwnTopup(db: Db, id: Id) {
    id in db.payments && db.payments[id].kind == ForTopup && db.payments[id].customer.None?
  }

  /** Every step that names the payment is a decision of somebody who is no owner. */
  ghost predicate OnlyOthersDecide(owners: set<Id>, run: Run, id: Id) {
    forall i :: 0 <= i < |run| && Target(run[i].0) == Some(id)
      ==> exists r :: r !in owners && DecidedBy(run[i].0, r, id)
  }

  lemma SameOwners(db: Db, s: Step, env: Env)
    ensures Call(db, s, env).0.owners == db.owners
  {
    hide Charge, Credit, Debit, IsTxid, TxidTaken, OrderTouched, OrderActive, CanReview;
  }

  /** Nothing else touches a top-up but its lapse. */
  lemma OwnTopupStep(db: Db, s: Step, env: Env, id: Id, start: Opening)
    requires Inv(db, start) && Possible(db, s) && OwnTopup(db, id) && db.payments[id].status != Confirmed
    requires Target(s) == Some(id) ==> exists r :: r !in db.owners && DecidedBy(s, r, id)
    ensures var next, p := Call(db, s, env).0, db.payments[id];
      id in next.payments && (next.payments[id] == p || next.payments[id] == p.(status := Lapsed))
  {
    LinkOf(db, id, start);
    assert db.payments[id].order.None?;
    hide Inv, Possible;
    if Target(s) == Some(id) {
      var r :| r !in db.owners && DecidedBy(s, r, id);
      hide Call;
      DecisionIff(db, s, env, r, id);
    } else if s.Expire? {
    } else {
      assert !Sweeps(db, s, env, db.payments[id]);
      hide Call, Sweeps;
      OthersUntouched(db, s, env, id);
    }
  }

  /**
   Over any run in which only people who are no owners decide on it, a reseller's own top-up is neither
   confirmed nor rejected: it stays as it was, or lapses.
   */
  lemma {:induction false} OwnTopupNeedsOwner(db: Db, run: Run, id: Id, start: Opening)
    requires Inv(db, start) && OwnTopup(db, id) && db.payments[id].status != Confirmed
    requires OnlyOthersDecide(db.owners, run, id)
    ensures var end, p := After(db, run), db.payments[id];
      && end.owners == db.owners && id in end.payments
      && (end.payments[id] == p || end.payments[id] == p.(status := Lapsed))
  {
    if run != [] {
      var front := run[..|run| - 1];
      var (s, env) := run[|run| - 1];
      assert forall i :: 0 <= i < |front| ==> front[i] == run[i];
      OwnTopupNeedsOwner(db, front, id, start);
      RunKeeps(db, front, start);
      assert run[|run| - 1].0 == s;
      hide Inv, Possible, Call, DecidedBy, Target;
      var mid := After(db, front);
      if Possible(mid, s) {
        SameOwners(mid, s, env);
        OwnTopupStep(mid, s, env, id, start);
      }
    }
  }

  /** So the reseller who asked for a top-up cannot confirm it, whatever was paid. */
  lemma ResellersCannotTopUpThemselves(db: Db, run: Run, env: Env, id: Id, start: Opening)
    requires Inv(db, start) && OwnTopup(db, id) && db.payments[id].status == Review
    requires db.payments[id].admin !in db.owners && OnlyOthersDecide(db.owners, run, id)
    ensures var end, r := After(db, run), db.payments[id].admin;
      Call(end, Confirm(id, Some(r)), env) == (end, Thrown(Forbidden))
  {
    OwnTopupNeedsOwner(db, run, id, start);
    hide Inv, After, OnlyOthersDecide, Call;
    DecisionIff(After(db, run), Confirm(id, Some(db.payments[id].admin)), env, db.payments[id].admin, id);
  }
}
