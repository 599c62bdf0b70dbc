/** When a payment whose time ran out moves again. */
module Lapses {
  import opened Results
  import opened Ledger
  import opened Payments
  import opened PaymentRuns
  import opened MoneyTheorems
  import opened MoneySteps
  import opened Hex

  ghost predicate IsLapsed(db: Db, id: Id) {
    id in db.payments && db.payments[id].status == Lapsed
  }

  /** A decision of an entitled reviewer, or a gateway callback that reports failure. */
  predicate MovesLapsed(db: Db, s: Step, id: Id)
    requires id in db.payments
  {
    var p := db.payments[id];
    match s
    case Confirm(x, reviewer) => x == id && reviewer.Some? && Entitled(db, reviewer.value, p)
    case Reject(actor, x) => x == id && Entitled(db, actor, p)
    case Callback(x, authority, ok, verified) => x == id && (!ok || (Genuine(p, authority) && verified == Some(false)))
    case _ => false
  }

  /** A lapsed payment leaves that status exactly on such a step: confirmed by a reviewer, rejected otherwise. */
  lemma LeavesLapsedIff(db: Db, s: Step, env: Env, id: Id)
    requires Possible(db, s) && IsLapsed(db, id)
    ensures id in Call(db, s, env).0.payments
    ensures Call(db, s, env).0.payments[id].status
         == if !MovesLapsed(db, s, id) then Lapsed else if s.Confirm? then Confirmed else Rejected
  {
    if Target(s) != Some(id) {
      OthersUntouched(db, s, env, id);
    } else {
      hide ConfirmPayment, CanReview;
      match s
      case Confirm(x, reviewer) => ConfirmTouchesOne(db, x, reviewer, env);
      case Callback(x, _, _, _) => ConfirmTouchesOne(db, x, None, env);
      case PluginCall(_, x, _, _) => ConfirmTouchesOne(db, x, None, env);
      case Verify(x, _, _) => ConfirmTouchesOne(db, x, None, env);
      case _ =>
    }
  }

  ghost predicate NeverMoves(db: Db, run: Run, id: Id)
    requires id in db.payments
  {
    run == [] || (
      && NeverMoves(db, run[..|run| - 1], id)
      && var mid := After(db, run[..|run| - 1]);
         (Possible(mid, run[|run| - 1].0) && id in mid.payments ==> !MovesLapsed(mid, run[|run| - 1].0, id)))
  }

  /** What left the lapsed status never returns to it. */
  lemma NoWayBack(db: Db, next: Db, id: Id, start: Opening)
    requires Inv(db, start) && Keeps(db, next, start) && id in db.payments
    requires db.payments[id].status != Lapsed && db.payments[id].status != Pending
    ensures id in next.payments && next.payments[id].status != Lapsed && next.payments[id].status != Pending
  {
    hide Inv;
    assert EvolvedPayment(db.payments[id], next.payments[id]);
  }

  /** Over any run a lapsed payment is still lapsed at the end if and only if no step of the run moved it. */
  lemma {:induction false} StaysLapsedIff(db: Db, run: Run, id: Id, start: Opening)
    requires Inv(db, start) && IsLapsed(db, id)
    ensures id in After(db, run).payments && After(db, run).payments[id].status != Pending
    ensures After(db, run).payments[id].status == Lapsed <==> NeverMoves(db, run, id)
  {
    if run != [] {
      var mid := After(db, run[..|run| - 1]);
      var (s, env) := run[|run| - 1];
      StaysLapsedIff(db, run[..|run| - 1], id, start);
      RunKeeps(db, run[..|run| - 1], start);
      hide Inv, Keeps, MovesLapsed, Possible, Call;
      if Possible(mid, s) {
        if mid.payments[id].status == Lapsed {
          LeavesLapsedIff(mid, s, env, id);
        } else {
          StepKeeps(mid, s, env, start);
          NoWayBack(mid, Call(mid, s, env).0, id, start);
        }
      }
    }
  }

  /**
   Two gateway callbacks bring a lapsed payment back without a reviewer: a failed one
   closes it as rejected, and a rejected payment is confirmed by a verified one.
   */
  lemma LapsedComesBack(db: Db, id: Id, authority: string, env: Env)
    requires IsLapsed(db, id) && Genuine(db.payments[id], authority)
    ensures ConfirmPayment(db, id, None, env) == (db, Thrown(Expired))
    ensures var run := [(Callback(id, authority, false, None), env), (Callback(id, authority, true, Some(true)), env)];
      id in After(db, run).payments && After(db, run).payments[id].status == Confirmed
  {
    var fails, pays := Callback(id, authority, false, None), Callback(id, authority, true, Some(true));
    var run := [(fails, env), (pays, env)];
    var rejected := WithStatus(db, id, Rejected);
    AfterOne(db, run, 0);
    AfterOne(db, run, 1);
    assert run[..0] == [] && run[..2] == run;
    assert Call(db, fails, env).0 == rejected;
    hide ConfirmPayment, After;
    ConfirmsIff(rejected, pays, env, id);
  }
}
