/** Transaction ids and the transfers they name. */
module Transfers {
  import opened Results
  import opened Ledger
  import opened Payments
  import opened PaymentRuns
  import opened MoneyTheorems
  import opened MoneySteps
  import opened Hex

  /** Two payments never carry the same transaction id, letter for letter. */
  lemma OneTextOnePayment(db: Db, run: Run, p: Id, q: Id, start: Opening)
    requires Inv(db, start)
    ensures var end := After(db, run);
      (p in end.payments && q in end.payments && p != q && end.payments[p].txid.Some?)
      ==> end.payments[p].txid != end.payments[q].txid
  {
    RunKeeps(db, run, start);
  }

  ghost predicate TransfersDistinct(db: Db) {
    forall p, q :: p in db.payments && q in db.payments && p != q && db.payments[p].txid.Some?
      && db.payments[q].txid.Some?
      ==> !SameTransfer(db.payments[p].txid.value, db.payments[q].txid.value)
  }

  /** Another payment carries this transaction id in some spelling. */
  ghost predicate SpelledElsewhere(db: Db, id: Id, txid: string) {
    exists q :: q in db.payments && q != id && db.payments[q].txid.Some?
      && SameTransfer(db.payments[q].txid.value, txid)
  }

  /** The step files a transaction id that another payment carries in another spelling. */
  ghost predicate Respells(db: Db, s: Step, env: Env) {
    s.Prove? && Files(db, s.id, s.proof, env.now) && SpelledElsewhere(db, s.id, s.proof.txid)
  }

  /** A payment's transaction id changes only when one is filed for it. */
  lemma TxidAfter(db: Db, s: Step, env: Env, id: Id)
    requires Possible(db, s) && id in db.payments
    ensures id in Call(db, s, env).0.payments
    ensures Call(db, s, env).0.payments[id].txid
         == if s.Prove? && s.id == id && Files(db, id, s.proof, env.now) then Some(s.proof.txid)
           else db.payments[id].txid
  {
    if Target(s) == Some(id) {
      TargetTxid(db, s, env, id);
    } else if Sweeps(db, s, env, db.payments[id]) {
      hide FulfillOrder, OrderTouched, OrderActive;
      if s.Retry? && s.order in db.orders {
        FulfillKeepsPayments(db, s.order, env);
        FulfillKeepsPayments(WithOrderPayments(WithOrder(db, s.order, Paid), s.order, Confirmed), s.order, env);
      }
    } else {
      OthersUntouched(db, s, env, id);
    }
  }

  lemma TargetTxid(db: Db, s: Step, env: Env, id: Id)
    requires id in db.payments && Target(s) == Some(id)
    ensures id in Call(db, s, env).0.payments
    ensures Call(db, s, env).0.payments[id].txid
         == if s.Prove? && Files(db, id, s.proof, env.now) then Some(s.proof.txid) else db.payments[id].txid
  {
    if s.Prove? {
      FilesIff(db, id, s.proof, env.now);
    }
    hide Files;
    hide ConfirmPayment, IsTxid, TxidTaken, CanReview;
    match s
    case Confirm(x, reviewer) => ConfirmTouchesOne(db, x, reviewer, env);
    case Prove(x, proof, _) => ConfirmTouchesOne(WithPayment(db, x, Filed(db.payments[x], proof.txid)), x, None, env);
    case Callback(x, _, _, _) => ConfirmTouchesOne(db, x, None, env);
    case PluginCall(_, x, _, _) => ConfirmTouchesOne(db, x, None, env);
    case Verify(x, _, _) => ConfirmTouchesOne(db, x, None, env);
    case Reject(_, _) =>
  }

  /** While payments name different transfers, a step keeps that exactly when it files no second spelling. */
  lemma DistinctIff(db: Db, s: Step, env: Env)
    requires Possible(db, s) && TransfersDistinct(db)
    ensures TransfersDistinct(Call(db, s, env).0) <==> !Respells(db, s, env)
  {
    var next := Call(db, s, env).0;
    forall id | id in db.payments
      ensures id in next.payments && next.payments[id].txid
        == if s.Prove? && s.id == id && Files(db, id, s.proof, env.now) then Some(s.proof.txid)
          else db.payments[id].txid
    {
      TxidAfter(db, s, env, id);
    }
    forall id | id in next.payments && id !in db.payments ensures next.payments[id].txid.None? {
      NewPayments(db, s, env, id);
    }
    assert Respells(db, s, env) ==> s.id in db.payments;
    hide Call, Files, SameTransfer, Possible;
    if Respells(db, s, env) {
      var q :| q in db.payments && q != s.id && db.payments[q].txid.Some?
        && SameTransfer(db.payments[q].txid.value, s.proof.txid);
      assert next.payments[s.id].txid == Some(s.proof.txid) && next.payments[q].txid == db.payments[q].txid;
    } else {
      forall p, q | p in next.payments && q in next.payments && p != q && next.payments[p].txid.Some?
        && next.payments[q].txid.Some?
        ensures !SameTransfer(next.payments[p].txid.value, next.payments[q].txid.value)
      {
        SameEitherWay(next.payments[p].txid.value, next.payments[q].txid.value);
      }
    }
  }

  lemma SameEitherWay(a: string, b: string)
    ensures SameTransfer(a, b) <==> SameTransfer(b, a)
  {
  }

  ghost predicate AlwaysDistinct(db: Db, run: Run) {
    TransfersDistinct(After(db, run)) && (run == [] || AlwaysDistinct(db, run[..|run| - 1]))
  }

  ghost predicate NeverRespells(db: Db, run: Run) {
    run == [] || (
      && NeverRespells(db, run[..|run| - 1])
      && var mid := After(db, run[..|run| - 1]);
         (Possible(mid, run[|run| - 1].0) ==> !Respells(mid, run[|run| - 1].0, run[|run| - 1].1)))
  }

  /**
   One transfer names at most one payment after every step of a run, if and only if no step files a second
   spelling.
   */
  lemma {:induction false} OneTransferOnePaymentIff(db: Db, run: Run)
    requires TransfersDistinct(db)
    ensures AlwaysDistinct(db, run) <==> NeverRespells(db, run)
  {
    if run != [] {
      var mid := After(db, run[..|run| - 1]);
      var (s, env) := run[|run| - 1];
      OneTransferOnePaymentIff(db, run[..|run| - 1]);
      if AlwaysDistinct(db, run[..|run| - 1]) {
        assert TransfersDistinct(mid);
        hide TransfersDistinct, Respells, Possible, Call;
        if Possible(mid, s) {
          DistinctIff(mid, s, env);
        }
      }
    }
  }

  // ---------- one transfer, two payments ----------

  predicate HasLetter(s: string) {
    exists i :: 0 <= i < |s| && ('a' <= s[i] <= 'z' || 'A' <= s[i] <= 'Z')
  }

  /** The same digits with the case of every letter changed. */
  function Swapped(s: string): (r: string)
    ensures |r| == |s|
  {
    seq(|s|, i requires 0 <= i < |s| =>
      if 'a' <= s[i] <= 'z' then (s[i] as int - 32) as char
      else if 'A' <= s[i] <= 'Z' then (s[i] as int + 32) as char else s[i])
  }

  lemma SwappedIsSame(txid: string)
    ensures SameTransfer(txid, Swapped(txid)) && (IsTxid(txid) ==> IsTxid(Swapped(txid)))
    ensures HasLetter(txid) ==> Swapped(txid) != txid
  {
    assert Lower(Swapped(txid)) == Lower(txid);
    if i :| 0 <= i < |txid| && ('a' <= txid[i] <= 'z' || 'A' <= txid[i] <= 'Z') {
      assert Swapped(txid)[i] != txid[i];
    }
  }

  /** A transfer has two spellings exactly when its id holds a letter. */
  lemma OtherSpellingIff(txid: string)
    requires IsTxid(txid)
    ensures (exists other :: IsTxid(other) && other != txid && SameTransfer(txid, other)) <==> HasLetter(txid)
  {
    SwappedIsSame(txid);
    if !HasLetter(txid) {
      forall other | SameTransfer(txid, other) ensures other == txid {
        OnlySpelling(txid, other);
      }
    }
  }

  lemma OnlySpelling(txid: string, other: string)
    requires !HasLetter(txid) && SameTransfer(txid, other)
    ensures other == txid
  {
    assert |Lower(txid)| == |txid| && |Lower(other)| == |other|;
    forall i | 0 <= i < |txid| ensures other[i] == txid[i] {
      assert Lower(txid)[i] == Lower(other)[i];
    }
  }

  ghost predicate AwaitsTransfer(db: Db, id: Id) {
    id in db.payments && db.payments[id].via == Usdt && db.payments[id].status == Review
  }

  /** No payment carries this text yet. */
  ghost predicate Unfiled(db: Db, txid: string) {
    forall id :: id in db.payments ==> db.payments[id].txid != Some(txid)
  }

  /** Any two payments that wait for a transfer can both be confirmed by any one whose id holds a letter. */
  lemma OneTransferTwoPayments(db: Db, p: Id, q: Id, txid: string, env: Env) returns (run: Run)
    requires AwaitsTransfer(db, p) && AwaitsTransfer(db, q) && p != q
    requires IsTxid(txid) && HasLetter(txid) && Unfiled(db, txid) && Unfiled(db, Swapped(txid))
    ensures var end := After(db, run);
      && p in end.payments && end.payments[p].status == Confirmed && end.payments[p].txid == Some(txid)
      && q in end.payments && end.payments[q].status == Confirmed && end.payments[q].txid == Some(Swapped(txid))
    ensures SameTransfer(txid, Swapped(txid))
  {
    SwappedIsSame(txid);
    hide Swapped, IsTxid, HasLetter, SameTransfer, Unfiled, Call, After, TwoTransfers;
    var first, second := Filed(db.payments[p], txid), Filed(db.payments[q], Swapped(txid));
    var filedOne := WithPayment(db, p, first);
    BothFiled(db, p, q, txid, Swapped(txid), env);
    BothVerified(WithPayment(filedOne, q, second), p, q, first, second, env);
    FiledAndVerified(db, (p, Proof(txid, false), first), (q, Proof(Swapped(txid), false), second), env);
    run := TwoTransfers((p, Proof(txid, false), first), (q, Proof(Swapped(txid), false), second), env);
  }

  /** Two proofs filed one after the other, and then the two payments as they were checked on the chain. */
  function TwoTransfers(one: (Id, Proof, Payment), other: (Id, Proof, Payment), env: Env): Run {
    [(Prove(one.0, one.1, None), env), (Prove(other.0, other.1, None), env),
     (Verify(one.0, one.2, Found), env), (Verify(other.0, other.2, Found), env)]
  }

  lemma FiledAndVerified(db: Db, one: (Id, Proof, Payment), other: (Id, Proof, Payment), env: Env)
    ensures var filed := Call(Call(db, Prove(one.0, one.1, None), env).0, Prove(other.0, other.1, None), env).0;
      After(db, TwoTransfers(one, other, env))
      == Call(Call(filed, Verify(one.0, one.2, Found), env).0, Verify(other.0, other.2, Found), env).0
  {
    var run := TwoTransfers(one, other, env);
    hide Call, After;
    AfterOne(db, run, 0);
    AfterOne(db, run, 1);
    AfterOne(db, run, 2);
    AfterOne(db, run, 3);
    AfterNone(db, run);
  }

  lemma AfterNone(db: Db, run: Run)
    ensures After(db, run[..0]) == db && run[..|run|] == run
  {
  }

  lemma BothFiled(db: Db, p: Id, q: Id, one: string, other: string, env: Env)
    requires AwaitsTransfer(db, p) && AwaitsTransfer(db, q) && p != q && one != other
    requires IsTxid(one) && IsTxid(other) && Unfiled(db, one) && Unfiled(db, other)
    ensures var filedOne := WithPayment(db, p, Filed(db.payments[p], one));
      && Call(db, Prove(p, Proof(one, false), None), env).0 == filedOne
      && Call(filedOne, Prove(q, Proof(other, false), None), env).0
        == WithPayment(filedOne, q, Filed(db.payments[q], other))
  {
    hide IsTxid, ConfirmPayment;
  }

  lemma BothVerified(db: Db, p: Id, q: Id, first: Payment, second: Payment, env: Env)
    requires p in db.payments && q in db.payments && p != q && db.payments[p] == first && db.payments[q] == second
    requires Checkable(first) && Checkable(second)
    ensures var mid := Call(db, Verify(p, first, Found), env).0;
      var end := Call(mid, Verify(q, second, Found), env).0;
      && p in end.payments && end.payments[p].status == Confirmed && end.payments[p].txid == first.txid
      && q in end.payments && end.payments[q].status == Confirmed && end.payments[q].txid == second.txid
  {
    var mid := Call(db, Verify(p, first, Found), env).0;
    ConfirmTouchesOne(db, p, None, env);
    ConfirmTouchesOne(mid, q, None, env);
    hide ConfirmPayment;
  }
}
