/** Failure results shared by the service models. */
module Results {
  datatype Option<+T> = None | Some(value: T)

  datatype Error =
    | NotFound | Forbidden | Invalid | Insufficient | Expired | NotPaid | AlreadyDelivered | Conflict | GatewayDown

  /** A service call either returns or throws. */
  datatype Reply = Ok | Thrown(error: Error)
}

/**
 Wallets: a balance per account and the ledger rows that explain it. The same
 shape serves the reseller wallets and the storefront customers' wallets.
 */
module Ledger {
  import opened Results

  type Id = string

  datatype TxKind = Topup | Purchase | Refund | Adjust

  /** What a row refers to: the refType and refId columns. */
  datatype Ref =
    | PaymentRef(id: Id) | OrderRef(id: Id) | ClientRef(id: Id) | PlanRef(id: Id) | AdminRef(id: Id) | Unreferenced

  datatype Tx = Tx(account: Id, kind: TxKind, amount: int, balanceAfter: int, ref: Ref)

  datatype Wallets = Wallets(balance: map<Id, int>, rows: seq<Tx>)

  /** Moves a signed amount and writes the row, as one transaction. */
  function Post(w: Wallets, who: Id, amount: int, kind: TxKind, ref: Ref): Wallets
    requires who in w.balance
  {
    var next := w.balance[who] + amount;
    Wallets(w.balance[who := next], w.rows + [Tx(who, kind, amount, next, ref)])
  }

  /** Sum of the rows of one account. */
  function Total(rows: seq<Tx>, who: Id): int {
    if rows == [] then 0
    else
      var last := rows[|rows| - 1];
      Total(rows[..|rows| - 1], who) + if last.account == who then last.amount else 0
  }

  /** Rows that settle the given payment. */
  function Settlements(rows: seq<Tx>, payment: Id): nat {
    if rows == [] then 0
    else Settlements(rows[..|rows| - 1], payment)
         + if rows[|rows| - 1].ref == PaymentRef(payment) then 1 else 0
  }

  /** Every balance is its opening balance plus its rows, and every row shows the running balance. */
  ghost predicate Balanced(w: Wallets, opening: map<Id, int>) {
    && w.balance.Keys == opening.Keys
    && (forall a :: a in w.balance ==> w.balance[a] == opening[a] + Total(w.rows, a))
    && (forall i :: 0 <= i < |w.rows| ==> RowShowsBalance(w.rows, i, opening))
  }

  ghost predicate RowShowsBalance(rows: seq<Tx>, i: int, opening: map<Id, int>)
    requires 0 <= i < |rows|
  {
    var a := rows[i].account;
    a in opening && rows[i].balanceAfter == opening[a] + Total(rows[..i + 1], a)
  }

  ghost predicate NeverNegative(w: Wallets) {
    && (forall a :: a in w.balance ==> w.balance[a] >= 0)
    && (forall i :: 0 <= i < |w.rows| ==> w.rows[i].balanceAfter >= 0)
  }

  lemma TotalAppend(rows: seq<Tx>, t: Tx, who: Id)
    ensures Total(rows + [t], who) == Total(rows, who) + if t.account == who then t.amount else 0
  {
    assert (rows + [t])[..|rows|] == rows;
  }

  lemma SettlementsAppend(rows: seq<Tx>, t: Tx, payment: Id)
    ensures Settlements(rows + [t], payment)
         == Settlements(rows, payment) + if t.ref == PaymentRef(payment) then 1 else 0
  {
    assert (rows + [t])[..|rows|] == rows;
  }

  /** A posted move keeps the books balanced. */
  lemma PostBalances(w: Wallets, who: Id, amount: int, kind: TxKind, ref: Ref, opening: map<Id, int>)
    requires who in w.balance && Balanced(w, opening)
    ensures Balanced(Post(w, who, amount, kind, ref), opening)
    ensures NeverNegative(w) && w.balance[who] + amount >= 0
        ==> NeverNegative(Post(w, who, amount, kind, ref))
  {
    var v := Post(w, who, amount, kind, ref);
    var t := v.rows[|w.rows|];
    forall a | a in v.balance ensures v.balance[a] == opening[a] + Total(v.rows, a) {
      TotalAppend(w.rows, t, a);
    }
    forall i | 0 <= i < |v.rows| ensures RowShowsBalance(v.rows, i, opening) {
      if i < |w.rows| {
        assert RowShowsBalance(w.rows, i, opening);
        assert v.rows[..i + 1] == w.rows[..i + 1];
      } else {
        assert v.rows[..i + 1] == v.rows;
        TotalAppend(w.rows, t, who);
      }
    }
  }

  /** The reseller wallet move of `chargeWallet`; `floor` is the credit limit where one applies. */
  function Charge(w: Wallets, who: Id, owner: bool, amount: int, kind: TxKind, ref: Ref,
                  floor: Option<nat>): (Wallets, Reply)
  {
    if owner && kind == Purchase then (w, Ok)
    else if amount == 0 then (w, Ok)
    else if who !in w.balance then (w, Thrown(NotFound))
    else if amount < 0 && floor.Some? && w.balance[who] + amount + floor.value < 0 then (w, Thrown(Insufficient))
    else (Post(w, who, amount, kind, ref), Ok)
  }

  function Credit(w: Wallets, who: Id, amount: int, kind: TxKind, ref: Ref): (Wallets, Reply) {
    if amount <= 0 then (w, Thrown(Invalid))
    else if who !in w.balance then (w, Thrown(NotFound))
    else (Post(w, who, amount, kind, ref), Ok)
  }

  function Debit(w: Wallets, who: Id, amount: int, kind: TxKind, ref: Ref): (Wallets, Reply) {
    if amount <= 0 then (w, Thrown(Invalid))
    else if who !in w.balance then (w, Thrown(NotFound))
    else if w.balance[who] < amount then (w, Thrown(Insufficient))
    else (Post(w, who, -amount, kind, ref), Ok)
  }
}
