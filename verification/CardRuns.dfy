/** The invoices, the deposit ring and the clock of one seller, over whole runs. */
module CardRuns {
  import opened Results
  import opened Ledger
  import opened CardAmounts
  import opened CardDeposits

  const RING := 40
  const RETRIED := 15
  const TWO_MINUTES := 120000

  datatype Book = Book(invoices: seq<Invoice>, ring: seq<Deposit>, now: int)

  // ---------- the deposit ring ----------

  datatype Fingerprint = ByRef(digits: string) | ByText(amount: int, text: string)

  function FingerprintOf(d: Deposit): Fingerprint {
    if d.ref != "" then ByRef(Digits(d.ref)) else ByText(d.amount, d.text)
  }

  predicate Repeats(prior: Deposit, d: Deposit) {
    FingerprintOf(prior) == FingerprintOf(d)
    || (prior.amount == d.amount && -TWO_MINUTES < prior.at - d.at < TWO_MINUTES)
  }

  predicate IsDuplicate(ring: seq<Deposit>, d: Deposit) {
    exists i :: 0 <= i < |ring| && Repeats(ring[i], d)
  }

  function Front(ring: seq<Deposit>): seq<Deposit> {
    if |ring| > RING then ring[..RING] else ring
  }

  function IngestInto(b: Book, rules: Rules, d: Deposit, c: Confirmation): Book {
    if d.amount <= 0 || IsDuplicate(b.ring, d) then b
    else
      var (invoices, m) := MatchDeposit(b.invoices, rules, b.now, d, c);
      b.(invoices := invoices, ring := Front([d.(status := m.status, payment := m.payment)] + b.ring))
  }

  function IndexOf(ring: seq<Deposit>, id: Id): (i: nat)
    ensures i <= |ring| && (i < |ring| ==> ring[i].id == id)
  {
    if ring == [] || ring[0].id == id then 0 else 1 + IndexOf(ring[1..], id)
  }

  predicate IsOpenDeposit(d: Deposit) {
    d.status == Unmatched || d.status == Ambiguous
  }

  function OpenOnes(ring: seq<Deposit>): seq<Deposit> {
    Filter(IsOpenDeposit, ring)
  }

  function Retried(ring: seq<Deposit>): seq<Deposit> {
    var open := OpenOnes(ring);
    if |open| > RETRIED then open[..RETRIED] else open
  }

  /** The deposits of `todo` are matched again one by one; each result is written over its own entry. */
  function RematchAll(b: Book, rules: Rules, todo: seq<Deposit>, cs: seq<Confirmation>): Book
    requires |cs| == |todo|
  {
    if todo == [] then b
    else
      var mid := RematchAll(b, rules, todo[..|todo| - 1], cs[..|cs| - 1]);
      RematchOne(mid, rules, todo[|todo| - 1], cs[|cs| - 1])
  }

  function RematchOne(b: Book, rules: Rules, d: Deposit, c: Confirmation): Book {
    var (invoices, m) := MatchDeposit(b.invoices, rules, b.now, d, c);
    var i := IndexOf(b.ring, d.id);
    b.(invoices := invoices,
       ring := if i < |b.ring| then b.ring[i := d.(status := m.status, payment := m.payment)] else b.ring)
  }

  lemma RematchNext(b: Book, rules: Rules, todo: seq<Deposit>, cs: seq<Confirmation>, i: nat)
    requires |cs| == |todo| && i < |todo|
    ensures RematchAll(b, rules, todo[..i + 1], cs[..i + 1])
         == RematchOne(RematchAll(b, rules, todo[..i], cs[..i]), rules, todo[i], cs[i])
  {
    assert todo[..i + 1][..i] == todo[..i] && cs[..i + 1][..i] == cs[..i];
  }

  // ---------- steps and runs ----------

  /** The seller's card payments: orders placed with their own amounts, and top-ups at the amount asked for. */
  datatype Step =
    | Tick(later: int)
    | Place(id: Id, price: int, taken: seq<int>)
    | TopUp(id: Id, amount: int)
    | File(id: Id, ref: string, last4: string)
    | SettleOther(id: Id)
    | Reject(id: Id)
    | Lapse(id: Id)
    | Receive(d: Deposit, c: Confirmation)
    | Rematch(cs: seq<Confirmation>)

  function WithState(invoices: seq<Invoice>, id: Id, from: set<State>, to: State): (r: seq<Invoice>)
    ensures |r| == |invoices|
    ensures forall i :: 0 <= i < |r| ==>
      (r[i] == if invoices[i].id == id && invoices[i].state in from then invoices[i].(state := to) else invoices[i])
  {
    seq(|invoices|, i requires 0 <= i < |invoices| =>
      if invoices[i].id == id && invoices[i].state in from then invoices[i].(state := to) else invoices[i])
  }

  /** A filed receipt puts an open or rejected payment under review; what is left empty keeps its value. */
  function Filed(inv: Invoice, ref: string, last4: string): Invoice {
    inv.(state := Open,
         receiptRef := if ref != "" then ref else inv.receiptRef,
         last4 := if last4 != "" then last4 else inv.last4)
  }

  predicate TakesProof(inv: Invoice, id: Id) {
    inv.id == id && inv.state in {Open, Rejected}
  }

  function WithProof(invoices: seq<Invoice>, id: Id, ref: string, last4: string): (r: seq<Invoice>)
    ensures |r| == |invoices|
    ensures forall i :: 0 <= i < |r| ==>
      (r[i] == if TakesProof(invoices[i], id) then Filed(invoices[i], ref, last4) else invoices[i])
  {
    seq(|invoices|, i requires 0 <= i < |invoices| =>
      if TakesProof(invoices[i], id) then Filed(invoices[i], ref, last4) else invoices[i])
  }

  function LiveRows(b: Book, rules: Rules): seq<Invoice> {
    LiveNewestFirst(b.invoices, WindowStart(rules, b.now))
  }

  function LiveAmounts(b: Book, rules: Rules): seq<int> {
    Amounts(LiveRows(b, rules))
  }

  predicate NewId(b: Book, id: Id) {
    forall i :: 0 <= i < |b.invoices| ==> b.invoices[i].id != id
  }

  /** The search sees the amounts of the live invoices in some order, 500 of them when there are more. */
  ghost predicate Queried(b: Book, rules: Rules, taken: seq<int>) {
    && (forall x :: x in taken ==> x in LiveAmounts(b, rules))
    && (|LiveRows(b, rules)| <= 500 ==> forall x :: x in LiveAmounts(b, rules) ==> x in taken)
  }

  /** Ids are new, and an invoice is of some amount. */
  ghost predicate Possible(b: Book, rules: Rules, s: Step) {
    match s
    case Tick(later) => b.now <= later
    case Place(id, price, taken) => NewId(b, id) && price > 0 && Queried(b, rules, taken)
    case TopUp(id, amount) => NewId(b, id) && amount > 0
    case Receive(d, _) =>
      d.status == Unmatched && d.payment == None && (forall i :: 0 <= i < |b.ring| ==> b.ring[i].id != d.id)
    case Rematch(cs) => |cs| == |Retried(b.ring)|
    case _ => true
  }

  /** The amount a card order is placed with: a found one, when it is above the price. */
  function PlacedAmount(rules: Rules, price: int, taken: seq<int>): int {
    var unique := CardAmount(price, rules.unique, rules.tolerance, taken);
    if unique > price then unique else price
  }

  function NewInvoice(id: Id, amount: int, now: int): Invoice {
    Invoice(id, amount, now, Open, "", "")
  }

  function Do(b: Book, rules: Rules, s: Step): Book
    requires Possible(b, rules, s)
  {
    match s
    case Tick(later) => b.(now := later)
    case Place(id, price, taken) =>
      b.(invoices := b.invoices + [NewInvoice(id, PlacedAmount(rules, price, taken), b.now)])
    case TopUp(id, amount) => b.(invoices := b.invoices + [NewInvoice(id, amount, b.now)])
    case File(id, ref, last4) => b.(invoices := WithProof(b.invoices, id, ref, last4))
    case SettleOther(id) => b.(invoices := WithState(b.invoices, id, {Open, Rejected, Lapsed}, Settled))
    case Reject(id) => b.(invoices := WithState(b.invoices, id, {Open, Lapsed}, Rejected))
    case Lapse(id) => b.(invoices := WithState(b.invoices, id, {Open}, Lapsed))
    case Receive(d, c) => IngestInto(b, rules, d, c)
    case Rematch(cs) => RematchAll(b, rules, Retried(b.ring), cs)
  }

  ghost function After(b: Book, rules: Rules, run: seq<Step>): Book {
    if run == [] then b
    else
      var mid := After(b, rules, run[..|run| - 1]);
      var s := run[|run| - 1];
      if Possible(mid, rules, s) then Do(mid, rules, s) else mid
  }

  // ---------- the entries of the ring ----------

  ghost predicate MatchedEntry(b: Book, d: Deposit) {
    d.status == Matched ==> d.payment.Some? && IsSettled(b, d.payment.value)
  }

  ghost predicate IsSettled(b: Book, id: Id) {
    exists k :: 0 <= k < |b.invoices| && b.invoices[k].id == id && b.invoices[k].state == Settled
  }

  ghost predicate RingGood(b: Book) {
    && |b.ring| <= RING && DistinctIds(b.invoices)
    && (forall i :: 0 <= i < |b.ring| ==> MatchedEntry(b, b.ring[i]))
    && (forall i, j :: 0 <= i < j < |b.ring| ==> Independent(b.ring[i], b.ring[j]))
  }

  /** Two entries are different deposits and never settled the same payment. */
  ghost predicate Independent(x: Deposit, y: Deposit) {
    && x.id != y.id && FingerprintOf(x) != FingerprintOf(y)
    && (x.status == Matched && y.status == Matched ==> x.payment != y.payment)
  }

  /** How invoices may change: ids and amounts stay, settled ones stay settled. */
  ghost predicate Onward(before: seq<Invoice>, after: seq<Invoice>) {
    && |before| <= |after|
    && forall i :: 0 <= i < |before| ==>
      && after[i].id == before[i].id
      && (before[i].state == Settled ==> after[i].state == Settled)
  }

  lemma EntriesStay(b: Book, after: Book)
    requires RingGood(b) && Onward(b.invoices, after.invoices) && after.ring == b.ring && DistinctIds(after.invoices)
    ensures RingGood(after)
  {
    forall i | 0 <= i < |after.ring| ensures MatchedEntry(after, after.ring[i]) {
      assert MatchedEntry(b, b.ring[i]);
      if b.ring[i].status == Matched {
        var k :| 0 <= k < |b.invoices| && b.invoices[k].id == b.ring[i].payment.value && b.invoices[k].state == Settled;
        assert after.invoices[k].id == b.ring[i].payment.value;
      }
    }
  }

  /** A new match settles an invoice no earlier entry had settled. */
  lemma MatchIsNew(b: Book, rules: Rules, d: Deposit, c: Confirmation, i: nat)
    requires RingGood(b) && i < |b.ring| && b.ring[i].status == Matched
    requires MatchDeposit(b.invoices, rules, b.now, d, c).1.status == Matched
    ensures MatchDeposit(b.invoices, rules, b.now, d, c).1.payment != b.ring[i].payment
  {
    var k := MatchedIsLive(b.invoices, rules, b.now, d, c);
    assert MatchedEntry(b, b.ring[i]);
    var m :| 0 <= m < |b.invoices| && b.invoices[m].id == b.ring[i].payment.value && b.invoices[m].state == Settled;
    assert k != m;
  }

  lemma MatchOnward(b: Book, rules: Rules, d: Deposit, c: Confirmation)
    requires DistinctIds(b.invoices)
    ensures var (invoices, m) := MatchDeposit(b.invoices, rules, b.now, d, c);
      && Onward(b.invoices, invoices) && DistinctIds(invoices) && |invoices| == |b.invoices|
      && MatchedEntry(b.(invoices := invoices), d.(status := m.status, payment := m.payment))
  {
    var (invoices, m) := MatchDeposit(b.invoices, rules, b.now, d, c);
    if m.status == Matched {
      var k := MatchedIsLive(b.invoices, rules, b.now, d, c);
      assert invoices[k].id == m.payment.value && invoices[k].state == Settled;
    }
  }

  lemma IngestKeeps(b: Book, rules: Rules, d: Deposit, c: Confirmation)
    requires RingGood(b) && Possible(b, rules, Receive(d, c))
    ensures RingGood(IngestInto(b, rules, d, c))
  {
    if d.amount > 0 && !IsDuplicate(b.ring, d) {
      var (invoices, m) := MatchDeposit(b.invoices, rules, b.now, d, c);
      var entry := d.(status := m.status, payment := m.payment);
      var mid := b.(invoices := invoices);
      MatchOnward(b, rules, d, c);
      EntriesStay(b, mid);
      forall i | 0 <= i < |b.ring| ensures Independent(entry, b.ring[i]) {
        assert !Repeats(b.ring[i], d);
        if entry.status == Matched && b.ring[i].status == Matched {
          MatchIsNew(b, rules, d, c, i);
        }
      }
      hide MatchDeposit;
      Prepended(mid, entry);
    }
  }

  lemma Prepended(b: Book, entry: Deposit)
    requires RingGood(b) && MatchedEntry(b, entry)
    requires forall i :: 0 <= i < |b.ring| ==> Independent(entry, b.ring[i])
    ensures RingGood(b.(ring := Front([entry] + b.ring)))
  {
    var after := b.(ring := Front([entry] + b.ring));
    forall i | 0 <= i < |after.ring| ensures MatchedEntry(after, after.ring[i]) {
      assert i > 0 ==> after.ring[i] == b.ring[i - 1] && MatchedEntry(b, b.ring[i - 1]);
      assert MatchedEntry(b, after.ring[i]);
    }
    forall i, j | 0 <= i < j < |after.ring| ensures Independent(after.ring[i], after.ring[j]) {
      assert after.ring[j] == b.ring[j - 1];
      assert i > 0 ==> Independent(b.ring[i - 1], b.ring[j - 1]);
    }
  }

  lemma {:induction false} IndexOfId(ring: seq<Deposit>, i: nat)
    requires i < |ring| && forall j :: 0 <= j < i ==> ring[j].id != ring[i].id
    ensures IndexOf(ring, ring[i].id) == i
  {
    if i > 0 {
      assert ring[0].id != ring[i].id;
      IndexOfId(ring[1..], i - 1);
    }
  }

  /** The entry to be rewritten is the unmatched deposit the retry started from. */
  ghost predicate Pending(b: Book, d: Deposit) {
    exists i :: 0 <= i < |b.ring| && b.ring[i].id == d.id && b.ring[i].status != Matched
      && FingerprintOf(b.ring[i]) == FingerprintOf(d)
  }

  lemma RematchOneKeeps(b: Book, rules: Rules, d: Deposit, c: Confirmation)
    requires RingGood(b) && Pending(b, d)
    ensures RingGood(RematchOne(b, rules, d, c))
    ensures forall x: Deposit :: x.id != d.id && Pending(b, x) ==> Pending(RematchOne(b, rules, d, c), x)
  {
    var (invoices, m) := MatchDeposit(b.invoices, rules, b.now, d, c);
    var entry := d.(status := m.status, payment := m.payment);
    var mid := b.(invoices := invoices);
    MatchOnward(b, rules, d, c);
    EntriesStay(b, mid);
    var i :| 0 <= i < |b.ring| && b.ring[i].id == d.id && b.ring[i].status != Matched
      && FingerprintOf(b.ring[i]) == FingerprintOf(d);
    forall j | 0 <= j < i ensures b.ring[j].id != b.ring[i].id {
      assert Independent(b.ring[j], b.ring[i]);
    }
    IndexOfId(b.ring, i);
    forall j | 0 <= j < |b.ring| && j != i ensures Independent(entry, b.ring[j]) {
      assert Independent(b.ring[if i < j then i else j], b.ring[if i < j then j else i]);
      if entry.status == Matched && b.ring[j].status == Matched {
        MatchIsNew(b, rules, d, c, j);
      }
    }
    hide MatchDeposit;
    Rewritten(mid, i, entry);
    var after := RematchOne(b, rules, d, c);
    forall x: Deposit | x.id != d.id && Pending(b, x) ensures Pending(after, x) {
      var k :| 0 <= k < |b.ring| && b.ring[k].id == x.id && b.ring[k].status != Matched
        && FingerprintOf(b.ring[k]) == FingerprintOf(x);
      assert after.ring[k] == b.ring[k];
    }
  }

  lemma Rewritten(b: Book, i: nat, entry: Deposit)
    requires RingGood(b) && i < |b.ring| && MatchedEntry(b, entry)
    requires forall j :: 0 <= j < |b.ring| && j != i ==> Independent(entry, b.ring[j])
    ensures RingGood(b.(ring := b.ring[i := entry]))
  {
    var after := b.(ring := b.ring[i := entry]);
    forall k | 0 <= k < |after.ring| ensures MatchedEntry(after, after.ring[k]) {
      assert MatchedEntry(b, after.ring[k]);
    }
    forall j, k | 0 <= j < k < |after.ring| ensures Independent(after.ring[j], after.ring[k]) {
      if j == i {
        assert Independent(entry, b.ring[k]);
      } else if k == i {
        assert Independent(entry, b.ring[j]);
      } else {
        assert Independent(b.ring[j], b.ring[k]);
      }
    }
  }

  /** The retried deposits have different ids and are all unmatched entries of the ring. */
  ghost predicate Todo(b: Book, todo: seq<Deposit>) {
    && (forall i :: 0 <= i < |todo| ==> Pending(b, todo[i]))
    && (forall i, j :: 0 <= i < j < |todo| ==> todo[i].id != todo[j].id)
  }

  lemma {:induction false} RematchAllKeeps(b: Book, rules: Rules, todo: seq<Deposit>, cs: seq<Confirmation>)
    requires |cs| == |todo| && RingGood(b) && Todo(b, todo)
    ensures RingGood(RematchAll(b, rules, todo, cs))
    ensures forall x: Deposit ::
      (Pending(b, x) && (forall i :: 0 <= i < |todo| ==> todo[i].id != x.id)
       ==> Pending(RematchAll(b, rules, todo, cs), x))
  {
    if todo != [] {
      var rest, d := todo[..|todo| - 1], todo[|todo| - 1];
      var mid := RematchAll(b, rules, rest, cs[..|cs| - 1]);
      assert RematchAll(b, rules, todo, cs) == RematchOne(mid, rules, d, cs[|cs| - 1]);
      hide RematchAll, RematchOne, RingGood, Pending;
      assert forall i :: 0 <= i < |rest| ==> rest[i] == todo[i];
      RematchAllKeeps(b, rules, rest, cs[..|cs| - 1]);
      assert Pending(b, d) && forall i :: 0 <= i < |rest| ==> rest[i].id != d.id;
      RematchOneKeeps(mid, rules, d, cs[|cs| - 1]);
      forall x: Deposit | Pending(b, x) && (forall i :: 0 <= i < |todo| ==> todo[i].id != x.id)
        ensures Pending(RematchOne(mid, rules, d, cs[|cs| - 1]), x)
      {
        assert todo[|todo| - 1].id != x.id;
        assert Pending(mid, x);
      }
    }
  }

  lemma OpenOnesUnfold(ring: seq<Deposit>)
    requires ring != []
    ensures OpenOnes(ring) == (if IsOpenDeposit(ring[0]) then [ring[0]] else []) + OpenOnes(ring[1..])
    ensures forall x :: x in OpenOnes(ring[1..]) ==> x in ring[1..]
  {
  }

  ghost predicate IdsDiffer(ring: seq<Deposit>) {
    forall i, j :: 0 <= i < j < |ring| ==> ring[i].id != ring[j].id
  }

  lemma HeadIdIsNew(ring: seq<Deposit>)
    requires ring != [] && IdsDiffer(ring)
    ensures IdsDiffer(ring[1..]) && forall x :: x in ring[1..] ==> x.id != ring[0].id
  {
  }

  lemma PrependKeepsIds(first: Deposit, rest: seq<Deposit>)
    requires IdsDiffer(rest) && forall x :: x in rest ==> x.id != first.id
    ensures IdsDiffer([first] + rest)
  {
  }

  lemma {:induction false} OpenOnesDistinct(ring: seq<Deposit>)
    requires IdsDiffer(ring)
    ensures IdsDiffer(OpenOnes(ring))
  {
    if ring != [] {
      HeadIdIsNew(ring);
      OpenOnesUnfold(ring);
      OpenOnesDistinct(ring[1..]);
      hide IdsDiffer, OpenOnes, Filter;
      var rest := OpenOnes(ring[1..]);
      if IsOpenDeposit(ring[0]) {
        PrependKeepsIds(ring[0], rest);
      } else {
        assert [] + rest == rest;
      }
    }
  }

  lemma RetriedIsTodo(b: Book)
    requires RingGood(b)
    ensures Todo(b, Retried(b.ring))
  {
    forall i, j | 0 <= i < j < |b.ring| ensures b.ring[i].id != b.ring[j].id {
      assert Independent(b.ring[i], b.ring[j]);
    }
    OpenOnesDistinct(b.ring);
    var todo := Retried(b.ring);
    forall i | 0 <= i < |todo| ensures Pending(b, todo[i]) {
      assert todo[i] in OpenOnes(b.ring);
      var k :| 0 <= k < |b.ring| && b.ring[k] == todo[i];
    }
  }

  lemma StepKeepsRing(b: Book, rules: Rules, s: Step)
    requires RingGood(b) && Possible(b, rules, s)
    ensures RingGood(Do(b, rules, s))
  {
    match s
    case Receive(d, c) => IngestKeeps(b, rules, d, c);
    case Rematch(cs) =>
      RetriedIsTodo(b);
      RematchAllKeeps(b, rules, Retried(b.ring), cs);
    case _ => EntriesStay(b, Do(b, rules, s));
  }

  /**
   Over any run the ring holds at most 40 different deposits, every matched one
   settled an invoice that is settled still, and no two settled the same invoice.
   */
  lemma {:induction false} RunKeepsRing(b: Book, rules: Rules, run: seq<Step>)
    requires RingGood(b)
    ensures RingGood(After(b, rules, run))
  {
    if run != [] {
      var mid := After(b, rules, run[..|run| - 1]);
      RunKeepsRing(b, rules, run[..|run| - 1]);
      var s := run[|run| - 1];
      if Possible(mid, rules, s) {
        hide RingGood;
        StepKeepsRing(mid, rules, s);
      }
    }
  }

  // ---------- open invoices stay apart ----------

  ghost predicate Apart(b: Book, rules: Rules) {
    Separated(b.invoices, WindowStart(rules, b.now), rules.tolerance)
  }

  /** No live invoice is within the tolerance of the amount. */
  predicate Clear(b: Book, rules: Rules, amount: int) {
    !Blocked(LiveAmounts(b, rules), amount, rules.tolerance)
  }

  /** A rejected invoice of this id, young enough to be live once it is filed again. */
  predicate ComesBack(b: Book, rules: Rules, i: Invoice, id: Id) {
    i.id == id && i.state == Rejected && i.createdAt >= WindowStart(rules, b.now)
  }

  /** The first candidate the query leaves free is free of every live amount. */
  ghost predicate FirstFreeIsClear(price: int, tol: nat, taken: seq<int>, live: seq<int>) {
    exists k :: 0 <= k < Slots(tol) && !Blocked(live, Slot(price, tol, k), tol)
      && forall j :: 0 <= j < k ==> Blocked(taken, Slot(price, tol, j), tol)
  }

  /**
   What can be known before a step. An order with its own amount needs a free slot, where the search sees
   every live invoice, and where it does not, that the first one it sees is free indeed; any other new
   invoice, and a rejected one that is filed again, a clear amount.
   */
  ghost predicate Orderly(b: Book, rules: Rules, s: Step) {
    match s
    case Place(_, price, taken) =>
      if !rules.unique then Clear(b, rules, price)
      else if |LiveRows(b, rules)| <= 500 then SomeSlotFree(price, rules.tolerance, LiveAmounts(b, rules))
      else FirstFreeIsClear(price, rules.tolerance, taken, LiveAmounts(b, rules))
    case TopUp(_, amount) => Clear(b, rules, amount)
    case File(id, _, _) =>
      forall k :: 0 <= k < |b.invoices| && ComesBack(b, rules, b.invoices[k], id)
        ==> Clear(b, rules, b.invoices[k].amount)
    case _ => true
  }

  /** Invoices keep their place, amount and time; none becomes open. */
  ghost predicate OnlyCloses(before: seq<Invoice>, after: seq<Invoice>) {
    && |after| == |before|
    && forall i :: 0 <= i < |after| ==>
      && after[i].id == before[i].id && after[i].amount == before[i].amount && after[i].createdAt == before[i].createdAt
      && (after[i].state == Open ==> before[i].state == Open)
  }

  lemma MatchOnlyCloses(invoices: seq<Invoice>, rules: Rules, now: int, d: Deposit, c: Confirmation)
    ensures OnlyCloses(invoices, MatchDeposit(invoices, rules, now, d, c).0)
  {
  }

  lemma {:induction false} RematchOnlyCloses(b: Book, rules: Rules, todo: seq<Deposit>, cs: seq<Confirmation>)
    requires |cs| == |todo|
    ensures OnlyCloses(b.invoices, RematchAll(b, rules, todo, cs).invoices)
      && RematchAll(b, rules, todo, cs).now == b.now
  {
    if todo != [] {
      hide MatchDeposit;
      var mid := RematchAll(b, rules, todo[..|todo| - 1], cs[..|cs| - 1]);
      RematchOnlyCloses(b, rules, todo[..|todo| - 1], cs[..|cs| - 1]);
      MatchOnlyCloses(mid.invoices, rules, mid.now, todo[|todo| - 1], cs[|cs| - 1]);
    }
  }

  /** The placed amount is clear exactly when the first candidate the query leaves free is. */
  lemma PlacedClearIff(b: Book, rules: Rules, price: int, taken: seq<int>)
    requires price > 0 && rules.unique && Queried(b, rules, taken)
    ensures Clear(b, rules, PlacedAmount(rules, price, taken))
       <==> FirstFreeIsClear(price, rules.tolerance, taken, LiveAmounts(b, rules))
  {
    var tol, live := rules.tolerance, LiveAmounts(b, rules);
    forall x | Blocked(taken, x, tol) ensures Blocked(live, x, tol) {
      MoreBlocks(taken, live, x, tol);
    }
    FirstFreeClearIff(price, tol, taken, live);
    hide LiveAmounts, Blocked, FirstFreeIsClear, CardAmount;
  }

  lemma MoreBlocks(a: seq<int>, b: seq<int>, candidate: int, tol: nat)
    requires Blocked(a, candidate, tol) && forall x :: x in a ==> x in b
    ensures Blocked(b, candidate, tol)
  {
    var i :| 0 <= i < |a| && -(tol as int) <= a[i] - candidate <= tol;
    assert a[i] in b;
  }

  lemma FirstFreeClearIff(price: int, tol: nat, taken: seq<int>, live: seq<int>)
    requires price > 0 && forall x :: Blocked(taken, x, tol) ==> Blocked(live, x, tol)
    ensures CardAmount(price, true, tol, taken) >= price
    ensures !Blocked(live, CardAmount(price, true, tol, taken), tol) <==> FirstFreeIsClear(price, tol, taken, live)
  {
    hide Blocked;
    var amount := CardAmount(price, true, tol, taken);
    assert Slot(price, tol, 0) == price;
    SlotInRange(0, tol);
    if SomeSlotFree(price, tol, taken) {
      AmountIsFirstFree(price, tol, taken);
      var m :| 0 <= m < Slots(tol) && amount == Slot(price, tol, m) && !Blocked(taken, amount, tol)
        && forall j :: 0 <= j < m ==> Blocked(taken, Slot(price, tol, j), tol);
      SlotInRange(m, tol);
      if FirstFreeIsClear(price, tol, taken, live) {
        var k :| 0 <= k < Slots(tol) && !Blocked(live, Slot(price, tol, k), tol)
          && forall j :: 0 <= j < k ==> Blocked(taken, Slot(price, tol, j), tol);
        assert k == m;
      }
    } else {
      assert Blocked(taken, Slot(price, tol, 0), tol);
    }
  }

  /** A query that sees every live invoice has such a candidate exactly when some slot is free. */
  lemma WholeQuery(b: Book, rules: Rules, price: int, taken: seq<int>)
    requires price > 0 && Queried(b, rules, taken) && |LiveRows(b, rules)| <= 500
    ensures FirstFreeIsClear(price, rules.tolerance, taken, LiveAmounts(b, rules))
       <==> SomeSlotFree(price, rules.tolerance, LiveAmounts(b, rules))
  {
    var tol, live := rules.tolerance, LiveAmounts(b, rules);
    forall x | Blocked(live, x, tol) ensures Blocked(taken, x, tol) {
      MoreBlocks(live, taken, x, tol);
    }
    hide LiveAmounts, Blocked;
    if SomeSlotFree(price, tol, live) {
      AmountIsFirstFree(price, tol, live);
      hide CardAmount;
    }
  }

  lemma AppendApartIff(b: Book, rules: Rules, id: Id, amount: int)
    requires Apart(b, rules)
    ensures Apart(b.(invoices := b.invoices + [NewInvoice(id, amount, b.now)]), rules) <==> Clear(b, rules, amount)
  {
    AppendIff(b.invoices, NewInvoice(id, amount, b.now), WindowStart(rules, b.now), rules.tolerance);
  }

  lemma FileApartIff(b: Book, rules: Rules, s: Step)
    requires s.File? && DistinctIds(b.invoices) && Apart(b, rules)
    ensures Apart(b.(invoices := WithProof(b.invoices, s.id, s.ref, s.last4)), rules) <==> Orderly(b, rules, s)
  {
    var since := WindowStart(rules, b.now);
    var after := WithProof(b.invoices, s.id, s.ref, s.last4);
    if k :| 0 <= k < |b.invoices| && ComesBack(b, rules, b.invoices[k], s.id) {
      var reopened := b.invoices[k := b.invoices[k].(state := Open)];
      ReopenIff(b.invoices, k, since, rules.tolerance);
      SameShape(reopened, after, since, rules.tolerance);
      assert forall j :: 0 <= j < |b.invoices| && b.invoices[j].id == s.id ==> j == k;
    } else {
      ShrinkKeepsApart(b.invoices, after, since, since, rules.tolerance);
    }
  }

  lemma SameShape(a: seq<Invoice>, b: seq<Invoice>, since: int, tol: nat)
    requires |a| == |b|
    requires forall i :: 0 <= i < |a| ==> a[i].amount == b[i].amount && Live(a[i], since) == Live(b[i], since)
    ensures Separated(a, since, tol) <==> Separated(b, since, tol)
  {
    if Separated(a, since, tol) {
      ShrinkKeepsApart(a, b, since, since, tol);
    }
    if Separated(b, since, tol) {
      ShrinkKeepsApart(b, a, since, since, tol);
    }
  }

  /** From separated live invoices a step leads to separated ones exactly when it is orderly. */
  lemma StepApartIff(b: Book, rules: Rules, s: Step)
    requires Possible(b, rules, s) && DistinctIds(b.invoices) && Apart(b, rules)
    ensures Apart(Do(b, rules, s), rules) <==> Orderly(b, rules, s)
  {
    match s
    case Place(id, price, taken) =>
      hide Apart, Clear;
      AppendApartIff(b, rules, id, PlacedAmount(rules, price, taken));
      if rules.unique {
        PlacedClearIff(b, rules, price, taken);
        hide FirstFreeIsClear, SomeSlotFree;
        if |LiveRows(b, rules)| <= 500 {
          WholeQuery(b, rules, price, taken);
        }
      }
    case TopUp(id, amount) => AppendApartIff(b, rules, id, amount);
    case File(_, _, _) => FileApartIff(b, rules, s);
    case _ => OthersKeepApart(b, rules, s);
  }

  lemma OthersKeepApart(b: Book, rules: Rules, s: Step)
    requires Possible(b, rules, s) && Apart(b, rules) && !s.Place? && !s.TopUp? && !s.File?
    ensures Apart(Do(b, rules, s), rules)
  {
    var after := Do(b, rules, s);
    if s.Receive? {
      MatchOnlyCloses(b.invoices, rules, b.now, s.d, s.c);
    } else if s.Rematch? {
      RematchOnlyCloses(b, rules, Retried(b.ring), s.cs);
    }
    assert OnlyCloses(b.invoices, after.invoices);
    hide MatchDeposit, Do;
    ShrinkKeepsApart(b.invoices, after.invoices, WindowStart(rules, b.now), WindowStart(rules, after.now),
      rules.tolerance);
  }

  /** While slots outnumber what the live invoices can block, an order with its own amount is orderly. */
  lemma FewIsOrderly(b: Book, rules: Rules, s: Step)
    requires s.Place? && rules.unique && |LiveRows(b, rules)| <= 500
    requires Reach(rules.tolerance) * |LiveRows(b, rules)| < Slots(rules.tolerance)
    ensures Orderly(b, rules, s)
  {
    assert |LiveAmounts(b, rules)| == |LiveRows(b, rules)|;
    SearchSucceeds(s.price, rules.tolerance, LiveAmounts(b, rules));
  }

  ghost predicate AllOrderly(b: Book, rules: Rules, run: seq<Step>) {
    run == [] || (
      && AllOrderly(b, rules, run[..|run| - 1])
      && var mid := After(b, rules, run[..|run| - 1]);
         (Possible(mid, rules, run[|run| - 1]) ==> Orderly(mid, rules, run[|run| - 1])))
  }

  /** The live invoices are apart after every step. */
  ghost predicate AlwaysApart(b: Book, rules: Rules, run: seq<Step>) {
    Apart(After(b, rules, run), rules) && (run == [] || AlwaysApart(b, rules, run[..|run| - 1]))
  }

  /** Along any run the live invoices stay apart if and only if every step is orderly. */
  lemma {:induction false} RunApartIff(b: Book, rules: Rules, run: seq<Step>)
    requires RingGood(b) && Apart(b, rules)
    ensures AlwaysApart(b, rules, run) <==> AllOrderly(b, rules, run)
  {
    if run != [] {
      var mid := After(b, rules, run[..|run| - 1]);
      RunApartIff(b, rules, run[..|run| - 1]);
      RunKeepsRing(b, rules, run[..|run| - 1]);
      var s := run[|run| - 1];
      if AlwaysApart(b, rules, run[..|run| - 1]) {
        assert Apart(mid, rules) && DistinctIds(mid.invoices);
        hide Apart, Orderly, Do, Possible, RingGood;
        if Possible(mid, rules, s) {
          StepApartIff(mid, rules, s);
        }
      }
    }
  }

  /**
   At the end of any orderly run, a deposit of exactly a live invoice's amount and without a reference
   settles that invoice, and no other, exactly when the ring holds nothing it repeats and the invoice is
   among the newest 200 live ones.
   */
  lemma ExactDepositAfterRun(b: Book, rules: Rules, run: seq<Step>, d: Deposit, k: nat)
    requires RingGood(b) && Apart(b, rules) && AllOrderly(b, rules, run) && rules.autoConfirm && d.ref == ""
    requires var end := After(b, rules, run);
      k < |end.invoices| && Live(end.invoices[k], WindowStart(rules, end.now)) && d.amount == end.invoices[k].amount > 0
    ensures var end := After(b, rules, run);
      var next := IngestInto(end, rules, d, Fine);
      var entry := d.(status := Matched, payment := Some(end.invoices[k].id));
      (next.invoices == end.invoices[k := end.invoices[k].(state := Settled)] && next.ring == Front([entry] + end.ring))
        <==> !IsDuplicate(end.ring, d) && end.invoices[k] in Seen(end.invoices, rules, end.now)
  {
    RunApartIff(b, rules, run);
    assert AlwaysApart(b, rules, run);
    RunKeepsRing(b, rules, run);
    var end := After(b, rules, run);
    assert Apart(end, rules) && DistinctIds(end.invoices);
    if IsDuplicate(end.ring, d) {
      assert end.invoices[k := end.invoices[k].(state := Settled)][k] != end.invoices[k];
    } else {
      hide RingGood, After, AllOrderly, AlwaysApart, MatchDeposit, Seen, IsDuplicate;
      ExactDepositIff(end.invoices, rules, end.now, d, k);
      IngestedAs(end, rules, d, k);
    }
  }

  /** A new deposit is entered as it was matched. */
  lemma IngestedAs(b: Book, rules: Rules, d: Deposit, k: nat)
    requires d.amount > 0 && !IsDuplicate(b.ring, d) && k < |b.invoices|
    ensures var entry := d.(status := Matched, payment := Some(b.invoices[k].id));
      var next := IngestInto(b, rules, d, Fine);
      (next.invoices == b.invoices[k := b.invoices[k].(state := Settled)] && next.ring == Front([entry] + b.ring))
        <==> MatchDeposit(b.invoices, rules, b.now, d, Fine)
               == (b.invoices[k := b.invoices[k].(state := Settled)], Match(Matched, Some(b.invoices[k].id)))
  {
    var (invoices, m) := MatchDeposit(b.invoices, rules, b.now, d, Fine);
    var entry := d.(status := m.status, payment := m.payment);
    var whole := [entry] + b.ring;
    assert Front(whole)[0] == entry;
    hide MatchDeposit, IsDuplicate;
  }

  /** Two open invoices of one amount, made at time 0. */
  function Twins(price: int): seq<Invoice> {
    [NewInvoice("order", price, 0), NewInvoice("topup", price, 0)]
  }

  /** An order of the price in an empty table, and a top-up of the same amount after it. */
  function OrderThenTopUp(price: int): seq<Step> {
    [Place("order", price, []), TopUp("topup", price)]
  }

  lemma EmptyBook(rules: Rules, now: int)
    ensures LiveRows(Book([], [], now), rules) == []
  {
  }

  lemma TwinsPlaced(rules: Rules, price: int)
    requires price > 0
    ensures var b, placed := Book([], [], 0), Book([NewInvoice("order", price, 0)], [], 0);
      && After(b, rules, OrderThenTopUp(price)[..1]) == placed
      && After(b, rules, OrderThenTopUp(price)) == Book(Twins(price), [], 0)
      && Possible(placed, rules, TopUp("topup", price))
  {
    var run, b := OrderThenTopUp(price), Book([], [], 0);
    EmptyBook(rules, 0);
    assert run[..1] == [run[0]] && run[..1][..0] == [] && run[..2] == run;
    assert [NewInvoice("order", price, 0)] + [NewInvoice("topup", price, 0)] == Twins(price);
    hide LiveRows;
    assert Possible(b, rules, run[0]);
  }

  /** A card order and a top-up of its price: neither is settled by a deposit of exactly that amount. */
  lemma TopUpCollides(rules: Rules, price: int, d: Deposit)
    requires price > 0 && d.amount == price && d.ref == "" && d.last4 == ""
    ensures var b := Book([], [], 0);
      var end := After(b, rules, OrderThenTopUp(price));
      && |end.invoices| == 2 && end.invoices[0].amount == end.invoices[1].amount == price
      && MatchDeposit(end.invoices, rules, end.now, d, Fine) == (end.invoices, Match(Ambiguous, None))
      && !AllOrderly(b, rules, OrderThenTopUp(price))
  {
    var order, topup := Twins(price)[0], Twins(price)[1];
    var placed, since := Book([order], [], 0), WindowStart(rules, 0);
    TwinsPlaced(rules, price);
    LiveTwo(order, topup, since);
    BothNear(order, topup, rules, d);
    LiveOne(order, since);
    assert LiveAmounts(placed, rules)[0] == price;
    assert !Clear(placed, rules, price);
    hide After, LiveNewestFirst, Candidates, Possible;
  }

  // ---------- the service ----------

  class CardDesk {
    var invoices: seq<Invoice>
    var ring: seq<Deposit>

    ghost function BookAt(now: int): Book
      reads this
    {
      Book(invoices, ring, now)
    }

    constructor ()
      ensures invoices == [] && ring == []
      ensures forall now :: RingGood(BookAt(now))
    {
      invoices, ring := [], [];
    }

    method Match(rules: Rules, now: int, d: Deposit, c: Confirmation) returns (m: CardDeposits.Match)
      modifies this`invoices
      ensures (invoices, m) == MatchDeposit(old(invoices), rules, now, d, c)
    {
      if d.amount <= 0 {
        return CardDeposits.Match(Ignored, None);
      }
      var rows := LiveNewestFirst(invoices, WindowStart(rules, now));
      if |rows| > NEWEST {
        rows := rows[..NEWEST];
      }
      assert rows == Seen(invoices, rules, now);
      var cands := Filter((inv: Invoice) => Within(inv, d.amount, rules.tolerance), rows);
      if d.ref != "" {
        var byRef := Filter((inv: Invoice) => SameRef(inv, d.ref), rows);
        if |byRef| == 1 {
          cands := byRef;
        }
      }
      if rules.requireLast4 && d.last4 != "" && |cands| > 1 {
        cands := Filter((inv: Invoice) => inv.last4 == d.last4, cands);
      }
      if |cands| == 0 {
        return CardDeposits.Match(Unmatched, None);
      }
      if |cands| > 1 {
        return CardDeposits.Match(Ambiguous, None);
      }
      var target := cands[0];
      if !rules.autoConfirm {
        return CardDeposits.Match(Unmatched, Some(target.id));
      }
      if c != FailedBefore {
        invoices := CardDeposits.Settle(invoices, target.id);
      }
      return CardDeposits.Match(if c == Fine then Matched else Unmatched, Some(target.id));
    }

    method Ingest(rules: Rules, now: int, d: Deposit, c: Confirmation)
      modifies this
      ensures BookAt(now) == IngestInto(old(BookAt(now)), rules, d, c)
    {
      if d.amount <= 0 {
        return;
      }
      var i := 0;
      while i < |ring|
        invariant 0 <= i <= |ring| && forall j :: 0 <= j < i ==> !Repeats(ring[j], d)
      {
        if Repeats(ring[i], d) {
          return;
        }
        i := i + 1;
      }
      var m := Match(rules, now, d, c);
      ring := Front([d.(status := m.status, payment := m.payment)] + ring);
    }

    method Rematch(rules: Rules, now: int, cs: seq<Confirmation>)
      requires |cs| == |Retried(ring)|
      modifies this
      ensures BookAt(now) == RematchAll(old(BookAt(now)), rules, Retried(old(ring)), cs)
    {
      var todo := Retried(ring);
      ghost var start := BookAt(now);
      for i := 0 to |todo|
        invariant BookAt(now) == RematchAll(start, rules, todo[..i], cs[..i])
      {
        RematchNext(start, rules, todo, cs, i);
        hide MatchDeposit, RematchAll, Retried;
        var d := todo[i];
        var m := Match(rules, now, d, cs[i]);
        var at := IndexOf(ring, d.id);
        if at < |ring| {
          ring := ring[at := d.(status := m.status, payment := m.payment)];
        }
      }
      assert todo[..|todo|] == todo && cs[..|cs|] == cs;
    }

    method PlaceInvoice(rules: Rules, now: int, id: Id, price: int, taken: seq<int>)
      requires Possible(BookAt(now), rules, Place(id, price, taken))
      modifies this`invoices
      ensures BookAt(now) == Do(old(BookAt(now)), rules, Place(id, price, taken))
    {
      var amount := price;
      var unique := UniqueCardAmount(price, rules.unique, rules.tolerance, taken);
      if unique > amount {
        amount := unique;
      }
      invoices := invoices + [Invoice(id, amount, now, Open, "", "")];
    }
  }
}
