/** The payment ledger as PostgreSQL holds it: settlements, their allocations to
    orders, refunds of allocations, and the order issues that may cause refunds,
    with the checks and triggers that decide what may commit. Amounts are in kuruş;
    a row's id is its position in its table. */
module Payments {
  import opened Tables

  datatype Tender = Cash | Card | OtherTender

  datatype PaymentStatus = Unpaid | PartiallyPaid | Paid

  datatype RefundStatus = NotRefunded | PartiallyRefunded | Refunded

  datatype Order = Order(store: int, table: Option<int>, total: int, cancelled: bool,
                         paid: int, refunded: int, payment: PaymentStatus, refund: RefundStatus)
  {
    function NetPaid(): int { paid - refunded }
    function Outstanding(): int { if total - NetPaid() > 0 then total - NetPaid() else 0 }
    function Refundable(): int { if NetPaid() > 0 then NetPaid() else 0 }
  }

  datatype Resolution = NoRefundNeeded | FullRefund | PartialRefund | CancelOnly

  /** The canonical body of a request; equal hashes are taken to mean equal bodies. */
  datatype Request =
    | SettlementBody(table: int, orders: set<nat>, tender: Tender, note: string)
    | OrderPaymentBody(order: nat, part: Option<int>, tender: Tender, note: string)
    | RefundBody(allocation: nat, amount: int, reason: string)
    | IssueRefundBody(issue: nat, allocation: nat, amount: int, reason: string)
    | IssueBody(order: nat, kind: string, requested: Option<int>, reason: string, note: string)
    | ResolutionBody(issue: nat, resolution: Resolution, approved: Option<int>, reason: string, note: string)

  datatype RefundKey = Direct(key: string) | ForIssue(key: string, issue: nat, allocation: nat)

  /** `at` is completed_at. */
  datatype Settlement = Settlement(store: int, table: Option<int>, cashier: int, tender: Tender, gross: int,
                                   at: int, key: string, request: Request)

  datatype Allocation = Allocation(settlement: nat, order: nat, amount: int)

  /** `at` is created_at. */
  datatype Refund = Refund(store: int, settlement: nat, allocation: nat, order: nat, amount: int, refundedBy: int,
                           at: int, reason: string, key: RefundKey, request: Request, issue: Option<nat>)

  datatype IssueStatus = Open | Resolved | Voided

  datatype Issue = Issue(store: int, order: nat, status: IssueStatus, requested: Option<int>, createdBy: int,
                         createdKey: string, createdBody: Request,
                         resolution: Option<Resolution>, approved: Option<int>, refund: Option<nat>,
                         resolvedBy: Option<int>, resolvedAt: Option<int>,
                         resolvedKey: Option<string>, resolvedBody: Option<Request>)
  {
    predicate Refunding() { resolution == Some(FullRefund) || resolution == Some(PartialRefund) }
  }

  /** The tables this model reads but never writes: who owns which table, who works where. */
  datatype Site = Site(tables: map<int, int>, staff: map<int, Option<int>>) {
    predicate WorksAt(user: int, store: int) { user in staff && staff[user] == Some(store) }
  }

  datatype Books = Books(orders: seq<Order>, settlements: seq<Settlement>, allocations: seq<Allocation>,
                         refunds: seq<Refund>, issues: seq<Issue>)

  // ── Row constraints and reference triggers ─────────────────────────────────

  predicate OrderChecks(o: Order) { 0 <= o.refunded <= o.paid }

  /** CHECK and sweetops_settlement_refs_check. */
  predicate SettlementChecks(site: Site, s: Settlement) {
    && s.gross > 0
    && (s.table.Some? ==> s.table.value in site.tables && site.tables[s.table.value] == s.store)
    && site.WorksAt(s.cashier, s.store)
  }

  /** CHECK, foreign keys and sweetops_allocation_refs_check. */
  predicate AllocationChecks(b: Books, a: Allocation) {
    && a.amount > 0 && a.settlement < |b.settlements| && a.order < |b.orders|
    && b.orders[a.order].store == b.settlements[a.settlement].store
    && b.orders[a.order].table == b.settlements[a.settlement].table
  }

  /** CHECK, foreign keys and sweetops_refund_refs_check. */
  predicate RefundChecks(b: Books, r: Refund) {
    && r.amount > 0 && r.reason != ""
    && r.allocation < |b.allocations| && r.settlement < |b.settlements| && r.order < |b.orders|
    && b.allocations[r.allocation].settlement == r.settlement
    && b.allocations[r.allocation].order == r.order
    && b.settlements[r.settlement].store == r.store
    && (r.issue.Some? ==> r.issue.value < |b.issues|)
  }

  /** The table's CHECKs. SQL passes a CHECK that evaluates to NULL: with no
      resolution the two refund checks pass whatever refund_id says. */
  predicate IssueChecks(i: Issue) {
    && (i.requested.Some? ==> i.requested.value >= 0)
    && (i.approved.Some? ==> i.approved.value >= 0)
    && (if i.status.Open?
        then i.resolution.None? && i.approved.None? && i.resolvedBy.None? && i.resolvedAt.None?
             && i.resolvedKey.None? && i.resolvedBody.None?
        else i.resolution.Some? && i.approved.Some? && i.resolvedBy.Some? && i.resolvedAt.Some?
             && i.resolvedKey.Some? && i.resolvedBody.Some?)
    && (i.Refunding() && i.approved.Some? && i.approved.value != 0 ==> i.refund.Some?)
    && (i.refund.Some? && i.resolution.Some? ==> i.Refunding())
  }

  /** Foreign keys, with the composite ones that pin store and order. */
  predicate IssueKeys(site: Site, b: Books, i: Issue) {
    && i.order < |b.orders| && b.orders[i.order].store == i.store
    && site.WorksAt(i.createdBy, i.store)
    && (i.resolvedBy.Some? ==> site.WorksAt(i.resolvedBy.value, i.store))
    && (i.refund.Some? ==> i.refund.value < |b.refunds| && b.refunds[i.refund.value].store == i.store
                           && b.refunds[i.refund.value].order == i.order)
  }

  predicate UniqueSettlementKeys(ss: seq<Settlement>) {
    forall j, k :: 0 <= j < k < |ss| ==> ss[j].store != ss[k].store || ss[j].key != ss[k].key
  }

  predicate UniqueRefundKeys(rs: seq<Refund>) {
    forall j, k :: 0 <= j < k < |rs| ==> rs[j].store != rs[k].store || rs[j].key != rs[k].key
  }

  predicate UniqueIssueKeys(issues: seq<Issue>) {
    forall j, k :: 0 <= j < k < |issues| ==>
        issues[j].store != issues[k].store || issues[j].createdKey != issues[k].createdKey
  }

  ghost predicate RowsOk(site: Site, b: Books) {
    match b
    case Books(orders, settlements, allocations, refunds, issues) =>
      && (forall k :: 0 <= k < |orders| ==> OrderChecks(orders[k]))
      && (forall k :: 0 <= k < |settlements| ==> SettlementChecks(site, settlements[k]))
      && (forall k :: 0 <= k < |allocations| ==> AllocationChecks(b, allocations[k]))
      && (forall k :: 0 <= k < |refunds| ==> RefundChecks(b, refunds[k]))
      && (forall k :: 0 <= k < |issues| ==> IssueChecks(issues[k]) && IssueKeys(site, b, issues[k]))
      && UniqueSettlementKeys(settlements) && UniqueRefundKeys(refunds) && UniqueIssueKeys(issues)
  }

  // ── Totals ─────────────────────────────────────────────────────────────────

  function OfSettlement(id: nat): Allocation -> int { (a: Allocation) => if a.settlement == id then a.amount else 0 }

  function OfOrder(id: nat): Allocation -> int { (a: Allocation) => if a.order == id then a.amount else 0 }

  function RefundedOn(order: nat): Refund -> int { (r: Refund) => if r.order == order then r.amount else 0 }

  function RefundedFrom(allocation: nat): Refund -> int {
    (r: Refund) => if r.allocation == allocation then r.amount else 0
  }

  /** sweetops_settlement_total_check for one settlement. */
  predicate TotalMatches(b: Books, id: nat)
    requires id < |b.settlements|
  {
    b.settlements[id].gross == Sum(b.allocations, OfSettlement(id))
  }

  ghost predicate AllTotalsMatch(b: Books) {
    forall id :: 0 <= id < |b.settlements| ==> TotalMatches(b, id)
  }

  /** What any client may commit: the ledger tables are append-only, the deferred
      trigger looks only at the settlements this transaction touched, and nothing
      updates an order's store or table. */
  ghost predicate Accepts(site: Site, before: Books, after: Books) {
    && RowsOk(site, after)
    && before.settlements <= after.settlements && before.allocations <= after.allocations
    && before.refunds <= after.refunds
    && (forall id :: |before.settlements| <= id < |after.settlements| ==> TotalMatches(after, id))
    && (forall k :: |before.allocations| <= k < |after.allocations| ==>
        TotalMatches(after, after.allocations[k].settlement))
  }

  lemma UntouchedTotal(before: Books, after: Books, id: nat)
    requires before.settlements <= after.settlements && before.allocations <= after.allocations
    requires id < |before.settlements|
    requires forall k :: |before.allocations| <= k < |after.allocations| ==> after.allocations[k].settlement != id
    ensures TotalMatches(after, id) == TotalMatches(before, id)
  {
    var added := after.allocations[|before.allocations|..];
    assert after.allocations == before.allocations + added;
    SumConcat(before.allocations, added, OfSettlement(id));
    SumZero(added, OfSettlement(id));
  }

  /** Checking only what a transaction touched keeps every total, however old. */
  lemma TotalsAreGlobal(site: Site, before: Books, after: Books)
    requires AllTotalsMatch(before) && Accepts(site, before, after)
    ensures AllTotalsMatch(after)
  {
    forall id | 0 <= id < |after.settlements| ensures TotalMatches(after, id) {
      if id < |before.settlements| {
        if k :| |before.allocations| <= k < |after.allocations| && after.allocations[k].settlement == id {
          assert TotalMatches(after, after.allocations[k].settlement);
        } else {
          UntouchedTotal(before, after, id);
        }
      }
    }
  }

  /** A committed settlement is closed: because amounts are positive, no later
      transaction can add an allocation to it. */
  lemma CommittedSettlementsAreClosed(site: Site, before: Books, after: Books, k: nat)
    requires AllTotalsMatch(before) && Accepts(site, before, after)
    requires |before.allocations| <= k < |after.allocations|
    ensures after.allocations[k].settlement >= |before.settlements|
  {
    var id := after.allocations[k].settlement;
    if id < |before.settlements| {
      var added := after.allocations[|before.allocations|..];
      assert after.allocations == before.allocations + added;
      SumConcat(before.allocations, added, OfSettlement(id));
      assert TotalMatches(before, id) && TotalMatches(after, id);
      forall j | 0 <= j < |added| ensures OfSettlement(id)(added[j]) >= 0 {
        assert AllocationChecks(after, after.allocations[|before.allocations| + j]);
      }
      assert AllocationChecks(after, after.allocations[k]) && added[k - |before.allocations|] == after.allocations[k];
      SumNonneg(added, OfSettlement(id));
    }
  }

  ghost predicate Commits(site: Site, run: seq<Books>) {
    |run| > 0 && forall i :: 0 < i < |run| ==> Accepts(site, run[i - 1], run[i])
  }

  lemma {:induction false} EveryCommittedTotalMatches(site: Site, run: seq<Books>)
    requires Commits(site, run) && AllTotalsMatch(run[0])
    ensures AllTotalsMatch(run[|run| - 1])
  {
    if |run| > 1 {
      EveryCommittedTotalMatches(site, run[..|run| - 1]);
      TotalsAreGlobal(site, run[|run| - 2], run[|run| - 1]);
    }
  }

  // ── Store totals ───────────────────────────────────────────────────────────

  /** reconcile(): every order's summary equals its slice of the ledger. */
  ghost predicate OrdersReconcile(b: Books) {
    forall k :: 0 <= k < |b.orders| ==>
      && b.orders[k].paid == Sum(b.allocations, OfOrder(k))
      && b.orders[k].refunded == Sum(b.refunds, RefundedOn(k))
  }

  function StoreOf(settlements: seq<Settlement>, id: nat): Option<int> {
    if id < |settlements| then Some(settlements[id].store) else None
  }

  function GrossIn(store: int): Settlement -> int { (s: Settlement) => if s.store == store then s.gross else 0 }

  function AllocatedIn(settlements: seq<Settlement>, store: int): Allocation -> int {
    (a: Allocation) => if StoreOf(settlements, a.settlement) == Some(store) then a.amount else 0
  }

  function RefundsIn(store: int): Refund -> int { (r: Refund) => if r.store == store then r.amount else 0 }

  function PaidIn(store: int): Order -> int { (o: Order) => if o.store == store then o.paid else 0 }

  function RefundedIn(store: int): Order -> int { (o: Order) => if o.store == store then o.refunded else 0 }

  function NetIn(store: int): Order -> int { (o: Order) => if o.store == store then o.NetPaid() else 0 }

  function OrderValueIn(store: int): Order -> int {
    (o: Order) => if o.store == store && !o.cancelled then o.total else 0
  }

  /** What is still to collect on the orders that were not cancelled. */
  function OwedIn(store: int): Order -> int {
    (o: Order) => if o.store == store && !o.cancelled then o.total - o.NetPaid() else 0
  }

  function HeldByCancelled(store: int): Order -> int {
    (o: Order) => if o.store == store && o.cancelled then o.NetPaid() else 0
  }

  /** How much allocation a gives to settlement id, for settlements of the store. */
  function PerSettlement(settlements: seq<Settlement>, store: int): (int, Allocation) -> int {
    (id: int, a: Allocation) =>
      if a.settlement == id && a.settlement < |settlements| && settlements[a.settlement].store == store then a.amount
      else 0
  }

  function GrossById(settlements: seq<Settlement>, store: int): int -> int {
    (id: int) => if 0 <= id < |settlements| then GrossIn(store)(settlements[id]) else 0
  }

  /** A store's gross is what its settlements allocated. */
  lemma GrossIsAllocated(site: Site, b: Books, store: int)
    requires RowsOk(site, b) && AllTotalsMatch(b)
    ensures Sum(b.settlements, GrossIn(store)) == Sum(b.allocations, AllocatedIn(b.settlements, store))
  {
    var w, ids := PerSettlement(b.settlements, store), Ids(|b.settlements|);
    SumPointwise(b.settlements, GrossIn(store), ids, GrossById(b.settlements, store));
    forall k | 0 <= k < |ids| ensures GrossById(b.settlements, store)(ids[k]) == Across(b.allocations, w)(ids[k]) {
      assert TotalMatches(b, k);
      if b.settlements[k].store == store {
        SumPointwise(b.allocations, OfSettlement(k), b.allocations, Row(w, k));
      } else {
        SumZero(b.allocations, Row(w, k));
      }
    }
    SumPointwise(ids, GrossById(b.settlements, store), ids, Across(b.allocations, w));
    SumExchange(ids, b.allocations, w);
    forall k | 0 <= k < |b.allocations|
      ensures AllocatedIn(b.settlements, store)(b.allocations[k]) == Down(ids, w)(b.allocations[k])
    {
      assert AllocationChecks(b, b.allocations[k]);
      SumSingle(ids, b.allocations[k].settlement, Column(w, b.allocations[k]));
    }
    SumPointwise(b.allocations, AllocatedIn(b.settlements, store), b.allocations, Down(ids, w));
  }

  function PerOrder(orders: seq<Order>, store: int): (int, Allocation) -> int {
    (id: int, a: Allocation) =>
      if a.order == id && a.order < |orders| && orders[a.order].store == store then a.amount else 0
  }

  function PaidById(orders: seq<Order>, store: int): int -> int {
    (id: int) => if 0 <= id < |orders| then PaidIn(store)(orders[id]) else 0
  }

  lemma PaidRow(b: Books, store: int, k: int)
    requires OrdersReconcile(b) && 0 <= k < |b.orders|
    ensures PaidById(b.orders, store)(k) == Sum(b.allocations, Row(PerOrder(b.orders, store), k))
  {
    var row := Row(PerOrder(b.orders, store), k);
    assert b.orders[k].paid == Sum(b.allocations, OfOrder(k));
    assert PaidById(b.orders, store)(k) == PaidIn(store)(b.orders[k]);
    if b.orders[k].store == store {
      SumPointwise(b.allocations, OfOrder(k), b.allocations, row);
    } else {
      SumZero(b.allocations, row);
    }
  }

  lemma AllocatedColumn(site: Site, b: Books, store: int, a: Allocation)
    requires AllocationChecks(b, a)
    ensures AllocatedIn(b.settlements, store)(a) == Sum(Ids(|b.orders|), Column(PerOrder(b.orders, store), a))
  {
    SumSingle(Ids(|b.orders|), a.order, Column(PerOrder(b.orders, store), a));
  }

  /** ... and what its orders were paid. */
  lemma AllocatedIsPaid(site: Site, b: Books, store: int)
    requires RowsOk(site, b) && OrdersReconcile(b)
    ensures Sum(b.allocations, AllocatedIn(b.settlements, store)) == Sum(b.orders, PaidIn(store))
  {
    var w, ids := PerOrder(b.orders, store), Ids(|b.orders|);
    SumPointwise(b.orders, PaidIn(store), ids, PaidById(b.orders, store));
    forall k | 0 <= k < |ids| ensures PaidById(b.orders, store)(ids[k]) == Across(b.allocations, w)(ids[k]) {
      PaidRow(b, store, k);
    }
    SumPointwise(ids, PaidById(b.orders, store), ids, Across(b.allocations, w));
    SumExchange(ids, b.allocations, w);
    forall k | 0 <= k < |b.allocations|
      ensures AllocatedIn(b.settlements, store)(b.allocations[k]) == Down(ids, w)(b.allocations[k])
    {
      AllocatedColumn(site, b, store, b.allocations[k]);
    }
    SumPointwise(b.allocations, AllocatedIn(b.settlements, store), b.allocations, Down(ids, w));
  }

  function PerRefundedOrder(orders: seq<Order>, store: int): (int, Refund) -> int {
    (id: int, r: Refund) =>
      if r.order == id && r.order < |orders| && orders[r.order].store == store then r.amount else 0
  }

  function RefundedById(orders: seq<Order>, store: int): int -> int {
    (id: int) => if 0 <= id < |orders| then RefundedIn(store)(orders[id]) else 0
  }

  lemma RefundedRow(b: Books, store: int, k: int)
    requires OrdersReconcile(b) && 0 <= k < |b.orders|
    ensures RefundedById(b.orders, store)(k) == Sum(b.refunds, Row(PerRefundedOrder(b.orders, store), k))
  {
    var row := Row(PerRefundedOrder(b.orders, store), k);
    assert b.orders[k].refunded == Sum(b.refunds, RefundedOn(k));
    assert RefundedById(b.orders, store)(k) == RefundedIn(store)(b.orders[k]);
    if b.orders[k].store == store {
      SumPointwise(b.refunds, RefundedOn(k), b.refunds, row);
    } else {
      SumZero(b.refunds, row);
    }
  }

  lemma RefundColumn(site: Site, b: Books, store: int, r: Refund)
    requires RowsOk(site, b) && RefundChecks(b, r)
    ensures RefundsIn(store)(r) == Sum(Ids(|b.orders|), Column(PerRefundedOrder(b.orders, store), r))
  {
    assert AllocationChecks(b, b.allocations[r.allocation]);
    SumSingle(Ids(|b.orders|), r.order, Column(PerRefundedOrder(b.orders, store), r));
  }

  /** A store's refunds are what its orders were refunded. */
  lemma RefundsAreRefunded(site: Site, b: Books, store: int)
    requires RowsOk(site, b) && OrdersReconcile(b)
    ensures Sum(b.refunds, RefundsIn(store)) == Sum(b.orders, RefundedIn(store))
  {
    var w, ids := PerRefundedOrder(b.orders, store), Ids(|b.orders|);
    SumPointwise(b.orders, RefundedIn(store), ids, RefundedById(b.orders, store));
    forall k | 0 <= k < |ids| ensures RefundedById(b.orders, store)(ids[k]) == Across(b.refunds, w)(ids[k]) {
      RefundedRow(b, store, k);
    }
    SumPointwise(ids, RefundedById(b.orders, store), ids, Across(b.refunds, w));
    SumExchange(ids, b.refunds, w);
    forall k | 0 <= k < |b.refunds| ensures RefundsIn(store)(b.refunds[k]) == Down(ids, w)(b.refunds[k]) {
      RefundColumn(site, b, store, b.refunds[k]);
    }
    SumPointwise(b.refunds, RefundsIn(store), b.refunds, Down(ids, w));
  }

  // ── The owner's payment summary ────────────────────────────────────────────

  datatype Summary = Summary(gross: int, collected: int, refunded: int, net: int, outstanding: int)

  function PaymentSummary(b: Books, store: int): Summary {
    var gross := Sum(b.orders, OrderValueIn(store));
    var collected := Sum(b.allocations, AllocatedIn(b.settlements, store));
    var refunded := Sum(b.refunds, RefundsIn(store));
    var net := collected - refunded;
    Summary(gross, collected, refunded, net, gross - net)
  }

  /** Payment totals agree at every level: the till's settlements, their
      allocations and the orders' own summaries report the same money, and the
      owner's net is exactly what the store's orders were paid and not refunded. */
  lemma SummaryAgreesWithOrders(site: Site, b: Books, store: int)
    requires RowsOk(site, b) && AllTotalsMatch(b) && OrdersReconcile(b)
    ensures PaymentSummary(b, store).collected == Sum(b.settlements, GrossIn(store)) == Sum(b.orders, PaidIn(store))
    ensures PaymentSummary(b, store).refunded == Sum(b.orders, RefundedIn(store))
    ensures PaymentSummary(b, store).net == Sum(b.orders, NetIn(store))
    ensures PaymentSummary(b, store).gross ==
              Sum(b.orders, (o: Order) => if o.store == store && !o.cancelled then o.total else 0)
  {
    SumPointwise(b.orders, OrderValueIn(store), b.orders, (o: Order) =>
      if o.store == store && !o.cancelled then o.total else 0);
    GrossIsAllocated(site, b, store);
    AllocatedIsPaid(site, b, store);
    RefundsAreRefunded(site, b, store);
    SumAdd(b.orders, NetIn(store), RefundedIn(store), PaidIn(store));
  }

  lemma {:induction false} LiveAndHeld(orders: seq<Order>, store: int)
    ensures Sum(orders, OrderValueIn(store)) - Sum(orders, NetIn(store))
         == Sum(orders, OwedIn(store)) - Sum(orders, HeldByCancelled(store))
  {
    if |orders| > 0 {
      LiveAndHeld(orders[..|orders| - 1], store);
    }
  }

  /** The outstanding figure is what the live orders still owe exactly when no
      cancelled order of the store holds money. */
  lemma OutstandingIsOwedExactlyWhen(site: Site, b: Books, store: int)
    requires RowsOk(site, b) && AllTotalsMatch(b) && OrdersReconcile(b)
    ensures PaymentSummary(b, store).outstanding == Sum(b.orders, OwedIn(store))
        <==> forall k :: 0 <= k < |b.orders| && b.orders[k].store == store && b.orders[k].cancelled ==>
            b.orders[k].NetPaid() == 0
  {
    SummaryAgreesWithOrders(site, b, store);
    LiveAndHeld(b.orders, store);
    forall k | 0 <= k < |b.orders| ensures HeldByCancelled(store)(b.orders[k]) >= 0 {
      assert OrderChecks(b.orders[k]);
    }
    SumNonneg(b.orders, HeldByCancelled(store));
    if forall k :: 0 <= k < |b.orders| && b.orders[k].store == store && b.orders[k].cancelled ==>
        b.orders[k].NetPaid() == 0 {
      SumZero(b.orders, HeldByCancelled(store));
    }
  }
}
