/** Every till and issue command keeps the payment books: the schema's checks hold,
    every summary equals its ledger, no allocation gives back more than it took, a
    cancelled order holds no money, and every issue tells the ledger's own story. */
module PaymentSafety {
  import opened Tables
  import opened Text
  import opened Payments
  import opened PaymentCommands

  // ── The invariant ──────────────────────────────────────────────────────────

  /** No allocation gives back more than it took. */
  ghost predicate AllocationsHold(b: Books) {
    forall a :: 0 <= a < |b.allocations| ==> RefundableOf(b, a) >= 0
  }

  /** Nobody overpays, statuses are never stale, and cancelling keeps no money. */
  ghost predicate OrdersFit(b: Books) {
    forall k :: 0 <= k < |b.orders| ==>
      && b.orders[k].NetPaid() <= b.orders[k].total
      && b.orders[k] == Recomputed(b.orders[k])
      && (b.orders[k].cancelled ==> b.orders[k].NetPaid() == 0)
  }

  ghost predicate Ledger(site: Site, b: Books) {
    match b
    case Books(_, _, _, _, _) =>
      RowsOk(site, b) && AllTotalsMatch(b) && OrdersReconcile(b) && AllocationsHold(b) && OrdersFit(b)
  }

  function LinkedTo(issue: nat): Refund -> int { (r: Refund) => if r.issue == Some(issue) then r.amount else 0 }

  function LinkCount(issue: nat): Refund -> int { (r: Refund) => if r.issue == Some(issue) then 1 else 0 }

  /** A linked refund of another store or order. */
  function StrayCount(issue: nat, i: Issue): Refund -> int {
    (r: Refund) => if r.issue == Some(issue) && (r.store != i.store || r.order != i.order) then 1 else 0
  }

  predicate PrimaryLinkOk(b: Books, issue: nat, i: Issue) {
    i.refund.Some? && i.refund.value < |b.refunds| && b.refunds[i.refund.value].issue == Some(issue)
  }

  /** What reconcile_issues() checks of one issue. */
  predicate IssueTells(b: Books, issue: nat)
    requires issue < |b.issues|
  {
    var i := b.issues[issue];
    && Sum(b.refunds, StrayCount(issue, i)) == 0
    && if !i.status.Open? && i.Refunding() && i.approved.Some? && i.approved.value > 0
       then PrimaryLinkOk(b, issue, i) && Sum(b.refunds, LinkedTo(issue)) == i.approved.value
       else Sum(b.refunds, LinkCount(issue)) == 0 && i.refund.None?
  }

  ghost predicate IssuesTell(b: Books) {
    forall issue :: 0 <= issue < |b.issues| ==> IssueTells(b, issue)
  }

  ghost predicate Sound(site: Site, b: Books) { Ledger(site, b) && IssuesTell(b) }

  /** What a command owes: sound books after a commit PostgreSQL accepts. */
  ghost predicate Kept(site: Site, before: Books, after: Books) {
    match after
    case Books(_, _, _, _, _) => Sound(site, after) && Accepts(site, before, after)
  }

  lemma RefusalKeeps(site: Site, b: Books)
    requires Sound(site, b)
    ensures Kept(site, b, b)
  {}

  // ── Old rows stand ─────────────────────────────────────────────────────────

  ghost predicate Extends(before: Books, after: Books) {
    match before
    case Books(orders, settlements, allocations, refunds, issues) =>
      && settlements <= after.settlements && allocations <= after.allocations && refunds <= after.refunds
      && |orders| <= |after.orders| && |issues| <= |after.issues|
      && (forall k :: 0 <= k < |orders| ==>
          after.orders[k].store == orders[k].store && after.orders[k].table == orders[k].table)
  }

  lemma OldRowsStand(site: Site, before: Books, after: Books)
    requires RowsOk(site, before) && Extends(before, after)
    ensures forall k :: 0 <= k < |before.allocations| ==> AllocationChecks(after, after.allocations[k])
    ensures forall k :: 0 <= k < |before.refunds| ==> RefundChecks(after, after.refunds[k])
    ensures forall k :: 0 <= k < |before.issues| ==> IssueKeys(site, after, before.issues[k])
  {
    forall k | 0 <= k < |before.allocations| ensures AllocationChecks(after, after.allocations[k]) {
      assert AllocationChecks(before, before.allocations[k]);
    }
    forall k | 0 <= k < |before.refunds| ensures RefundChecks(after, after.refunds[k]) {
      assert RefundChecks(before, before.refunds[k]);
    }
    forall k | 0 <= k < |before.issues| ensures IssueKeys(site, after, before.issues[k]) {
      assert IssueKeys(site, before, before.issues[k]);
    }
  }

  // ── What allocations give back bounds what orders get back ─────────────────

  function PerAllocation(allocations: seq<Allocation>, order: nat): (int, Refund) -> int {
    (a: int, r: Refund) => if r.allocation == a && r.order == order then r.amount else 0
  }

  function RefundableFor(b: Books, order: nat): int -> int {
    (a: int) => if 0 <= a < |b.allocations| && b.allocations[a].order == order then RefundableOf(b, a) else 0
  }

  function AllocatedFor(b: Books, order: nat): int -> int {
    (a: int) => if 0 <= a < |b.allocations| then OfOrder(order)(b.allocations[a]) else 0
  }

  lemma GivenBack(b: Books, order: nat, a: int)
    requires 0 <= a < |b.allocations| && forall k :: 0 <= k < |b.refunds| ==> RefundChecks(b, b.refunds[k])
    ensures Sum(b.refunds, Row(PerAllocation(b.allocations, order), a))
         == if b.allocations[a].order == order then Sum(b.refunds, RefundedFrom(a)) else 0
  {
    var row := Row(PerAllocation(b.allocations, order), a);
    forall k | 0 <= k < |b.refunds|
      ensures row(b.refunds[k]) == if b.allocations[a].order == order then RefundedFrom(a)(b.refunds[k]) else 0
    {
      assert RefundChecks(b, b.refunds[k]);
    }
    if b.allocations[a].order == order {
      SumPointwise(b.refunds, row, b.refunds, RefundedFrom(a));
    } else {
      SumZero(b.refunds, row);
    }
  }

  /** The sum of an order's refundable balances is its paid less its refunded
      ledger: order_refundable's own docstring. */
  lemma RefundableAddsUp(b: Books, order: nat)
    requires forall k :: 0 <= k < |b.refunds| ==> RefundChecks(b, b.refunds[k])
    ensures Sum(Ids(|b.allocations|), RefundableFor(b, order))
         == Sum(b.allocations, OfOrder(order)) - Sum(b.refunds, RefundedOn(order))
  {
    var ids, w := Ids(|b.allocations|), PerAllocation(b.allocations, order);
    SumPointwise(b.allocations, OfOrder(order), ids, AllocatedFor(b, order));
    SumExchange(ids, b.refunds, w);
    forall k | 0 <= k < |b.refunds| ensures RefundedOn(order)(b.refunds[k]) == Down(ids, w)(b.refunds[k]) {
      assert RefundChecks(b, b.refunds[k]);
      SumSingle(ids, b.refunds[k].allocation, Column(w, b.refunds[k]));
    }
    SumPointwise(b.refunds, RefundedOn(order), b.refunds, Down(ids, w));
    forall a | 0 <= a < |ids|
      ensures AllocatedFor(b, order)(ids[a]) == RefundableFor(b, order)(ids[a]) + Across(b.refunds, w)(ids[a])
    {
      GivenBack(b, order, a);
    }
    SumAdd(ids, RefundableFor(b, order), Across(b.refunds, w), AllocatedFor(b, order));
  }

  /** reconcile_order_refunds(): no order gets back more than was paid on it. */
  lemma RefundsWithinPaid(b: Books, order: nat)
    requires forall k :: 0 <= k < |b.refunds| ==> RefundChecks(b, b.refunds[k])
    requires AllocationsHold(b)
    ensures Sum(b.refunds, RefundedOn(order)) <= Sum(b.allocations, OfOrder(order))
  {
    RefundableAddsUp(b, order);
    SumNonneg(Ids(|b.allocations|), RefundableFor(b, order));
  }

  /** order_refundable: the ceiling of an issue refund is exactly what the order's
      allocations can still give back. */
  lemma OrderRefundableIsExact(site: Site, b: Books, order: nat)
    requires Ledger(site, b) && order < |b.orders|
    ensures b.orders[order].Refundable() == Sum(Ids(|b.allocations|), RefundableFor(b, order))
  {
    RefundableAddsUp(b, order);
    assert OrderChecks(b.orders[order]);
  }

  // ── Collecting ─────────────────────────────────────────────────────────────

  /** A share an order may take: positive, of the settlement's store and table. */
  predicate ShareOk(b: Books, s: Settlement, share: Share) {
    && share.amount > 0 && share.order < |b.orders|
    && b.orders[share.order].store == s.store && b.orders[share.order].table == s.table
    && !b.orders[share.order].cancelled
  }

  ghost predicate SharesOk(b: Books, s: Settlement, shares: seq<Share>) {
    match b
    case Books(orders, _, _, _, _) =>
      && (forall k :: 0 <= k < |shares| ==> ShareOk(b, s, shares[k]))
      && (forall k :: 0 <= k < |orders| ==> 0 <= Sum(shares, ShareOf(k)) <= orders[k].Outstanding())
      && s.gross == Sum(shares, ShareAmount()) && s.gross > 0
  }

  lemma PostedExtends(b: Books, s: Settlement, shares: seq<Share>)
    ensures Extends(b, Posted(b, s, shares))
  {}

  lemma NewSettlementUnique(ss: seq<Settlement>, s: Settlement)
    requires UniqueSettlementKeys(ss) && forall k :: 0 <= k < |ss| ==> ss[k].store != s.store || ss[k].key != s.key
    ensures UniqueSettlementKeys(ss + [s])
  {}

  lemma PostedRowsOk(site: Site, b: Books, s: Settlement, shares: seq<Share>)
    requires RowsOk(site, b) && SettlementChecks(site, s) && SharesOk(b, s, shares)
    requires forall k :: 0 <= k < |b.settlements| ==> b.settlements[k].store != s.store || b.settlements[k].key != s.key
    ensures RowsOk(site, Posted(b, s, shares))
  {
    var after := Posted(b, s, shares);
    PostedExtends(b, s, shares);
    OldRowsStand(site, b, after);
    NewSettlementUnique(b.settlements, s);
    forall k | 0 <= k < |after.orders| ensures OrderChecks(after.orders[k]) {
      assert OrderChecks(b.orders[k]);
    }
    forall k | 0 <= k < |after.allocations| ensures AllocationChecks(after, after.allocations[k]) {
      if k >= |b.allocations| { assert ShareOk(b, s, shares[k - |b.allocations|]); }
    }
  }

  lemma {:induction false} PostedTotals(site: Site, b: Books, s: Settlement, shares: seq<Share>)
    requires RowsOk(site, b) && AllTotalsMatch(b) && s.gross == Sum(shares, ShareAmount())
    ensures AllTotalsMatch(Posted(b, s, shares))
  {
    var after, n, added := Posted(b, s, shares), |b.settlements|, AllocationsFor(|b.settlements|, shares);
    forall id | 0 <= id < |after.settlements| ensures TotalMatches(after, id) {
      SumConcat(b.allocations, added, OfSettlement(id));
      if id < n {
        assert TotalMatches(b, id);
        SumZero(added, OfSettlement(id));
      } else {
        forall k | 0 <= k < |b.allocations| ensures OfSettlement(id)(b.allocations[k]) == 0 {
          assert AllocationChecks(b, b.allocations[k]);
        }
        SumZero(b.allocations, OfSettlement(id));
        SumPointwise(added, OfSettlement(id), shares, ShareAmount());
      }
    }
  }

  lemma PostedReconciles(b: Books, s: Settlement, shares: seq<Share>)
    requires OrdersReconcile(b)
    ensures OrdersReconcile(Posted(b, s, shares))
  {
    var after, added := Posted(b, s, shares), AllocationsFor(|b.settlements|, shares);
    forall k | 0 <= k < |after.orders|
      ensures after.orders[k].paid == Sum(after.allocations, OfOrder(k))
      ensures after.orders[k].refunded == Sum(after.refunds, RefundedOn(k))
    {
      SumConcat(b.allocations, added, OfOrder(k));
      SumPointwise(added, OfOrder(k), shares, ShareOf(k));
    }
  }

  lemma PostedHolds(site: Site, b: Books, s: Settlement, shares: seq<Share>)
    requires RowsOk(site, b) && AllocationsHold(b) && SharesOk(b, s, shares)
    ensures AllocationsHold(Posted(b, s, shares))
  {
    var after := Posted(b, s, shares);
    forall a | 0 <= a < |after.allocations| ensures RefundableOf(after, a) >= 0 {
      if a < |b.allocations| {
        assert RefundableOf(b, a) >= 0;
      } else {
        forall k | 0 <= k < |b.refunds| ensures RefundedFrom(a)(b.refunds[k]) == 0 {
          assert RefundChecks(b, b.refunds[k]);
        }
        SumZero(b.refunds, RefundedFrom(a));
        assert ShareOk(b, s, shares[a - |b.allocations|]);
      }
    }
  }

  lemma {:induction false} SharesNamingNone(b: Books, s: Settlement, shares: seq<Share>, k: nat)
    requires k < |b.orders| && b.orders[k].cancelled && forall j :: 0 <= j < |shares| ==> ShareOk(b, s, shares[j])
    ensures Sum(shares, ShareOf(k)) == 0
  {
    forall j | 0 <= j < |shares| ensures ShareOf(k)(shares[j]) == 0 { assert ShareOk(b, s, shares[j]); }
    SumZero(shares, ShareOf(k));
  }

  lemma PostedFits(site: Site, b: Books, s: Settlement, shares: seq<Share>)
    requires OrdersFit(b) && SharesOk(b, s, shares)
    ensures OrdersFit(Posted(b, s, shares))
  {
    var after := Posted(b, s, shares);
    forall k | 0 <= k < |after.orders|
      ensures after.orders[k].NetPaid() <= after.orders[k].total && after.orders[k] == Recomputed(after.orders[k])
      ensures after.orders[k].cancelled ==> after.orders[k].NetPaid() == 0
    {
      assert 0 <= Sum(shares, ShareOf(k)) <= b.orders[k].Outstanding();
      if b.orders[k].cancelled { SharesNamingNone(b, s, shares, k); }
    }
  }

  /** Settling any admissible set of shares keeps the books. */
  lemma PostedSound(site: Site, b: Books, s: Settlement, shares: seq<Share>)
    requires Sound(site, b) && SettlementChecks(site, s) && SharesOk(b, s, shares)
    requires forall k :: 0 <= k < |b.settlements| ==> b.settlements[k].store != s.store || b.settlements[k].key != s.key
    ensures Kept(site, b, Posted(b, s, shares))
  {
    PostedRowsOk(site, b, s, shares);
    PostedTotals(site, b, s, shares);
    PostedReconciles(b, s, shares);
    PostedHolds(site, b, s, shares);
    PostedFits(site, b, s, shares);
    var after := Posted(b, s, shares);
    assert Ledger(site, after);
    forall issue | 0 <= issue < |after.issues| ensures IssueTells(after, issue) { assert IssueTells(b, issue); }
  }

  // ── Which shares a collection posts ────────────────────────────────────────

  lemma {:induction false} FullSharesRows(b: Books, ids: set<nat>, n: nat)
    requires n <= |b.orders|
    ensures forall k :: 0 <= k < |FullShares(b, ids, n)| ==>
              var share := FullShares(b, ids, n)[k];
              share.order < n && HasBalance(b, ids, share.order) && share.amount == b.orders[share.order].Outstanding()
    ensures forall k :: 0 <= k < |FullShares(b, ids, n)| ==> FullShares(b, ids, n)[k].amount > 0
  {
    if n > 0 {
      FullSharesRows(b, ids, n - 1);
    }
  }

  /** Every selected order with a balance is collected in full, and once. */
  lemma {:induction false} FullSharesTotals(b: Books, ids: set<nat>, n: nat, k: nat)
    requires n <= |b.orders|
    ensures Sum(FullShares(b, ids, n), ShareOf(k)) == if k < n && HasBalance(b, ids, k) then b.orders[k].Outstanding()
              else 0
  {
    if n > 0 {
      FullSharesTotals(b, ids, n - 1, k);
      if HasBalance(b, ids, n - 1) {
        SumAppend(FullShares(b, ids, n - 1), Share(n - 1, b.orders[n - 1].Outstanding()), ShareOf(k));
      }
    }
  }

  lemma {:induction false} Isolated(b: Books, staff: Staff, ids: set<nat>, n: nat)
    requires n <= |b.orders| && IsolationError(b, staff, ids, n).None?
    ensures forall k :: 0 <= k < n && k in ids ==> b.orders[k].store == staff.store && !b.orders[k].cancelled
  {
    if n > 0 {
      Isolated(b, staff, ids, n - 1);
    }
  }

  lemma {:induction false} PositiveShares(shares: seq<Share>)
    requires shares != [] && forall k :: 0 <= k < |shares| ==> shares[k].amount > 0
    ensures Sum(shares, ShareAmount()) > 0
  {
    SumNonneg(shares, ShareAmount());
    assert ShareAmount()(shares[0]) > 0;
  }

  lemma {:induction false} FullSharesOk(b: Books, staff: Staff, table: Option<int>, ids: set<nat>, s: Settlement)
    requires IsolationError(b, staff, ids, |b.orders|).None?
    requires forall k :: 0 <= k < |b.orders| && k in ids ==> b.orders[k].table == table
    requires FullShares(b, ids, |b.orders|) != []
    requires s.store == staff.store && s.table == table && s.gross == Sum(FullShares(b, ids, |b.orders|), ShareAmount())
    ensures SharesOk(b, s, FullShares(b, ids, |b.orders|))
  {
    var n := |b.orders|;
    FullSharesRows(b, ids, n);
    Isolated(b, staff, ids, n);
    PositiveShares(FullShares(b, ids, n));
    forall k | 0 <= k < n ensures 0 <= Sum(FullShares(b, ids, n), ShareOf(k)) <= b.orders[k].Outstanding() {
      FullSharesTotals(b, ids, n, k);
    }
  }

  lemma OneShareOk(b: Books, s: Settlement, share: Share)
    requires ShareOk(b, s, share) && share.amount <= b.orders[share.order].Outstanding() && s.gross == share.amount
    ensures SharesOk(b, s, [share])
  {
    forall k | 0 <= k < |b.orders| ensures 0 <= Sum([share], ShareOf(k)) <= b.orders[k].Outstanding() {
      SumSingle([share], 0, ShareOf(k));
    }
    SumSingle([share], 0, ShareAmount());
  }

  /** The orders a collection may touch, once its checks have passed. */
  ghost predicate Gathered(b: Books, staff: Staff, table: Option<int>, ids: set<nat>) {
    && IsolationError(b, staff, ids, |b.orders|).None?
    && forall k :: 0 <= k < |b.orders| && k in ids ==> b.orders[k].table == table
  }

  lemma ChecksGather(site: Site, b: Books, staff: Staff, table: Option<int>, ids: set<nat>)
    requires GatherError(site, b, staff, table, ids).None?
    requires table.None? ==> forall k :: 0 <= k < |b.orders| && k in ids ==> b.orders[k].table.None?
    ensures Gathered(b, staff, table, ids) && (table.Some? ==> TableIsOurs(site, staff, table.value))
  {}

  /** A collection posts one part, posts in full, or changes nothing. */
  lemma {:induction false} CollectCases(site: Site, b: Books, staff: Staff, table: Option<int>, ids: set<nat>,
                                        part: Option<int>, guardRecollect: bool, tender: Tender, key: string,
                                        body: Request, now: int)
    ensures var result := Collect(site, b, staff, table, ids, part, guardRecollect, tender, key, body, now);
            if GatherError(site, b, staff, table, ids).Some? then result.0 == b
            else if part.None? then result == PostFull(b, staff, table, ids, guardRecollect, tender, key, body, now)
            else if exists k :: 0 <= k < |b.orders| && k in ids
            then result == PostPart(b, staff, table, First(b, ids, |b.orders|), part.value, tender, key, body, now)
            else result.0 == b
  {}

  lemma PartKeeps(site: Site, b: Books, staff: Staff, table: Option<int>, ids: set<nat>, order: nat, amount: int,
                  tender: Tender, key: string, body: Request, now: int)
    requires Sound(site, b) && site.WorksAt(staff.user, staff.store) && Gathered(b, staff, table, ids)
    requires order < |b.orders| && order in ids && amount > 0
    requires table.Some? ==> TableIsOurs(site, staff, table.value)
    requires forall k :: 0 <= k < |b.settlements| ==>
             b.settlements[k].store != staff.store || b.settlements[k].key != key
    ensures Kept(site, b, PostPart(b, staff, table, order, amount, tender, key, body, now).0)
  {
    RefusalKeeps(site, b);
    if PostPart(b, staff, table, order, amount, tender, key, body, now).1.Done? {
      var share := Share(order, amount);
      var s := NewSettlement(staff, table, [share], tender, key, body, now);
      SumSingle([share], 0, ShareAmount());
      Isolated(b, staff, ids, |b.orders|);
      OneShareOk(b, s, share);
      PostedSound(site, b, s, [share]);
    }
  }

  lemma FullKeeps(site: Site, b: Books, staff: Staff, table: Option<int>, ids: set<nat>, guardRecollect: bool,
                  tender: Tender, key: string, body: Request, now: int)
    requires Sound(site, b) && site.WorksAt(staff.user, staff.store) && Gathered(b, staff, table, ids)
    requires table.Some? ==> TableIsOurs(site, staff, table.value)
    requires forall k :: 0 <= k < |b.settlements| ==>
             b.settlements[k].store != staff.store || b.settlements[k].key != key
    ensures Kept(site, b, PostFull(b, staff, table, ids, guardRecollect, tender, key, body, now).0)
  {
    RefusalKeeps(site, b);
    if PostFull(b, staff, table, ids, guardRecollect, tender, key, body, now).1.Done? {
      var shares := FullShares(b, ids, |b.orders|);
      var s := NewSettlement(staff, table, shares, tender, key, body, now);
      FullSharesOk(b, staff, table, ids, s);
      PostedSound(site, b, s, shares);
    }
  }

  lemma CollectKeeps(site: Site, b: Books, staff: Staff, table: Option<int>, ids: set<nat>, part: Option<int>,
                     guardRecollect: bool, tender: Tender, key: string, body: Request, now: int)
    requires Sound(site, b) && site.WorksAt(staff.user, staff.store)
    requires part.Some? ==> part.value > 0
    requires table.None? ==> forall k :: 0 <= k < |b.orders| && k in ids ==> b.orders[k].table.None?
    requires forall k :: 0 <= k < |b.settlements| ==>
             b.settlements[k].store != staff.store || b.settlements[k].key != key
    ensures Kept(site, b, Collect(site, b, staff, table, ids, part, guardRecollect, tender, key, body, now).0)
  {
    CollectCases(site, b, staff, table, ids, part, guardRecollect, tender, key, body, now);
    if GatherError(site, b, staff, table, ids).None? {
      ChecksGather(site, b, staff, table, ids);
      if part.None? {
        FullKeeps(site, b, staff, table, ids, guardRecollect, tender, key, body, now);
      } else if exists k :: 0 <= k < |b.orders| && k in ids {
        PartKeeps(site, b, staff, table, ids, First(b, ids, |b.orders|), part.value, tender, key, body, now);
      } else {
        RefusalKeeps(site, b);
      }
    } else {
      RefusalKeeps(site, b);
    }
  }

  // ── Refunding ──────────────────────────────────────────────────────────────

  /** Refunds that name their allocation correctly and stay within its balance. */
  ghost predicate RefundsOk(b: Books, refunds: seq<Refund>) {
    match b
    case Books(_, _, allocations, _, _) =>
      && (forall k :: 0 <= k < |refunds| ==> RefundChecks(b, refunds[k]))
      && (forall a :: 0 <= a < |allocations| ==> Sum(refunds, RefundedFrom(a)) <= RefundableOf(b, a))
  }

  lemma ReturnedHolds(b: Books, refunds: seq<Refund>)
    requires AllocationsHold(b) && RefundsOk(b, refunds)
    ensures AllocationsHold(Returned(b, refunds))
  {
    forall a | 0 <= a < |b.allocations| ensures RefundableOf(Returned(b, refunds), a) >= 0 {
      SumConcat(b.refunds, refunds, RefundedFrom(a));
    }
  }

  lemma ReturnedReconciles(b: Books, refunds: seq<Refund>)
    requires OrdersReconcile(b)
    ensures OrdersReconcile(Returned(b, refunds))
  {
    forall k | 0 <= k < |b.orders|
      ensures Returned(b, refunds).orders[k].refunded == Sum(Returned(b, refunds).refunds, RefundedOn(k))
      ensures Returned(b, refunds).orders[k].paid == Sum(b.allocations, OfOrder(k))
    {
      SumConcat(b.refunds, refunds, RefundedOn(k));
    }
  }

  lemma ReturnedRefs(site: Site, b: Books, refunds: seq<Refund>)
    requires RowsOk(site, b) && RefundsOk(b, refunds)
    ensures forall k :: 0 <= k < |Returned(b, refunds).refunds| ==>
              RefundChecks(Returned(b, refunds), Returned(b, refunds).refunds[k])
    ensures Extends(b, Returned(b, refunds))
  {
    var after := Returned(b, refunds);
    OldRowsStand(site, b, after);
    forall k | 0 <= k < |after.refunds| ensures RefundChecks(after, after.refunds[k]) {
      if k >= |b.refunds| { assert RefundChecks(b, refunds[k - |b.refunds|]); }
    }
  }

  lemma {:induction false} RefundedIsNonneg(b: Books, refunds: seq<Refund>, k: nat)
    requires RefundsOk(b, refunds)
    ensures Sum(refunds, RefundedOn(k)) >= 0
  {
    forall j | 0 <= j < |refunds| ensures RefundedOn(k)(refunds[j]) >= 0 { assert RefundChecks(b, refunds[j]); }
    SumNonneg(refunds, RefundedOn(k));
  }

  lemma ReturnedOrders(site: Site, b: Books, refunds: seq<Refund>)
    requires Ledger(site, b) && RefundsOk(b, refunds)
    ensures forall k :: 0 <= k < |b.orders| ==> OrderChecks(Returned(b, refunds).orders[k])
    ensures OrdersFit(Returned(b, refunds))
  {
    var after := Returned(b, refunds);
    ReturnedHolds(b, refunds);
    ReturnedReconciles(b, refunds);
    ReturnedRefs(site, b, refunds);
    forall k | 0 <= k < |b.orders|
      ensures OrderChecks(after.orders[k])
      ensures after.orders[k].NetPaid() <= after.orders[k].total && after.orders[k] == Recomputed(after.orders[k])
      ensures after.orders[k].cancelled ==> after.orders[k].NetPaid() == 0
    {
      RefundedIsNonneg(b, refunds, k);
      RefundsWithinPaid(after, k);
      assert OrderChecks(b.orders[k]);
    }
  }

  lemma ReturnedTotals(b: Books, refunds: seq<Refund>)
    requires AllTotalsMatch(b)
    ensures AllTotalsMatch(Returned(b, refunds))
  {
    forall id | 0 <= id < |b.settlements| ensures TotalMatches(Returned(b, refunds), id) { assert TotalMatches(b, id); }
  }

  lemma ReturnedLedger(site: Site, b: Books, refunds: seq<Refund>)
    requires Ledger(site, b) && RefundsOk(b, refunds) && UniqueRefundKeys(b.refunds + refunds)
    ensures Ledger(site, Returned(b, refunds))
  {
    ReturnedRefs(site, b, refunds);
    ReturnedOrders(site, b, refunds);
    ReturnedHolds(b, refunds);
    ReturnedReconciles(b, refunds);
    ReturnedTotals(b, refunds);
    OldRowsStand(site, b, Returned(b, refunds));
  }

  /** A refund linked to no issue leaves every issue's story as it was. */
  lemma UnlinkedRefundTells(b: Books, r: Refund)
    requires IssuesTell(b) && r.issue.None?
    ensures IssuesTell(Returned(b, [r]))
  {
    var after := Returned(b, [r]);
    forall issue | 0 <= issue < |b.issues| ensures IssueTells(after, issue) {
      assert IssueTells(b, issue);
      SumAppend(b.refunds, r, StrayCount(issue, b.issues[issue]));
      SumAppend(b.refunds, r, LinkCount(issue));
      SumAppend(b.refunds, r, LinkedTo(issue));
    }
  }

  lemma RefundAccepted(site: Site, b: Books, refunds: seq<Refund>)
    requires Ledger(site, Returned(b, refunds)) && IssuesTell(Returned(b, refunds))
    ensures Kept(site, b, Returned(b, refunds))
  {}

  lemma OneRefundKeeps(site: Site, b: Books, r: Refund)
    requires Sound(site, b) && RefundChecks(b, r) && r.amount <= RefundableOf(b, r.allocation) && r.issue.None?
    requires forall k :: 0 <= k < |b.refunds| ==> b.refunds[k].store != r.store || b.refunds[k].key != r.key
    ensures Kept(site, b, Returned(b, [r]))
  {
    forall a | 0 <= a < |b.allocations| ensures Sum([r], RefundedFrom(a)) <= RefundableOf(b, a) {
      SumSingle([r], 0, RefundedFrom(a));
    }
    ReturnedLedger(site, b, [r]);
    UnlinkedRefundTells(b, r);
    RefundAccepted(site, b, [r]);
  }

  lemma RefundKeeps(site: Site, b: Books, staff: Staff, allocation: nat, amount: int, reason: string, key: string,
                    now: int)
    requires Sound(site, b) && site.WorksAt(staff.user, staff.store)
    ensures Kept(site, b, RefundStep(b, staff, allocation, amount, reason, key, now).0)
  {
    RefusalKeeps(site, b);
    if RefundStep(b, staff, allocation, amount, reason, key, now).1.Done? {
      var a := b.allocations[allocation];
      var r := Refund(staff.store, a.settlement, allocation, a.order, amount, staff.user, now, Strip(reason),
                      Direct(Strip(key)), RefundBody(allocation, amount, Strip(reason)), None);
      OneRefundKeeps(site, b, r);
    }
  }

  // ── Cancelling ─────────────────────────────────────────────────────────────

  lemma CancelledLedger(site: Site, b: Books, order: nat)
    requires Ledger(site, b) && order < |b.orders| && b.orders[order].NetPaid() == 0
    ensures Ledger(site, CancelledAt(b, order))
  {
    var after := CancelledAt(b, order);
    OldRowsStand(site, b, after);
    forall id | 0 <= id < |b.settlements| ensures TotalMatches(after, id) { assert TotalMatches(b, id); }
    forall k | 0 <= k < |b.orders| ensures OrderChecks(after.orders[k]) { assert OrderChecks(b.orders[k]); }
    forall a | 0 <= a < |b.allocations| ensures RefundableOf(after, a) >= 0 { assert RefundableOf(b, a) >= 0; }
  }

  lemma CancelKeeps(site: Site, b: Books, order: nat)
    requires Sound(site, b)
    ensures Kept(site, b, CancelStep(b, order).0)
  {
    RefusalKeeps(site, b);
    if CancelStep(b, order).1.Done? {
      assert OrderChecks(b.orders[order]);
      CancelledLedger(site, b, order);
      var after := CancelledAt(b, order);
      forall issue | 0 <= issue < |b.issues| ensures IssueTells(after, issue) { assert IssueTells(b, issue); }
    }
  }
}
