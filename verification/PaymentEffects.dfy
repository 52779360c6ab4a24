/** What an accepted till or issue command leaves in the books, in the words of its own
    request, and exactly when a command is accepted. */
module PaymentEffects {
  import opened Tables
  import opened Text
  import opened Payments
  import opened PaymentCommands
  import opened PaymentSafety
  import opened IssueSafety
  import opened PaymentRuns

  // ── What the statuses say ──────────────────────────────────────────────────

  /** The two statuses of an order, by the money it holds and gave back. */
  ghost predicate StatusesTell(o: Order) {
    && (o.payment == Unpaid <==> o.paid <= o.refunded)
    && (o.payment == PartiallyPaid <==> 0 < o.paid - o.refunded < o.total)
    && (o.payment == Paid <==> 0 < o.paid - o.refunded && o.total <= o.paid - o.refunded)
    && (o.refund == NotRefunded <==> o.refunded <= 0)
    && (o.refund == PartiallyRefunded <==> 0 < o.refunded < o.paid)
    && (o.refund == Refunded <==> 0 < o.refunded && o.paid <= o.refunded)
  }

  /** No status is ever stale. */
  lemma {:induction false} StatusesTellInEveryRun(site: Site, b: Books, events: seq<Event>, k: nat)
    requires Settled(site, b) && Proper(site, events) && k < |Run(site, b, events).orders|
    ensures StatusesTell(Run(site, b, events).orders[k])
  {
    EveryReachableStateIsSettled(site, b, events);
  }

  // ── Paying one order ───────────────────────────────────────────────────────

  /** What the order still owes: nothing once it is paid. */
  function Balance(o: Order): int { if o.paid - o.refunded < o.total then o.total - (o.paid - o.refunded) else 0 }

  /** The order with its money figures and the statuses that follow from them. */
  ghost predicate HoldsNow(before: Order, after: Order, paid: int, refunded: int, cancelled: bool) {
    && StatusesTell(after)
    && after == before.(paid := paid, refunded := refunded, cancelled := cancelled,
                        payment := after.payment, refund := after.refund)
  }

  /** Only this order's row changed. */
  ghost predicate OnlyOrder(before: seq<Order>, after: seq<Order>, order: nat) {
    |after| == |before| && order < |before| && forall k :: 0 <= k < |before| && k != order ==> after[k] == before[k]
  }

  /** One settlement of the amount, allocated to the order and nowhere else. */
  ghost predicate OrderCollected(before: Books, after: Books, staff: Staff, order: nat, amount: int, tender: Tender,
                                 key: string, body: Request, now: int)
  {
    && OnlyOrder(before.orders, after.orders, order)
    && var o := before.orders[order];
       && HoldsNow(o, after.orders[order], o.paid + amount, o.refunded, o.cancelled)
       && after == before.(
            orders := after.orders,
            settlements := before.settlements
              + [Settlement(staff.store, o.table, staff.user, tender, amount, now, Strip(key), body)],
            allocations := before.allocations + [Allocation(|before.settlements|, order, amount)])
  }

  lemma {:induction false} OneOrderInFull(b: Books, order: nat, n: nat)
    requires n <= |b.orders|
    ensures FullShares(b, {order}, n) ==
              if order < n && b.orders[order].Outstanding() > 0 then [Share(order, b.orders[order].Outstanding())]
              else []
  {
    if n > 0 {
      OneOrderInFull(b, order, n - 1);
    }
  }

  lemma PostedToOne(b: Books, staff: Staff, order: nat, amount: int, tender: Tender, key: string, body: Request,
                    now: int)
    requires order < |b.orders| && amount > 0
    ensures var shares := [Share(order, amount)];
            var s := NewSettlement(staff, b.orders[order].table, shares, tender, Strip(key), body, now);
            OrderCollected(b, Posted(b, s, shares), staff, order, amount, tender, key, body, now)
  {
    var shares := [Share(order, amount)];
    SumSingle(shares, 0, ShareAmount());
    forall k | 0 <= k < |b.orders| ensures Sum(shares, ShareOf(k)) == if k == order then amount else 0 {
      SumSingle(shares, 0, ShareOf(k));
    }
    assert AllocationsFor(|b.settlements|, shares) == [Allocation(|b.settlements|, order, amount)];
  }

  lemma CollectPartOfOne(site: Site, b: Books, staff: Staff, order: nat, amount: int, tender: Tender, key: string,
                         body: Request, now: int)
    requires order < |b.orders| && amount > 0
    ensures var (after, outcome) := Collect(site, b, staff, b.orders[order].table, {order}, Some(amount), false, tender,
                                            Strip(key), body, now);
            outcome.Done? ==>
              && outcome.id == |b.settlements| && amount <= Balance(b.orders[order])
              && OrderCollected(b, after, staff, order, amount, tender, key, body, now)
  {
    assert order in {order};
    assert First(b, {order}, |b.orders|) == order;
    PostedToOne(b, staff, order, amount, tender, key, body, now);
  }

  lemma CollectAllOfOne(site: Site, b: Books, staff: Staff, order: nat, tender: Tender, key: string, body: Request,
                        now: int)
    requires order < |b.orders|
    ensures var (after, outcome) := Collect(site, b, staff, b.orders[order].table, {order}, None, false, tender,
                                            Strip(key), body, now);
            outcome.Done? ==>
              && outcome.id == |b.settlements| && Balance(b.orders[order]) > 0
              && OrderCollected(b, after, staff, order, Balance(b.orders[order]), tender, key, body, now)
  {
    OneOrderInFull(b, order, |b.orders|);
    if Balance(b.orders[order]) > 0 {
      PostedToOne(b, staff, order, Balance(b.orders[order]), tender, key, body, now);
    }
  }

  /** A payment takes what was tendered for that order, or the whole of what it owes,
      and never more than it owes. */
  lemma PayingCollectsWhatWasAsked(site: Site, b: Books, staff: Staff, order: nat, part: Option<int>, tender: Tender,
                                   note: string, key: string, now: int)
    requires Exec(site, b, PayOrder(staff, order, part, tender, note, key), now).1.Done?
    ensures order < |b.orders|
    ensures var (after, outcome) := Exec(site, b, PayOrder(staff, order, part, tender, note, key), now);
            var amount := if part.Some? then part.value else Balance(b.orders[order]);
            && outcome.id == |b.settlements| && 0 < amount <= Balance(b.orders[order])
            && OrderCollected(b, after, staff, order, amount, tender, key, OrderPaymentBody(order, part, tender, note),
                              now)
  {
    var body := OrderPaymentBody(order, part, tender, note);
    if part.Some? {
      CollectPartOfOne(site, b, staff, order, part.value, tender, key, body, now);
    } else {
      CollectAllOfOne(site, b, staff, order, tender, key, body, now);
    }
  }

  /** No settlement of the store carries the key yet. */
  ghost predicate NewKey(b: Books, store: int, key: string) {
    forall k :: 0 <= k < |b.settlements| && b.settlements[k].store == store ==> b.settlements[k].key != key
  }

  lemma NewKeyMeans(b: Books, store: int, key: string)
    ensures NewKey(b, store, key) <==> Find(b.settlements, SettlementKeyed(store, key)) == |b.settlements|
  {
    var k := Find(b.settlements, SettlementKeyed(store, key));
    forall i | 0 <= i < k ensures !SettlementKeyed(store, key)(b.settlements[i]) {}
  }

  /** A live order of the staff's own store, at a table of that store or at none. */
  ghost predicate MayPay(site: Site, b: Books, staff: Staff, order: nat) {
    && order < |b.orders| && b.orders[order].store == staff.store && !b.orders[order].cancelled
    && (b.orders[order].table.Some? ==>
          b.orders[order].table.value in site.tables && site.tables[b.orders[order].table.value] == staff.store)
  }

  lemma {:induction false} OneIsolated(b: Books, staff: Staff, order: nat, n: nat)
    requires n <= |b.orders|
    ensures IsolationError(b, staff, {order}, n).None? <==>
              order < n ==> b.orders[order].store == staff.store && !b.orders[order].cancelled
  {
    if n > 0 {
      OneIsolated(b, staff, order, n - 1);
    }
  }

  lemma GatheringOne(site: Site, b: Books, staff: Staff, order: nat)
    requires order < |b.orders|
    ensures GatherError(site, b, staff, b.orders[order].table, {order}).None? <==> MayPay(site, b, staff, order)
  {
    OneIsolated(b, staff, order, |b.orders|);
    assert order in {order};
  }

  lemma CollectsFromOneExactlyWhen(site: Site, b: Books, staff: Staff, order: nat, part: Option<int>, tender: Tender,
                                   key: string, body: Request, now: int)
    requires order < |b.orders|
    ensures Collect(site, b, staff, b.orders[order].table, {order}, part, false, tender, key, body, now).1.Done? <==>
              && MayPay(site, b, staff, order) && Balance(b.orders[order]) > 0
              && (part.Some? ==> part.value <= Balance(b.orders[order]))
  {
    GatheringOne(site, b, staff, order);
    assert order in {order};
    assert First(b, {order}, |b.orders|) == order;
    OneOrderInFull(b, order, |b.orders|);
  }

  /** A payment is accepted exactly when its key is new and the order is live, its own
      store's and owes at least what is tendered. */
  lemma PaymentsAreAcceptedExactlyWhen(site: Site, b: Books, staff: Staff, order: nat, part: Option<int>,
                                       tender: Tender, note: string, key: string, now: int)
    ensures Exec(site, b, PayOrder(staff, order, part, tender, note, key), now).1.Done? <==>
              && Strip(key) != "" && NewKey(b, staff.store, Strip(key)) && MayPay(site, b, staff, order)
              && Balance(b.orders[order]) > 0
              && (part.Some? ==> 0 < part.value <= Balance(b.orders[order]))
  {
    NewKeyMeans(b, staff.store, Strip(key));
    if order < |b.orders| {
      CollectsFromOneExactlyWhen(site, b, staff, order, part, tender, Strip(key),
                                 OrderPaymentBody(order, part, tender, note), now);
    }
  }

  // ── Settling a table ───────────────────────────────────────────────────────

  /** The whole balance of every selected order that owes something, once, in order. */
  ghost predicate BalancesOf(b: Books, ids: set<nat>, settlement: nat, added: seq<Allocation>) {
    && (forall j :: 0 <= j < |added| ==>
          && added[j].settlement == settlement && added[j].order < |b.orders| && added[j].order in ids
          && added[j].amount == Balance(b.orders[added[j].order]) > 0)
    && (forall i, j :: 0 <= i < j < |added| ==> added[i].order < added[j].order)
    && (forall k :: 0 <= k < |b.orders| && k in ids && Balance(b.orders[k]) > 0 ==>
          exists j :: 0 <= j < |added| && added[j].order == k)
  }

  /** One settlement for the table; every selected order that owed something is paid. */
  ghost predicate TableCollected(before: Books, after: Books, staff: Staff, table: int, ids: set<nat>, tender: Tender,
                                 key: string, body: Request, now: int)
    requires |before.allocations| <= |after.allocations|
  {
    var added := after.allocations[|before.allocations|..];
    && before.allocations <= after.allocations && BalancesOf(before, ids, |before.settlements|, added)
    && after == before.(
         orders := after.orders, allocations := after.allocations,
         settlements := before.settlements
           + [Settlement(staff.store, Some(table), staff.user, tender, Sum(added, (a: Allocation) => a.amount), now,
                         Strip(key), body)])
    && |after.orders| == |before.orders|
    && forall k :: 0 <= k < |before.orders| ==>
         var o := before.orders[k];
         if k in ids && Balance(o) > 0
         then HoldsNow(o, after.orders[k], o.paid + Balance(o), o.refunded, o.cancelled)
              && Balance(after.orders[k]) == 0
         else after.orders[k] == o
  }

  lemma {:induction false} FullSharesCover(b: Books, ids: set<nat>, n: nat)
    requires n <= |b.orders|
    ensures forall i, j :: 0 <= i < j < |FullShares(b, ids, n)| ==>
              FullShares(b, ids, n)[i].order < FullShares(b, ids, n)[j].order
    ensures forall k :: 0 <= k < n && HasBalance(b, ids, k) ==>
              exists j :: 0 <= j < |FullShares(b, ids, n)| && FullShares(b, ids, n)[j].order == k
  {
    if n > 0 {
      FullSharesCover(b, ids, n - 1);
      FullSharesRows(b, ids, n - 1);
      var front, all := FullShares(b, ids, n - 1), FullShares(b, ids, n);
      forall k | 0 <= k < n && HasBalance(b, ids, k) ensures exists j :: 0 <= j < |all| && all[j].order == k {
        if k < n - 1 {
          var j :| 0 <= j < |front| && front[j].order == k;
          assert all[j].order == k;
        } else {
          assert all[|front|].order == k;
        }
      }
    }
  }

  lemma {:induction false} FullSharesAreBalances(b: Books, ids: set<nat>, id: nat)
    ensures BalancesOf(b, ids, id, AllocationsFor(id, FullShares(b, ids, |b.orders|)))
  {
    var shares, added := FullShares(b, ids, |b.orders|), AllocationsFor(id, FullShares(b, ids, |b.orders|));
    FullSharesRows(b, ids, |b.orders|);
    FullSharesCover(b, ids, |b.orders|);
    forall k | 0 <= k < |b.orders| && k in ids && Balance(b.orders[k]) > 0
      ensures exists j :: 0 <= j < |added| && added[j].order == k
    {
      assert HasBalance(b, ids, k);
      var j :| 0 <= j < |shares| && shares[j].order == k;
      assert added[j].order == k;
    }
  }

  lemma CreditedInFull(b: Books, ids: set<nat>, k: nat)
    requires k < |b.orders|
    ensures var o := b.orders[k];
            var after := CreditAll(b.orders, FullShares(b, ids, |b.orders|))[k];
            if k in ids && Balance(o) > 0
            then HoldsNow(o, after, o.paid + Balance(o), o.refunded, o.cancelled) && Balance(after) == 0
            else after == o
  {
    FullSharesTotals(b, ids, |b.orders|, k);
  }

  lemma PostedToTable(b: Books, staff: Staff, table: int, ids: set<nat>, tender: Tender, key: string, body: Request,
                      now: int)
    ensures var shares := FullShares(b, ids, |b.orders|);
            var s := NewSettlement(staff, Some(table), shares, tender, Strip(key), body, now);
            |b.allocations| <= |Posted(b, s, shares).allocations|
            && TableCollected(b, Posted(b, s, shares), staff, table, ids, tender, key, body, now)
  {
    var shares := FullShares(b, ids, |b.orders|);
    var s := NewSettlement(staff, Some(table), shares, tender, Strip(key), body, now);
    var after := Posted(b, s, shares);
    var added := AllocationsFor(|b.settlements|, shares);
    assert after.allocations[|b.allocations|..] == added;
    FullSharesAreBalances(b, ids, |b.settlements|);
    SumPointwise(added, (a: Allocation) => a.amount, shares, ShareAmount());
    forall k | 0 <= k < |b.orders|
      ensures var o := b.orders[k];
              if k in ids && Balance(o) > 0
              then HoldsNow(o, after.orders[k], o.paid + Balance(o), o.refunded, o.cancelled)
                   && Balance(after.orders[k]) == 0
              else after.orders[k] == o
    {
      CreditedInFull(b, ids, k);
    }
  }

  /** Settling a table pays every selected order exactly what it owed, in one
      settlement whose total is what was allocated. */
  lemma SettlingPaysWhatIsOwed(site: Site, b: Books, staff: Staff, table: int, ids: set<nat>, tender: Tender,
                               note: string, key: string, now: int)
    requires Exec(site, b, SettleTable(staff, table, ids, tender, note, key), now).1.Done?
    ensures var (after, outcome) := Exec(site, b, SettleTable(staff, table, ids, tender, note, key), now);
            && outcome.id == |b.settlements| && |b.allocations| <= |after.allocations|
            && TableCollected(b, after, staff, table, ids, tender, key, SettlementBody(table, ids, tender, note), now)
  {
    PostedToTable(b, staff, table, ids, tender, key, SettlementBody(table, ids, tender, note), now);
  }

  /** The selected orders exist, are live and stand on this table of this store. */
  ghost predicate MaySettle(site: Site, b: Books, staff: Staff, table: int, ids: set<nat>) {
    && table in site.tables && site.tables[table] == staff.store
    && forall k :: k in ids ==>
         && k < |b.orders| && b.orders[k].store == staff.store && !b.orders[k].cancelled
         && b.orders[k].table == Some(table)
  }

  lemma {:induction false} IsolatedExactlyWhen(b: Books, staff: Staff, ids: set<nat>, n: nat)
    requires n <= |b.orders|
    ensures IsolationError(b, staff, ids, n).None? <==>
              forall k :: 0 <= k < n && k in ids ==> b.orders[k].store == staff.store && !b.orders[k].cancelled
  {
    if n > 0 {
      IsolatedExactlyWhen(b, staff, ids, n - 1);
    }
  }

  lemma GatheringATable(site: Site, b: Books, staff: Staff, table: int, ids: set<nat>)
    ensures GatherError(site, b, staff, Some(table), ids).None? <==> MaySettle(site, b, staff, table, ids)
  {
    IsolatedExactlyWhen(b, staff, ids, |b.orders|);
    if GatherError(site, b, staff, Some(table), ids).None? {
      forall k | k in ids ensures k < |b.orders| && b.orders[k].table == Some(table) {
        assert k < |b.orders|;
      }
    }
  }

  /** A table is settled exactly when the key is new, its orders may be paid there,
      something is owed, and no order that owes was refunded before: money given back
      is not silently collected again. */
  lemma SettlementsAreAcceptedExactlyWhen(site: Site, b: Books, staff: Staff, table: int, ids: set<nat>,
                                          tender: Tender, note: string, key: string, now: int)
    ensures Exec(site, b, SettleTable(staff, table, ids, tender, note, key), now).1.Done? <==>
              && Strip(key) != "" && NewKey(b, staff.store, Strip(key)) && MaySettle(site, b, staff, table, ids)
              && (exists k :: 0 <= k < |b.orders| && k in ids && Balance(b.orders[k]) > 0)
              && forall k :: 0 <= k < |b.orders| && k in ids && Balance(b.orders[k]) > 0 ==>
                   b.orders[k].refund == NotRefunded
  {
    NewKeyMeans(b, staff.store, Strip(key));
    GatheringATable(site, b, staff, table, ids);
    var n := |b.orders|;
    FullSharesRows(b, ids, n);
    FullSharesCover(b, ids, n);
    assert forall k :: 0 <= k < n ==> (HasBalance(b, ids, k) <==> k in ids && Balance(b.orders[k]) > 0);
    if FullShares(b, ids, n) != [] {
      var k := FullShares(b, ids, n)[0].order;
      assert k in ids && Balance(b.orders[k]) > 0;
    }
  }

  // ── Refunding an allocation ────────────────────────────────────────────────

  /** What the allocation can still give back. */
  function Left(b: Books, allocation: nat): int
    requires allocation < |b.allocations|
  {
    b.allocations[allocation].amount
    - Sum(b.refunds, (r: Refund) => if r.allocation == allocation then r.amount else 0)
  }

  lemma LeftIsRefundable(b: Books, allocation: nat)
    requires allocation < |b.allocations|
    ensures Left(b, allocation) == RefundableOf(b, allocation)
  {
    SumPointwise(b.refunds, (r: Refund) => if r.allocation == allocation then r.amount else 0, b.refunds,
                 RefundedFrom(allocation));
  }

  /** One refund of the amount, of that allocation, and its order gave back as much more. */
  ghost predicate AllocationRefunded(before: Books, after: Books, staff: Staff, allocation: nat, amount: int,
                                     reason: string, key: string, now: int)
    requires allocation < |before.allocations|
  {
    var a := before.allocations[allocation];
    && OnlyOrder(before.orders, after.orders, a.order)
    && var o := before.orders[a.order];
       && HoldsNow(o, after.orders[a.order], o.paid, o.refunded + amount, o.cancelled)
       && after == before.(
            orders := after.orders,
            refunds := before.refunds
              + [Refund(staff.store, a.settlement, allocation, a.order, amount, staff.user, now, Strip(reason),
                        Direct(Strip(key)), RefundBody(allocation, amount, Strip(reason)), None)])
  }

  /** A refund gives back what was asked, from the allocation that was named. */
  lemma RefundingGivesBackWhatWasAsked(site: Site, b: Books, staff: Staff, allocation: nat, amount: int,
                                       reason: string, key: string, now: int)
    requires Exec(site, b, RefundAllocation(staff, allocation, amount, reason, key), now).1.Done?
    ensures allocation < |b.allocations| && 0 < amount <= Left(b, allocation)
    ensures var (after, outcome) := Exec(site, b, RefundAllocation(staff, allocation, amount, reason, key), now);
            && outcome.id == |b.refunds|
            && AllocationRefunded(b, after, staff, allocation, amount, reason, key, now)
  {
    LeftIsRefundable(b, allocation);
    var a := b.allocations[allocation];
    var row := Refund(staff.store, a.settlement, allocation, a.order, amount, staff.user, now, Strip(reason),
                      Direct(Strip(key)), RefundBody(allocation, amount, Strip(reason)), None);
    forall k | 0 <= k < |b.orders| ensures Sum([row], RefundedOn(k)) == if k == a.order then amount else 0 {
      SumSingle([row], 0, RefundedOn(k));
    }
  }

  lemma RefundsAreAcceptedExactlyWhen(site: Site, b: Books, staff: Staff, allocation: nat, amount: int,
                                      reason: string, key: string, now: int)
    ensures Exec(site, b, RefundAllocation(staff, allocation, amount, reason, key), now).1.Done? <==>
              && Strip(key) != "" && Strip(reason) != ""
              && (forall k :: 0 <= k < |b.refunds| && b.refunds[k].store == staff.store ==>
                    b.refunds[k].key != Direct(Strip(key)))
              && allocation < |b.allocations|
              && var a := b.allocations[allocation];
                 && a.settlement < |b.settlements| && b.settlements[a.settlement].store == staff.store
                 && a.order < |b.orders| && b.orders[a.order].store == staff.store
                 && 0 < amount <= Left(b, allocation)
  {
    var keyed := Find(b.refunds, RefundKeyed(staff.store, Direct(Strip(key))));
    forall i | 0 <= i < keyed ensures !RefundKeyed(staff.store, Direct(Strip(key)))(b.refunds[i]) {}
    if allocation < |b.allocations| { LeftIsRefundable(b, allocation); }
  }

  // ── Cancelling in the kitchen ──────────────────────────────────────────────

  /** Cancelling marks the order and moves no money; it is refused exactly when there is
      no such live order or it still holds money. */
  lemma CancellingMovesNoMoney(site: Site, b: Books, order: nat, now: int)
    ensures var (after, outcome) := Exec(site, b, CancelInKitchen(order), now);
            && (outcome.Done? <==>
                  order < |b.orders| && !b.orders[order].cancelled && b.orders[order].paid <= b.orders[order].refunded)
            && (outcome.Done? ==>
                  after == b.(orders := b.orders[order := b.orders[order].(cancelled := true)]))
            && (!outcome.Done? ==> after == b)
  {}

  // ── Reporting an issue ─────────────────────────────────────────────────────

  /** A report records one open issue with what was asked for, and moves no money; what
      it may ask for is bounded by what the order still holds. */
  lemma ReportingRecordsTheIssue(site: Site, b: Books, staff: Staff, order: nat, kind: string, requested: Option<int>,
                                 reason: string, note: string, key: string, now: int)
    ensures var (after, outcome) := Exec(site, b, OpenIssue(staff, order, kind, requested, reason, note, key), now);
            && (outcome.Done? <==>
                  && Strip(key) != "" && Strip(reason) != ""
                  && (forall k :: 0 <= k < |b.issues| && b.issues[k].store == staff.store ==>
                        b.issues[k].createdKey != Strip(key))
                  && order < |b.orders| && b.orders[order].store == staff.store
                  && (requested.Some? ==>
                        && 0 <= requested.value
                        && (requested.value == 0
                            || requested.value <= b.orders[order].paid - b.orders[order].refunded)))
            && (outcome.Done? ==>
                  && outcome.id == |b.issues|
                  && after == b.(issues := b.issues + [
                       Issue(staff.store, order, Open, requested, staff.user, Strip(key),
                             IssueBody(order, kind, requested, Strip(reason), Strip(note)), None, None, None, None,
                             None, None, None)]))
            && (!outcome.Done? ==> after == b)
  {
    var keyed := Find(b.issues, IssueKeyed(staff.store, Strip(key)));
    forall i | 0 <= i < keyed ensures !IssueKeyed(staff.store, Strip(key))(b.issues[i]) {}
  }

  // ── Resolving an issue ─────────────────────────────────────────────────────

  /** What the resolution gives back: all that is held, what was approved, or nothing. */
  function Approved(o: Order, resolution: Resolution, approved: Option<int>): int {
    match resolution
    case FullRefund => o.paid - o.refunded
    case PartialRefund => if approved.Some? then approved.value else 0
    case NoRefundNeeded => 0
    case CancelOnly => 0
  }

  /** A refund row of this resolution: of the issue, its order and one of that order's
      own allocations. */
  predicate GivenFor(b: Books, r: Refund, staff: Staff, id: nat, reason: string, key: string, now: int)
    requires id < |b.issues|
  {
    && r.issue == Some(id) && r.order == b.issues[id].order && r.store == b.issues[id].store
    && r.amount > 0 && r.refundedBy == staff.user && r.at == now && r.reason == reason
    && r.allocation < |b.allocations| && b.allocations[r.allocation].order == r.order
    && b.allocations[r.allocation].settlement == r.settlement
    && r.key == ForIssue(key, id, r.allocation) && r.request == IssueRefundBody(id, r.allocation, r.amount, reason)
  }

  ghost predicate MoneyGiven(before: Books, after: Books, staff: Staff, id: nat, given: int, reason: string,
                             key: string, now: int)
    requires id < |before.issues|
  {
    && before.refunds <= after.refunds
    && (forall k :: |before.refunds| <= k < |after.refunds| ==>
          GivenFor(before, after.refunds[k], staff, id, Strip(reason), Strip(key), now))
    && Sum(after.refunds[|before.refunds|..], (r: Refund) => r.amount) == given
  }

  /** The issue's own record of how it ended. */
  function RecordOf(i: Issue, staff: Staff, id: nat, resolution: Resolution, approved: Option<int>, given: int,
                    refund: Option<nat>, reason: string, note: string, key: string, now: int): Issue
  {
    i.(status := Resolved, resolution := Some(resolution), approved := Some(given), refund := refund,
       resolvedBy := Some(staff.user), resolvedAt := Some(now), resolvedKey := Some(Strip(key)),
       resolvedBody := Some(ResolutionBody(id, resolution, approved, Strip(reason), Strip(note))))
  }

  ghost predicate IssueResolved(before: Books, after: Books, staff: Staff, id: nat, resolution: Resolution,
                                approved: Option<int>, given: int, reason: string, note: string, key: string,
                                now: int)
  {
    && id < |before.issues| && before.issues[id].status.Open?
    && var i := before.issues[id];
       && MoneyGiven(before, after, staff, id, given, reason, key, now)
       && OnlyOrder(before.orders, after.orders, i.order)
       && var o := before.orders[i.order];
          && HoldsNow(o, after.orders[i.order], o.paid, o.refunded + given,
                      o.cancelled || resolution == FullRefund || resolution == CancelOnly)
          && after == before.(
               orders := after.orders, refunds := after.refunds,
               issues := before.issues[id := RecordOf(i, staff, id, resolution, approved, given,
                                                      if given > 0 then Some(|before.refunds|) else None, reason, note,
                                                      key, now)])
  }

  lemma GrantedIsGiven(site: Site, b: Books, staff: Staff, id: nat, amount: int, reason: string, key: string, now: int)
    requires Settled(site, b) && id < |b.issues| && b.issues[id].status.Open? && reason != ""
    requires b.issues[id].order < |b.orders| && b.orders[b.issues[id].order].store == b.issues[id].store
    requires 0 <= amount <= b.orders[b.issues[id].order].Refundable()
    ensures var refunds := GrantedRefunds(b, staff, id, amount, reason, key, now);
            && (refunds != [] <==> amount > 0)
            && (forall k :: 0 <= k < |refunds| ==> GivenFor(b, refunds[k], staff, id, reason, key, now))
            && Sum(refunds, (r: Refund) => r.amount) == amount
  {
    var refunds := GrantedRefunds(b, staff, id, amount, reason, key, now);
    RefundsAreGranted(site, b, staff, id, amount, reason, key, now);
    SplitRows(b, b.issues[id].order, amount, |b.allocations|);
    SumPointwise(refunds, LinkedTo(id), refunds, (r: Refund) => r.amount);
  }

  lemma DebitedOnce(b: Books, id: nat, staff: Staff, amount: int, refunds: seq<Refund>, reason: string, key: string,
                    now: int)
    requires id < |b.issues| && b.issues[id].order < |b.orders|
    requires forall k :: 0 <= k < |refunds| ==> GivenFor(b, refunds[k], staff, id, reason, key, now)
    requires Sum(refunds, (r: Refund) => r.amount) == amount
    ensures forall k :: 0 <= k < |b.orders| ==>
              DebitAll(b.orders, refunds)[k] ==
                if k == b.issues[id].order then Debited(b.orders[k], amount) else b.orders[k]
  {
    forall k | 0 <= k < |b.orders|
      ensures Sum(refunds, RefundedOn(k)) == if k == b.issues[id].order then amount else 0
    {
      if k == b.issues[id].order {
        SumPointwise(refunds, RefundedOn(k), refunds, (r: Refund) => r.amount);
      } else {
        SumZero(refunds, RefundedOn(k));
      }
    }
  }

  lemma MoneyBackRow(b: Books, staff: Staff, id: nat, amount: int, cancels: bool, refunds: seq<Refund>,
                     reason: string, key: string, now: int)
    requires id < |b.issues| && b.issues[id].order < |b.orders| && amount >= 0
    requires refunds != [] <==> amount > 0
    requires forall k :: 0 <= k < |refunds| ==> GivenFor(b, refunds[k], staff, id, reason, key, now)
    requires Sum(refunds, (r: Refund) => r.amount) == amount && StatusesTell(b.orders[b.issues[id].order])
    ensures var order := b.issues[id].order;
            var o, after := b.orders[order], MoneyBack(b, refunds, order, cancels);
            && OnlyOrder(b.orders, after.orders, order)
            && HoldsNow(o, after.orders[order], o.paid, o.refunded + amount, o.cancelled || cancels)
            && after == b.(orders := after.orders, refunds := b.refunds + refunds)
  {
    DebitedOnce(b, id, staff, amount, refunds, reason, key, now);
    assert b.refunds + [] == b.refunds;
  }

  lemma RowsAreGiven(b: Books, after: Books, staff: Staff, id: nat, amount: int, refunds: seq<Refund>, reason: string,
                     key: string, now: int)
    requires id < |b.issues| && after.refunds == b.refunds + refunds
    requires forall k :: 0 <= k < |refunds| ==> GivenFor(b, refunds[k], staff, id, Strip(reason), Strip(key), now)
    requires Sum(refunds, (r: Refund) => r.amount) == amount
    ensures MoneyGiven(b, after, staff, id, amount, reason, key, now)
  {
    assert after.refunds[|b.refunds|..] == refunds;
  }

  lemma RecordedIsResolved(b: Books, money: Books, after: Books, staff: Staff, id: nat, resolution: Resolution,
                           approved: Option<int>, amount: int, reason: string, note: string, key: string, now: int)
    requires id < |b.issues| && b.issues[id].status.Open?
    requires MoneyGiven(b, after, staff, id, amount, reason, key, now)
    requires money == b.(orders := money.orders, refunds := after.refunds)
    requires OnlyOrder(b.orders, money.orders, b.issues[id].order)
    requires var o := b.orders[b.issues[id].order];
             HoldsNow(o, money.orders[b.issues[id].order], o.paid, o.refunded + amount,
                      o.cancelled || resolution.FullRefund? || resolution.CancelOnly?)
    requires after == money.(issues := b.issues[id := RecordOf(b.issues[id], staff, id, resolution, approved, amount,
                                                               if amount > 0 then Some(|b.refunds|) else None, reason,
                                                               note, key, now)])
    ensures IssueResolved(b, after, staff, id, resolution, approved, amount, reason, note, key, now)
  {}

  lemma CarriedIsResolved(b: Books, staff: Staff, id: nat, resolution: Resolution, approved: Option<int>, amount: int,
                          refunds: seq<Refund>, reason: string, note: string, key: string, now: int)
    requires id < |b.issues| && b.issues[id].status.Open? && b.issues[id].order < |b.orders| && amount >= 0
    requires refunds != [] <==> amount > 0
    requires forall k :: 0 <= k < |refunds| ==> GivenFor(b, refunds[k], staff, id, Strip(reason), Strip(key), now)
    requires Sum(refunds, (r: Refund) => r.amount) == amount && StatusesTell(b.orders[b.issues[id].order])
    ensures IssueResolved(b, Carried(b, staff, id, resolution, amount, resolution.FullRefund? || resolution.CancelOnly?,
                                     refunds, Strip(key),
                                     ResolutionBody(id, resolution, approved, Strip(reason), Strip(note)), now),
                          staff, id, resolution, approved, amount, reason, note, key, now)
  {
    var cancels := resolution.FullRefund? || resolution.CancelOnly?;
    var money := MoneyBack(b, refunds, b.issues[id].order, cancels);
    var after := Carried(b, staff, id, resolution, amount, cancels, refunds, Strip(key),
                         ResolutionBody(id, resolution, approved, Strip(reason), Strip(note)), now);
    MoneyBackRow(b, staff, id, amount, cancels, refunds, Strip(reason), Strip(key), now);
    RowsAreGiven(b, after, staff, id, amount, refunds, reason, key, now);
    RecordedIsResolved(b, money, after, staff, id, resolution, approved, amount, reason, note, key, now);
  }

  lemma OrderOfIssue(site: Site, b: Books, id: nat)
    requires Settled(site, b) && id < |b.issues|
    ensures b.issues[id].order < |b.orders| && b.orders[b.issues[id].order].store == b.issues[id].store
    ensures StatusesTell(b.orders[b.issues[id].order])
    ensures 0 <= b.orders[b.issues[id].order].refunded <= b.orders[b.issues[id].order].paid
  {
    assert IssueKeys(site, b, b.issues[id]) && OrderChecks(b.orders[b.issues[id].order]);
  }

  lemma RuleGrants(o: Order, resolution: Resolution, approved: Option<int>)
    requires 0 <= o.refunded <= o.paid
    ensures Rule(o, resolution, approved).Grant? <==>
              && (resolution.FullRefund? || resolution.PartialRefund? ==> o.refunded < o.paid)
              && (resolution.PartialRefund? ==> approved.Some? && 0 < approved.value <= o.paid - o.refunded)
              && (resolution.CancelOnly? ==> o.paid == o.refunded)
    ensures Rule(o, resolution, approved).Grant? ==>
              Rule(o, resolution, approved) == Grant(Approved(o, resolution, approved),
                                                     resolution.FullRefund? || resolution.CancelOnly?)
  {}

  lemma OpenIsResolved(site: Site, b: Books, staff: Staff, id: nat, resolution: Resolution, approved: Option<int>,
                       reason: string, note: string, key: string, now: int)
    requires Settled(site, b) && id < |b.issues| && b.issues[id].status.Open? && Strip(reason) != ""
    requires b.issues[id].store == staff.store && b.issues[id].order < |b.orders|
    requires Rule(b.orders[b.issues[id].order], resolution, approved).Grant?
    ensures var given := Approved(b.orders[b.issues[id].order], resolution, approved);
            var result := Settle(b, staff, id, resolution, Rule(b.orders[b.issues[id].order], resolution, approved),
                                 Strip(reason), Strip(key),
                                 ResolutionBody(id, resolution, approved, Strip(reason), Strip(note)), now);
            && result.1 == Done(id) && given >= 0
            && IssueResolved(b, result.0, staff, id, resolution, approved, given, reason, note, key, now)
  {
    var body := ResolutionBody(id, resolution, approved, Strip(reason), Strip(note));
    var order := b.issues[id].order;
    var ruling, given := Rule(b.orders[order], resolution, approved), Approved(b.orders[order], resolution, approved);
    OrderOfIssue(site, b, id);
    RuleGrants(b.orders[order], resolution, approved);
    RulingIsCovered(site, b, order, resolution, approved);
    SettleIsCarried(site, b, staff, id, resolution, ruling, Strip(reason), Strip(key), body, now);
    GrantedIsGiven(site, b, staff, id, given, Strip(reason), Strip(key), now);
    CarriedIsResolved(b, staff, id, resolution, approved, given,
                      GrantedRefunds(b, staff, id, given, Strip(reason), Strip(key), now), reason, note, key, now);
  }

  lemma ResolvedThroughOpen(site: Site, b: Books, staff: Staff, id: nat, resolution: Resolution, approved: Option<int>,
                            reason: string, note: string, key: string, now: int)
    requires Exec(site, b, ResolveIssue(staff, id, resolution, approved, reason, note, key), now).1.Done?
    ensures Strip(reason) != ""
    ensures id < |b.issues| && b.issues[id].store == staff.store && b.issues[id].status.Open?
    ensures b.issues[id].order < |b.orders| && Rule(b.orders[b.issues[id].order], resolution, approved).Grant?
    ensures Exec(site, b, ResolveIssue(staff, id, resolution, approved, reason, note, key), now) ==
              Settle(b, staff, id, resolution, Rule(b.orders[b.issues[id].order], resolution, approved), Strip(reason),
                     Strip(key), ResolutionBody(id, resolution, approved, Strip(reason), Strip(note)), now)
  {
    ResolvingCases(b, staff, id, resolution, approved, Strip(reason), Strip(key),
                   ResolutionBody(id, resolution, approved, Strip(reason), Strip(note)), now);
  }

  /** A resolution gives back what was approved and not a kuruş more: the approved amount
      for a partial refund, everything the order still holds for a full one, nothing
      otherwise — all of it in refunds of this issue, from the order's own allocations,
      with the order, its statuses and the issue's record saying the same. */
  lemma ResolvingGivesWhatWasApproved(site: Site, b: Books, staff: Staff, id: nat, resolution: Resolution,
                                      approved: Option<int>, reason: string, note: string, key: string, now: int)
    requires Settled(site, b)
    requires Exec(site, b, ResolveIssue(staff, id, resolution, approved, reason, note, key), now).1.Done?
    ensures id < |b.issues| && b.issues[id].order < |b.orders|
    ensures var (after, outcome) :=
              Exec(site, b, ResolveIssue(staff, id, resolution, approved, reason, note, key), now);
            var given := Approved(b.orders[b.issues[id].order], resolution, approved);
            && outcome.id == id
            && IssueResolved(b, after, staff, id, resolution, approved, given, reason, note, key, now)
  {
    ResolvedThroughOpen(site, b, staff, id, resolution, approved, reason, note, key, now);
    OpenIsResolved(site, b, staff, id, resolution, approved, reason, note, key, now);
  }

  /** What the order's earlier allocations can give back before this one is asked. */
  function EarlierLeft(b: Books, order: nat): int -> int {
    (x: int) => if 0 <= x < |b.allocations| && b.allocations[x].order == order then Left(b, x) else 0
  }

  /** What allocation a of the order has to give: what the earlier ones left to find, as
      far as its own balance goes; nothing unless it is the order's. */
  function ShareOfTurn(b: Books, order: nat, given: int, a: nat): int
    requires a < |b.allocations|
  {
    Clamp(given - Sum(Ids(a), EarlierLeft(b, order)), if b.allocations[a].order == order then Left(b, a) else 0)
  }

  lemma TurnIsTheSplits(b: Books, order: nat, given: int, a: nat)
    requires AllocationsHold(b) && a < |b.allocations|
    ensures ShareOfTurn(b, order, given, a) ==
              Clamp(given - Sum(Ids(a), CouldGive(b, order)), CouldGive(b, order)(a))
    ensures given <= 0 ==> ShareOfTurn(b, order, given, a) == 0
  {
    forall x | 0 <= x < |b.allocations| ensures CouldGive(b, order)(x) == EarlierLeft(b, order)(x) >= 0 {
      LeftIsRefundable(b, x);
      assert RefundableOf(b, x) >= 0;
    }
    SumPointwise(Ids(a), CouldGive(b, order), Ids(a), EarlierLeft(b, order));
    SumNonneg(Ids(a), EarlierLeft(b, order));
    LeftIsRefundable(b, a);
  }

  lemma {:induction false} TakenIsGiven(b: Books, staff: Staff, id: nat, amount: int, reason: string, key: string,
                                        now: int, a: nat)
    requires id < |b.issues| && b.issues[id].order < |b.orders|
    ensures Sum(RefundsFor(b, staff, id, amount, reason, key, now), RefundedFrom(a)) ==
              Sum(Split(b, b.issues[id].order, amount, |b.allocations|), TakenFrom(a))
  {
    SplitRows(b, b.issues[id].order, amount, |b.allocations|);
    SumPointwise(RefundsFor(b, staff, id, amount, reason, key, now), RefundedFrom(a),
                 Split(b, b.issues[id].order, amount, |b.allocations|), TakenFrom(a));
  }

  lemma SplitInTurn(b: Books, order: nat, given: int, a: nat)
    requires AllocationsHold(b) && given >= 0 && a < |b.allocations|
    ensures Sum(Split(b, order, given, |b.allocations|), TakenFrom(a)) == ShareOfTurn(b, order, given, a)
  {
    TurnIsTheSplits(b, order, given, a);
    SplitInClosedForm(b, order, given, |b.allocations|, a);
  }

  lemma {:induction false} GrantedInTurn(b: Books, staff: Staff, id: nat, given: int, reason: string, key: string,
                                         now: int, a: nat)
    requires AllocationsHold(b) && id < |b.issues| && b.issues[id].order < |b.orders| && given >= 0
    requires a < |b.allocations|
    ensures Sum(GrantedRefunds(b, staff, id, given, reason, key, now), RefundedFrom(a)) ==
              ShareOfTurn(b, b.issues[id].order, given, a)
  {
    if given > 0 {
      TakenIsGiven(b, staff, id, given, reason, key, now, a);
      SplitInTurn(b, b.issues[id].order, given, a);
    } else {
      TurnIsTheSplits(b, b.issues[id].order, given, a);
    }
  }

  lemma RefundsAreTheSplit(site: Site, b: Books, staff: Staff, id: nat, resolution: Resolution, approved: Option<int>,
                           reason: string, note: string, key: string, now: int)
    requires Settled(site, b) && id < |b.issues| && b.issues[id].order < |b.orders|
    requires Rule(b.orders[b.issues[id].order], resolution, approved).Grant?
    ensures var after := Settle(b, staff, id, resolution, Rule(b.orders[b.issues[id].order], resolution, approved),
                                Strip(reason), Strip(key),
                                ResolutionBody(id, resolution, approved, Strip(reason), Strip(note)), now).0;
            var given := Approved(b.orders[b.issues[id].order], resolution, approved);
            && given >= 0
            && after.refunds == b.refunds + GrantedRefunds(b, staff, id, given, Strip(reason), Strip(key), now)
  {
    var order := b.issues[id].order;
    OrderOfIssue(site, b, id);
    RuleGrants(b.orders[order], resolution, approved);
    RulingIsCovered(site, b, order, resolution, approved);
    SettleIsCarried(site, b, staff, id, resolution, Rule(b.orders[order], resolution, approved), Strip(reason),
                    Strip(key), ResolutionBody(id, resolution, approved, Strip(reason), Strip(note)), now);
    assert b.refunds + [] == b.refunds;
  }

  lemma ResolvingAddsTheSplit(site: Site, b: Books, staff: Staff, id: nat, resolution: Resolution,
                              approved: Option<int>, reason: string, note: string, key: string, now: int)
    requires Settled(site, b)
    requires Exec(site, b, ResolveIssue(staff, id, resolution, approved, reason, note, key), now).1.Done?
    ensures id < |b.issues| && b.issues[id].order < |b.orders| && AllocationsHold(b)
    ensures var given := Approved(b.orders[b.issues[id].order], resolution, approved);
            && given >= 0
            && Exec(site, b, ResolveIssue(staff, id, resolution, approved, reason, note, key), now).0.refunds ==
                 b.refunds + GrantedRefunds(b, staff, id, given, Strip(reason), Strip(key), now)
  {
    ResolvedThroughOpen(site, b, staff, id, resolution, approved, reason, note, key, now);
    RefundsAreTheSplit(site, b, staff, id, resolution, approved, reason, note, key, now);
  }

  /** First come, first drained. */
  ghost predicate GivenInTurn(b: Books, refunds: seq<Refund>, order: nat, given: int) {
    match b
    case Books(_, _, allocations, existing, _) =>
      && existing <= refunds
      && forall a :: 0 <= a < |allocations| ==>
           Sum(refunds[|existing|..], RefundedFrom(a)) == ShareOfTurn(b, order, given, a)
  }

  lemma {:induction false} AddedInTurn(b: Books, refunds: seq<Refund>, staff: Staff, id: nat, given: int,
                                       reason: string, key: string, now: int)
    requires AllocationsHold(b) && id < |b.issues| && b.issues[id].order < |b.orders| && given >= 0
    requires refunds == b.refunds + GrantedRefunds(b, staff, id, given, reason, key, now)
    ensures GivenInTurn(b, refunds, b.issues[id].order, given)
  {
    assert refunds[|b.refunds|..] == GrantedRefunds(b, staff, id, given, reason, key, now);
    forall a | 0 <= a < |b.allocations|
      ensures Sum(refunds[|b.refunds|..], RefundedFrom(a)) == ShareOfTurn(b, b.issues[id].order, given, a)
    {
      GrantedInTurn(b, staff, id, given, reason, key, now, a);
    }
  }

  /** How a resolution spreads over the order's allocations. */
  lemma AllocationsGiveInTurn(site: Site, b: Books, staff: Staff, id: nat, resolution: Resolution,
                              approved: Option<int>, reason: string, note: string, key: string, now: int)
    requires Settled(site, b)
    requires Exec(site, b, ResolveIssue(staff, id, resolution, approved, reason, note, key), now).1.Done?
    ensures id < |b.issues| && b.issues[id].order < |b.orders|
    ensures GivenInTurn(b,
                        Exec(site, b, ResolveIssue(staff, id, resolution, approved, reason, note, key), now).0.refunds,
                        b.issues[id].order, Approved(b.orders[b.issues[id].order], resolution, approved))
  {
    ResolvingAddsTheSplit(site, b, staff, id, resolution, approved, reason, note, key, now);
    AddedInTurn(b, Exec(site, b, ResolveIssue(staff, id, resolution, approved, reason, note, key), now).0.refunds,
                staff, id, Approved(b.orders[b.issues[id].order], resolution, approved), Strip(reason), Strip(key),
                now);
  }

  lemma OpenIsGranted(site: Site, b: Books, staff: Staff, id: nat, resolution: Resolution, approved: Option<int>,
                      reason: string, key: string, body: Request, now: int)
    requires Settled(site, b) && id < |b.issues| && b.issues[id].status.Open? && reason != ""
    requires b.issues[id].store == staff.store && b.issues[id].order < |b.orders|
    ensures ResolveOpen(b, staff, id, resolution, approved, reason, key, body, now).1.Done? <==>
              && (resolution.FullRefund? || resolution.PartialRefund? ==> staff.mayRefund)
              && Rule(b.orders[b.issues[id].order], resolution, approved).Grant?
  {
    OrderOfIssue(site, b, id);
    ResolvingCases(b, staff, id, resolution, approved, reason, key, body, now);
    var ruling := Rule(b.orders[b.issues[id].order], resolution, approved);
    if ruling.Grant? {
      RulingIsCovered(site, b, b.issues[id].order, resolution, approved);
      SettleIsCarried(site, b, staff, id, resolution, ruling, reason, key, body, now);
    }
  }

  lemma OnlyOpenIssuesResolve(site: Site, b: Books, staff: Staff, id: nat, resolution: Resolution,
                              approved: Option<int>, reason: string, note: string, key: string, now: int)
    ensures Exec(site, b, ResolveIssue(staff, id, resolution, approved, reason, note, key), now).1.Done? <==>
              && Strip(key) != "" && Strip(reason) != ""
              && id < |b.issues| && b.issues[id].store == staff.store && b.issues[id].status.Open?
              && ResolveOpen(b, staff, id, resolution, approved, Strip(reason), Strip(key),
                             ResolutionBody(id, resolution, approved, Strip(reason), Strip(note)), now).1.Done?
  {}

  lemma RuleOfIssue(site: Site, b: Books, id: nat, resolution: Resolution, approved: Option<int>)
    requires Settled(site, b) && id < |b.issues|
    ensures b.issues[id].order < |b.orders|
    ensures var o := b.orders[b.issues[id].order];
            Rule(o, resolution, approved).Grant? <==>
              && (resolution.FullRefund? || resolution.PartialRefund? ==> o.refunded < o.paid)
              && (resolution.PartialRefund? ==> approved.Some? && 0 < approved.value <= o.paid - o.refunded)
              && (resolution.CancelOnly? ==> o.paid == o.refunded)
  {
    OrderOfIssue(site, b, id);
    RuleGrants(b.orders[b.issues[id].order], resolution, approved);
  }

  /** ... and is accepted exactly when the issue is open in the staff's own store, a
      refund is within their rights and within what the order holds, and a cancellation
      leaves no money behind. */
  lemma ResolutionsAreAcceptedExactlyWhen(site: Site, b: Books, staff: Staff, id: nat, resolution: Resolution,
                                          approved: Option<int>, reason: string, note: string, key: string, now: int)
    requires Settled(site, b)
    ensures Exec(site, b, ResolveIssue(staff, id, resolution, approved, reason, note, key), now).1.Done? <==>
              && Strip(key) != "" && Strip(reason) != ""
              && id < |b.issues| && b.issues[id].store == staff.store && b.issues[id].status.Open?
              && b.issues[id].order < |b.orders|
              && var o := b.orders[b.issues[id].order];
                 && (resolution.FullRefund? || resolution.PartialRefund? ==> staff.mayRefund && o.refunded < o.paid)
                 && (resolution.PartialRefund? ==> approved.Some? && 0 < approved.value <= o.paid - o.refunded)
                 && (resolution.CancelOnly? ==> o.paid == o.refunded)
  {
    OnlyOpenIssuesResolve(site, b, staff, id, resolution, approved, reason, note, key, now);
    if Strip(reason) != "" && id < |b.issues| && b.issues[id].store == staff.store && b.issues[id].status.Open? {
      RuleOfIssue(site, b, id, resolution, approved);
      OpenIsGranted(site, b, staff, id, resolution, approved, Strip(reason), Strip(key),
                    ResolutionBody(id, resolution, approved, Strip(reason), Strip(note)), now);
    }
  }

  lemma CollectRefusesCleanly(site: Site, b: Books, staff: Staff, table: Option<int>, ids: set<nat>, part: Option<int>,
                              guardRecollect: bool, tender: Tender, key: string, body: Request, now: int)
    ensures var (after, outcome) :=
              Collect(site, b, staff, table, ids, part, guardRecollect, tender, key, body, now);
            !outcome.Done? ==> after == b
  {}

  /** A command that was refused, or answered from an earlier row, writes nothing. */
  lemma RefusalsWriteNothing(site: Site, b: Books, command: Command, now: int)
    ensures !Exec(site, b, command, now).1.Done? ==> Exec(site, b, command, now).0 == b
  {
    match command
    case SettleTable(s, table, ids, tender, note, key) =>
      CollectRefusesCleanly(site, b, s, Some(table), ids, None, true, tender, Strip(key),
                            SettlementBody(table, ids, tender, note), now);
    case PayOrder(s, order, part, tender, note, key) =>
      if order < |b.orders| {
        CollectRefusesCleanly(site, b, s, b.orders[order].table, {order}, part, false, tender, Strip(key),
                              OrderPaymentBody(order, part, tender, note), now);
      }
    case ResolveIssue(s, id, resolution, approved, reason, note, key) =>
      if id < |b.issues| && b.issues[id].store == s.store {
        ResolvingCases(b, s, id, resolution, approved, Strip(reason), Strip(key),
                       ResolutionBody(id, resolution, approved, Strip(reason), Strip(note)), now);
      }
    case _ =>
  }

  // ── Refusals tell the truth ────────────────────────────────────────────────

  /** Why a collection from these orders may be refused: each error names a cause that
      is there. */
  ghost predicate CollectRefusal(site: Site, b: Books, staff: Staff, table: Option<int>, ids: set<nat>,
                                 part: Option<int>, guardRecollect: bool, error: Error)
  {
    match error
    case NotFound =>
      || (exists k :: k in ids && (k >= |b.orders| || b.orders[k].store != staff.store))
      || (table.Some? && (table.value !in site.tables || site.tables[table.value] != staff.store))
    case OrderIsCancelled => exists k :: k in ids && k < |b.orders| && b.orders[k].cancelled
    case TableMismatch => table.Some? && exists k :: k in ids && k < |b.orders| && b.orders[k].table != table
    case NoBalance => forall k :: k in ids && k < |b.orders| ==> Balance(b.orders[k]) == 0
    case RefundedRecollect =>
      guardRecollect && exists k :: k in ids && k < |b.orders| && Balance(b.orders[k]) > 0
                                    && b.orders[k].refund != NotRefunded
    case Overpayment => part.Some? && exists k :: k in ids && k < |b.orders| && part.value > Balance(b.orders[k])
    case _ => false
  }

  lemma {:induction false} IsolationTellsTheTruth(b: Books, staff: Staff, ids: set<nat>, n: nat)
    requires n <= |b.orders| && IsolationError(b, staff, ids, n).Some?
    ensures match IsolationError(b, staff, ids, n).value
            case NotFound => exists k :: k in ids && k < |b.orders| && b.orders[k].store != staff.store
            case OrderIsCancelled => exists k :: k in ids && k < |b.orders| && b.orders[k].cancelled
            case _ => false
  {
    if n > 0 && IsolationError(b, staff, ids, n - 1).Some? {
      IsolationTellsTheTruth(b, staff, ids, n - 1);
    }
  }

  lemma GatheringTellsTheTruth(site: Site, b: Books, staff: Staff, table: Option<int>, ids: set<nat>,
                               part: Option<int>, guardRecollect: bool)
    requires GatherError(site, b, staff, table, ids).Some?
    ensures CollectRefusal(site, b, staff, table, ids, part, guardRecollect,
                           GatherError(site, b, staff, table, ids).value)
  {
    if AllFound(b, ids) && IsolationError(b, staff, ids, |b.orders|).Some? {
      IsolationTellsTheTruth(b, staff, ids, |b.orders|);
    }
  }

  lemma {:induction false} NothingInFull(b: Books, ids: set<nat>, n: nat)
    requires n <= |b.orders| && FullShares(b, ids, n) == []
    ensures forall k :: 0 <= k < n && k in ids ==> Balance(b.orders[k]) == 0
  {
    if n > 0 { NothingInFull(b, ids, n - 1); }
  }

  lemma FullTellsTheTruth(site: Site, b: Books, staff: Staff, table: Option<int>, ids: set<nat>, guardRecollect: bool,
                          tender: Tender, key: string, body: Request, now: int)
    ensures var outcome := PostFull(b, staff, table, ids, guardRecollect, tender, key, body, now).1;
            && !outcome.Replayed?
            && (outcome.Failed? ==> CollectRefusal(site, b, staff, table, ids, None, guardRecollect, outcome.error))
  {
    if FullShares(b, ids, |b.orders|) == [] { NothingInFull(b, ids, |b.orders|); }
    if k :| 0 <= k < |b.orders| && HasBalance(b, ids, k) && b.orders[k].refund != NotRefunded {
      assert k in ids && Balance(b.orders[k]) > 0;
    }
  }

  lemma PartTellsTheTruth(site: Site, b: Books, staff: Staff, order: nat, amount: int, tender: Tender, key: string,
                          body: Request, now: int)
    requires order < |b.orders|
    ensures var outcome := PostPart(b, staff, b.orders[order].table, order, amount, tender, key, body, now).1;
            && !outcome.Replayed?
            && (outcome.Failed? ==>
                  CollectRefusal(site, b, staff, b.orders[order].table, {order}, Some(amount), false, outcome.error))
  {
    assert order in {order};
  }

  lemma CollectFullTellsTheTruth(site: Site, b: Books, staff: Staff, table: Option<int>, ids: set<nat>,
                                 guardRecollect: bool, tender: Tender, key: string, body: Request, now: int)
    ensures var outcome := Collect(site, b, staff, table, ids, None, guardRecollect, tender, key, body, now).1;
            && !outcome.Replayed?
            && (outcome.Failed? ==> CollectRefusal(site, b, staff, table, ids, None, guardRecollect, outcome.error))
  {
    if GatherError(site, b, staff, table, ids).Some? {
      GatheringTellsTheTruth(site, b, staff, table, ids, None, guardRecollect);
    } else {
      FullTellsTheTruth(site, b, staff, table, ids, guardRecollect, tender, key, body, now);
    }
  }

  lemma CollectPartTellsTheTruth(site: Site, b: Books, staff: Staff, order: nat, amount: int, tender: Tender,
                                 key: string, body: Request, now: int)
    requires order < |b.orders|
    ensures var table, outcome := b.orders[order].table, Collect(site, b, staff, b.orders[order].table, {order},
                                                                 Some(amount), false, tender, key, body, now).1;
            && !outcome.Replayed?
            && (outcome.Failed? ==>
                  CollectRefusal(site, b, staff, table, {order}, Some(amount), false, outcome.error))
  {
    assert order in {order};
    if GatherError(site, b, staff, b.orders[order].table, {order}).Some? {
      GatheringTellsTheTruth(site, b, staff, b.orders[order].table, {order}, Some(amount), false);
    } else {
      assert First(b, {order}, |b.orders|) == order;
      PartTellsTheTruth(site, b, staff, order, amount, tender, key, body, now);
    }
  }

  /** The answer to a collection that was made before. */
  predicate SameSettlement(b: Books, id: nat, staff: Staff, key: string, body: Request) {
    && id < |b.settlements| && b.settlements[id].store == staff.store && b.settlements[id].key == Strip(key)
    && b.settlements[id].request == body
  }

  /** What the key checks and the collection itself may answer. */
  ghost predicate HonestCollection(site: Site, b: Books, staff: Staff, table: Option<int>, ids: set<nat>,
                                   part: Option<int>, guardRecollect: bool, key: string, body: Request,
                                   outcome: Outcome)
  {
    match outcome
    case Done(_) => true
    case Replayed(id) => SameSettlement(b, id, staff, key, body)
    case Failed(error) =>
      || (error == KeyRequired && Strip(key) == "")
      || (error == InvalidAmount && part.Some? && part.value <= 0)
      || (error == IdempotencyMismatch
          && exists k :: 0 <= k < |b.settlements| && b.settlements[k].store == staff.store
                         && b.settlements[k].key == Strip(key) && b.settlements[k].request != body)
      || CollectRefusal(site, b, staff, table, ids, part, guardRecollect, error)
  }

  lemma PaymentRefusalsTellTheTruth(site: Site, b: Books, staff: Staff, order: nat, part: Option<int>, tender: Tender,
                                    note: string, key: string, now: int)
    ensures HonestCollection(site, b, staff, if order < |b.orders| then b.orders[order].table else None, {order}, part,
                             false, key, OrderPaymentBody(order, part, tender, note),
                             Exec(site, b, PayOrder(staff, order, part, tender, note, key), now).1)
  {
    var keyed := Find(b.settlements, SettlementKeyed(staff.store, Strip(key)));
    if keyed < |b.settlements| { assert SettlementKeyed(staff.store, Strip(key))(b.settlements[keyed]); }
    assert order in {order};
    if order < |b.orders| {
      var body := OrderPaymentBody(order, part, tender, note);
      if part.None? {
        CollectFullTellsTheTruth(site, b, staff, b.orders[order].table, {order}, false, tender, Strip(key), body, now);
      } else {
        CollectPartTellsTheTruth(site, b, staff, order, part.value, tender, Strip(key), body, now);
      }
    }
  }

  lemma SettlementRefusalsTellTheTruth(site: Site, b: Books, staff: Staff, table: int, ids: set<nat>, tender: Tender,
                                       note: string, key: string, now: int)
    ensures HonestCollection(site, b, staff, Some(table), ids, None, true, key,
                             SettlementBody(table, ids, tender, note),
                             Exec(site, b, SettleTable(staff, table, ids, tender, note, key), now).1)
  {
    var keyed := Find(b.settlements, SettlementKeyed(staff.store, Strip(key)));
    if keyed < |b.settlements| { assert SettlementKeyed(staff.store, Strip(key))(b.settlements[keyed]); }
    CollectFullTellsTheTruth(site, b, staff, Some(table), ids, true, tender, Strip(key),
                             SettlementBody(table, ids, tender, note), now);
  }

  lemma RefundRefusalsTellTheTruth(site: Site, b: Books, staff: Staff, allocation: nat, amount: int, reason: string,
                                   key: string, now: int)
    ensures match Exec(site, b, RefundAllocation(staff, allocation, amount, reason, key), now).1
            case Done(_) => true
            case Replayed(id) =>
              && id < |b.refunds| && b.refunds[id].store == staff.store && b.refunds[id].key == Direct(Strip(key))
              && b.refunds[id].request == RefundBody(allocation, amount, Strip(reason))
            case Failed(error) =>
              match error
              case KeyRequired => Strip(key) == ""
              case ReasonRequired => Strip(reason) == ""
              case InvalidAmount => amount <= 0
              case IdempotencyMismatch =>
                exists k :: 0 <= k < |b.refunds| && b.refunds[k].store == staff.store
                            && b.refunds[k].key == Direct(Strip(key))
                            && b.refunds[k].request != RefundBody(allocation, amount, Strip(reason))
              case NotFound =>
                || allocation >= |b.allocations|
                || (var a := b.allocations[allocation];
                    || a.settlement >= |b.settlements| || b.settlements[a.settlement].store != staff.store
                    || a.order >= |b.orders| || b.orders[a.order].store != staff.store)
              case RefundOverBalance => allocation < |b.allocations| && amount > Left(b, allocation)
              case _ => false
  {
    var keyed := Find(b.refunds, RefundKeyed(staff.store, Direct(Strip(key))));
    if keyed < |b.refunds| { assert RefundKeyed(staff.store, Direct(Strip(key)))(b.refunds[keyed]); }
    if allocation < |b.allocations| { LeftIsRefundable(b, allocation); }
  }

  lemma ReportRefusalsTellTheTruth(site: Site, b: Books, staff: Staff, order: nat, kind: string,
                                   requested: Option<int>, reason: string, note: string, key: string, now: int)
    ensures match Exec(site, b, OpenIssue(staff, order, kind, requested, reason, note, key), now).1
            case Done(_) => true
            case Replayed(id) =>
              && id < |b.issues| && b.issues[id].store == staff.store && b.issues[id].createdKey == Strip(key)
              && b.issues[id].createdBody == IssueBody(order, kind, requested, Strip(reason), Strip(note))
            case Failed(error) =>
              match error
              case KeyRequired => Strip(key) == ""
              case ReasonRequired => Strip(reason) == ""
              case InvalidAmount => requested.Some? && requested.value < 0
              case IdempotencyMismatch =>
                exists k :: 0 <= k < |b.issues| && b.issues[k].store == staff.store
                            && b.issues[k].createdKey == Strip(key)
                            && b.issues[k].createdBody != IssueBody(order, kind, requested, Strip(reason), Strip(note))
              case NotFound => order >= |b.orders| || b.orders[order].store != staff.store
              case RequestedOverRefundable =>
                && order < |b.orders| && requested.Some?
                && requested.value > b.orders[order].paid - b.orders[order].refunded
              case _ => false
  {
    var keyed := Find(b.issues, IssueKeyed(staff.store, Strip(key)));
    if keyed < |b.issues| { assert IssueKeyed(staff.store, Strip(key))(b.issues[keyed]); }
  }

  /** What may be wrong with the amount or the money held. */
  predicate MoneyRefusal(o: Order, resolution: Resolution, approved: Option<int>, error: Error) {
    match error
    case CancelBlockedPaid => resolution == CancelOnly && o.refunded < o.paid
    case NothingRefundable => (resolution == FullRefund || resolution == PartialRefund) && o.paid <= o.refunded
    case AmountRequired => resolution == PartialRefund && (approved.Some? ==> approved.value <= 0)
    case ApprovedOverRefundable =>
      resolution == PartialRefund && approved.Some? && approved.value > o.paid - o.refunded
    case _ => false
  }

  lemma RuleTellsTheTruth(o: Order, resolution: Resolution, approved: Option<int>)
    requires Rule(o, resolution, approved).Refuse?
    ensures MoneyRefusal(o, resolution, approved, Rule(o, resolution, approved).error)
  {}

  ghost predicate ResolutionRefusal(b: Books, staff: Staff, id: nat, resolution: Resolution, approved: Option<int>,
                                    reason: string, note: string, key: string, error: Error)
  {
    match error
    case KeyRequired => Strip(key) == ""
    case ReasonRequired => Strip(reason) == ""
    case NotFound => id >= |b.issues| || b.issues[id].store != staff.store
    case AlreadyResolved =>
      id < |b.issues| && !b.issues[id].status.Open? && b.issues[id].resolvedKey != Some(Strip(key))
    case IdempotencyMismatch =>
      && id < |b.issues| && !b.issues[id].status.Open? && b.issues[id].resolvedKey == Some(Strip(key))
      && b.issues[id].resolvedBody != Some(ResolutionBody(id, resolution, approved, Strip(reason), Strip(note)))
    case RefundForbidden => resolution in {FullRefund, PartialRefund} && !staff.mayRefund
    case _ =>
      && id < |b.issues| && b.issues[id].order < |b.orders|
      && MoneyRefusal(b.orders[b.issues[id].order], resolution, approved, error)
  }

  lemma OpenResolvingTellsTheTruth(site: Site, b: Books, staff: Staff, id: nat, resolution: Resolution,
                                   approved: Option<int>, reason: string, note: string, key: string, now: int)
    requires Settled(site, b) && id < |b.issues| && b.issues[id].status.Open? && b.issues[id].store == staff.store
    requires Strip(reason) != ""
    ensures var outcome := ResolveOpen(b, staff, id, resolution, approved, Strip(reason), Strip(key),
                                       ResolutionBody(id, resolution, approved, Strip(reason), Strip(note)), now).1;
            && !outcome.Replayed?
            && (outcome.Failed? ==>
                  ResolutionRefusal(b, staff, id, resolution, approved, reason, note, key, outcome.error))
  {
    OrderOfIssue(site, b, id);
    var o := b.orders[b.issues[id].order];
    if Rule(o, resolution, approved).Refuse? {
      RuleTellsTheTruth(o, resolution, approved);
    } else {
      OpenIsGranted(site, b, staff, id, resolution, approved, Strip(reason), Strip(key),
                    ResolutionBody(id, resolution, approved, Strip(reason), Strip(note)), now);
    }
  }

  /** No resolution is refused for a cause that is not there; in particular the balances
      of an order never fall short of what may be approved. */
  lemma ResolutionRefusalsTellTheTruth(site: Site, b: Books, staff: Staff, id: nat, resolution: Resolution,
                                       approved: Option<int>, reason: string, note: string, key: string, now: int)
    requires Settled(site, b)
    ensures match Exec(site, b, ResolveIssue(staff, id, resolution, approved, reason, note, key), now).1
            case Done(_) => true
            case Replayed(other) =>
              && other == id < |b.issues| && b.issues[id].resolvedKey == Some(Strip(key))
              && b.issues[id].resolvedBody == Some(ResolutionBody(id, resolution, approved, Strip(reason), Strip(note)))
            case Failed(error) => ResolutionRefusal(b, staff, id, resolution, approved, reason, note, key, error)
  {
    if Strip(reason) != "" && id < |b.issues| && b.issues[id].store == staff.store && b.issues[id].status.Open? {
      OpenResolvingTellsTheTruth(site, b, staff, id, resolution, approved, reason, note, key, now);
    }
  }
}
