/** What each till and issue command does to the payment books, as a function from
    the state before to the state after its transaction; a refusal changes nothing.
    `now` is the transaction's timestamp. */
module PaymentCommands {
  import opened Tables
  import opened Text
  import opened Payments

  datatype Error =
    | KeyRequired | ReasonRequired | IdempotencyMismatch | InvalidAmount | NotFound
    | OrderIsCancelled | TableMismatch | NoBalance | Overpayment | RefundedRecollect
    | RefundOverBalance | RequestedOverRefundable | AlreadyResolved | RefundForbidden
    | CancelBlockedPaid | NothingRefundable | AmountRequired | ApprovedOverRefundable | TerminalState

  datatype Outcome = Done(id: nat) | Replayed(id: nat) | Failed(error: Error)

  datatype Staff = Staff(user: int, store: int, mayRefund: bool)

  datatype Command =
    | PlaceOrder(store: int, table: Option<int>, total: int)
    | SettleTable(staff: Staff, tableId: int, orders: set<nat>, tender: Tender, note: string, key: string)
    | PayOrder(staff: Staff, order: nat, part: Option<int>, tender: Tender, note: string, key: string)
    | RefundAllocation(staff: Staff, allocation: nat, amount: int, reason: string, key: string)
    | CancelInKitchen(order: nat)
    | OpenIssue(staff: Staff, order: nat, kind: string, requested: Option<int>, reason: string, note: string,
                key: string)
    | ResolveIssue(staff: Staff, issue: nat, resolution: Resolution, approved: Option<int>, reason: string,
                   note: string, key: string)

  /** Staff act in the store they belong to; prices are not negative. */
  predicate WellFormed(site: Site, command: Command) {
    match command
    case PlaceOrder(_, _, total) => total >= 0
    case SettleTable(s, _, _, _, _, _) => site.WorksAt(s.user, s.store)
    case PayOrder(s, _, _, _, _, _) => site.WorksAt(s.user, s.store)
    case RefundAllocation(s, _, _, _, _) => site.WorksAt(s.user, s.store)
    case CancelInKitchen(_) => true
    case OpenIssue(s, _, _, _, _, _, _) => site.WorksAt(s.user, s.store)
    case ResolveIssue(s, _, _, _, _, _, _) => site.WorksAt(s.user, s.store)
  }

  // ── Order summaries ────────────────────────────────────────────────────────

  function PaymentStatusOf(o: Order): PaymentStatus {
    if o.NetPaid() <= 0 then Unpaid else if o.NetPaid() >= o.total then Paid else PartiallyPaid
  }

  function RefundStatusOf(o: Order): RefundStatus {
    if o.refunded <= 0 then NotRefunded else if o.refunded >= o.paid then Refunded else PartiallyRefunded
  }

  /** recompute_order_summary. */
  function Recomputed(o: Order): Order { o.(payment := PaymentStatusOf(o), refund := RefundStatusOf(o)) }

  // ── Collecting ─────────────────────────────────────────────────────────────

  /** One allocation in the making. */
  datatype Share = Share(order: nat, amount: int)

  function ShareOf(order: nat): Share -> int { (s: Share) => if s.order == order then s.amount else 0 }

  function ShareAmount(): Share -> int { (s: Share) => s.amount }

  function Credited(o: Order, amount: int): Order {
    if amount == 0 then o else Recomputed(o.(paid := o.paid + amount))
  }

  function CreditAll(orders: seq<Order>, shares: seq<Share>): (r: seq<Order>)
    ensures |r| == |orders| && forall k :: 0 <= k < |r| ==> r[k] == Credited(orders[k], Sum(shares, ShareOf(k)))
  {
    seq(|orders|, k requires 0 <= k < |orders| => Credited(orders[k], Sum(shares, ShareOf(k))))
  }

  function AllocationsFor(settlement: nat, shares: seq<Share>): (r: seq<Allocation>)
    ensures |r| == |shares|
    ensures forall k :: 0 <= k < |r| ==> r[k] == Allocation(settlement, shares[k].order, shares[k].amount)
  {
    seq(|shares|, k requires 0 <= k < |shares| => Allocation(settlement, shares[k].order, shares[k].amount))
  }

  function Posted(b: Books, s: Settlement, shares: seq<Share>): Books {
    b.(settlements := b.settlements + [s],
       allocations := b.allocations + AllocationsFor(|b.settlements|, shares),
       orders := CreditAll(b.orders, shares))
  }

  function SettlementKeyed(store: int, key: string): Settlement -> bool {
    (s: Settlement) => s.store == store && s.key == key
  }

  predicate AllFound(b: Books, ids: set<nat>) { forall id :: id in ids ==> id < |b.orders| }

  /** The refusals of the isolation loop, in ascending order id. */
  function IsolationError(b: Books, staff: Staff, ids: set<nat>, n: nat): Option<Error>
    requires n <= |b.orders|
  {
    if n == 0 then None
    else
      var earlier := IsolationError(b, staff, ids, n - 1);
      if earlier.Some? || n - 1 !in ids then earlier
      else if b.orders[n - 1].store != staff.store then Some(NotFound)
      else if b.orders[n - 1].cancelled then Some(OrderIsCancelled)
      else None
  }

  predicate TableIsOurs(site: Site, staff: Staff, table: int) {
    table in site.tables && site.tables[table] == staff.store
  }

  predicate OffTable(b: Books, ids: set<nat>, table: int) {
    exists k :: 0 <= k < |b.orders| && k in ids && b.orders[k].table != Some(table)
  }

  predicate HasBalance(b: Books, ids: set<nat>, k: nat)
    requires k < |b.orders|
  {
    k in ids && b.orders[k].Outstanding() > 0
  }

  /** The full balance of every selected order that has one, in ascending order id. */
  function FullShares(b: Books, ids: set<nat>, n: nat): seq<Share>
    requires n <= |b.orders|
  {
    if n == 0 then []
    else
      var front := FullShares(b, ids, n - 1);
      if HasBalance(b, ids, n - 1) then front + [Share(n - 1, b.orders[n - 1].Outstanding())] else front
  }

  /** The refusals of _do_collect before any amount is computed. */
  function GatherError(site: Site, b: Books, staff: Staff, table: Option<int>, ids: set<nat>): Option<Error> {
    if !AllFound(b, ids) then Some(NotFound)
    else if IsolationError(b, staff, ids, |b.orders|).Some? then IsolationError(b, staff, ids, |b.orders|)
    else if table.Some? && !TableIsOurs(site, staff, table.value) then Some(NotFound)
    else if table.Some? && OffTable(b, ids, table.value) then Some(TableMismatch)
    else None
  }

  function NewSettlement(staff: Staff, table: Option<int>, shares: seq<Share>, tender: Tender, key: string,
                         body: Request, now: int): Settlement
  {
    Settlement(staff.store, table, staff.user, tender, Sum(shares, ShareAmount()), now, key, body)
  }

  function PostFull(b: Books, staff: Staff, table: Option<int>, ids: set<nat>, guardRecollect: bool, tender: Tender,
                    key: string, body: Request, now: int): (Books, Outcome)
  {
    var shares := FullShares(b, ids, |b.orders|);
    if guardRecollect && exists k ::
        0 <= k < |b.orders| && HasBalance(b, ids, k) && b.orders[k].refund != NotRefunded then
      (b, Failed(RefundedRecollect))
    else if shares == [] then (b, Failed(NoBalance))
    else (Posted(b, NewSettlement(staff, table, shares, tender, key, body, now), shares), Done(|b.settlements|))
  }

  /** The lowest selected order id. */
  function First(b: Books, ids: set<nat>, n: nat): (k: nat)
    requires n <= |b.orders| && exists k :: 0 <= k < n && k in ids
    ensures k < n && k in ids && forall j :: 0 <= j < k ==> j !in ids
  {
    if exists k :: 0 <= k < n - 1 && k in ids then First(b, ids, n - 1) else n - 1
  }

  function PostPart(b: Books, staff: Staff, table: Option<int>, order: nat, amount: int, tender: Tender, key: string,
                    body: Request, now: int): (Books, Outcome)
    requires order < |b.orders|
  {
    var out := b.orders[order].Outstanding();
    if out <= 0 then (b, Failed(NoBalance))
    else if amount > out then (b, Failed(Overpayment))
    else
      var shares := [Share(order, amount)];
      (Posted(b, NewSettlement(staff, table, shares, tender, key, body, now), shares), Done(|b.settlements|))
  }

  /** _do_collect, once the key is known to be new. */
  function Collect(site: Site, b: Books, staff: Staff, table: Option<int>, ids: set<nat>, part: Option<int>,
                   guardRecollect: bool, tender: Tender, key: string, body: Request, now: int): (Books, Outcome)
  {
    var error := GatherError(site, b, staff, table, ids);
    if error.Some? then (b, Failed(error.value))
    else if part.Some? then
      if forall k :: 0 <= k < |b.orders| ==> k !in ids then (b, Failed(NoBalance))
      else PostPart(b, staff, table, First(b, ids, |b.orders|), part.value, tender, key, body, now)
    else PostFull(b, staff, table, ids, guardRecollect, tender, key, body, now)
  }

  function SettleTableStep(site: Site, b: Books, staff: Staff, table: int, ids: set<nat>, tender: Tender, note: string,
                           key: string, now: int): (Books, Outcome)
  {
    var k := Strip(key);
    var body := SettlementBody(table, ids, tender, note);
    var existing := Find(b.settlements, SettlementKeyed(staff.store, k));
    if k == "" then (b, Failed(KeyRequired))
    else if existing < |b.settlements| then
      (b, if b.settlements[existing].request == body then Replayed(existing) else Failed(IdempotencyMismatch))
    else Collect(site, b, staff, Some(table), ids, None, true, tender, k, body, now)
  }

  function PayOrderStep(site: Site, b: Books, staff: Staff, order: nat, part: Option<int>, tender: Tender, note: string,
                        key: string, now: int): (Books, Outcome)
  {
    var k := Strip(key);
    var body := OrderPaymentBody(order, part, tender, note);
    var existing := Find(b.settlements, SettlementKeyed(staff.store, k));
    if k == "" then (b, Failed(KeyRequired))
    else if part.Some? && part.value <= 0 then (b, Failed(InvalidAmount))
    else if existing < |b.settlements| then
      (b, if b.settlements[existing].request == body then Replayed(existing) else Failed(IdempotencyMismatch))
    else if order >= |b.orders| || b.orders[order].store != staff.store then (b, Failed(NotFound))
    else Collect(site, b, staff, b.orders[order].table, {order}, part, false, tender, k, body, now)
  }

  // ── Refunding ──────────────────────────────────────────────────────────────

  /** allocation_refundable. */
  function RefundableOf(b: Books, a: nat): int
    requires a < |b.allocations|
  {
    b.allocations[a].amount - Sum(b.refunds, RefundedFrom(a))
  }

  function Debited(o: Order, amount: int): Order {
    if amount == 0 then o else Recomputed(o.(refunded := o.refunded + amount))
  }

  function DebitAll(orders: seq<Order>, refunds: seq<Refund>): (r: seq<Order>)
    ensures |r| == |orders| && forall k :: 0 <= k < |r| ==> r[k] == Debited(orders[k], Sum(refunds, RefundedOn(k)))
  {
    seq(|orders|, k requires 0 <= k < |orders| => Debited(orders[k], Sum(refunds, RefundedOn(k))))
  }

  function Returned(b: Books, refunds: seq<Refund>): Books {
    b.(refunds := b.refunds + refunds, orders := DebitAll(b.orders, refunds))
  }

  function RefundKeyed(store: int, key: RefundKey): Refund -> bool {
    (r: Refund) => r.store == store && r.key == key
  }

  function RefundStep(b: Books, staff: Staff, allocation: nat, amount: int, reason: string, key: string,
                      now: int): (Books, Outcome)
  {
    var k, why := Strip(key), Strip(reason);
    var body := RefundBody(allocation, amount, why);
    var existing := Find(b.refunds, RefundKeyed(staff.store, Direct(k)));
    if k == "" then (b, Failed(KeyRequired))
    else if why == "" then (b, Failed(ReasonRequired))
    else if amount <= 0 then (b, Failed(InvalidAmount))
    else if existing < |b.refunds| then
      (b, if b.refunds[existing].request == body then Replayed(existing) else Failed(IdempotencyMismatch))
    else if allocation >= |b.allocations| then (b, Failed(NotFound))
    else
      var a := b.allocations[allocation];
      if a.settlement >= |b.settlements| || b.settlements[a.settlement].store != staff.store then (b, Failed(NotFound))
      else if a.order >= |b.orders| || b.orders[a.order].store != staff.store then (b, Failed(NotFound))
      else if RefundableOf(b, allocation) <= 0 || amount > RefundableOf(b, allocation)
        then (b, Failed(RefundOverBalance))
      else
        (Returned(b, [Refund(staff.store, a.settlement, allocation, a.order, amount, staff.user, now, why, Direct(k),
                             body, None)]),
         Done(|b.refunds|))
  }

  // ── Refunds that resolve an issue ──────────────────────────────────────────

  /** What one allocation gives back. */
  datatype Piece = Piece(allocation: nat, amount: int)

  function PieceAmount(): Piece -> int { (p: Piece) => p.amount }

  predicate Gives(b: Books, order: nat, a: nat)
    requires a < |b.allocations|
  {
    b.allocations[a].order == order && RefundableOf(b, a) > 0
  }

  function Min(x: int, y: int): int { if x < y then x else y }

  /** The order's allocations in ascending id, each filled in turn. */
  function Split(b: Books, order: nat, total: int, n: nat): seq<Piece>
    requires n <= |b.allocations|
  {
    if n == 0 then []
    else
      var front := Split(b, order, total, n - 1);
      var remaining := total - Sum(front, PieceAmount());
      if remaining > 0 && Gives(b, order, n - 1) then front + [Piece(n - 1, Min(remaining, RefundableOf(b, n - 1)))]
      else front
  }

  function IssueRefund(b: Books, staff: Staff, order: nat, issue: nat, reason: string, key: string, now: int,
                       p: Piece): Refund
    requires order < |b.orders| && p.allocation < |b.allocations|
  {
    Refund(b.orders[order].store, b.allocations[p.allocation].settlement, p.allocation, order, p.amount, staff.user,
           now, reason, ForIssue(key, issue, p.allocation), IssueRefundBody(issue, p.allocation, p.amount, reason),
           Some(issue))
  }

  function IssueRefunds(b: Books, staff: Staff, order: nat, issue: nat, reason: string, key: string, now: int,
                        pieces: seq<Piece>): (r: seq<Refund>)
    requires order < |b.orders| && forall k :: 0 <= k < |pieces| ==> pieces[k].allocation < |b.allocations|
    ensures |r| == |pieces|
    ensures forall k :: 0 <= k < |r| ==> r[k] == IssueRefund(b, staff, order, issue, reason, key, now, pieces[k])
  {
    seq(|pieces|, k requires 0 <= k < |pieces| => IssueRefund(b, staff, order, issue, reason, key, now, pieces[k]))
  }

  lemma {:induction false} SplitRows(b: Books, order: nat, total: int, n: nat)
    requires n <= |b.allocations|
    ensures forall k :: 0 <= k < |Split(b, order, total, n)| ==>
              var p := Split(b, order, total, n)[k];
              p.allocation < n && Gives(b, order, p.allocation) && 0 < p.amount <= RefundableOf(b, p.allocation)
    ensures forall j, k :: 0 <= j < k < |Split(b, order, total, n)| ==>
              Split(b, order, total, n)[j].allocation < Split(b, order, total, n)[k].allocation
  {
    if n > 0 {
      SplitRows(b, order, total, n - 1);
    }
  }

  // ── Issues ─────────────────────────────────────────────────────────────────

  function IssueKeyed(store: int, key: string): Issue -> bool {
    (i: Issue) => i.store == store && i.createdKey == key
  }

  function OpenIssueStep(b: Books, staff: Staff, order: nat, kind: string, requested: Option<int>, reason: string,
                         note: string, key: string): (Books, Outcome)
  {
    var k, why := Strip(key), Strip(reason);
    var body := IssueBody(order, kind, requested, why, Strip(note));
    var existing := Find(b.issues, IssueKeyed(staff.store, k));
    if k == "" then (b, Failed(KeyRequired))
    else if why == "" then (b, Failed(ReasonRequired))
    else if requested.Some? && requested.value < 0 then (b, Failed(InvalidAmount))
    else if existing < |b.issues| then
      (b, if b.issues[existing].createdBody == body then Replayed(existing) else Failed(IdempotencyMismatch))
    else if order >= |b.orders| || b.orders[order].store != staff.store then (b, Failed(NotFound))
    else if requested.Some? && requested.value > b.orders[order].Refundable() then (b, Failed(RequestedOverRefundable))
    else
      (b.(issues := b.issues + [Issue(staff.store, order, Open, requested, staff.user, k, body,
                                      None, None, None, None, None, None, None)]),
       Done(|b.issues|))
  }

  function CancelledAt(b: Books, order: nat): Books
    requires order < |b.orders|
  {
    b.(orders := b.orders[order := b.orders[order].(cancelled := true)])
  }

  function ResolvedWith(i: Issue, staff: Staff, resolution: Resolution, approved: int, refund: Option<nat>, key: string,
                        body: Request, now: int): Issue
  {
    i.(status := Resolved, resolution := Some(resolution), approved := Some(approved), refund := refund,
       resolvedBy := Some(staff.user), resolvedAt := Some(now), resolvedKey := Some(key), resolvedBody := Some(body))
  }

  /** How much the resolution refunds, or why it is refused. */
  datatype Ruling = Refuse(error: Error) | Grant(amount: int, cancels: bool)

  function Rule(o: Order, resolution: Resolution, approved: Option<int>): Ruling {
    match resolution
    case NoRefundNeeded => Grant(0, false)
    case CancelOnly => if o.NetPaid() > 0 then Refuse(CancelBlockedPaid) else Grant(0, true)
    case FullRefund => if o.Refundable() <= 0 then Refuse(NothingRefundable) else Grant(o.Refundable(), true)
    case PartialRefund =>
      if o.Refundable() <= 0 then Refuse(NothingRefundable)
      else if approved.None? || approved.value <= 0 then Refuse(AmountRequired)
      else if approved.value > o.Refundable() then Refuse(ApprovedOverRefundable)
      else Grant(approved.value, false)
  }

  /** The refunds, the cancellation and the issue's own row, in one transaction. */
  function Settle(b: Books, staff: Staff, id: nat, resolution: Resolution, ruling: Ruling, reason: string, key: string,
                  body: Request, now: int): (Books, Outcome)
    requires id < |b.issues| && b.issues[id].order < |b.orders| && ruling.Grant?
  {
    var order := b.issues[id].order;
    var pieces := if ruling.amount > 0 then Split(b, order, ruling.amount, |b.allocations|) else [];
    if Sum(pieces, PieceAmount()) < ruling.amount then (b, Failed(RefundOverBalance))
    else
      SplitRows(b, order, ruling.amount, |b.allocations|);
      var refunds := IssueRefunds(b, staff, order, id, reason, key, now, pieces);
      var paid := if refunds == [] then b else Returned(b, refunds);
      var voided := if ruling.cancels then CancelledAt(paid, order) else paid;
      var primary := if pieces == [] then None else Some(|b.refunds|);
      var resolved := ResolvedWith(b.issues[id], staff, resolution, ruling.amount, primary, key, body, now);
      (voided.(issues := b.issues[id := resolved]), Done(id))
  }

  function ResolveOpen(b: Books, staff: Staff, id: nat, resolution: Resolution, approved: Option<int>, reason: string,
                       key: string, body: Request, now: int): (Books, Outcome)
    requires id < |b.issues|
  {
    var i := b.issues[id];
    if (resolution.FullRefund? || resolution.PartialRefund?) && !staff.mayRefund then (b, Failed(RefundForbidden))
    else if i.order >= |b.orders| || b.orders[i.order].store != staff.store then (b, Failed(NotFound))
    else
      var ruling := Rule(b.orders[i.order], resolution, approved);
      if ruling.Refuse? then (b, Failed(ruling.error))
      else Settle(b, staff, id, resolution, ruling, reason, key, body, now)
  }

  function ResolveIssueStep(b: Books, staff: Staff, id: nat, resolution: Resolution, approved: Option<int>,
                            reason: string, note: string, key: string, now: int): (Books, Outcome)
  {
    var k, why := Strip(key), Strip(reason);
    var body := ResolutionBody(id, resolution, approved, why, Strip(note));
    if k == "" then (b, Failed(KeyRequired))
    else if why == "" then (b, Failed(ReasonRequired))
    else if id >= |b.issues| || b.issues[id].store != staff.store then (b, Failed(NotFound))
    else if !b.issues[id].status.Open? then
      (b, if b.issues[id].resolvedKey != Some(k) then Failed(AlreadyResolved)
          else if b.issues[id].resolvedBody == Some(body) then Replayed(id) else Failed(IdempotencyMismatch))
    else ResolveOpen(b, staff, id, resolution, approved, why, k, body, now)
  }

  // ── Orders ─────────────────────────────────────────────────────────────────

  function PlaceOrderStep(b: Books, store: int, table: Option<int>, total: int): (Books, Outcome) {
    (b.(orders := b.orders + [Order(store, table, total, false, 0, 0, Unpaid, NotRefunded)]), Done(|b.orders|))
  }

  /** Collected money blocks a cancellation; it never fabricates a refund. */
  function CancelStep(b: Books, order: nat): (Books, Outcome) {
    if order >= |b.orders| then (b, Failed(NotFound))
    else if b.orders[order].cancelled then (b, Failed(TerminalState))
    else if b.orders[order].NetPaid() > 0 then (b, Failed(CancelBlockedPaid))
    else (CancelledAt(b, order), Done(order))
  }

  function Exec(site: Site, b: Books, command: Command, now: int): (Books, Outcome) {
    match command
    case PlaceOrder(store, table, total) => PlaceOrderStep(b, store, table, total)
    case SettleTable(s, table, ids, tender, note, key) =>
        SettleTableStep(site, b, s, table, ids, tender, note, key, now)
    case PayOrder(s, order, part, tender, note, key) => PayOrderStep(site, b, s, order, part, tender, note, key, now)
    case RefundAllocation(s, allocation, amount, reason, key) => RefundStep(b, s, allocation, amount, reason, key, now)
    case CancelInKitchen(order) => CancelStep(b, order)
    case OpenIssue(s, order, kind, requested, reason, note, key) =>
        OpenIssueStep(b, s, order, kind, requested, reason, note, key)
    case ResolveIssue(s, id, resolution, approved, reason, note, key) =>
      ResolveIssueStep(b, s, id, resolution, approved, reason, note, key, now)
  }
}
