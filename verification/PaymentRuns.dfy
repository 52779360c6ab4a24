/** Whole runs of the payment books: any sequence of till and issue commands. */
module PaymentRuns {
  import opened Tables
  import opened Text
  import opened Payments
  import opened PaymentCommands
  import opened PaymentSafety
  import opened IssueSafety

  /** A command and the timestamp of its transaction. */
  datatype Event = Event(command: Command, at: int)

  function Run(site: Site, b: Books, events: seq<Event>): Books {
    if |events| == 0 then b
    else
      var n := |events| - 1;
      Exec(site, Run(site, b, events[..n]), events[n].command, events[n].at).0
  }

  predicate Proper(site: Site, events: seq<Event>) {
    forall i :: 0 <= i < |events| ==> WellFormed(site, events[i].command)
  }

  lemma NothingCitesANewOrder(site: Site, b: Books)
    requires RowsOk(site, b)
    ensures Sum(b.allocations, OfOrder(|b.orders|)) == 0 && Sum(b.refunds, RefundedOn(|b.orders|)) == 0
  {
    forall k | 0 <= k < |b.allocations| ensures OfOrder(|b.orders|)(b.allocations[k]) == 0 {
      assert AllocationChecks(b, b.allocations[k]);
    }
    forall k | 0 <= k < |b.refunds|
      ensures RefundedOn(|b.orders|)(b.refunds[k]) == 0
    {
      assert RefundChecks(b, b.refunds[k]);
    }
    SumZero(b.allocations, OfOrder(|b.orders|));
    SumZero(b.refunds, RefundedOn(|b.orders|));
  }

  lemma PlaceKeeps(site: Site, b: Books, store: int, table: Option<int>, total: int)
    requires Sound(site, b) && total >= 0
    ensures Kept(site, b, PlaceOrderStep(b, store, table, total).0)
  {
    var after, n := PlaceOrderStep(b, store, table, total).0, |b.orders|;
    OldRowsStand(site, b, after);
    forall k | 0 <= k < |after.orders|
      ensures OrderChecks(after.orders[k])
      ensures after.orders[k].paid == Sum(after.allocations, OfOrder(k))
      ensures after.orders[k].refunded == Sum(after.refunds, RefundedOn(k))
    {
      if k < n {
        assert OrderChecks(b.orders[k]) && b.orders[k].paid == Sum(b.allocations, OfOrder(k));
      } else {
        NothingCitesANewOrder(site, b);
      }
    }
    forall id | 0 <= id < |b.settlements| ensures TotalMatches(after, id) { assert TotalMatches(b, id); }
    forall a | 0 <= a < |b.allocations| ensures RefundableOf(after, a) >= 0 { assert RefundableOf(b, a) >= 0; }
    forall issue | 0 <= issue < |b.issues| ensures IssueTells(after, issue) { assert IssueTells(b, issue); }
    assert Ledger(site, after);
  }

  lemma SettleTableKeeps(site: Site, b: Books, s: Staff, table: int, ids: set<nat>, tender: Tender, note: string,
                         key: string, now: int)
    requires Sound(site, b) && site.WorksAt(s.user, s.store)
    ensures Kept(site, b, SettleTableStep(site, b, s, table, ids, tender, note, key, now).0)
  {
    RefusalKeeps(site, b);
    var k := Strip(key);
    if k != "" && Find(b.settlements, SettlementKeyed(s.store, k)) == |b.settlements| {
      CollectKeeps(site, b, s, Some(table), ids, None, true, tender, k, SettlementBody(table, ids, tender, note), now);
    }
  }

  lemma PayOrderKeeps(site: Site, b: Books, s: Staff, order: nat, part: Option<int>, tender: Tender, note: string,
                      key: string, now: int)
    requires Sound(site, b) && site.WorksAt(s.user, s.store)
    ensures Kept(site, b, PayOrderStep(site, b, s, order, part, tender, note, key, now).0)
  {
    RefusalKeeps(site, b);
    var k := Strip(key);
    if k != "" && (part.Some? ==> part.value > 0) && order < |b.orders|
       && Find(b.settlements, SettlementKeyed(s.store, k)) == |b.settlements| {
      CollectKeeps(site, b, s, b.orders[order].table, {order}, part, false, tender, k,
                   OrderPaymentBody(order, part, tender, note), now);
    }
  }

  lemma RefundKeepsKeys(b: Books, staff: Staff, allocation: nat, amount: int, reason: string, key: string, now: int)
    requires KeysCarryIssues(b)
    ensures KeysCarryIssues(RefundStep(b, staff, allocation, amount, reason, key, now).0)
  {}

  lemma OtherCommandsKeepKeys(site: Site, b: Books, command: Command, now: int)
    requires KeysCarryIssues(b) && !command.ResolveIssue?
    ensures KeysCarryIssues(Exec(site, b, command, now).0)
  {
    if command.RefundAllocation? {
      var RefundAllocation(s, a, amount, reason, key) := command;
      RefundKeepsKeys(b, s, a, amount, reason, key, now);
    } else {
      assert Exec(site, b, command, now).0.refunds == b.refunds;
    }
  }

  lemma ExecKeeps(site: Site, b: Books, command: Command, now: int)
    requires Settled(site, b) && WellFormed(site, command)
    ensures Kept(site, b, Exec(site, b, command, now).0)
    ensures Settled(site, Exec(site, b, command, now).0)
  {
    match command {
      case PlaceOrder(store, table, total) => PlaceKeeps(site, b, store, table, total);
      case SettleTable(s, table, ids, tender, note, key) =>
          SettleTableKeeps(site, b, s, table, ids, tender, note, key, now);
      case PayOrder(s, order, part, tender, note, key) =>
          PayOrderKeeps(site, b, s, order, part, tender, note, key, now);
      case RefundAllocation(s, a, amount, reason, key) => RefundKeeps(site, b, s, a, amount, reason, key, now);
      case CancelInKitchen(order) => CancelKeeps(site, b, order);
      case OpenIssue(s, order, kind, requested, reason, note, key) =>
          OpenKeeps(site, b, s, order, kind, requested, reason, note, key);
      case ResolveIssue(s, id, resolution, approved, reason, note, key) =>
        ResolveKeeps(site, b, s, id, resolution, approved, reason, note, key, now);
    }
    if !command.ResolveIssue? { OtherCommandsKeepKeys(site, b, command, now); }
  }

  /** In every reachable state every summary matches its ledger, no allocation is
      over-refunded, no cancelled order holds money and every issue tells the truth. */
  lemma {:induction false} EveryReachableStateIsSettled(site: Site, b: Books, events: seq<Event>)
    requires Settled(site, b) && Proper(site, events)
    ensures Settled(site, Run(site, b, events))
  {
    if |events| > 0 {
      var n := |events| - 1;
      EveryReachableStateIsSettled(site, b, events[..n]);
      ExecKeeps(site, Run(site, b, events[..n]), events[n].command, events[n].at);
    }
  }

  /** A till that opens with empty books is settled after any run. */
  lemma {:induction false} FromEmptyBooks(site: Site, events: seq<Event>)
    requires Proper(site, events)
    ensures Settled(site, Run(site, Books([], [], [], [], []), events))
  {
    EveryReachableStateIsSettled(site, Books([], [], [], [], []), events);
  }

  lemma SummaryOf(site: Site, b: Books, store: int)
    requires Settled(site, b)
    ensures PaymentSummary(b, store).collected == Sum(b.settlements, GrossIn(store))
    ensures PaymentSummary(b, store).net == Sum(b.orders, NetIn(store))
    ensures PaymentSummary(b, store).outstanding == Sum(b.orders, OwedIn(store))
  {
    SummaryAgreesWithOrders(site, b, store);
    OutstandingIsOwedExactlyWhen(site, b, store);
  }

  /** The owner's figures are the orders' own, after any run: net is what was paid
      and not refunded, outstanding is what the live orders still owe. */
  lemma {:induction false} SummaryHoldsInEveryRun(site: Site, b: Books, events: seq<Event>, store: int)
    requires Settled(site, b) && Proper(site, events)
    ensures var now := Run(site, b, events);
            && PaymentSummary(now, store).collected == Sum(now.settlements, GrossIn(store))
            && PaymentSummary(now, store).net == Sum(now.orders, NetIn(store))
            && PaymentSummary(now, store).outstanding == Sum(now.orders, OwedIn(store))
  {
    EveryReachableStateIsSettled(site, b, events);
    SummaryOf(site, Run(site, b, events), store);
  }

  // ── The issue guard ────────────────────────────────────────────────────────

  /** sweetops_guard_order_issue: an UPDATE may only resolve an open issue, and must
      carry the creation columns over unchanged; DELETE never passes. */
  predicate GuardAllows(before: Issue, after: Issue) {
    && before.status.Open? && !after.status.Open?
    && after.store == before.store && after.order == before.order && after.requested == before.requested
    && after.createdBy == before.createdBy && after.createdKey == before.createdKey
    && after.createdBody == before.createdBody
  }

  ghost predicate Guarded(before: Books, after: Books) {
    match before
    case Books(_, _, _, _, issues) =>
      && |issues| <= |after.issues|
      && forall k :: 0 <= k < |issues| ==> after.issues[k] == issues[k] || GuardAllows(issues[k], after.issues[k])
  }

  lemma GuardComposes(a: Books, b: Books, c: Books)
    requires Guarded(a, b) && Guarded(b, c)
    ensures Guarded(a, c)
  {
    forall k | 0 <= k < |a.issues| ensures c.issues[k] == a.issues[k] || GuardAllows(a.issues[k], c.issues[k]) {
      assert b.issues[k] == a.issues[k] || GuardAllows(a.issues[k], b.issues[k]);
      assert c.issues[k] == b.issues[k] || GuardAllows(b.issues[k], c.issues[k]);
    }
  }

  lemma OpenIsGuarded(b: Books, s: Staff, order: nat, kind: string, requested: Option<int>, reason: string,
                      note: string, key: string)
    ensures Guarded(b, OpenIssueStep(b, s, order, kind, requested, reason, note, key).0)
  {}

  lemma ResolveIsGuarded(b: Books, s: Staff, id: nat, resolution: Resolution, approved: Option<int>, reason: string,
                         note: string, key: string, now: int)
    ensures Guarded(b, ResolveIssueStep(b, s, id, resolution, approved, reason, note, key, now).0)
  {}

  lemma ExecIsGuarded(site: Site, b: Books, command: Command, now: int)
    ensures Guarded(b, Exec(site, b, command, now).0)
  {
    if command.ResolveIssue? {
      var ResolveIssue(s, id, resolution, approved, reason, note, key) := command;
      ResolveIsGuarded(b, s, id, resolution, approved, reason, note, key, now);
    } else if command.OpenIssue? {
      var OpenIssue(s, order, kind, requested, reason, note, key) := command;
      OpenIsGuarded(b, s, order, kind, requested, reason, note, key);
    } else {
      assert Exec(site, b, command, now).0.issues == b.issues;
    }
  }

  lemma {:induction false} RunIsGuarded(site: Site, b: Books, events: seq<Event>)
    ensures Guarded(b, Run(site, b, events))
  {
    if |events| > 0 {
      var n := |events| - 1;
      RunIsGuarded(site, b, events[..n]);
      ExecIsGuarded(site, Run(site, b, events[..n]), events[n].command, events[n].at);
      GuardComposes(b, Run(site, b, events[..n]), Run(site, b, events));
    }
  }

  /** A resolved issue never changes again, whatever the till and other issues do. */
  lemma {:induction false} ResolvedIssuesAreFrozen(site: Site, b: Books, events: seq<Event>, id: nat)
    requires id < |b.issues| && !b.issues[id].status.Open?
    ensures id < |Run(site, b, events).issues| && Run(site, b, events).issues[id] == b.issues[id]
  {
    RunIsGuarded(site, b, events);
    assert Run(site, b, events).issues[id] == b.issues[id]
        || GuardAllows(b.issues[id], Run(site, b, events).issues[id]);
  }

  lemma ResolveLeavesItsMark(b: Books, staff: Staff, id: nat, resolution: Resolution, approved: Option<int>,
                             reason: string, note: string, key: string, at: int)
    requires ResolveIssueStep(b, staff, id, resolution, approved, reason, note, key, at).1 == Done(id)
    ensures var done := ResolveIssueStep(b, staff, id, resolution, approved, reason, note, key, at).0;
            && id < |done.issues| && done.issues[id].status.Resolved? && done.issues[id].store == staff.store
            && done.issues[id].resolvedKey == Some(Strip(key))
            && done.issues[id].resolvedBody ==
                Some(ResolutionBody(id, resolution, approved, Strip(reason), Strip(note)))
  {}

  /** Resolving is exactly-once for ever: after any further run the same request is
      answered with the same issue and moves no money; the key with another body is
      refused, and so is any other key. */
  lemma {:induction false} ResolvingIsExactlyOnce(site: Site, b: Books, staff: Staff, id: nat, resolution: Resolution,
                                                  approved: Option<int>, reason: string, note: string, key: string,
                                                  at: int, later: seq<Event>, again: Staff, resolution': Resolution,
                                                  approved': Option<int>, reason': string, note': string, key': string,
                                                  at': int)
    requires var (after, outcome) := ResolveIssueStep(b, staff, id, resolution, approved, reason, note, key, at);
             outcome == Done(id)
    requires again.store == staff.store && Strip(key') != "" && Strip(reason') != ""
    ensures var done := ResolveIssueStep(b, staff, id, resolution, approved, reason, note, key, at).0;
            var now := Run(site, done, later);
            ResolveIssueStep(now, again, id, resolution', approved', reason', note', key', at') ==
              (now, if Strip(key') != Strip(key) then Failed(AlreadyResolved)
                    else if resolution' == resolution && approved' == approved && Strip(reason') == Strip(reason)
                            && Strip(note') == Strip(note) then Replayed(id)
                    else Failed(IdempotencyMismatch))
  {
    var done := ResolveIssueStep(b, staff, id, resolution, approved, reason, note, key, at).0;
    ResolveLeavesItsMark(b, staff, id, resolution, approved, reason, note, key, at);
    ResolvedIssuesAreFrozen(site, done, later, id);
  }

  lemma IssueLeavesItsMark(b: Books, staff: Staff, order: nat, kind: string, requested: Option<int>, reason: string,
                           note: string, key: string)
    requires OpenIssueStep(b, staff, order, kind, requested, reason, note, key).1.Done?
    ensures var (after, outcome) := OpenIssueStep(b, staff, order, kind, requested, reason, note, key);
            && outcome.id < |after.issues| && after.issues[outcome.id].store == staff.store
            && after.issues[outcome.id].createdKey == Strip(key)
            && after.issues[outcome.id].createdBody == IssueBody(order, kind, requested, Strip(reason), Strip(note))
  {}

  lemma RememberedIssue(b: Books, id: nat, staff: Staff, order: nat, kind: string, requested: Option<int>,
                        reason: string, note: string, key: string)
    requires UniqueIssueKeys(b.issues) && id < |b.issues|
    requires b.issues[id].store == staff.store && b.issues[id].createdKey == Strip(key)
    requires Strip(key) != "" && Strip(reason) != "" && (requested.Some? ==> requested.value >= 0)
    ensures OpenIssueStep(b, staff, order, kind, requested, reason, note, key) ==
              (b, if b.issues[id].createdBody == IssueBody(order, kind, requested, Strip(reason), Strip(note))
               then Replayed(id)
                  else Failed(IdempotencyMismatch))
  {
    assert IssueKeyed(staff.store, Strip(key))(b.issues[id]);
    assert Find(b.issues, IssueKeyed(staff.store, Strip(key))) == id;
  }

  lemma {:induction false} CreationIsFrozen(site: Site, b: Books, events: seq<Event>, id: nat)
    requires Settled(site, b) && Proper(site, events) && id < |b.issues|
    ensures var now := Run(site, b, events);
            && UniqueIssueKeys(now.issues) && id < |now.issues| && now.issues[id].store == b.issues[id].store
            && now.issues[id].createdKey == b.issues[id].createdKey
            && now.issues[id].createdBody == b.issues[id].createdBody
  {
    EveryReachableStateIsSettled(site, b, events);
    RunIsGuarded(site, b, events);
    assert Run(site, b, events).issues[id] == b.issues[id]
        || GuardAllows(b.issues[id], Run(site, b, events).issues[id]);
  }

  lemma RecordingKeeps(site: Site, b: Books, staff: Staff, order: nat, kind: string, requested: Option<int>,
                       reason: string, note: string, key: string)
    requires Settled(site, b) && site.WorksAt(staff.user, staff.store)
    ensures Settled(site, OpenIssueStep(b, staff, order, kind, requested, reason, note, key).0)
  {
    ExecKeeps(site, b, OpenIssue(staff, order, kind, requested, reason, note, key), 0);
  }

  /** An issue is recorded once: re-sending the report after any run, resolved or not,
      answers with the same issue; its key with another body is refused. */
  lemma {:induction false} ReportingIsExactlyOnce(site: Site, b: Books, staff: Staff, order: nat, kind: string,
                                                  requested: Option<int>, reason: string, note: string, key: string,
                                                  id: nat, later: seq<Event>, again: Staff, order': nat, kind': string,
                                                  requested': Option<int>, reason': string, note': string, key': string)
    requires Settled(site, b) && site.WorksAt(staff.user, staff.store)
    requires OpenIssueStep(b, staff, order, kind, requested, reason, note, key).1 == Done(id) && Proper(site, later)
    requires again.store == staff.store && Strip(key') == Strip(key) && Strip(reason') != ""
    requires requested'.Some? ==> requested'.value >= 0
    ensures var now := Run(site, OpenIssueStep(b, staff, order, kind, requested, reason, note, key).0, later);
            OpenIssueStep(now, again, order', kind', requested', reason', note', key') ==
              (now, if order' == order && kind' == kind && requested' == requested && Strip(reason') == Strip(reason)
                       && Strip(note') == Strip(note) then Replayed(id)
                    else Failed(IdempotencyMismatch))
  {
    var done := OpenIssueStep(b, staff, order, kind, requested, reason, note, key).0;
    RecordingKeeps(site, b, staff, order, kind, requested, reason, note, key);
    IssueLeavesItsMark(b, staff, order, kind, requested, reason, note, key);
    CreationIsFrozen(site, done, later, id);
    RememberedIssue(Run(site, done, later), id, again, order', kind', requested', reason', note', key');
  }

  // ── Retries at the till ────────────────────────────────────────────────────

  ghost predicate Grown(before: Books, after: Books) {
    match before
    case Books(_, settlements, _, refunds, _) => settlements <= after.settlements && refunds <= after.refunds
  }

  /** What a collection leaves behind when it succeeds. */
  ghost predicate Marked(b: Books, result: (Books, Outcome), store: int, key: string, body: Request) {
    && Grown(b, result.0)
    && (result.1.Done? ==>
          && result.1.id == |b.settlements| && |result.0.settlements| == |b.settlements| + 1
          && result.0.settlements[result.1.id].store == store && result.0.settlements[result.1.id].key == key
          && result.0.settlements[result.1.id].request == body)
  }

  lemma PartIsMarked(b: Books, staff: Staff, table: Option<int>, order: nat, amount: int, tender: Tender, key: string,
                     body: Request, now: int)
    requires order < |b.orders|
    ensures Marked(b, PostPart(b, staff, table, order, amount, tender, key, body, now), staff.store, key, body)
  {}

  lemma FullIsMarked(b: Books, staff: Staff, table: Option<int>, ids: set<nat>, guardRecollect: bool, tender: Tender,
                     key: string, body: Request, now: int)
    ensures Marked(b, PostFull(b, staff, table, ids, guardRecollect, tender, key, body, now), staff.store, key, body)
  {}

  lemma CollectGrows(site: Site, b: Books, staff: Staff, table: Option<int>, ids: set<nat>, part: Option<int>,
                     guardRecollect: bool, tender: Tender, key: string, body: Request, now: int)
    ensures Marked(b, Collect(site, b, staff, table, ids, part, guardRecollect, tender, key, body, now), staff.store,
                   key, body)
  {
    FullIsMarked(b, staff, table, ids, guardRecollect, tender, key, body, now);
    if part.Some? && exists k :: 0 <= k < |b.orders| && k in ids {
      PartIsMarked(b, staff, table, First(b, ids, |b.orders|), part.value, tender, key, body, now);
    }
  }

  lemma SettleGrows(b: Books, staff: Staff, id: nat, resolution: Resolution, ruling: Ruling, reason: string,
                    key: string, body: Request, now: int)
    requires id < |b.issues| && b.issues[id].order < |b.orders| && ruling.Grant?
    ensures Grown(b, Settle(b, staff, id, resolution, ruling, reason, key, body, now).0)
  {}

  lemma ResolveGrows(b: Books, staff: Staff, id: nat, resolution: Resolution, approved: Option<int>, reason: string,
                     key: string, body: Request, now: int)
    requires id < |b.issues|
    ensures Grown(b, ResolveOpen(b, staff, id, resolution, approved, reason, key, body, now).0)
  {
    if b.issues[id].order < |b.orders| && Rule(b.orders[b.issues[id].order], resolution, approved).Grant? {
      SettleGrows(b, staff, id, resolution, Rule(b.orders[b.issues[id].order], resolution, approved), reason, key, body,
                  now);
    }
  }

  lemma ExecGrows(site: Site, b: Books, command: Command, now: int)
    ensures Grown(b, Exec(site, b, command, now).0)
  {
    match command
    case SettleTable(s, table, ids, tender, note, key) =>
      CollectGrows(site, b, s, Some(table), ids, None, true, tender, Strip(key),
                   SettlementBody(table, ids, tender, note), now);
    case PayOrder(s, order, part, tender, note, key) =>
      if order < |b.orders| {
        CollectGrows(site, b, s, b.orders[order].table, {order}, part, false, tender, Strip(key),
                     OrderPaymentBody(order, part, tender, note), now);
      }
    case ResolveIssue(s, id, resolution, approved, reason, note, key) =>
      if id < |b.issues| {
        ResolveGrows(b, s, id, resolution, approved, Strip(reason), Strip(key),
                     ResolutionBody(id, resolution, approved, Strip(reason), Strip(note)), now);
      }
    case _ =>
  }

  lemma {:induction false} RunGrows(site: Site, b: Books, events: seq<Event>)
    ensures Grown(b, Run(site, b, events))
  {
    if |events| > 0 {
      var n := |events| - 1;
      RunGrows(site, b, events[..n]);
      ExecGrows(site, Run(site, b, events[..n]), events[n].command, events[n].at);
    }
  }

  lemma KeyedSettlement(b: Books, id: nat)
    requires UniqueSettlementKeys(b.settlements) && id < |b.settlements|
    ensures Find(b.settlements, SettlementKeyed(b.settlements[id].store, b.settlements[id].key)) == id
  {
    assert SettlementKeyed(b.settlements[id].store, b.settlements[id].key)(b.settlements[id]);
  }

  lemma KeyedRefund(b: Books, id: nat)
    requires UniqueRefundKeys(b.refunds) && id < |b.refunds|
    ensures Find(b.refunds, RefundKeyed(b.refunds[id].store, b.refunds[id].key)) == id
  {
    assert RefundKeyed(b.refunds[id].store, b.refunds[id].key)(b.refunds[id]);
  }

  lemma RememberedPayment(site: Site, b: Books, id: nat, staff: Staff, order: nat, part: Option<int>, tender: Tender,
                          note: string, key: string, at: int)
    requires UniqueSettlementKeys(b.settlements) && id < |b.settlements|
    requires b.settlements[id].store == staff.store && b.settlements[id].key == Strip(key)
    requires Strip(key) != "" && (part.Some? ==> part.value > 0)
    ensures PayOrderStep(site, b, staff, order, part, tender, note, key, at) ==
              (b, if b.settlements[id].request == OrderPaymentBody(order, part, tender, note) then Replayed(id)
                  else Failed(IdempotencyMismatch))
  {
    KeyedSettlement(b, id);
  }

  lemma PayLeavesItsMark(site: Site, b: Books, staff: Staff, order: nat, part: Option<int>, tender: Tender,
                         note: string, key: string, at: int)
    requires PayOrderStep(site, b, staff, order, part, tender, note, key, at).1.Done?
    ensures Marked(b, PayOrderStep(site, b, staff, order, part, tender, note, key, at), staff.store, Strip(key),
                   OrderPaymentBody(order, part, tender, note))
  {
    CollectGrows(site, b, staff, b.orders[order].table, {order}, part, false, tender, Strip(key),
                 OrderPaymentBody(order, part, tender, note), at);
  }

  /** A collected payment is never collected twice: re-sending it after any run
      answers with the same settlement and moves no money; its key with another
      body is refused. */
  lemma {:induction false} PayingIsExactlyOnce(site: Site, b: Books, staff: Staff, order: nat, part: Option<int>,
                                               tender: Tender, note: string, key: string, at: int, id: nat,
                                               later: seq<Event>, again: Staff, order': nat, part': Option<int>,
                                               tender': Tender, note': string, key': string, at': int)
    requires Settled(site, b) && site.WorksAt(staff.user, staff.store)
    requires PayOrderStep(site, b, staff, order, part, tender, note, key, at).1 == Done(id) && Proper(site, later)
    requires again.store == staff.store && Strip(key') == Strip(key) && (part'.Some? ==> part'.value > 0)
    ensures var now := Run(site, PayOrderStep(site, b, staff, order, part, tender, note, key, at).0, later);
            PayOrderStep(site, now, again, order', part', tender', note', key', at') ==
              (now, if order' == order && part' == part && tender' == tender && note' == note then Replayed(id)
                    else Failed(IdempotencyMismatch))
  {
    var done := PayOrderStep(site, b, staff, order, part, tender, note, key, at).0;
    ExecKeeps(site, b, PayOrder(staff, order, part, tender, note, key), at);
    PayLeavesItsMark(site, b, staff, order, part, tender, note, key, at);
    EveryReachableStateIsSettled(site, done, later);
    RunGrows(site, done, later);
    RememberedPayment(site, Run(site, done, later), id, again, order', part', tender', note', key', at');
  }

  lemma RememberedTable(site: Site, b: Books, id: nat, staff: Staff, table: int, ids: set<nat>, tender: Tender,
                        note: string, key: string, at: int)
    requires UniqueSettlementKeys(b.settlements) && id < |b.settlements|
    requires b.settlements[id].store == staff.store && b.settlements[id].key == Strip(key) && Strip(key) != ""
    ensures SettleTableStep(site, b, staff, table, ids, tender, note, key, at) ==
              (b, if b.settlements[id].request == SettlementBody(table, ids, tender, note) then Replayed(id)
                  else Failed(IdempotencyMismatch))
  {
    KeyedSettlement(b, id);
  }

  lemma TableLeavesItsMark(site: Site, b: Books, staff: Staff, table: int, ids: set<nat>, tender: Tender, note: string,
                           key: string, at: int)
    requires SettleTableStep(site, b, staff, table, ids, tender, note, key, at).1.Done?
    ensures Marked(b, SettleTableStep(site, b, staff, table, ids, tender, note, key, at), staff.store, Strip(key),
                   SettlementBody(table, ids, tender, note))
  {
    CollectGrows(site, b, staff, Some(table), ids, None, true, tender, Strip(key),
                 SettlementBody(table, ids, tender, note), at);
  }

  /** The same for a whole table, whatever orders it has got since. */
  lemma {:induction false} SettlingIsExactlyOnce(site: Site, b: Books, staff: Staff, table: int, ids: set<nat>,
                                                 tender: Tender, note: string, key: string, at: int, id: nat,
                                                 later: seq<Event>, again: Staff, table': int, ids': set<nat>,
                                                 tender': Tender, note': string, key': string, at': int)
    requires Settled(site, b) && site.WorksAt(staff.user, staff.store)
    requires SettleTableStep(site, b, staff, table, ids, tender, note, key, at).1 == Done(id) && Proper(site, later)
    requires again.store == staff.store && Strip(key') == Strip(key)
    ensures var now := Run(site, SettleTableStep(site, b, staff, table, ids, tender, note, key, at).0, later);
            SettleTableStep(site, now, again, table', ids', tender', note', key', at') ==
              (now, if table' == table && ids' == ids && tender' == tender && note' == note then Replayed(id)
                    else Failed(IdempotencyMismatch))
  {
    var done := SettleTableStep(site, b, staff, table, ids, tender, note, key, at).0;
    ExecKeeps(site, b, SettleTable(staff, table, ids, tender, note, key), at);
    TableLeavesItsMark(site, b, staff, table, ids, tender, note, key, at);
    EveryReachableStateIsSettled(site, done, later);
    RunGrows(site, done, later);
    RememberedTable(site, Run(site, done, later), id, again, table', ids', tender', note', key', at');
  }

  lemma RefundLeavesItsMark(b: Books, staff: Staff, allocation: nat, amount: int, reason: string, key: string, at: int)
    requires RefundStep(b, staff, allocation, amount, reason, key, at).1.Done?
    ensures var (after, outcome) := RefundStep(b, staff, allocation, amount, reason, key, at);
            && outcome.id < |after.refunds| && after.refunds[outcome.id].store == staff.store
            && after.refunds[outcome.id].key == Direct(Strip(key))
            && after.refunds[outcome.id].request == RefundBody(allocation, amount, Strip(reason))
  {}

  lemma RememberedRefund(b: Books, id: nat, staff: Staff, allocation: nat, amount: int, reason: string, key: string,
                         at: int)
    requires UniqueRefundKeys(b.refunds) && id < |b.refunds|
    requires b.refunds[id].store == staff.store && b.refunds[id].key == Direct(Strip(key))
    requires Strip(key) != "" && Strip(reason) != "" && amount > 0
    ensures RefundStep(b, staff, allocation, amount, reason, key, at) ==
              (b, if b.refunds[id].request == RefundBody(allocation, amount, Strip(reason)) then Replayed(id)
                  else Failed(IdempotencyMismatch))
  {
    KeyedRefund(b, id);
  }

  /** The same for a refund: never given back twice. */
  lemma {:induction false} RefundingIsExactlyOnce(site: Site, b: Books, staff: Staff, allocation: nat, amount: int,
                                                  reason: string, key: string, at: int, id: nat, later: seq<Event>,
                                                  again: Staff, allocation': nat, amount': int, reason': string,
                                                  key': string, at': int)
    requires Settled(site, b) && site.WorksAt(staff.user, staff.store)
    requires RefundStep(b, staff, allocation, amount, reason, key, at).1 == Done(id) && Proper(site, later)
    requires again.store == staff.store && Strip(key') == Strip(key) && Strip(reason') != "" && amount' > 0
    ensures var now := Run(site, RefundStep(b, staff, allocation, amount, reason, key, at).0, later);
            RefundStep(now, again, allocation', amount', reason', key', at') ==
              (now, if allocation' == allocation && amount' == amount && Strip(reason') == Strip(reason)
               then Replayed(id)
                    else Failed(IdempotencyMismatch))
  {
    var done := RefundStep(b, staff, allocation, amount, reason, key, at).0;
    ExecKeeps(site, b, RefundAllocation(staff, allocation, amount, reason, key), at);
    RefundLeavesItsMark(b, staff, allocation, amount, reason, key, at);
    EveryReachableStateIsSettled(site, done, later);
    RunGrows(site, done, later);
    RememberedRefund(Run(site, done, later), id, again, allocation', amount', reason', key', at');
  }
}
