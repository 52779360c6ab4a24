/** The read-only payment and issue reconcilers. */
module PaymentReconciler {
  import opened Tables
  import opened Payments
  import opened PaymentCommands
  import opened PaymentSafety
  import opened IssueSafety
  import opened PaymentRuns

  predicate InScope(store: Option<int>, s: int) { store.None? || store.value == s }

  // ── Order summaries against the ledger ─────────────────────────────────────

  /** The query joins each allocation to its settlement. */
  function JoinedOfOrder(b: Books, id: nat): Allocation -> int {
    (a: Allocation) => if a.order == id && a.settlement < |b.settlements| then a.amount else 0
  }

  datatype OrderMismatch = OrderMismatch(order: nat, storedPaid: int, ledgerPaid: int, storedRefunded: int,
                                         ledgerRefunded: int)

  function OrderReport(b: Books, k: nat): OrderMismatch
    requires k < |b.orders|
  {
    OrderMismatch(k, b.orders[k].paid, Sum(b.allocations, JoinedOfOrder(b, k)),
                  b.orders[k].refunded, Sum(b.refunds, RefundedOn(k)))
  }

  predicate OrderAgrees(b: Books, k: nat)
    requires k < |b.orders|
  {
    var r := OrderReport(b, k);
    r.storedPaid == r.ledgerPaid && r.storedRefunded == r.ledgerRefunded
  }

  /** The report compares an order's own figures with the sums of its rows in the ledger. */
  lemma OrderFiguresAre(site: Site, b: Books, k: nat)
    requires RowsOk(site, b) && k < |b.orders|
    ensures var paid := Sum(b.allocations, (a: Allocation) => if a.order == k then a.amount else 0);
            var refunded := Sum(b.refunds, (r: Refund) => if r.order == k then r.amount else 0);
            && OrderReport(b, k) == OrderMismatch(k, b.orders[k].paid, paid, b.orders[k].refunded, refunded)
            && (OrderAgrees(b, k) <==> b.orders[k].paid == paid && b.orders[k].refunded == refunded)
  {
    forall j | 0 <= j < |b.allocations| ensures b.allocations[j].settlement < |b.settlements| {
      assert AllocationChecks(b, b.allocations[j]);
    }
    SumPointwise(b.allocations, JoinedOfOrder(b, k), b.allocations,
                 (a: Allocation) => if a.order == k then a.amount else 0);
    SumPointwise(b.refunds, RefundedOn(k), b.refunds, (r: Refund) => if r.order == k then r.amount else 0);
  }

  method Reconcile(b: Books, store: Option<int>) returns (mismatches: seq<OrderMismatch>)
    ensures forall r :: r in mismatches <==>
              exists k :: 0 <= k < |b.orders| && InScope(store, b.orders[k].store) && !OrderAgrees(b, k)
                  && r == OrderReport(b, k)
    ensures forall i, j :: 0 <= i < j < |mismatches| ==> mismatches[i].order < mismatches[j].order
  {
    mismatches := [];
    for n := 0 to |b.orders|
      invariant forall r :: r in mismatches <==>
                  exists k :: 0 <= k < n && InScope(store, b.orders[k].store) && !OrderAgrees(b, k)
                      && r == OrderReport(b, k)
      invariant forall i, j :: 0 <= i < j < |mismatches| ==> mismatches[i].order < mismatches[j].order
      invariant forall i :: 0 <= i < |mismatches| ==> mismatches[i].order < n
    {
      if InScope(store, b.orders[n].store) {
        var r := OrderReport(b, n);
        if r.storedPaid != r.ledgerPaid || r.storedRefunded != r.ledgerRefunded {
          mismatches := mismatches + [r];
        }
      }
    }
  }

  // ── Issues against the refunds they caused ─────────────────────────────────

  datatype Problem =
    | StoreMismatch | RefundContextMismatch | MissingOrBrokenLink | AmountOver | AmountUnder | UnexpectedLink

  datatype IssueReport = IssueReport(issue: nat, approved: int, linkedSum: int, problems: set<Problem>)

  function Approved(i: Issue): int { if i.approved.Some? then i.approved.value else 0 }

  /** The amount problems of a refunding resolution, or the strays of any other issue. */
  function LinkProblems(b: Books, id: nat): set<Problem>
    requires id < |b.issues|
  {
    var i, linked := b.issues[id], Sum(b.refunds, LinkedTo(id));
    if !i.status.Open? && i.Refunding() && Approved(i) > 0 then
      (if PrimaryLinkOk(b, id, i) then {} else {MissingOrBrokenLink})
      + (if linked > Approved(i) then {AmountOver} else if linked < Approved(i) then {AmountUnder} else {})
    else if Sum(b.refunds, LinkCount(id)) != 0 || i.refund.Some? then {UnexpectedLink} else {}
  }

  function ProblemsOf(b: Books, id: nat): set<Problem>
    requires id < |b.issues| && b.issues[id].order < |b.orders|
  {
    var i := b.issues[id];
    (if i.store != b.orders[i.order].store then {StoreMismatch} else {})
    + (if Sum(b.refunds, StrayCount(id, i)) != 0 then {RefundContextMismatch} else {})
    + LinkProblems(b, id)
  }

  predicate IssueListed(b: Books, store: Option<int>, id: nat)
    requires id < |b.issues|
  {
    InScope(store, b.issues[id].store) && b.issues[id].order < |b.orders| && ProblemsOf(b, id) != {}
  }

  function IssueReportOf(b: Books, id: nat): IssueReport
    requires id < |b.issues| && b.issues[id].order < |b.orders|
  {
    IssueReport(id, Approved(b.issues[id]), Sum(b.refunds, LinkedTo(id)), ProblemsOf(b, id))
  }

  method FindProblems(b: Books, n: nat) returns (problems: set<Problem>)
    requires n < |b.issues| && b.issues[n].order < |b.orders|
    ensures problems == ProblemsOf(b, n)
  {
    var i, linkedSum := b.issues[n], Sum(b.refunds, LinkedTo(n));
    problems := {};
    if i.store != b.orders[i.order].store { problems := problems + {StoreMismatch}; }
    if Sum(b.refunds, StrayCount(n, i)) != 0 { problems := problems + {RefundContextMismatch}; }
    if !i.status.Open? && i.Refunding() && Approved(i) > 0 {
      if !PrimaryLinkOk(b, n, i) { problems := problems + {MissingOrBrokenLink}; }
      if linkedSum != Approved(i) {
        problems := problems + {if linkedSum > Approved(i) then AmountOver else AmountUnder};
      }
    } else if Sum(b.refunds, LinkCount(n)) != 0 || i.refund.Some? {
      problems := problems + {UnexpectedLink};
    }
  }

  method ReconcileIssues(b: Books, store: Option<int>) returns (mismatches: seq<IssueReport>)
    ensures forall r :: r in mismatches <==> exists id ::
              0 <= id < |b.issues| && IssueListed(b, store, id) && r == IssueReportOf(b, id)
    ensures forall i, j :: 0 <= i < j < |mismatches| ==> mismatches[i].issue < mismatches[j].issue
  {
    mismatches := [];
    for n := 0 to |b.issues|
      invariant forall r :: r in mismatches <==> exists id ::
                  0 <= id < n && IssueListed(b, store, id) && r == IssueReportOf(b, id)
      invariant forall i, j :: 0 <= i < j < |mismatches| ==> mismatches[i].issue < mismatches[j].issue
      invariant forall i :: 0 <= i < |mismatches| ==> mismatches[i].issue < n
    {
      if InScope(store, b.issues[n].store) && b.issues[n].order < |b.orders| {
        var problems := FindProblems(b, n);
        if problems != {} {
          assert IssueListed(b, store, n);
          mismatches := mismatches + [IssueReport(n, Approved(b.issues[n]), Sum(b.refunds, LinkedTo(n)), problems)];
        }
      }
    }
  }

  /** Under the schema the report names exactly the issues whose story differs from
      the ledger's. */
  lemma NoProblemsExactlyWhenItTells(site: Site, b: Books, id: nat)
    requires RowsOk(site, b) && id < |b.issues| && b.issues[id].order < |b.orders|
    ensures ProblemsOf(b, id) == {} <==> IssueTells(b, id)
  {
    var i := b.issues[id];
    assert IssueChecks(i) && IssueKeys(site, b, i);
    if ProblemsOf(b, id) == {} {
      assert StoreMismatch !in ProblemsOf(b, id) && RefundContextMismatch !in ProblemsOf(b, id)
          && MissingOrBrokenLink !in ProblemsOf(b, id) && AmountOver !in ProblemsOf(b, id)
          && AmountUnder !in ProblemsOf(b, id) && UnexpectedLink !in ProblemsOf(b, id);
    }
    assert IssueTells(b, id) ==> LinkProblems(b, id) == {};
  }

  /** A resolution that gave money back. */
  predicate GaveMoney(i: Issue) {
    && !i.status.Open? && (i.resolution == Some(FullRefund) || i.resolution == Some(PartialRefund))
    && i.approved.Some? && i.approved.value > 0
  }

  lemma LinksAreCounted(b: Books, id: nat, i: Issue)
    ensures Sum(b.refunds, LinkCount(id)) != 0 <==>
              exists k :: 0 <= k < |b.refunds| && b.refunds[k].issue == Some(id)
    ensures Sum(b.refunds, StrayCount(id, i)) != 0 <==>
              exists k :: 0 <= k < |b.refunds| && b.refunds[k].issue == Some(id)
                          && (b.refunds[k].store != i.store || b.refunds[k].order != i.order)
  {
    SumNonneg(b.refunds, LinkCount(id));
    SumNonneg(b.refunds, StrayCount(id, i));
    if Sum(b.refunds, LinkCount(id)) > 0 { var k := PositiveRow(b.refunds, LinkCount(id)); }
    if Sum(b.refunds, StrayCount(id, i)) > 0 { var k := PositiveRow(b.refunds, StrayCount(id, i)); }
    forall k | 0 <= k < |b.refunds| && b.refunds[k].issue == Some(id) ensures LinkCount(id)(b.refunds[k]) == 1 {}
    if k :| 0 <= k < |b.refunds| && b.refunds[k].issue == Some(id)
            && (b.refunds[k].store != i.store || b.refunds[k].order != i.order) {
      assert StrayCount(id, i)(b.refunds[k]) == 1;
    }
  }

  lemma IssueFiguresAre(b: Books, id: nat)
    requires id < |b.issues| && b.issues[id].order < |b.orders|
    ensures IssueReportOf(b, id) ==
              IssueReport(id, if b.issues[id].approved.Some? then b.issues[id].approved.value else 0,
                          Sum(b.refunds, (r: Refund) => if r.issue == Some(id) then r.amount else 0), ProblemsOf(b, id))
  {
    SumPointwise(b.refunds, LinkedTo(id), b.refunds, (r: Refund) => if r.issue == Some(id) then r.amount else 0);
  }

  /** Each problem is reported exactly when it is there. */
  lemma EachProblemIsNamed(b: Books, id: nat, p: Problem)
    requires id < |b.issues| && b.issues[id].order < |b.orders|
    ensures var i := b.issues[id];
            var given := Sum(b.refunds, (r: Refund) => if r.issue == Some(id) then r.amount else 0);
            p in ProblemsOf(b, id) <==>
              match p
              case StoreMismatch => i.store != b.orders[i.order].store
              case RefundContextMismatch =>
                exists k :: 0 <= k < |b.refunds| && b.refunds[k].issue == Some(id)
                            && (b.refunds[k].store != i.store || b.refunds[k].order != i.order)
              case MissingOrBrokenLink =>
                GaveMoney(i) && (i.refund.None? || i.refund.value >= |b.refunds|
                                 || b.refunds[i.refund.value].issue != Some(id))
              case AmountOver => GaveMoney(i) && given > i.approved.value
              case AmountUnder => GaveMoney(i) && given < i.approved.value
              case UnexpectedLink =>
                !GaveMoney(i) && (i.refund.Some? || exists k :: 0 <= k < |b.refunds| && b.refunds[k].issue == Some(id))
  {
    LinksAreCounted(b, id, b.issues[id]);
    SumPointwise(b.refunds, LinkedTo(id), b.refunds, (r: Refund) => if r.issue == Some(id) then r.amount else 0);
  }

  // ── Refunds within what was paid ───────────────────────────────────────────

  datatype Overrun = Overrun(order: nat, paid: int, refunded: int)

  method ReconcileOrderRefunds(b: Books, store: Option<int>) returns (over: seq<Overrun>)
    ensures forall r :: r in over <==>
              exists k :: 0 <= k < |b.orders| && InScope(store, b.orders[k].store)
                          && Sum(b.refunds, RefundedOn(k)) > b.orders[k].paid
                          && r == Overrun(k, b.orders[k].paid, Sum(b.refunds, RefundedOn(k)))
    ensures forall i, j :: 0 <= i < j < |over| ==> over[i].order < over[j].order
  {
    over := [];
    for n := 0 to |b.orders|
      invariant forall r :: r in over <==>
                  exists k :: 0 <= k < n && InScope(store, b.orders[k].store)
                              && Sum(b.refunds, RefundedOn(k)) > b.orders[k].paid
                              && r == Overrun(k, b.orders[k].paid, Sum(b.refunds, RefundedOn(k)))
      invariant forall i, j :: 0 <= i < j < |over| ==> over[i].order < over[j].order
      invariant forall i :: 0 <= i < |over| ==> over[i].order < n
    {
      var refunded := Sum(b.refunds, RefundedOn(n));
      if InScope(store, b.orders[n].store) && refunded > b.orders[n].paid {
        over := over + [Overrun(n, b.orders[n].paid, refunded)];
      }
    }
  }

  // ── What the reports say of reachable states ───────────────────────────────

  /** What all three reports being empty certifies, for one store or for all. */
  ghost predicate CleanIn(b: Books, store: Option<int>) {
    && (forall k :: 0 <= k < |b.orders| && InScope(store, b.orders[k].store) ==> OrderAgrees(b, k))
    && (forall id :: 0 <= id < |b.issues| ==> !IssueListed(b, store, id))
    && (forall k :: 0 <= k < |b.orders| && InScope(store, b.orders[k].store) ==>
        Sum(b.refunds, RefundedOn(k)) <= b.orders[k].paid)
  }

  method Audit(b: Books, store: Option<int>) returns (code: int)
    ensures code == 0 <==> CleanIn(b, store)
    ensures code == 0 || code == 1
  {
    var mismatches := Reconcile(b, store);
    var issues := ReconcileIssues(b, store);
    var over := ReconcileOrderRefunds(b, store);
    code := if mismatches != [] || issues != [] || over != [] then 1 else 0;
    if code == 0 {
      forall k | 0 <= k < |b.orders| && InScope(store, b.orders[k].store)
        ensures OrderAgrees(b, k) && Sum(b.refunds, RefundedOn(k)) <= b.orders[k].paid
      {
        assert OrderReport(b, k) !in mismatches;
        assert Overrun(k, b.orders[k].paid, Sum(b.refunds, RefundedOn(k))) !in over;
      }
      forall id | 0 <= id < |b.issues| ensures !IssueListed(b, store, id) {
        assert IssueListed(b, store, id) ==> IssueReportOf(b, id) in issues;
      }
    } else if mismatches != [] {
      assert mismatches[0] in mismatches;
    } else if issues != [] {
      assert issues[0] in issues;
    } else {
      assert over[0] in over;
    }
  }

  lemma SettledIsClean(site: Site, b: Books, store: Option<int>)
    requires Settled(site, b)
    ensures CleanIn(b, store)
  {
    forall k | 0 <= k < |b.orders| ensures OrderAgrees(b, k) && Sum(b.refunds, RefundedOn(k)) <= b.orders[k].paid {
      forall j | 0 <= j < |b.allocations|
        ensures JoinedOfOrder(b, k)(b.allocations[j]) == OfOrder(k)(b.allocations[j])
      {
        assert AllocationChecks(b, b.allocations[j]);
      }
      SumPointwise(b.allocations, JoinedOfOrder(b, k), b.allocations, OfOrder(k));
      assert b.orders[k].paid == Sum(b.allocations, OfOrder(k)) && OrderChecks(b.orders[k]);
    }
    forall id | 0 <= id < |b.issues| ensures !IssueListed(b, store, id) {
      assert IssueTells(b, id);
      if b.issues[id].order < |b.orders| { NoProblemsExactlyWhenItTells(site, b, id); }
    }
  }

  /** Every reachable state is clean, store by store and as a whole. */
  lemma {:induction false} EveryReachableStateReconciles(site: Site, b: Books, events: seq<Event>, store: Option<int>)
    requires Settled(site, b) && Proper(site, events)
    ensures CleanIn(Run(site, b, events), store)
  {
    EveryReachableStateIsSettled(site, b, events);
    SettledIsClean(site, Run(site, b, events), store);
  }

  // ── What the CHECKs let through ────────────────────────────────────────────

  /** SQL passes a CHECK that is NULL: an open issue may carry a refund_id, although
      nothing was resolved, exactly when the refund is of its own store and order. */
  lemma OpenIssuesMayCarryARefund(site: Site, b: Books, i: Issue, refund: nat)
    requires i.status.Open? && IssueChecks(i) && IssueKeys(site, b, i)
    ensures IssueChecks(i.(refund := Some(refund))) && IssueKeys(site, b, i.(refund := Some(refund)))
       <==> refund < |b.refunds| && b.refunds[refund].store == i.store && b.refunds[refund].order == i.order
  {}

  const SHOP := Site(map[], map[5 := Some(1)])

  /** An order of 10.00 paid in cash, 4.00 given back at the till, and an open issue
      whose refund_id names that refund. */
  function Complaint(): Books {
    var body := IssueBody(0, [], None, ['r'], []);
    Books([Order(1, None, 1000, false, 1000, 400, PartiallyPaid, PartiallyRefunded)],
          [Settlement(1, None, 5, Cash, 1000, 0, ['s'], OrderPaymentBody(0, None, Cash, []))],
          [Allocation(0, 0, 1000)],
          [Refund(1, 0, 0, 0, 400, 5, 1, ['r'], Direct(['k']), RefundBody(0, 400, ['r']), None)],
          [Issue(1, 0, Open, None, 5, ['i'], body, None, None, Some(0), None, None, None, None)])
  }

  /** Such books satisfy every constraint and trigger and every total, and the issue
      report names exactly that issue, for exactly that reason. */
  lemma AnAcceptedComplaintIsReported()
    ensures Ledger(SHOP, Complaint())
    ensures Complaint().issues[0].status.Open? && Complaint().issues[0].refund == Some(0)
    ensures IssueListed(Complaint(), None, 0) && ProblemsOf(Complaint(), 0) == {UnexpectedLink}
  {
    var b := Complaint();
    SumSingle(b.allocations, 0, OfSettlement(0));
    SumSingle(b.allocations, 0, OfOrder(0));
    SumSingle(b.refunds, 0, RefundedOn(0));
    SumSingle(b.refunds, 0, RefundedFrom(0));
    SumSingle(b.refunds, 0, LinkCount(0));
    SumSingle(b.refunds, 0, StrayCount(0, b.issues[0]));
    assert TotalMatches(b, 0);
    assert UnexpectedLink in ProblemsOf(b, 0);
  }

  /** ... and the reconciler does report it: an open issue is clean exactly when it
      carries no refund_id and no refund names it. */
  lemma OpenIssueIsCleanExactlyWhen(site: Site, b: Books, id: nat)
    requires RowsOk(site, b) && id < |b.issues| && b.issues[id].status.Open?
    requires b.issues[id].order < |b.orders|
    ensures ProblemsOf(b, id) == {} <==>
              b.issues[id].refund.None? && forall k :: 0 <= k < |b.refunds| ==> b.refunds[k].issue != Some(id)
  {
    NoProblemsExactlyWhenItTells(site, b, id);
    SumNonneg(b.refunds, LinkCount(id));
    if b.issues[id].refund.None? && forall k :: 0 <= k < |b.refunds| ==> b.refunds[k].issue != Some(id) {
      NothingLinked(b.refunds, id);
    }
  }
}
