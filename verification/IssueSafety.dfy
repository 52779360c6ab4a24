/** Order issues: how an approved refund is spread over an order's allocations, and
    why every issue's record keeps telling what the refund ledger says. */
module IssueSafety {
  import opened Tables
  import opened Text
  import opened Payments
  import opened PaymentCommands
  import opened PaymentSafety

  // ── The split ──────────────────────────────────────────────────────────────

  /** What allocation a could give the order: nothing unless it is the order's. */
  function CouldGive(b: Books, order: nat): int -> int {
    (a: int) => if 0 <= a < |b.allocations| && Gives(b, order, a) then RefundableOf(b, a) else 0
  }

  function Clamp(x: int, high: int): int { if x < 0 then 0 else Min(x, high) }

  function TakenFrom(a: nat): Piece -> int { (p: Piece) => if p.allocation == a then p.amount else 0 }

  /** What the n-th allocation contributes to the split. */
  function Take(b: Books, order: nat, total: int, n: nat): int
    requires n < |b.allocations|
  {
    var remaining := total - Sum(Split(b, order, total, n), PieceAmount());
    if remaining > 0 && Gives(b, order, n) then Min(remaining, RefundableOf(b, n)) else 0
  }

  lemma SplitAmount(b: Books, order: nat, total: int, n: nat)
    requires n < |b.allocations|
    ensures Sum(Split(b, order, total, n + 1), PieceAmount()) ==
              Sum(Split(b, order, total, n), PieceAmount()) + Take(b, order, total, n)
  {
    SumAppend(Split(b, order, total, n), Piece(n, Take(b, order, total, n)), PieceAmount());
  }

  lemma CouldGiveStep(b: Books, order: nat, n: nat)
    requires n < |b.allocations|
    ensures Sum(Ids(n + 1), CouldGive(b, order)) == Sum(Ids(n), CouldGive(b, order)) + CouldGive(b, order)(n)
  {
    assert Ids(n + 1) == Ids(n) + [n];
    SumAppend(Ids(n), n, CouldGive(b, order));
  }

  /** Together the pieces take the whole amount, or everything there is. */
  lemma {:induction false} SplitTakesWhatItCan(b: Books, order: nat, total: int, n: nat)
    requires n <= |b.allocations| && total >= 0
    ensures Sum(Split(b, order, total, n), PieceAmount()) == Min(total, Sum(Ids(n), CouldGive(b, order)))
    ensures Sum(Ids(n), CouldGive(b, order)) >= 0
  {
    if n > 0 {
      SplitTakesWhatItCan(b, order, total, n - 1);
      SplitAmount(b, order, total, n - 1);
      CouldGiveStep(b, order, n - 1);
    }
  }

  lemma SplitStep(b: Books, order: nat, total: int, n: nat, a: nat)
    requires n < |b.allocations|
    ensures Sum(Split(b, order, total, n + 1), TakenFrom(a))
         == Sum(Split(b, order, total, n), TakenFrom(a)) + (if a == n then Take(b, order, total, n) else 0)
  {
    SumAppend(Split(b, order, total, n), Piece(n, Take(b, order, total, n)), TakenFrom(a));
  }

  lemma {:induction false} NotYetTaken(b: Books, order: nat, total: int, n: nat)
    requires n < |b.allocations|
    ensures Sum(Split(b, order, total, n), TakenFrom(n)) == 0
  {
    SplitRows(b, order, total, n);
    SumZero(Split(b, order, total, n), TakenFrom(n));
  }

  /** The split in closed form: each allocation gives what the earlier ones left to
      take, as far as its own balance goes — first come, first drained. */
  lemma {:induction false} SplitInClosedForm(b: Books, order: nat, total: int, n: nat, a: nat)
    requires a < n <= |b.allocations| && total >= 0
    ensures Sum(Split(b, order, total, n), TakenFrom(a))
         == Clamp(total - Sum(Ids(a), CouldGive(b, order)), CouldGive(b, order)(a))
  {
    SplitStep(b, order, total, n - 1, a);
    if a < n - 1 {
      SplitInClosedForm(b, order, total, n - 1, a);
    } else {
      NotYetTaken(b, order, total, a);
      SplitTakesWhatItCan(b, order, total, a);
    }
  }

  /** Under sound books the refundable balances of an order are what CouldGive says,
      so an amount up to order_refundable always splits completely. */
  lemma {:induction false} SplitNeverFallsShort(site: Site, b: Books, order: nat, total: int)
    requires Ledger(site, b) && order < |b.orders| && 0 <= total <= b.orders[order].Refundable()
    ensures Sum(Split(b, order, total, |b.allocations|), PieceAmount()) == total
  {
    OrderRefundableIsExact(site, b, order);
    var ids := Ids(|b.allocations|);
    forall k | 0 <= k < |ids| ensures CouldGive(b, order)(ids[k]) == RefundableFor(b, order)(ids[k]) {
      assert RefundableOf(b, k) >= 0;
    }
    SumPointwise(ids, CouldGive(b, order), ids, RefundableFor(b, order));
    SplitTakesWhatItCan(b, order, total, |b.allocations|);
  }

  // ── The refunds it becomes ─────────────────────────────────────────────────

  /** The rows a resolution adds to the refund ledger. */
  function RefundsFor(b: Books, staff: Staff, id: nat, amount: int, reason: string, key: string, now: int): seq<Refund>
    requires id < |b.issues| && b.issues[id].order < |b.orders|
  {
    var order := b.issues[id].order;
    SplitRows(b, order, amount, |b.allocations|);
    IssueRefunds(b, staff, order, id, reason, key, now, Split(b, order, amount, |b.allocations|))
  }

  lemma {:induction false} RefundsForTotals(b: Books, staff: Staff, id: nat, amount: int, reason: string, key: string,
                                            now: int)
    requires id < |b.issues| && b.issues[id].order < |b.orders|
    ensures var refunds, pieces :=
              RefundsFor(b, staff, id, amount, reason, key, now), Split(b, b.issues[id].order, amount, |b.allocations|);
            && |refunds| == |pieces|
            && Sum(refunds, LinkedTo(id)) == Sum(pieces, PieceAmount())
            && (forall a: nat :: Sum(refunds, RefundedFrom(a)) == Sum(pieces, TakenFrom(a)))
  {
    var refunds, pieces := RefundsFor(b, staff, id, amount, reason, key, now),
        Split(b, b.issues[id].order, amount, |b.allocations|);
    SplitRows(b, b.issues[id].order, amount, |b.allocations|);
    SumPointwise(refunds, LinkedTo(id), pieces, PieceAmount());
    forall a: nat ensures Sum(refunds, RefundedFrom(a)) == Sum(pieces, TakenFrom(a)) {
      SumPointwise(refunds, RefundedFrom(a), pieces, TakenFrom(a));
    }
  }

  lemma RefundsForChecks(site: Site, b: Books, staff: Staff, id: nat, amount: int, reason: string, key: string,
                         now: int)
    requires RowsOk(site, b) && id < |b.issues| && b.issues[id].order < |b.orders| && reason != ""
    ensures forall k :: 0 <= k < |RefundsFor(b, staff, id, amount, reason, key, now)| ==>
              RefundChecks(b, RefundsFor(b, staff, id, amount, reason, key, now)[k])
  {
    var order := b.issues[id].order;
    var refunds, pieces := RefundsFor(b, staff, id, amount, reason, key, now), Split(b, order, amount, |b.allocations|);
    SplitRows(b, order, amount, |b.allocations|);
    forall k | 0 <= k < |refunds| ensures RefundChecks(b, refunds[k]) {
      assert refunds[k] == IssueRefund(b, staff, order, id, reason, key, now, pieces[k]);
      assert AllocationChecks(b, b.allocations[pieces[k].allocation]);
    }
  }

  lemma RefundsForBound(b: Books, staff: Staff, id: nat, amount: int, reason: string, key: string, now: int, a: nat)
    requires AllocationsHold(b) && id < |b.issues| && amount >= 0 && b.issues[id].order < |b.orders|
    requires a < |b.allocations|
    ensures Sum(RefundsFor(b, staff, id, amount, reason, key, now), RefundedFrom(a)) <= RefundableOf(b, a)
  {
    RefundsForTotals(b, staff, id, amount, reason, key, now);
    SplitInClosedForm(b, b.issues[id].order, amount, |b.allocations|, a);
    assert RefundableOf(b, a) >= 0;
  }

  lemma RefundsForOk(site: Site, b: Books, staff: Staff, id: nat, amount: int, reason: string, key: string, now: int)
    requires Ledger(site, b) && id < |b.issues| && amount >= 0 && reason != ""
    requires b.issues[id].order < |b.orders|
    ensures RefundsOk(b, RefundsFor(b, staff, id, amount, reason, key, now))
  {
    RefundsForChecks(site, b, staff, id, amount, reason, key, now);
    forall a | 0 <= a < |b.allocations|
      ensures Sum(RefundsFor(b, staff, id, amount, reason, key, now), RefundedFrom(a)) <= RefundableOf(b, a)
    {
      RefundsForBound(b, staff, id, amount, reason, key, now, a);
    }
  }

  /** A resolution's refund keys carry its issue, which nothing resolved before. */
  ghost predicate Unlinked(b: Books, id: nat) { forall k :: 0 <= k < |b.refunds| ==> b.refunds[k].issue != Some(id) }

  ghost predicate KeysCarryIssues(b: Books) {
    forall k :: 0 <= k < |b.refunds| && b.refunds[k].key.ForIssue? ==>
        b.refunds[k].issue == Some(b.refunds[k].key.issue)
  }

  lemma RefundsForUnique(b: Books, staff: Staff, id: nat, amount: int, reason: string, key: string, now: int)
    requires UniqueRefundKeys(b.refunds) && KeysCarryIssues(b) && Unlinked(b, id)
    requires id < |b.issues| && b.issues[id].order < |b.orders|
    ensures UniqueRefundKeys(b.refunds + RefundsFor(b, staff, id, amount, reason, key, now))
  {
    var refunds := RefundsFor(b, staff, id, amount, reason, key, now);
    SplitRows(b, b.issues[id].order, amount, |b.allocations|);
    var all, n := b.refunds + refunds, |b.refunds|;
    forall j, k | 0 <= j < k < |all| ensures all[j].store != all[k].store || all[j].key != all[k].key {
      if k >= n && j < n {
        assert all[k].key == ForIssue(key, id, refunds[k - n].allocation) && b.refunds[j].issue != Some(id);
      }
    }
  }

  // ── Issues after the refunds ───────────────────────────────────────────────

  /** An open issue has no linked refund. */
  lemma {:induction false} OpenIsUnlinked(b: Books, id: nat)
    requires id < |b.issues| && IssueTells(b, id) && b.issues[id].status.Open?
    ensures Unlinked(b, id)
  {
    SumNonneg(b.refunds, LinkCount(id));
  }

  lemma {:induction false} NothingLinked(refunds: seq<Refund>, id: nat)
    requires forall k :: 0 <= k < |refunds| ==> refunds[k].issue != Some(id)
    ensures Sum(refunds, LinkCount(id)) == 0 && Sum(refunds, LinkedTo(id)) == 0
    ensures forall i :: Sum(refunds, StrayCount(id, i)) == 0
  {
    SumZero(refunds, LinkCount(id));
    SumZero(refunds, LinkedTo(id));
    forall i ensures Sum(refunds, StrayCount(id, i)) == 0 { SumZero(refunds, StrayCount(id, i)); }
  }

  /** Other issues do not notice refunds linked to this one. */
  lemma OthersStillTell(b: Books, after: Books, id: nat, other: nat, refunds: seq<Refund>)
    requires other < |b.issues| && other != id && IssueTells(b, other)
    requires after.refunds == b.refunds + refunds && other < |after.issues| && after.issues[other] == b.issues[other]
    requires forall k :: 0 <= k < |refunds| ==> refunds[k].issue == Some(id)
    ensures IssueTells(after, other)
  {
    NothingLinked(refunds, other);
    SumConcat(b.refunds, refunds, StrayCount(other, b.issues[other]));
    SumConcat(b.refunds, refunds, LinkCount(other));
    SumConcat(b.refunds, refunds, LinkedTo(other));
  }

  lemma {:induction false} ResolvedTells(b: Books, after: Books, id: nat, refunds: seq<Refund>)
    requires id < |after.issues| && Unlinked(b, id) && after.refunds == b.refunds + refunds
    requires var i := after.issues[id];
             && i.status.Resolved? && i.approved.Some?
             && (i.Refunding() <==> i.approved.value > 0)
             && (i.approved.value > 0 ==>
                 refunds != [] && i.refund == Some(|b.refunds|) && Sum(refunds, LinkedTo(id)) == i.approved.value)
             && (i.approved.value <= 0 ==> refunds == [] && i.refund.None?)
             && forall k :: 0 <= k < |refunds| ==>
                  refunds[k].issue == Some(id) && refunds[k].store == i.store && refunds[k].order == i.order
    ensures IssueTells(after, id)
  {
    var i := after.issues[id];
    NothingLinked(b.refunds, id);
    SumZero(refunds, StrayCount(id, i));
    SumConcat(b.refunds, refunds, StrayCount(id, i));
    SumConcat(b.refunds, refunds, LinkCount(id));
    SumConcat(b.refunds, refunds, LinkedTo(id));
  }

  // ── Opening ────────────────────────────────────────────────────────────────

  ghost predicate Settled(site: Site, b: Books) {
    match b
    case Books(_, _, _, _, _) => Sound(site, b) && KeysCarryIssues(b)
  }

  /** Rewriting issues moves no money. */
  lemma SameMoneySameLedger(site: Site, b: Books, after: Books)
    requires Ledger(site, b) && RowsOk(site, after) && after.orders == b.orders && after.settlements == b.settlements
    requires after.allocations == b.allocations && after.refunds == b.refunds
    ensures Ledger(site, after)
  {
    forall id | 0 <= id < |b.settlements| ensures TotalMatches(after, id) { assert TotalMatches(b, id); }
    forall a | 0 <= a < |b.allocations| ensures RefundableOf(after, a) >= 0 { assert RefundableOf(b, a) >= 0; }
  }

  lemma ListedRowsOk(site: Site, b: Books, i: Issue)
    requires RowsOk(site, b) && IssueChecks(i) && IssueKeys(site, b, i)
    requires forall k :: 0 <= k < |b.issues| ==> b.issues[k].store != i.store || b.issues[k].createdKey != i.createdKey
    ensures RowsOk(site, b.(issues := b.issues + [i]))
  {
    OldRowsStand(site, b, b.(issues := b.issues + [i]));
  }

  lemma ListedTells(site: Site, b: Books, i: Issue)
    requires RowsOk(site, b) && IssuesTell(b) && i.status.Open? && i.refund.None?
    ensures IssuesTell(b.(issues := b.issues + [i]))
  {
    var after, n := b.(issues := b.issues + [i]), |b.issues|;
    forall k | 0 <= k < |b.refunds| ensures b.refunds[k].issue != Some(n) { assert RefundChecks(b, b.refunds[k]); }
    NothingLinked(b.refunds, n);
    forall issue | 0 <= issue < |after.issues| ensures IssueTells(after, issue) {
      if issue < n { assert IssueTells(b, issue); }
    }
  }

  lemma IssueListed(site: Site, b: Books, i: Issue)
    requires Sound(site, b) && i.status.Open? && IssueChecks(i) && IssueKeys(site, b, i) && i.refund.None?
    requires forall k :: 0 <= k < |b.issues| ==> b.issues[k].store != i.store || b.issues[k].createdKey != i.createdKey
    ensures Kept(site, b, b.(issues := b.issues + [i]))
  {
    ListedRowsOk(site, b, i);
    SameMoneySameLedger(site, b, b.(issues := b.issues + [i]));
    ListedTells(site, b, i);
  }

  function NewIssue(staff: Staff, order: nat, kind: string, requested: Option<int>, reason: string, note: string,
                    key: string): Issue
  {
    Issue(staff.store, order, Open, requested, staff.user, Strip(key),
          IssueBody(order, kind, requested, Strip(reason), Strip(note)), None, None, None, None, None, None, None)
  }

  /** An accepted report adds one open issue of a known order, under a fresh key. */
  lemma OpeningWrites(site: Site, b: Books, staff: Staff, order: nat, kind: string, requested: Option<int>,
                      reason: string, note: string, key: string)
    requires site.WorksAt(staff.user, staff.store)
    ensures var (after, outcome) := OpenIssueStep(b, staff, order, kind, requested, reason, note, key);
            var i := NewIssue(staff, order, kind, requested, reason, note, key);
            if outcome.Done?
            then after == b.(issues := b.issues + [i]) && IssueChecks(i) && IssueKeys(site, b, i)
                 && forall k :: 0 <= k < |b.issues| ==>
                     b.issues[k].store != i.store || b.issues[k].createdKey != i.createdKey
            else after == b
  {}

  lemma OpenKeeps(site: Site, b: Books, staff: Staff, order: nat, kind: string, requested: Option<int>, reason: string,
                  note: string, key: string)
    requires Sound(site, b) && site.WorksAt(staff.user, staff.store)
    ensures Kept(site, b, OpenIssueStep(b, staff, order, kind, requested, reason, note, key).0)
  {
    OpeningWrites(site, b, staff, order, kind, requested, reason, note, key);
    if OpenIssueStep(b, staff, order, kind, requested, reason, note, key).1.Done? {
      IssueListed(site, b, NewIssue(staff, order, kind, requested, reason, note, key));
    } else {
      RefusalKeeps(site, b);
    }
  }

  // ── Resolving ──────────────────────────────────────────────────────────────

  /** The order side of a resolution: money back, then the cancellation. */
  function MoneyBack(b: Books, refunds: seq<Refund>, order: nat, cancels: bool): Books
    requires order < |b.orders|
  {
    var paid := if refunds == [] then b else Returned(b, refunds);
    if cancels then CancelledAt(paid, order) else paid
  }

  lemma {:induction false} MoneyBackLedger(site: Site, b: Books, refunds: seq<Refund>, order: nat, cancels: bool)
    requires Ledger(site, b) && order < |b.orders| && RefundsOk(b, refunds) && UniqueRefundKeys(b.refunds + refunds)
    requires cancels ==> Sum(refunds, RefundedOn(order)) == b.orders[order].NetPaid()
    ensures Ledger(site, MoneyBack(b, refunds, order, cancels))
  {
    if refunds != [] { ReturnedLedger(site, b, refunds); }
    if cancels {
      CancelledLedger(site, if refunds == [] then b else Returned(b, refunds), order);
    }
  }

  lemma IssueUpdatedLedger(site: Site, b: Books, id: nat, i: Issue)
    requires Ledger(site, b) && id < |b.issues| && IssueChecks(i) && IssueKeys(site, b, i)
    requires i.store == b.issues[id].store && i.createdKey == b.issues[id].createdKey
    ensures Ledger(site, b.(issues := b.issues[id := i]))
  {
    OldRowsStand(site, b, b.(issues := b.issues[id := i]));
    SameMoneySameLedger(site, b, b.(issues := b.issues[id := i]));
  }

  /** Refunds that carry out a resolution: the whole amount, all for this issue. */
  ghost predicate Granted(b: Books, id: nat, amount: int, now: int, refunds: seq<Refund>)
    requires id < |b.issues|
  {
    match b
    case Books(_, _, _, existing, issues) =>
      && RefundsOk(b, refunds) && UniqueRefundKeys(existing + refunds)
      && (refunds != [] <==> amount > 0)
      && Sum(refunds, LinkedTo(id)) == amount && Sum(refunds, RefundedOn(issues[id].order)) == amount
      && forall k :: 0 <= k < |refunds| ==>
           && refunds[k].issue == Some(id) && refunds[k].store == issues[id].store
           && refunds[k].order == issues[id].order
           && refunds[k].at == now && refunds[k].key.ForIssue? && refunds[k].key.issue == id
  }

  lemma RefundsForLinks(site: Site, b: Books, staff: Staff, id: nat, amount: int, reason: string, key: string, now: int)
    requires Ledger(site, b) && id < |b.issues| && b.issues[id].order < |b.orders|
    requires 0 < amount <= b.orders[b.issues[id].order].Refundable()
    requires b.orders[b.issues[id].order].store == b.issues[id].store
    ensures var refunds := RefundsFor(b, staff, id, amount, reason, key, now);
            && refunds != [] && Sum(refunds, LinkedTo(id)) == amount
            && Sum(refunds, RefundedOn(b.issues[id].order)) == amount
            && forall k :: 0 <= k < |refunds| ==>
                 && refunds[k].issue == Some(id) && refunds[k].store == b.issues[id].store
                 && refunds[k].order == b.issues[id].order && refunds[k].at == now
                 && refunds[k].key.ForIssue? && refunds[k].key.issue == id
  {
    var order := b.issues[id].order;
    var refunds := RefundsFor(b, staff, id, amount, reason, key, now);
    SplitNeverFallsShort(site, b, order, amount);
    RefundsForTotals(b, staff, id, amount, reason, key, now);
    SplitRows(b, order, amount, |b.allocations|);
    SumPointwise(refunds, LinkedTo(id), refunds, RefundedOn(order));
  }

  /** The rows a granted amount adds; none for nothing. */
  function GrantedRefunds(b: Books, staff: Staff, id: nat, amount: int, reason: string, key: string,
                          now: int): seq<Refund>
    requires id < |b.issues| && b.issues[id].order < |b.orders|
  {
    if amount > 0 then RefundsFor(b, staff, id, amount, reason, key, now) else []
  }

  lemma RefundsAreGranted(site: Site, b: Books, staff: Staff, id: nat, amount: int, reason: string, key: string,
                          now: int)
    requires Settled(site, b) && id < |b.issues| && b.issues[id].status.Open? && reason != ""
    requires b.issues[id].order < |b.orders| && 0 <= amount <= b.orders[b.issues[id].order].Refundable()
    ensures Granted(b, id, amount, now, GrantedRefunds(b, staff, id, amount, reason, key, now))
    ensures Unlinked(b, id)
  {
    assert IssueTells(b, id) && IssueKeys(site, b, b.issues[id]);
    OpenIsUnlinked(b, id);
    if amount > 0 {
      RefundsForOk(site, b, staff, id, amount, reason, key, now);
      RefundsForUnique(b, staff, id, amount, reason, key, now);
      RefundsForLinks(site, b, staff, id, amount, reason, key, now);
    } else {
      assert b.refunds + [] == b.refunds;
    }
  }

  /** The state a granted resolution commits. */
  function Carried(b: Books, staff: Staff, id: nat, resolution: Resolution, amount: int, cancels: bool,
                   refunds: seq<Refund>, key: string, body: Request, now: int): Books
    requires id < |b.issues| && b.issues[id].order < |b.orders|
  {
    var primary := if refunds == [] then None else Some(|b.refunds|);
    MoneyBack(b, refunds, b.issues[id].order, cancels)
      .(issues := b.issues[id := ResolvedWith(b.issues[id], staff, resolution, amount, primary, key, body, now)])
  }

  lemma SettleIsCarried(site: Site, b: Books, staff: Staff, id: nat, resolution: Resolution, ruling: Ruling,
                        reason: string, key: string, body: Request, now: int)
    requires Ledger(site, b) && id < |b.issues| && b.issues[id].order < |b.orders| && ruling.Grant?
    requires 0 <= ruling.amount <= b.orders[b.issues[id].order].Refundable()
    ensures Settle(b, staff, id, resolution, ruling, reason, key, body, now) ==
              (Carried(b, staff, id, resolution, ruling.amount, ruling.cancels,
                       GrantedRefunds(b, staff, id, ruling.amount, reason, key, now), key, body, now), Done(id))
  {
    if ruling.amount > 0 {
      SplitNeverFallsShort(site, b, b.issues[id].order, ruling.amount);
    }
  }

  lemma RulingIsCovered(site: Site, b: Books, order: nat, resolution: Resolution, approved: Option<int>)
    requires Ledger(site, b) && order < |b.orders| && Rule(b.orders[order], resolution, approved).Grant?
    ensures var r := Rule(b.orders[order], resolution, approved);
            && 0 <= r.amount <= b.orders[order].Refundable()
            && (r.amount > 0 <==> resolution.FullRefund? || resolution.PartialRefund?)
            && (r.cancels ==> r.amount == b.orders[order].NetPaid())
  {
    assert OrderChecks(b.orders[order]);
  }

  lemma ResolvedRowOk(site: Site, b: Books, money: Books, i: Issue, staff: Staff, resolution: Resolution, amount: int,
                      primary: Option<nat>, key: string, body: Request, now: int)
    requires i.status.Open? && IssueChecks(i) && IssueKeys(site, b, i) && site.WorksAt(staff.user, i.store)
    requires amount >= 0
    requires |money.orders| == |b.orders| && money.orders[i.order].store == i.store
    requires amount > 0 <==> resolution.FullRefund? || resolution.PartialRefund?
    requires primary.Some? <==> amount > 0
    requires primary.Some? ==> primary.value < |money.refunds| && money.refunds[primary.value].store == i.store
                               && money.refunds[primary.value].order == i.order
    ensures IssueChecks(ResolvedWith(i, staff, resolution, amount, primary, key, body, now))
    ensures IssueKeys(site, money, ResolvedWith(i, staff, resolution, amount, primary, key, body, now))
  {}

  lemma GrantedLedger(site: Site, b: Books, id: nat, amount: int, cancels: bool, now: int, refunds: seq<Refund>)
    requires Ledger(site, b) && id < |b.issues| && Granted(b, id, amount, now, refunds)
    requires b.issues[id].order < |b.orders| && b.orders[b.issues[id].order].store == b.issues[id].store
    requires cancels ==> amount == b.orders[b.issues[id].order].NetPaid()
    ensures var money := MoneyBack(b, refunds, b.issues[id].order, cancels);
            && Ledger(site, money) && money.refunds == b.refunds + refunds && money.issues == b.issues
            && |money.orders| == |b.orders| && money.orders[b.issues[id].order].store == b.issues[id].store
  {
    MoneyBackLedger(site, b, refunds, b.issues[id].order, cancels);
  }

  lemma CarriedLedger(site: Site, b: Books, staff: Staff, id: nat, resolution: Resolution, amount: int, cancels: bool,
                      refunds: seq<Refund>, key: string, body: Request, now: int)
    requires Ledger(site, b) && id < |b.issues| && b.issues[id].status.Open? && Granted(b, id, amount, now, refunds)
    requires b.issues[id].order < |b.orders| && site.WorksAt(staff.user, b.issues[id].store) && amount >= 0
    requires amount > 0 <==> resolution.FullRefund? || resolution.PartialRefund?
    requires cancels ==> amount == b.orders[b.issues[id].order].NetPaid()
    ensures Ledger(site, Carried(b, staff, id, resolution, amount, cancels, refunds, key, body, now))
  {
    var primary := if refunds == [] then None else Some(|b.refunds|);
    var i, money := b.issues[id], MoneyBack(b, refunds, b.issues[id].order, cancels);
    assert IssueChecks(i) && IssueKeys(site, b, i);
    GrantedLedger(site, b, id, amount, cancels, now, refunds);
    if refunds != [] { assert money.refunds[|b.refunds|] == refunds[0]; }
    ResolvedRowOk(site, b, money, i, staff, resolution, amount, primary, key, body, now);
    IssueUpdatedLedger(site, money, id, ResolvedWith(i, staff, resolution, amount, primary, key, body, now));
  }

  lemma CarriedTells(b: Books, staff: Staff, id: nat, resolution: Resolution, amount: int, cancels: bool,
                     refunds: seq<Refund>, key: string, body: Request, now: int)
    requires IssuesTell(b) && KeysCarryIssues(b) && Unlinked(b, id)
    requires id < |b.issues| && b.issues[id].order < |b.orders| && Granted(b, id, amount, now, refunds) && amount >= 0
    requires amount > 0 <==> resolution.FullRefund? || resolution.PartialRefund?
    ensures IssuesTell(Carried(b, staff, id, resolution, amount, cancels, refunds, key, body, now))
    ensures KeysCarryIssues(Carried(b, staff, id, resolution, amount, cancels, refunds, key, body, now))
  {
    var after := Carried(b, staff, id, resolution, amount, cancels, refunds, key, body, now);
    assert after.refunds == b.refunds + refunds;
    forall issue | 0 <= issue < |after.issues| ensures IssueTells(after, issue) {
      if issue == id {
        ResolvedTells(b, after, id, refunds);
      } else {
        assert IssueTells(b, issue);
        OthersStillTell(b, after, id, issue, refunds);
      }
    }
  }

  lemma ResolutionAccepted(site: Site, b: Books, after: Books)
    requires Ledger(site, after) && IssuesTell(after) && b.settlements == after.settlements
    requires b.allocations == after.allocations
    requires b.refunds <= after.refunds
    ensures Kept(site, b, after)
  {}

  lemma CarriedKept(site: Site, b: Books, staff: Staff, id: nat, resolution: Resolution, amount: int, cancels: bool,
                    refunds: seq<Refund>, key: string, body: Request, now: int)
    requires Settled(site, b) && Unlinked(b, id)
    requires id < |b.issues| && b.issues[id].status.Open? && Granted(b, id, amount, now, refunds)
    requires b.issues[id].order < |b.orders| && site.WorksAt(staff.user, b.issues[id].store) && amount >= 0
    requires amount > 0 <==> resolution.FullRefund? || resolution.PartialRefund?
    requires cancels ==> amount == b.orders[b.issues[id].order].NetPaid()
    ensures Kept(site, b, Carried(b, staff, id, resolution, amount, cancels, refunds, key, body, now))
    ensures KeysCarryIssues(Carried(b, staff, id, resolution, amount, cancels, refunds, key, body, now))
  {
    CarriedLedger(site, b, staff, id, resolution, amount, cancels, refunds, key, body, now);
    CarriedTells(b, staff, id, resolution, amount, cancels, refunds, key, body, now);
    ResolutionAccepted(site, b, Carried(b, staff, id, resolution, amount, cancels, refunds, key, body, now));
  }

  lemma GrantKeeps(site: Site, b: Books, staff: Staff, id: nat, resolution: Resolution, approved: Option<int>,
                   reason: string, key: string, body: Request, now: int)
    requires Settled(site, b) && id < |b.issues| && b.issues[id].status.Open? && reason != ""
    requires b.issues[id].order < |b.orders| && site.WorksAt(staff.user, b.issues[id].store)
    requires Rule(b.orders[b.issues[id].order], resolution, approved).Grant?
    ensures var after := Settle(b, staff, id, resolution, Rule(b.orders[b.issues[id].order], resolution, approved),
                                reason, key, body, now);
            after.1 == Done(id) && Kept(site, b, after.0) && KeysCarryIssues(after.0)
  {
    var ruling := Rule(b.orders[b.issues[id].order], resolution, approved);
    RulingIsCovered(site, b, b.issues[id].order, resolution, approved);
    SettleIsCarried(site, b, staff, id, resolution, ruling, reason, key, body, now);
    RefundsAreGranted(site, b, staff, id, ruling.amount, reason, key, now);
    CarriedKept(site, b, staff, id, resolution, ruling.amount, ruling.cancels,
                GrantedRefunds(b, staff, id, ruling.amount, reason, key, now), key, body, now);
  }

  /** A resolution is granted by the rule, or nothing changes. */
  lemma ResolvingCases(b: Books, staff: Staff, id: nat, resolution: Resolution, approved: Option<int>, reason: string,
                       key: string, body: Request, now: int)
    requires id < |b.issues| && b.issues[id].store == staff.store
    ensures var result := ResolveOpen(b, staff, id, resolution, approved, reason, key, body, now);
            && (!result.1.Done? ==> result.0 == b)
            && (result.1.Done? ==>
                  && b.issues[id].order < |b.orders| && Rule(b.orders[b.issues[id].order], resolution, approved).Grant?
                  && result == Settle(b, staff, id, resolution,
                                      Rule(b.orders[b.issues[id].order], resolution, approved),
                                      reason, key, body, now))
  {}

  lemma ResolveOpenKeeps(site: Site, b: Books, staff: Staff, id: nat, resolution: Resolution, approved: Option<int>,
                         reason: string, key: string, body: Request, now: int)
    requires Settled(site, b) && site.WorksAt(staff.user, staff.store) && reason != ""
    requires id < |b.issues| && b.issues[id].status.Open? && b.issues[id].store == staff.store
    ensures var after := ResolveOpen(b, staff, id, resolution, approved, reason, key, body, now).0;
            Kept(site, b, after) && KeysCarryIssues(after)
  {
    ResolvingCases(b, staff, id, resolution, approved, reason, key, body, now);
    if ResolveOpen(b, staff, id, resolution, approved, reason, key, body, now).1.Done? {
      GrantKeeps(site, b, staff, id, resolution, approved, reason, key, body, now);
    } else {
      RefusalKeeps(site, b);
    }
  }

  lemma ResolveKeeps(site: Site, b: Books, staff: Staff, id: nat, resolution: Resolution, approved: Option<int>,
                     reason: string, note: string, key: string, now: int)
    requires Settled(site, b) && site.WorksAt(staff.user, staff.store)
    ensures var after := ResolveIssueStep(b, staff, id, resolution, approved, reason, note, key, now).0;
            Kept(site, b, after) && KeysCarryIssues(after)
  {
    RefusalKeeps(site, b);
    if Strip(reason) != "" && id < |b.issues| && b.issues[id].store == staff.store && b.issues[id].status.Open? {
      ResolveOpenKeeps(site, b, staff, id, resolution, approved, Strip(reason), Strip(key),
                       ResolutionBody(id, resolution, approved, Strip(reason), Strip(note)), now);
    }
  }
}
