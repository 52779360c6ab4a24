/** The till as code: the loops that collect a table, post allocations and spread an
    issue's refund, updating orders in place, proved against their specifications. */
module PaymentService {
  import opened Tables
  import opened Text
  import opened Payments
  import opened PaymentCommands
  import opened PaymentEffects

  /** An issue refund, and one under way: the amount still to find, the refunds created,
      and the two tables they are posted to. */
  datatype Claim = Claim(staff: Staff, order: nat, issue: nat, reason: string, key: string, now: int)

  datatype Tray = Tray(remaining: int, created: seq<Refund>, orders: seq<Order>, refunds: seq<Refund>)

  function NextPieces(b: Books, order: nat, n: nat, total: int, pieces: seq<Piece>): seq<Piece>
    requires n < |b.allocations|
  {
    var remaining := total - Sum(pieces, PieceAmount());
    if remaining > 0 && Gives(b, order, n) then pieces + [Piece(n, Min(remaining, RefundableOf(b, n)))] else pieces
  }

  predicate PiecesBelow(pieces: seq<Piece>, n: nat) { forall k :: 0 <= k < |pieces| ==> pieces[k].allocation < n }

  lemma SplitNext(b: Books, order: nat, total: int, n: nat, pieces: seq<Piece>)
    requires n < |b.allocations| && pieces == Split(b, order, total, n)
    ensures NextPieces(b, order, n, total, pieces) == Split(b, order, total, n + 1)
    ensures PiecesBelow(pieces, n)
  {
    SplitRows(b, order, total, n);
  }

  function RowsFor(b: Books, c: Claim, pieces: seq<Piece>): seq<Refund>
    requires c.order < |b.orders| && PiecesBelow(pieces, |b.allocations|)
  {
    IssueRefunds(b, c.staff, c.order, c.issue, c.reason, c.key, c.now, pieces)
  }

  /** The refunds of the whole split. */
  function SplitRefunds(b: Books, c: Claim, total: int): seq<Refund>
    requires c.order < |b.orders|
  {
    SplitRows(b, c.order, total, |b.allocations|);
    RowsFor(b, c, Split(b, c.order, total, |b.allocations|))
  }

  function Owing(orders: seq<Order>, order: nat, amount: int): seq<Order>
    requires order < |orders|
  {
    orders[order := orders[order].(refunded := orders[order].refunded + amount)]
  }

  ghost predicate RowsMade(b: Books, c: Claim, pieces: seq<Piece>, created: seq<Refund>)
    requires c.order < |b.orders|
  {
    match c
    case Claim(_, _, _, _, _, _) => PiecesBelow(pieces, |b.allocations|) && created == RowsFor(b, c, pieces)
  }

  ghost predicate TablesHold(b: Books, order: nat, given: int, created: seq<Refund>, orders: seq<Order>,
                             refunds: seq<Refund>)
    requires order < |b.orders|
  {
    match b
    case Books(_, _, _, _, _) => refunds == b.refunds + created && orders == Owing(b.orders, order, given)
  }

  /** The tray once these pieces were taken. */
  ghost predicate Taken(b: Books, c: Claim, total: int, pieces: seq<Piece>, tray: Tray)
    requires c.order < |b.orders|
  {
    match tray
    case Tray(remaining, created, orders, refunds) =>
      && remaining >= 0 && remaining == total - Sum(pieces, PieceAmount())
      && RowsMade(b, c, pieces, created) && TablesHold(b, c.order, total - remaining, created, orders, refunds)
  }

  lemma NothingTaken(b: Books, c: Claim, total: int)
    requires c.order < |b.orders| && total > 0
    ensures Taken(b, c, total, [], Tray(total, [], b.orders, b.refunds))
  {}

  /** An allocation not yet visited still shows its own balance. */
  lemma {:induction false} BalanceUnchanged(b: Books, c: Claim, total: int, pieces: seq<Piece>, n: nat, tray: Tray)
    requires c.order < |b.orders| && n < |b.allocations| && PiecesBelow(pieces, n) && Taken(b, c, total, pieces, tray)
    ensures b.allocations[n].amount - Sum(tray.refunds, RefundedFrom(n)) == RefundableOf(b, n)
    ensures |tray.orders| == |b.orders| && tray.orders[c.order].store == b.orders[c.order].store
    ensures tray.remaining == total - Sum(pieces, PieceAmount())
  {
    SumZero(tray.created, RefundedFrom(n));
    SumConcat(b.refunds, tray.created, RefundedFrom(n));
  }

  function RowFor(b: Books, c: Claim, p: Piece): Refund
    requires c.order < |b.orders| && p.allocation < |b.allocations|
  {
    IssueRefund(b, c.staff, c.order, c.issue, c.reason, c.key, c.now, p)
  }

  lemma RowsMore(b: Books, c: Claim, pieces: seq<Piece>, created: seq<Refund>, p: Piece)
    requires c.order < |b.orders| && p.allocation < |b.allocations| && RowsMade(b, c, pieces, created)
    ensures RowsMade(b, c, pieces + [p], created + [RowFor(b, c, p)])
  {}

  lemma TablesMore(b: Books, order: nat, given: int, created: seq<Refund>, orders: seq<Order>, refunds: seq<Refund>,
                   refund: Refund)
    requires order < |b.orders| && TablesHold(b, order, given, created, orders, refunds)
    ensures order < |orders|
    ensures TablesHold(b, order, given + refund.amount, created + [refund], Owing(orders, order, refund.amount), refunds
                       + [refund])
  {}

  lemma OnePieceMore(b: Books, c: Claim, total: int, pieces: seq<Piece>, p: Piece, tray: Tray)
    requires c.order < |b.orders| && p.allocation < |b.allocations| && c.order < |tray.orders|
    requires Taken(b, c, total, pieces, tray) && p.amount <= tray.remaining
    ensures Taken(b, c, total, pieces + [p],
                  Tray(tray.remaining - p.amount, tray.created + [RowFor(b, c, p)],
                       Owing(tray.orders, c.order, p.amount), tray.refunds + [RowFor(b, c, p)]))
  {
    SumAppend(pieces, p, PieceAmount());
    RowsMore(b, c, pieces, tray.created, p);
    TablesMore(b, c.order, total - tray.remaining, tray.created, tray.orders, tray.refunds, RowFor(b, c, p));
  }

  lemma {:induction false} AllReturned(b: Books, c: Claim, total: int, created: seq<Refund>, orders: seq<Order>,
                                       refunds: seq<Refund>)
    requires c.order < |b.orders| && total > 0
    requires Taken(b, c, total, Split(b, c.order, total, |b.allocations|), Tray(0, created, orders, refunds))
    ensures created != [] && refunds == b.refunds + created && created == SplitRefunds(b, c, total)
    ensures orders[c.order := Recomputed(orders[c.order])] == DebitAll(b.orders, created)
  {
    var pieces := Split(b, c.order, total, |b.allocations|);
    SumPointwise(created, RefundedOn(c.order), pieces, PieceAmount());
    forall k: nat | k != c.order ensures Sum(created, RefundedOn(k)) == 0 { SumZero(created, RefundedOn(k)); }
  }

  class Service {
    const site: Site

    var orders: seq<Order>
    var settlements: seq<Settlement>
    var allocations: seq<Allocation>
    var refunds: seq<Refund>
    var issues: seq<Issue>

    constructor (site: Site)
      ensures this.site == site && State() == Books([], [], [], [], [])
    {
      this.site := site;
      orders, settlements, allocations, refunds, issues := [], [], [], [], [];
    }

    function State(): Books
      reads this
    {
      Books(orders, settlements, allocations, refunds, issues)
    }

    // ── Collecting ───────────────────────────────────────────────────────────

    /** A refusal found at one order stands however many follow. */
    static lemma {:induction false} FirstRefusalStands(b: Books, staff: Staff, ids: set<nat>, k: nat, n: nat)
      requires k <= n <= |b.orders| && IsolationError(b, staff, ids, k).Some?
      ensures IsolationError(b, staff, ids, n) == IsolationError(b, staff, ids, k)
    {
      if k < n {
        FirstRefusalStands(b, staff, ids, k, n - 1);
      }
    }

    /** Store and table isolation, order by order. */
    method CheckOrders(staff: Staff, table: Option<int>, ids: set<nat>) returns (error: Option<Error>)
      ensures error == GatherError(site, State(), staff, table, ids)
    {
      if exists id :: id in ids && id >= |orders| { return Some(NotFound); }
      assert AllFound(State(), ids);
      for k := 0 to |orders|
        invariant IsolationError(State(), staff, ids, k).None?
      {
        if k in ids {
          if orders[k].store != staff.store {
            FirstRefusalStands(State(), staff, ids, k + 1, |orders|);
            return Some(NotFound);
          }
          if orders[k].cancelled {
            FirstRefusalStands(State(), staff, ids, k + 1, |orders|);
            return Some(OrderIsCancelled);
          }
        }
      }
      if table.Some? {
        if !TableIsOurs(site, staff, table.value) { return Some(NotFound); }
        for k := 0 to |orders|
          invariant forall j :: 0 <= j < k && j in ids ==> orders[j].table == table
        {
          if k in ids && orders[k].table != table { return Some(TableMismatch); }
        }
      }
      error := None;
    }

    /** The whole balance of every selected order, unless a refunded one would be
        silently recollected. */
    method BalanceOfEach(ids: set<nat>, guardRecollect: bool) returns (shares: seq<Share>, refused: bool)
      ensures refused <==> guardRecollect && exists k ::
                0 <= k < |orders| && HasBalance(State(), ids, k) && orders[k].refund != NotRefunded
      ensures !refused ==> shares == FullShares(State(), ids, |orders|)
    {
      shares, refused := [], false;
      for k := 0 to |orders|
        invariant shares == FullShares(State(), ids, k)
        invariant guardRecollect ==> forall j ::
                    0 <= j < k && HasBalance(State(), ids, j) ==> orders[j].refund == NotRefunded
      {
        if k in ids {
          var out := orders[k].Outstanding();
          if out <= 0 { continue; }
          if guardRecollect && orders[k].refund != NotRefunded {
            assert HasBalance(State(), ids, k);
            return shares, true;
          }
          shares := shares + [Share(k, out)];
        }
      }
    }

    /** Distinct orders, each owing at least its share. */
    static ghost predicate Fit(orders: seq<Order>, shares: seq<Share>) {
      && (forall k :: 0 <= k < |shares| ==>
            shares[k].order < |orders| && 0 < shares[k].amount <= orders[shares[k].order].Outstanding())
      && (forall j, k :: 0 <= j < k < |shares| ==> shares[j].order != shares[k].order)
    }

    static lemma OneShare(orders: seq<Order>, share: Share)
      requires share.order < |orders| && 0 < share.amount <= orders[share.order].Outstanding()
      ensures Fit(orders, [share])
    {}

    static ghost predicate PostedUpTo(orders0: seq<Order>, allocations0: seq<Allocation>, id: nat, shares: seq<Share>,
                                      n: nat, orders: seq<Order>, allocations: seq<Allocation>)
    {
      && n <= |shares| && orders == CreditAll(orders0, shares[..n])
      && allocations == allocations0 + AllocationsFor(id, shares[..n])
    }

    static lemma NotCreditedYet(orders: seq<Order>, shares: seq<Share>, n: nat)
      requires Fit(orders, shares) && n < |shares|
      ensures Sum(shares[..n], ShareOf(shares[n].order)) == 0
    {
      SumZero(shares[..n], ShareOf(shares[n].order));
    }

    static lemma CreditOne(orders: seq<Order>, shares: seq<Share>, n: nat)
      requires Fit(orders, shares) && n < |shares|
      ensures var o := orders[shares[n].order];
              CreditAll(orders, shares[..n + 1])
              == CreditAll(orders, shares[..n])[shares[n].order := Recomputed(o.(paid := o.paid + shares[n].amount))]
    {
      NotCreditedYet(orders, shares, n);
      forall k | 0 <= k < |orders|
        ensures Sum(shares[..n + 1], ShareOf(k)) == Sum(shares[..n], ShareOf(k)) + ShareOf(k)(shares[n])
      {
        SumStep(shares, n, ShareOf(k));
      }
    }

    method PostShare(ghost orders0: seq<Order>, ghost allocations0: seq<Allocation>, id: nat, shares: seq<Share>,
                     n: nat)
      requires Fit(orders0, shares) && n < |shares|
      requires PostedUpTo(orders0, allocations0, id, shares, n, orders, allocations)
      modifies `orders, `allocations
      ensures PostedUpTo(orders0, allocations0, id, shares, n + 1, orders, allocations)
    {
      var share := shares[n];
      NotCreditedYet(orders0, shares, n);
      CreditOne(orders0, shares, n);
      assert AllocationsFor(id, shares[..n + 1]) ==
          AllocationsFor(id, shares[..n]) + [Allocation(id, share.order, share.amount)];
      allocations := allocations + [Allocation(id, share.order, share.amount)];
      var order := orders[share.order].(paid := orders[share.order].paid + share.amount);
      if order.NetPaid() > order.total { assert false; }
      orders := orders[share.order := Recomputed(order)];
    }

    static method GrossOf(shares: seq<Share>) returns (gross: int)
      ensures gross == Sum(shares, ShareAmount())
    {
      gross := 0;
      for n := 0 to |shares|
        invariant gross == Sum(shares[..n], ShareAmount())
      {
        SumStep(shares, n, ShareAmount());
        gross := gross + shares[n].amount;
      }
      assert shares[..|shares|] == shares;
    }

    /** The settlement, its allocations and the orders' summaries. The overpayment
        guard inside the loop never fires: it repeats what the amounts ensure. */
    method Post(staff: Staff, table: Option<int>, shares: seq<Share>, tender: Tender, key: string, body: Request,
                now: int)
      returns (outcome: Outcome)
      requires Fit(orders, shares)
      modifies `orders, `settlements, `allocations
      ensures State() == Posted(old(State()), NewSettlement(staff, table, shares, tender, key, body, now), shares)
      ensures outcome == Done(|old(settlements)|)
    {
      var gross := GrossOf(shares);
      var id := |settlements|;
      var settlement := Settlement(staff.store, table, staff.user, tender, gross, now, key, body);
      settlements := settlements + [settlement];
      for n := 0 to |shares|
        invariant settlements == old(settlements) + [settlement]
        invariant PostedUpTo(old(orders), old(allocations), id, shares, n, orders, allocations)
      {
        PostShare(old(orders), old(allocations), id, shares, n);
      }
      assert shares[..|shares|] == shares;
      outcome := Done(id);
    }

    method CollectPart(staff: Staff, table: Option<int>, order: nat, amount: int, tender: Tender, key: string,
                       body: Request, now: int)
      returns (outcome: Outcome)
      requires order < |orders| && amount > 0
      modifies `orders, `settlements, `allocations
      ensures (State(), outcome) == PostPart(old(State()), staff, table, order, amount, tender, key, body, now)
    {
      var out := orders[order].Outstanding();
      if out <= 0 { return Failed(NoBalance); }
      if amount > out { return Failed(Overpayment); }
      var shares := [Share(order, amount)];
      OneShare(orders, shares[0]);
      outcome := Post(staff, table, shares, tender, key, body, now);
    }

    static lemma {:induction false} FullSharesFit(b: Books, ids: set<nat>, n: nat)
      requires n <= |b.orders|
      ensures Fit(b.orders, FullShares(b, ids, n))
      ensures forall k :: 0 <= k < |FullShares(b, ids, n)| ==> FullShares(b, ids, n)[k].order < n
    {
      if n > 0 {
        FullSharesFit(b, ids, n - 1);
      }
    }

    method CollectInFull(staff: Staff, table: Option<int>, ids: set<nat>, guardRecollect: bool, tender: Tender,
                         key: string, body: Request, now: int)
      returns (outcome: Outcome)
      modifies `orders, `settlements, `allocations
      ensures (State(), outcome) == PostFull(old(State()), staff, table, ids, guardRecollect, tender, key, body, now)
    {
      var shares, refused := BalanceOfEach(ids, guardRecollect);
      if refused { return Failed(RefundedRecollect); }
      if shares == [] { return Failed(NoBalance); }
      FullSharesFit(State(), ids, |orders|);
      outcome := Post(staff, table, shares, tender, key, body, now);
    }

    method DoCollect(staff: Staff, table: Option<int>, ids: set<nat>, part: Option<int>, guardRecollect: bool,
                     tender: Tender, key: string, body: Request, now: int)
      returns (outcome: Outcome)
      requires part.Some? ==> part.value > 0
      modifies `orders, `settlements, `allocations
      ensures (State(), outcome) ==
                Collect(site, old(State()), staff, table, ids, part, guardRecollect, tender, key, body, now)
    {
      var error := CheckOrders(staff, table, ids);
      if error.Some? { return Failed(error.value); }
      if part.Some? {
        if forall k :: 0 <= k < |orders| ==> k !in ids { return Failed(NoBalance); }
        outcome := CollectPart(staff, table, First(State(), ids, |orders|), part.value, tender, key, body, now);
      } else {
        outcome := CollectInFull(staff, table, ids, guardRecollect, tender, key, body, now);
      }
    }

    method CollectSettlement(staff: Staff, table: int, ids: set<nat>, tender: Tender, note: string, key: string,
                             now: int)
      returns (outcome: Outcome)
      modifies `orders, `settlements, `allocations
      ensures (State(), outcome) == SettleTableStep(site, old(State()), staff, table, ids, tender, note, key, now)
      ensures outcome.Done? ==>
                && |old(allocations)| <= |allocations|
                && TableCollected(old(State()), State(), staff, table, ids, tender, key,
                                  SettlementBody(table, ids, tender, note), now)
    {
      var k := Strip(key);
      if k == "" { return Failed(KeyRequired); }
      var body := SettlementBody(table, ids, tender, note);
      var existing := Find(settlements, SettlementKeyed(staff.store, k));
      if existing < |settlements| {
        return if settlements[existing].request == body then Replayed(existing) else Failed(IdempotencyMismatch);
      }
      outcome := DoCollect(staff, Some(table), ids, None, true, tender, k, body, now);
      if outcome.Done? {
        SettlingPaysWhatIsOwed(site, old(State()), staff, table, ids, tender, note, key, now);
      }
    }

    method CollectOrderPayment(staff: Staff, order: nat, part: Option<int>, tender: Tender, note: string, key: string,
                               now: int)
      returns (outcome: Outcome)
      modifies `orders, `settlements, `allocations
      ensures (State(), outcome) == PayOrderStep(site, old(State()), staff, order, part, tender, note, key, now)
      ensures outcome.Done? ==>
                && order < |old(orders)|
                && var amount := if part.Some? then part.value else Balance(old(orders)[order]);
                   && 0 < amount <= Balance(old(orders)[order])
                   && OrderCollected(old(State()), State(), staff, order, amount, tender, key,
                                     OrderPaymentBody(order, part, tender, note), now)
    {
      var k := Strip(key);
      if k == "" { return Failed(KeyRequired); }
      if part.Some? && part.value <= 0 { return Failed(InvalidAmount); }
      var body := OrderPaymentBody(order, part, tender, note);
      var existing := Find(settlements, SettlementKeyed(staff.store, k));
      if existing < |settlements| {
        return if settlements[existing].request == body then Replayed(existing) else Failed(IdempotencyMismatch);
      }
      if order >= |orders| || orders[order].store != staff.store { return Failed(NotFound); }
      outcome := DoCollect(staff, orders[order].table, {order}, part, false, tender, k, body, now);
      if outcome.Done? {
        PayingCollectsWhatWasAsked(site, old(State()), staff, order, part, tender, note, key, now);
      }
    }

    // ── Issue refunds ────────────────────────────────────────────────────────

    method GiveBack(ghost before: Books, c: Claim, ghost total: int, n: nat, take: int, ghost remaining: int,
                    created: seq<Refund>, ghost pieces: seq<Piece>)
      returns (all: seq<Refund>)
      requires c.order < |before.orders| && c.order < |orders| && n < |allocations| && allocations == before.allocations
      requires orders[c.order].store == before.orders[c.order].store && take <= remaining
      requires Taken(before, c, total, pieces, Tray(remaining, created, orders, refunds))
      modifies `orders, `refunds
      ensures c.order < |orders|
      ensures Taken(before, c, total, pieces + [Piece(n, take)], Tray(remaining - take, all, orders, refunds))
    {
      OnePieceMore(before, c, total, pieces, Piece(n, take), Tray(remaining, created, orders, refunds));
      var refund := Refund(orders[c.order].store, allocations[n].settlement, n, c.order, take, c.staff.user, c.now,
                           c.reason,
                           ForIssue(c.key, c.issue, n), IssueRefundBody(c.issue, n, take, c.reason), Some(c.issue));
      refunds := refunds + [refund];
      orders := Owing(orders, c.order, take);
      all := created + [refund];
    }

    /** One allocation's turn: nothing, or one refund of what it can give. */
    method TakeFrom(ghost before: Books, c: Claim, ghost total: int, n: nat, refundable: int, remaining: int,
                    created: seq<Refund>, ghost pieces: seq<Piece>)
      returns (left: int, all: seq<Refund>, ghost more: seq<Piece>)
      requires c.order < |before.orders| && c.order < |orders| && n < |allocations| && allocations == before.allocations
      requires orders[c.order].store == before.orders[c.order].store && refundable == RefundableOf(before, n)
      requires remaining == total - Sum(pieces, PieceAmount())
      requires Taken(before, c, total, pieces, Tray(remaining, created, orders, refunds))
      modifies `orders, `refunds
      ensures c.order < |orders|
      ensures more == NextPieces(before, c.order, n, total, pieces)
      ensures Taken(before, c, total, more, Tray(left, all, orders, refunds))
    {
      left, all, more := remaining, created, pieces;
      if remaining <= 0 || allocations[n].order != c.order || refundable <= 0 { return; }
      var take := Min(remaining, refundable);
      all := GiveBack(before, c, total, n, take, remaining, created, pieces);
      left, more := remaining - take, pieces + [Piece(n, take)];
    }

    method Visit(ghost before: Books, c: Claim, ghost total: int, n: nat, remaining: int, created: seq<Refund>,
                 ghost pieces: seq<Piece>)
      returns (left: int, all: seq<Refund>, ghost more: seq<Piece>)
      requires c.order < |before.orders| && c.order < |orders| && n < |allocations| && allocations == before.allocations
      requires pieces == Split(before, c.order, total, n)
      requires Taken(before, c, total, pieces, Tray(remaining, created, orders, refunds))
      modifies `orders, `refunds
      ensures c.order < |orders|
      ensures more == Split(before, c.order, total, n + 1)
      ensures Taken(before, c, total, more, Tray(left, all, orders, refunds))
    {
      SplitNext(before, c.order, total, n, pieces);
      BalanceUnchanged(before, c, total, pieces, n, Tray(remaining, created, orders, refunds));
      var refundable := allocations[n].amount - Sum(refunds, RefundedFrom(n));
      left, all, more := TakeFrom(before, c, total, n, refundable, remaining, created, pieces);
    }

    method TakeFromEach(ghost before: Books, c: Claim, total: int) returns (remaining: int, created: seq<Refund>)
      requires before.orders == orders && before.refunds == refunds && before.allocations == allocations
      requires c.order < |orders| && total > 0
      modifies `orders, `refunds
      ensures c.order < |orders|
      ensures Taken(before, c, total, Split(before, c.order, total, |allocations|),
                    Tray(remaining, created, orders, refunds))
    {
      remaining, created := total, [];
      ghost var pieces := [];
      NothingTaken(before, c, total);
      for n := 0 to |allocations|
        invariant c.order < |orders|
        invariant pieces == Split(before, c.order, total, n)
        invariant Taken(before, c, total, pieces, Tray(remaining, created, orders, refunds))
      {
        remaining, created, pieces := Visit(before, c, total, n, remaining, created, pieces);
      }
    }

    /** Fills each of the order's allocations in turn. When the balances fall short
        nothing remains of the attempt. */
    method CreateIssueRefunds(staff: Staff, order: nat, issue: nat, total: int, reason: string, key: string, now: int)
      returns (created: seq<Refund>, covered: bool)
      requires order < |orders| && total > 0
      modifies `orders, `refunds
      ensures covered <==> Sum(Split(old(State()), order, total, |allocations|), PieceAmount()) == total
      ensures covered ==> created != [] && State() == Returned(old(State()), created)
      ensures covered ==> created == SplitRefunds(old(State()), Claim(staff, order, issue, reason, key, now), total)
      ensures !covered ==> State() == old(State())
    {
      ghost var before := State();
      var claim := Claim(staff, order, issue, reason, key, now);
      var savedOrders, savedRefunds := orders, refunds;
      var remaining;
      remaining, created := TakeFromEach(before, claim, total);
      if remaining > 0 {
        orders, refunds := savedOrders, savedRefunds;
        return created, false;
      }
      AllReturned(before, claim, total, created, orders, refunds);
      orders := orders[order := Recomputed(orders[order])];
      covered := true;
    }
  }
}
