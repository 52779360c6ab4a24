/** What closed shifts keep: their snapshots stay true for ever, their windows never
    overlap, and exactly which in-flight transactions would break that. */
module ShiftSafety {
  import opened Tables
  import opened Text
  import opened Payments
  import PaymentCommands
  import PaymentSafety
  import PaymentRuns
  import opened IssueSafety
  import opened CashierShifts

  // ── When a snapshot is still true ──────────────────────────────────────────

  /** The ledger a close read, and what it has grown to since. */
  ghost predicate Grew(before: Books, after: Books) {
    before.settlements <= after.settlements && before.refunds <= after.refunds
    && (forall k :: 0 <= k < |before.refunds| ==> before.refunds[k].settlement < |before.settlements|)
  }

  /** A row posted since, stamped inside the window. */
  ghost predicate LatePayment(before: Books, after: Books, w: Window) {
    exists k :: |before.settlements| <= k < |after.settlements| && w.Took(after.settlements[k])
  }

  ghost predicate LateRefund(before: Books, after: Books, w: Window) {
    exists k :: |before.refunds| <= k < |after.refunds| && GivenBack(after.settlements, w, after.refunds[k])
  }

  ghost predicate PositiveAmounts(b: Books) {
    && (forall k :: 0 <= k < |b.settlements| ==> b.settlements[k].gross > 0)
    && (forall k :: 0 <= k < |b.refunds| ==> b.refunds[k].amount > 0)
  }

  lemma PaymentsGrow(before: Books, after: Books, w: Window, tender: Option<Tender>)
    requires Grew(before, after) && PositiveAmounts(after)
    ensures !LatePayment(before, after, w) ==> Takings(after, w, tender) == Takings(before, w, tender)
    ensures LatePayment(before, after, w) ==> Takings(after, w, None) > Takings(before, w, None)
  {
    var added := after.settlements[|before.settlements|..];
    SumGrowth(before.settlements, after.settlements, TakenIn(w, tender));
    SumGrowth(before.settlements, after.settlements, TakenIn(w, None));
    if LatePayment(before, after, w) {
      var k :| |before.settlements| <= k < |after.settlements| && w.Took(after.settlements[k]);
      assert added[k - |before.settlements|] == after.settlements[k];
      SumNonneg(added, TakenIn(w, None));
    } else {
      SumZero(added, TakenIn(w, tender));
    }
  }

  lemma OldRefundsKeepTheirCashier(before: Books, after: Books, w: Window, tender: Option<Tender>)
    requires Grew(before, after)
    ensures Sum(before.refunds, ReturnedIn(after.settlements, w, tender)) == GaveBack(before, w, tender)
  {
    SumPointwise(before.refunds, ReturnedIn(after.settlements, w, tender), before.refunds,
                 ReturnedIn(before.settlements, w, tender));
  }

  lemma RefundsGrow(before: Books, after: Books, w: Window, tender: Option<Tender>)
    requires Grew(before, after) && PositiveAmounts(after)
    ensures !LateRefund(before, after, w) ==> GaveBack(after, w, tender) == GaveBack(before, w, tender)
    ensures LateRefund(before, after, w) ==> GaveBack(after, w, None) > GaveBack(before, w, None)
  {
    OldRefundsKeepTheirCashier(before, after, w, tender);
    OldRefundsKeepTheirCashier(before, after, w, None);
    var added := after.refunds[|before.refunds|..];
    SumGrowth(before.refunds, after.refunds, ReturnedIn(after.settlements, w, tender));
    SumGrowth(before.refunds, after.refunds, ReturnedIn(after.settlements, w, None));
    if LateRefund(before, after, w) {
      var k :| |before.refunds| <= k < |after.refunds| && GivenBack(after.settlements, w, after.refunds[k]);
      assert added[k - |before.refunds|] == after.refunds[k];
      SumNonneg(added, ReturnedIn(after.settlements, w, None));
    } else {
      SumZero(added, ReturnedIn(after.settlements, w, tender));
    }
  }

  /** A closed shift as the close left it, over the ledger it read. */
  ghost predicate Faithful(b: Books, s: Shift) {
    s.closing.Some?
    && s.closing.value == Snapshot(b, s, s.closing.value.counted, s.closing.value.key, s.closing.value.note,
                                   s.closing.value.closedAt)
  }

  lemma ClosingIsFaithful(b: Books, s: Shift, counted: int, key: string, note: string, now: int)
    ensures Faithful(b, s.(closing := Some(Snapshot(b, s, counted, key, note, now))))
  {}

  /** Exactly when the reconciler still agrees: a shift is reported if and only if a
      payment or refund stamped inside its window was committed after its close. */
  lemma ReportedExactlyWhenLate(before: Books, after: Books, s: Shift)
    requires Faithful(before, s) && Grew(before, after) && PositiveAmounts(after)
    ensures FieldsOff(after, s) == [] <==>
              !LatePayment(before, after, WindowOf(s)) && !LateRefund(before, after, WindowOf(s))
  {
    var w := WindowOf(s);
    GroupsAddUp(before, w);
    PaymentsGrow(before, after, w, Some(Cash));
    PaymentsGrow(before, after, w, Some(Card));
    PaymentsGrow(before, after, w, None);
    RefundsGrow(before, after, w, Some(Cash));
    RefundsGrow(before, after, w, Some(Card));
    RefundsGrow(before, after, w, None);
    NoDifferenceExactlyWhen(s.closing.value, s.opening, Derived(after, w));
  }

  // ── In flight ──────────────────────────────────────────────────────────────

  /** now() is a transaction's start, not its commit. A settlement that began before
      a close of its cashier's shift began, and committed after it, always leaves
      the frozen snapshot untrue. */
  lemma InFlightPaymentsBreakSnapshots(b: Books, s: Shift, counted: int, key: string, note: string, closeBegan: int,
                                       late: Settlement)
    requires PositiveAmounts(b) && forall k :: 0 <= k < |b.refunds| ==> b.refunds[k].settlement < |b.settlements|
    requires late.store == s.store && late.cashier == s.cashier && late.gross > 0 && s.openedAt <= late.at < closeBegan
    ensures var closed := s.(closing := Some(Snapshot(b, s, counted, key, note, closeBegan)));
            FieldsOff(b, closed) == [] && FieldsOff(b.(settlements := b.settlements + [late]), closed) != []
  {
    var closed := s.(closing := Some(Snapshot(b, s, counted, key, note, closeBegan)));
    var after := b.(settlements := b.settlements + [late]);
    ClosingIsFaithful(b, s, counted, key, note, closeBegan);
    assert WindowOf(closed).Took(after.settlements[|b.settlements|]);
    ReportedExactlyWhenLate(b, b, closed);
    ReportedExactlyWhenLate(b, after, closed);
  }

  // ── Runs with atomic steps and time that never goes back ───────────────────

  datatype Event = Event(command: Command, at: int)

  function Run(site: Site, d: Desk, events: seq<Event>): Desk {
    if |events| == 0 then d
    else
      var n := |events| - 1;
      Exec(site, Run(site, d, events[..n]), events[n].command, events[n].at)
  }

  /** The clock's last reading. */
  function Clock(start: int, events: seq<Event>): int { if |events| == 0 then start else events[|events| - 1].at }

  ghost predicate Proper(site: Site, start: int, events: seq<Event>) {
    forall i :: 0 <= i < |events| ==>
      Clock(start, events[..i]) <= events[i].at
      && (events[i].command.Till? ==> PaymentCommands.WellFormed(site, events[i].command.command))
  }

  /** Nothing is stamped in the future. */
  ghost predicate StampedBy(d: Desk, now: int) {
    && (forall k :: 0 <= k < |d.books.settlements| ==> d.books.settlements[k].at <= now)
    && (forall k :: 0 <= k < |d.books.refunds| ==> d.books.refunds[k].at <= now)
    && (forall k :: 0 <= k < |d.shifts| ==> d.shifts[k].openedAt <= now)
    && (forall k :: 0 <= k < |d.shifts| && d.shifts[k].closing.Some? ==>
          d.shifts[k].openedAt <= d.shifts[k].closing.value.closedAt <= now)
  }

  predicate SameCashier(a: Shift, b: Shift) { a.store == b.store && a.cashier == b.cashier }

  /** A cashier's later shift opens only after the earlier one closed. */
  ghost predicate InTurn(shifts: seq<Shift>) {
    forall j, k :: 0 <= j < k < |shifts| && SameCashier(shifts[j], shifts[k]) ==>
      shifts[j].closing.Some? && shifts[j].closing.value.closedAt <= shifts[k].openedAt
  }

  ghost predicate SnapshotsTrue(d: Desk) {
    forall k :: 0 <= k < |d.shifts| && d.shifts[k].closing.Some? ==> FieldsOff(d.books, d.shifts[k]) == []
  }

  ghost predicate ShiftsOk(d: Desk) {
    match d
    case Desk(_, shifts) =>
      && (forall k :: 0 <= k < |shifts| ==> ShiftChecks(shifts[k]))
      && OneOpenEach(shifts) && UniqueOpenKeys(shifts)
  }

  ghost predicate Sound(site: Site, d: Desk, now: int) {
    match d
    case Desk(books, shifts) =>
      Settled(site, books) && ShiftsOk(d) && StampedBy(d, now) && InTurn(shifts) && SnapshotsTrue(d)
  }

  /** What a till command adds carries the time it ran. */
  ghost predicate StampedNow(before: Books, after: Books, now: int) {
    match before
    case Books(_, settlements, _, refunds, _) =>
      && settlements <= after.settlements && refunds <= after.refunds
      && (forall k :: |settlements| <= k < |after.settlements| ==> after.settlements[k].at == now)
      && (forall k :: |refunds| <= k < |after.refunds| ==> after.refunds[k].at == now)
  }

  lemma PartIsStamped(b: Books, staff: PaymentCommands.Staff, table: Option<int>, order: nat, amount: int,
                      tender: Tender, key: string, body: Request, now: int)
    requires order < |b.orders|
    ensures StampedNow(b, PaymentCommands.PostPart(b, staff, table, order, amount, tender, key, body, now).0, now)
  {}

  lemma FullIsStamped(b: Books, staff: PaymentCommands.Staff, table: Option<int>, ids: set<nat>, guardRecollect: bool,
                      tender: Tender, key: string, body: Request, now: int)
    ensures StampedNow(b, PaymentCommands.PostFull(b, staff, table, ids, guardRecollect, tender, key, body, now).0, now)
  {}

  lemma CollectIsStamped(site: Site, b: Books, staff: PaymentCommands.Staff, table: Option<int>, ids: set<nat>,
                         part: Option<int>, guardRecollect: bool, tender: Tender, key: string, body: Request, now: int)
    ensures StampedNow(b, PaymentCommands.Collect(site, b, staff, table, ids, part, guardRecollect, tender, key, body,
                                                  now).0, now)
  {
    FullIsStamped(b, staff, table, ids, guardRecollect, tender, key, body, now);
    if part.Some? && exists k :: 0 <= k < |b.orders| && k in ids {
      PartIsStamped(b, staff, table, PaymentCommands.First(b, ids, |b.orders|), part.value, tender, key, body, now);
    }
  }

  lemma RefundIsStamped(b: Books, staff: PaymentCommands.Staff, allocation: nat, amount: int, reason: string,
                        key: string, now: int)
    ensures StampedNow(b, PaymentCommands.RefundStep(b, staff, allocation, amount, reason, key, now).0, now)
  {}

  lemma SettleIsStamped(b: Books, staff: PaymentCommands.Staff, id: nat, resolution: Resolution,
                        ruling: PaymentCommands.Ruling, reason: string, key: string, body: Request, now: int)
    requires id < |b.issues| && b.issues[id].order < |b.orders| && ruling.Grant?
    ensures StampedNow(b, PaymentCommands.Settle(b, staff, id, resolution, ruling, reason, key, body, now).0, now)
  {}

  lemma ResolveIsStamped(b: Books, staff: PaymentCommands.Staff, id: nat, resolution: Resolution, approved: Option<int>,
                         reason: string, key: string, body: Request, now: int)
    requires id < |b.issues|
    ensures StampedNow(b, PaymentCommands.ResolveOpen(b, staff, id, resolution, approved, reason, key, body, now).0,
                       now)
  {
    if b.issues[id].order < |b.orders|
        && PaymentCommands.Rule(b.orders[b.issues[id].order], resolution, approved).Grant? {
      SettleIsStamped(b, staff, id, resolution,
                      PaymentCommands.Rule(b.orders[b.issues[id].order], resolution, approved), reason, key, body, now);
    }
  }

  lemma TillIsStamped(site: Site, b: Books, c: PaymentCommands.Command, now: int)
    ensures StampedNow(b, PaymentCommands.Exec(site, b, c, now).0, now)
  {
    match c
    case SettleTable(s, table, ids, tender, note, key) =>
      CollectIsStamped(site, b, s, Some(table), ids, None, true, tender, Strip(key),
                       SettlementBody(table, ids, tender, note), now);
    case PayOrder(s, order, part, tender, note, key) =>
      if order < |b.orders| {
        CollectIsStamped(site, b, s, b.orders[order].table, {order}, part, false, tender, Strip(key),
                         OrderPaymentBody(order, part, tender, note), now);
      }
    case RefundAllocation(s, a, amount, reason, key) => RefundIsStamped(b, s, a, amount, reason, key, now);
    case ResolveIssue(s, id, resolution, approved, reason, note, key) =>
      if id < |b.issues| {
        ResolveIsStamped(b, s, id, resolution, approved, Strip(reason), Strip(key),
                         ResolutionBody(id, resolution, approved, Strip(reason), Strip(note)), now);
      }
    case _ =>
  }

  lemma UnmovedPayments(before: Books, after: Books, w: Window, tender: Option<Tender>, now: int)
    requires StampedNow(before, after, now) && w.until <= now
    ensures Takings(after, w, tender) == Takings(before, w, tender)
  {
    SumGrowth(before.settlements, after.settlements, TakenIn(w, tender));
    SumZero(after.settlements[|before.settlements|..], TakenIn(w, tender));
  }

  lemma UnmovedRefunds(before: Books, after: Books, w: Window, tender: Option<Tender>, now: int)
    requires StampedNow(before, after, now) && w.until <= now
    requires forall k :: 0 <= k < |before.refunds| ==> before.refunds[k].settlement < |before.settlements|
    ensures GaveBack(after, w, tender) == GaveBack(before, w, tender)
  {
    OldRefundsKeepTheirCashier(before, after, w, tender);
    SumGrowth(before.refunds, after.refunds, ReturnedIn(after.settlements, w, tender));
    SumZero(after.refunds[|before.refunds|..], ReturnedIn(after.settlements, w, tender));
  }

  /** Rows stamped at or after the close leave a true snapshot true. */
  lemma StillTrue(before: Books, after: Books, s: Shift, now: int)
    requires s.closing.Some? && FieldsOff(before, s) == [] && s.closing.value.closedAt <= now
    requires StampedNow(before, after, now)
    requires forall k :: 0 <= k < |before.refunds| ==> before.refunds[k].settlement < |before.settlements|
    ensures FieldsOff(after, s) == []
  {
    var w := WindowOf(s);
    UnmovedPayments(before, after, w, Some(Cash), now);
    UnmovedPayments(before, after, w, Some(Card), now);
    UnmovedPayments(before, after, w, None, now);
    UnmovedRefunds(before, after, w, Some(Cash), now);
    UnmovedRefunds(before, after, w, Some(Card), now);
    UnmovedRefunds(before, after, w, None, now);
    assert Derived(after, w) == Derived(before, w);
  }

  lemma RefundsCiteSettlements(site: Site, b: Books)
    requires Settled(site, b)
    ensures forall k :: 0 <= k < |b.refunds| ==> b.refunds[k].settlement < |b.settlements|
    ensures PositiveAmounts(b)
  {
    forall k | 0 <= k < |b.refunds| ensures b.refunds[k].settlement < |b.settlements| && b.refunds[k].amount > 0 {
      assert RefundChecks(b, b.refunds[k]);
    }
    forall k | 0 <= k < |b.settlements|
      ensures b.settlements[k].gross > 0
    {
      assert SettlementChecks(site, b.settlements[k]);
    }
  }

  lemma TillKeeps(site: Site, d: Desk, c: PaymentCommands.Command, before: int, now: int)
    requires Sound(site, d, before) && before <= now && PaymentCommands.WellFormed(site, c)
    ensures Sound(site, d.(books := PaymentCommands.Exec(site, d.books, c, now).0), now)
  {
    var after := d.(books := PaymentCommands.Exec(site, d.books, c, now).0);
    PaymentRuns.ExecKeeps(site, d.books, c, now);
    TillIsStamped(site, d.books, c, now);
    RefundsCiteSettlements(site, d.books);
    forall k | 0 <= k < |d.shifts| && d.shifts[k].closing.Some? ensures FieldsOff(after.books, d.shifts[k]) == [] {
      StillTrue(d.books, after.books, d.shifts[k], now);
    }
    assert ShiftsOk(after);
  }

  lemma OpenedShifts(d: Desk, s: Shift, before: int)
    requires ShiftsOk(d) && InTurn(d.shifts) && ShiftChecks(s) && s.closing.None? && StampedBy(d, before)
    requires before <= s.openedAt
    requires forall k :: 0 <= k < |d.shifts| ==>
             !OpenFor(s.store, s.cashier)(d.shifts[k]) && !OpenKeyed(s.store, s.openKey)(d.shifts[k])
    ensures ShiftsOk(d.(shifts := d.shifts + [s])) && InTurn(d.shifts + [s])
  {}

  lemma OpenedKeeps(site: Site, d: Desk, s: Shift, before: int, now: int)
    requires Sound(site, d, before) && before <= now && s.openedAt == now && s.opening >= 0 && s.closing.None?
    requires forall k :: 0 <= k < |d.shifts| ==>
             !OpenFor(s.store, s.cashier)(d.shifts[k]) && !OpenKeyed(s.store, s.openKey)(d.shifts[k])
    ensures Sound(site, d.(shifts := d.shifts + [s]), now)
  {
    OpenedShifts(d, s, before);
  }

  lemma TimePasses(site: Site, d: Desk, before: int, now: int)
    requires Sound(site, d, before) && before <= now
    ensures Sound(site, d, now)
  {}

  lemma OpenKeeps(site: Site, d: Desk, staff: Staff, opening: int, note: string, key: string, before: int, now: int)
    requires Sound(site, d, before) && before <= now
    ensures Sound(site, OpenStep(d, staff, opening, note, key, now).0, now)
  {
    if OpenStep(d, staff, opening, note, key, now).1.Done? {
      OpenedKeeps(site, d, Shift(staff.store, staff.user, now, opening, Strip(key), Strip(note), None), before, now);
    } else {
      TimePasses(site, d, before, now);
    }
  }

  lemma SnapshotIsTrue(b: Books, s: Shift, counted: int, key: string, note: string, now: int)
    ensures FieldsOff(b, s.(closing := Some(Snapshot(b, s, counted, key, note, now)))) == []
  {
    GroupsAddUp(b, Window(s.store, s.cashier, s.openedAt, now));
    NoDifferenceExactlyWhen(Snapshot(b, s, counted, key, note, now), s.opening,
                            Derived(b, Window(s.store, s.cashier, s.openedAt, now)));
  }

  lemma SnapshotPasses(b: Books, s: Shift, counted: int, key: string, note: string, now: int)
    requires PositiveAmounts(b) && ShiftChecks(s) && counted >= 0
    ensures ShiftChecks(s.(closing := Some(Snapshot(b, s, counted, key, note, now))))
  {
    var w := Window(s.store, s.cashier, s.openedAt, now);
    SumNonneg(b.settlements, TakenIn(w, Some(Cash)));
    SumNonneg(b.settlements, TakenIn(w, Some(Card)));
    SumNonneg(b.settlements, TakenIn(w, Some(OtherTender)));
    SumNonneg(b.refunds, ReturnedIn(b.settlements, w, Some(Cash)));
    SumNonneg(b.refunds, ReturnedIn(b.settlements, w, Some(Card)));
    SumNonneg(b.refunds, ReturnedIn(b.settlements, w, Some(OtherTender)));
  }

  lemma ClosedRows(d: Desk, id: nat, s: Shift)
    requires ShiftsOk(d) && InTurn(d.shifts) && id < |d.shifts| && GuardAllows(d.shifts[id], s) && ShiftChecks(s)
    ensures ShiftsOk(d.(shifts := d.shifts[id := s])) && InTurn(d.shifts[id := s])
  {}

  lemma ClosedShifts(site: Site, d: Desk, id: nat, s: Shift, before: int, now: int)
    requires Sound(site, d, before) && before <= now && id < |d.shifts| && GuardAllows(d.shifts[id], s)
    requires ShiftChecks(s)
    requires s.closing.value.closedAt == now && FieldsOff(d.books, s) == []
    ensures Sound(site, d.(shifts := d.shifts[id := s]), now)
  {
    ClosedRows(d, id, s);
  }

  lemma CloseKeeps(site: Site, d: Desk, staff: Staff, id: nat, counted: int, note: string, key: string, before: int,
                   now: int)
    requires Sound(site, d, before) && before <= now
    ensures Sound(site, CloseStep(d, staff, id, counted, note, key, now).0, now)
  {
    TimePasses(site, d, before, now);
    if CloseStep(d, staff, id, counted, note, key, now).1.Done? {
      RefundsCiteSettlements(site, d.books);
      SnapshotIsTrue(d.books, d.shifts[id], counted, Strip(key), Strip(note), now);
      SnapshotPasses(d.books, d.shifts[id], counted, Strip(key), Strip(note), now);
      var snapshot := Snapshot(d.books, d.shifts[id], counted, Strip(key), Strip(note), now);
      ClosedShifts(site, d, id, d.shifts[id].(closing := Some(snapshot)), before, now);
    }
  }

  lemma ExecKeeps(site: Site, d: Desk, command: Command, before: int, now: int)
    requires Sound(site, d, before) && before <= now
    requires command.Till? ==> PaymentCommands.WellFormed(site, command.command)
    ensures Sound(site, Exec(site, d, command, now), now)
  {
    match command
    case Till(c) => TillKeeps(site, d, c, before, now);
    case OpenShift(staff, opening, note, key) => OpenKeeps(site, d, staff, opening, note, key, before, now);
    case CloseShift(staff, id, counted, note, key) => CloseKeeps(site, d, staff, id, counted, note, key, before, now);
  }

  lemma ProperPrefix(site: Site, start: int, events: seq<Event>, n: nat)
    requires Proper(site, start, events) && n <= |events|
    ensures Proper(site, start, events[..n])
  {
    forall i | 0 <= i < n
      ensures Clock(start, events[..n][..i]) <= events[..n][i].at
      ensures events[..n][i].command.Till? ==> PaymentCommands.WellFormed(site, events[..n][i].command.command)
    {
      assert events[..n][..i] == events[..i];
    }
  }

  /** Frozen snapshots stay true: after any run of till and shift commands, with time
      that never goes back, re-deriving every closed shift finds its own figures, and
      every constraint on shifts holds. */
  lemma {:induction false} EveryReachableDeskIsSound(site: Site, d: Desk, start: int, events: seq<Event>)
    requires Sound(site, d, start) && Proper(site, start, events)
    ensures Sound(site, Run(site, d, events), Clock(start, events))
  {
    if |events| > 0 {
      var n := |events| - 1;
      ProperPrefix(site, start, events, n);
      EveryReachableDeskIsSound(site, d, start, events[..n]);
      ExecKeeps(site, Run(site, d, events[..n]), events[n].command, Clock(start, events[..n]), events[n].at);
    }
  }

  /** A desk that opens empty is sound after any run. */
  lemma {:induction false} FromAnEmptyDesk(site: Site, start: int, events: seq<Event>)
    requires Proper(site, start, events)
    ensures Sound(site, Run(site, Desk(Books([], [], [], [], []), []), events), Clock(start, events))
  {
    EveryReachableDeskIsSound(site, Desk(Books([], [], [], [], []), []), start, events);
  }

  lemma {:induction false} NoShiftIsEverReported(site: Site, d: Desk, start: int, events: seq<Event>,
                                                 store: Option<int>, k: nat)
    requires Sound(site, d, start) && Proper(site, start, events) && k < |Run(site, d, events).shifts|
    ensures Report(Run(site, d, events), store, k) == []
  {
    EveryReachableDeskIsSound(site, d, start, events);
  }

  // ── Closed shifts are frozen ───────────────────────────────────────────────

  lemma StepIsGuarded(site: Site, d: Desk, command: Command, now: int, k: nat)
    requires k < |d.shifts|
    ensures k < |Exec(site, d, command, now).shifts|
    ensures Exec(site, d, command, now).shifts[k] == d.shifts[k]
              || GuardAllows(d.shifts[k], Exec(site, d, command, now).shifts[k])
  {}

  lemma {:induction false} ClosedShiftsAreFrozen(site: Site, d: Desk, events: seq<Event>, k: nat)
    requires k < |d.shifts|
    ensures k < |Run(site, d, events).shifts|
    ensures Run(site, d, events).shifts[k] == d.shifts[k] || GuardAllows(d.shifts[k], Run(site, d, events).shifts[k])
  {
    if |events| > 0 {
      var n := |events| - 1;
      ClosedShiftsAreFrozen(site, d, events[..n], k);
      StepIsGuarded(site, Run(site, d, events[..n]), events[n].command, events[n].at, k);
    }
  }

  // ── Retries ────────────────────────────────────────────────────────────────

  lemma {:induction false} KeyedShift(shifts: seq<Shift>, id: nat)
    requires UniqueOpenKeys(shifts) && id < |shifts|
    ensures Find(shifts, OpenKeyed(shifts[id].store, shifts[id].openKey)) == id
  {
    assert OpenKeyed(shifts[id].store, shifts[id].openKey)(shifts[id]);
  }

  lemma {:induction false} OpeningIsFrozen(site: Site, d: Desk, start: int, events: seq<Event>, id: nat)
    requires Sound(site, d, start) && Proper(site, start, events) && id < |d.shifts|
    ensures var now := Run(site, d, events);
            && id < |now.shifts| && now.shifts[id].opening == d.shifts[id].opening
            && now.shifts[id].openNote == d.shifts[id].openNote
            && Find(now.shifts, OpenKeyed(d.shifts[id].store, d.shifts[id].openKey)) == id
  {
    EveryReachableDeskIsSound(site, d, start, events);
    ClosedShiftsAreFrozen(site, d, events, id);
    KeyedShift(Run(site, d, events).shifts, id);
  }

  lemma OpeningLeavesItsMark(d: Desk, staff: Staff, opening: int, note: string, key: string, now: int)
    requires OpenStep(d, staff, opening, note, key, now).1.Done?
    ensures var (after, outcome) := OpenStep(d, staff, opening, note, key, now);
            && outcome.id < |after.shifts|
            && after.shifts[outcome.id] == Shift(staff.store, staff.user, now, opening, Strip(key), Strip(note), None)
            && Strip(key) != ""
  {}

  /** A shift is opened once: re-sending the request after any run, closed or not,
      answers with the same shift; its key with another body is refused. */
  lemma {:induction false} OpeningIsExactlyOnce(site: Site, d: Desk, staff: Staff, opening: int, note: string,
                                                key: string, before: int, at: int, id: nat, later: seq<Event>,
                                                again: Staff, opening': int, note': string, key': string, at': int)
    requires Sound(site, d, before) && before <= at
    requires OpenStep(d, staff, opening, note, key, at).1 == Done(id)
    requires Proper(site, at, later)
    requires again.store == staff.store && Strip(key') == Strip(key) && opening' >= 0
    ensures var now := Run(site, OpenStep(d, staff, opening, note, key, at).0, later);
            OpenStep(now, again, opening', note', key', at') ==
              (now, if opening' == opening && Strip(note') == Strip(note) then Replayed(id)
               else Refused(IdempotencyMismatch))
  {
    var done := OpenStep(d, staff, opening, note, key, at).0;
    OpenKeeps(site, d, staff, opening, note, key, before, at);
    OpeningLeavesItsMark(d, staff, opening, note, key, at);
    OpeningIsFrozen(site, done, at, later, id);
  }

  /** A shift is closed once: after any run the same request answers with the same
      shift, its key with another body is refused, and so is any other key. */
  lemma {:induction false} ClosingIsExactlyOnce(site: Site, d: Desk, staff: Staff, id: nat, counted: int, note: string,
                                                key: string, at: int, later: seq<Event>, again: Staff, counted': int,
                                                note': string, key': string, at': int)
    requires CloseStep(d, staff, id, counted, note, key, at).1 == Done(id)
    requires again.store == staff.store && (again.supervisor || again.user == d.shifts[id].cashier)
    requires Strip(key') != "" && counted' >= 0
    ensures var now := Run(site, CloseStep(d, staff, id, counted, note, key, at).0, later);
            CloseStep(now, again, id, counted', note', key', at') ==
              (now, if Strip(key') != Strip(key) then Refused(AlreadyClosed)
                    else if counted' == counted && Strip(note') == Strip(note) then Replayed(id)
                    else Refused(IdempotencyMismatch))
  {
    ClosedShiftsAreFrozen(site, CloseStep(d, staff, id, counted, note, key, at).0, later, id);
  }

  // ── No double count ────────────────────────────────────────────────────────

  /** Two closed shifts of one cashier never claim the same instant. */
  lemma WindowsAreDisjoint(d: Desk, j: nat, k: nat, at: int)
    requires InTurn(d.shifts) && j < |d.shifts| && k < |d.shifts| && j != k
    requires d.shifts[j].closing.Some? && d.shifts[k].closing.Some?
    requires d.shifts[j].store == d.shifts[k].store && d.shifts[j].cashier == d.shifts[k].cashier
    ensures !(WindowOf(d.shifts[j]).Holds(at) && WindowOf(d.shifts[k]).Holds(at))
  {}

  function ClosedGross(store: int, cashier: int): Shift -> int {
    (s: Shift) => if s.store == store && s.cashier == cashier && s.closing.Some? then s.closing.value.totals.gross
      else 0
  }

  function CollectedBy(store: int, cashier: int): Settlement -> int {
    (s: Settlement) => if s.store == store && s.cashier == cashier then s.gross else 0
  }

  /** What a settlement adds to a shift's snapshot. */
  function Claimed(store: int, cashier: int): (Shift, Settlement) -> int {
    (x: Shift, s: Settlement) =>
      if x.store == store && x.cashier == cashier && x.closing.Some? && WindowOf(x).Took(s) then s.gross else 0
  }

  lemma ClaimedRow(d: Desk, k: nat, store: int, cashier: int)
    requires SnapshotsTrue(d) && k < |d.shifts|
    ensures ClosedGross(store, cashier)(d.shifts[k]) ==
              Sum(d.books.settlements, Row(Claimed(store, cashier), d.shifts[k]))
  {
    var x := d.shifts[k];
    var row := Row(Claimed(store, cashier), x);
    if x.store == store && x.cashier == cashier && x.closing.Some? {
      NoDifferenceExactlyWhen(x.closing.value, x.opening, Derived(d.books, WindowOf(x)));
      SumPointwise(d.books.settlements, TakenIn(WindowOf(x), None), d.books.settlements, row);
    } else {
      SumZero(d.books.settlements, row);
    }
  }

  /** Each settlement lies in at most one closed shift of its cashier. */
  lemma ClaimedOnce(d: Desk, s: Settlement, store: int, cashier: int)
    requires InTurn(d.shifts) && s.gross > 0
    ensures Sum(d.shifts, Column(Claimed(store, cashier), s)) <= CollectedBy(store, cashier)(s)
    ensures Sum(d.shifts, Column(Claimed(store, cashier), s)) >= 0
  {
    var col := Column(Claimed(store, cashier), s);
    SumNonneg(d.shifts, col);
    if Sum(d.shifts, col) > 0 {
      var k := PositiveRow(d.shifts, col);
      forall j | 0 <= j < |d.shifts| && j != k ensures col(d.shifts[j]) == 0 {
        if d.shifts[j].store == store && d.shifts[j].cashier == cashier && d.shifts[j].closing.Some? {
          WindowsAreDisjoint(d, j, k, s.at);
        }
      }
      SumSingle(d.shifts, k, col);
    }
  }

  /** No double count: a cashier's closed shifts together never report more than
      the cashier collected. */
  lemma ClosedShiftsNeverDoubleCount(site: Site, d: Desk, now: int, store: int, cashier: int)
    requires Sound(site, d, now)
    ensures Sum(d.shifts, ClosedGross(store, cashier)) <= Sum(d.books.settlements, CollectedBy(store, cashier))
  {
    var w := Claimed(store, cashier);
    RefundsCiteSettlements(site, d.books);
    forall k | 0 <= k < |d.shifts|
      ensures ClosedGross(store, cashier)(d.shifts[k]) == Across(d.books.settlements, w)(d.shifts[k])
    {
      ClaimedRow(d, k, store, cashier);
    }
    SumPointwise(d.shifts, ClosedGross(store, cashier), d.shifts, Across(d.books.settlements, w));
    SumExchange(d.shifts, d.books.settlements, w);
    forall k | 0 <= k < |d.books.settlements|
      ensures Down(d.shifts, w)(d.books.settlements[k]) <= CollectedBy(store, cashier)(d.books.settlements[k])
    {
      ClaimedOnce(d, d.books.settlements[k], store, cashier);
    }
    SumLe(d.books.settlements, Down(d.shifts, w), CollectedBy(store, cashier));
  }

  lemma {:induction false} NoRunDoubleCounts(site: Site, d: Desk, start: int, events: seq<Event>, store: int,
                                             cashier: int)
    requires Sound(site, d, start) && Proper(site, start, events)
    ensures var now := Run(site, d, events);
            Sum(now.shifts, ClosedGross(store, cashier)) <= Sum(now.books.settlements, CollectedBy(store, cashier))
  {
    EveryReachableDeskIsSound(site, d, start, events);
    ClosedShiftsNeverDoubleCount(site, Run(site, d, events), Clock(start, events), store, cashier);
  }
}
