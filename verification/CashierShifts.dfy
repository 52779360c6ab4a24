/** Cashier shifts: a frozen snapshot of the payment ledger over a half-open window,
    one open window at a time for each cashier of a store. */
module CashierShifts {
  import opened Tables
  import opened Text
  import opened Payments
  import PaymentCommands

  datatype Totals = Totals(cashPayments: int, cashRefunds: int, cardPayments: int, cardRefunds: int,
                           gross: int, refunds: int, net: int)

  /** The close snapshot; ck_cashier_shift_status_snapshot makes it all or nothing. */
  datatype Closing = Closing(closedAt: int, counted: int, totals: Totals, expected: int, discrepancy: int,
                             key: string, note: string)

  datatype Shift = Shift(store: int, cashier: int, openedAt: int, opening: int, openKey: string, openNote: string,
                         closing: Option<Closing>)

  /** The payment books and the shifts laid over them. */
  datatype Desk = Desk(books: Books, shifts: seq<Shift>)

  // ── The attribution rule ───────────────────────────────────────────────────

  /** Whose payments, over which window from <= t < until. */
  datatype Window = Window(store: int, cashier: int, from: int, until: int) {
    predicate Holds(at: int) { from <= at < until }
    predicate Took(s: Settlement) { s.store == store && s.cashier == cashier && Holds(s.at) }
  }

  predicate Tendered(tender: Option<Tender>, s: Settlement) { tender.None? || s.tender == tender.value }

  function TakenIn(w: Window, tender: Option<Tender>): Settlement -> int {
    (s: Settlement) => if w.Took(s) && Tendered(tender, s) then s.gross else 0
  }

  /** A refund counts against the cashier whose money was given back. */
  predicate GivenBack(settlements: seq<Settlement>, w: Window, r: Refund) {
    r.settlement < |settlements| && r.store == w.store && settlements[r.settlement].cashier == w.cashier
    && w.Holds(r.at)
  }

  function ReturnedIn(settlements: seq<Settlement>, w: Window, tender: Option<Tender>): Refund -> int {
    (r: Refund) => if GivenBack(settlements, w, r) && Tendered(tender, settlements[r.settlement]) then r.amount else 0
  }

  function Takings(b: Books, w: Window, tender: Option<Tender>): int { Sum(b.settlements, TakenIn(w, tender)) }

  function GaveBack(b: Books, w: Window, tender: Option<Tender>): int {
    Sum(b.refunds, ReturnedIn(b.settlements, w, tender))
  }

  /** What the reconciler re-derives from the ledger. */
  function Derived(b: Books, w: Window): Totals {
    Totals(Takings(b, w, Some(Cash)), GaveBack(b, w, Some(Cash)), Takings(b, w, Some(Card)), GaveBack(b, w, Some(Card)),
           Takings(b, w, None), GaveBack(b, w, None), Takings(b, w, None) - GaveBack(b, w, None))
  }

  /** compute_shift_totals: grouped by tender, the groups then added up. */
  function Computed(b: Books, w: Window): Totals {
    var gross := Takings(b, w, Some(Cash)) + Takings(b, w, Some(Card)) + Takings(b, w, Some(OtherTender));
    var refunds := GaveBack(b, w, Some(Cash)) + GaveBack(b, w, Some(Card)) + GaveBack(b, w, Some(OtherTender));
    Totals(Takings(b, w, Some(Cash)), GaveBack(b, w, Some(Cash)), Takings(b, w, Some(Card)), GaveBack(b, w, Some(Card)),
           gross, refunds, gross - refunds)
  }

  lemma {:induction false} PaymentGroups(ss: seq<Settlement>, w: Window)
    ensures Sum(ss, TakenIn(w, None)) ==
              Sum(ss, TakenIn(w, Some(Cash))) + Sum(ss, TakenIn(w, Some(Card))) + Sum(ss, TakenIn(w, Some(OtherTender)))
  {
    if |ss| > 0 {
      PaymentGroups(ss[..|ss| - 1], w);
    }
  }

  lemma {:induction false} RefundGroups(rs: seq<Refund>, ss: seq<Settlement>, w: Window)
    ensures Sum(rs, ReturnedIn(ss, w, None)) ==
              Sum(rs, ReturnedIn(ss, w, Some(Cash))) + Sum(rs, ReturnedIn(ss, w, Some(Card)))
              + Sum(rs, ReturnedIn(ss, w, Some(OtherTender)))
  {
    if |rs| > 0 {
      RefundGroups(rs[..|rs| - 1], ss, w);
    }
  }

  /** The service and the reconciler never drift: every tender is in some group. */
  lemma GroupsAddUp(b: Books, w: Window)
    ensures Computed(b, w) == Derived(b, w)
  {
    PaymentGroups(b.settlements, w);
    RefundGroups(b.refunds, b.settlements, w);
  }

  // ── What the figures add up ────────────────────────────────────────────────

  /** What a cashier of a store took in a tender from one instant up to another. */
  function PaymentsIn(b: Books, store: int, cashier: int, from: int, until: int, tender: Tender): int {
    Sum(b.settlements, (s: Settlement) =>
      if s.store == store && s.cashier == cashier && from <= s.at < until && s.tender == tender then s.gross else 0)
  }

  /** What was given back in that time of payments the cashier took in that tender. */
  function RefundsMade(b: Books, store: int, cashier: int, from: int, until: int, tender: Tender): int {
    Sum(b.refunds, (r: Refund) =>
      if r.settlement < |b.settlements| && r.store == store && b.settlements[r.settlement].cashier == cashier
         && from <= r.at < until && b.settlements[r.settlement].tender == tender then r.amount else 0)
  }

  /** All of it, whatever the tender. */
  function AllPayments(b: Books, store: int, cashier: int, from: int, until: int): int {
    Sum(b.settlements, (s: Settlement) =>
      if s.store == store && s.cashier == cashier && from <= s.at < until then s.gross else 0)
  }

  function AllRefunds(b: Books, store: int, cashier: int, from: int, until: int): int {
    Sum(b.refunds, (r: Refund) =>
      if r.settlement < |b.settlements| && r.store == store && b.settlements[r.settlement].cashier == cashier
         && from <= r.at < until then r.amount else 0)
  }

  lemma TakingsAre(b: Books, store: int, cashier: int, from: int, until: int, tender: Tender)
    ensures Takings(b, Window(store, cashier, from, until), Some(tender)) ==
              PaymentsIn(b, store, cashier, from, until, tender)
    ensures GaveBack(b, Window(store, cashier, from, until), Some(tender)) ==
              RefundsMade(b, store, cashier, from, until, tender)
  {
    var w := Window(store, cashier, from, until);
    SumPointwise(b.settlements, TakenIn(w, Some(tender)), b.settlements, (s: Settlement) =>
      if s.store == store && s.cashier == cashier && from <= s.at < until && s.tender == tender then s.gross else 0);
    SumPointwise(b.refunds, ReturnedIn(b.settlements, w, Some(tender)), b.refunds, (r: Refund) =>
      if r.settlement < |b.settlements| && r.store == store && b.settlements[r.settlement].cashier == cashier
         && from <= r.at < until && b.settlements[r.settlement].tender == tender then r.amount else 0);
  }

  lemma AllTakingsAre(b: Books, store: int, cashier: int, from: int, until: int)
    ensures Takings(b, Window(store, cashier, from, until), None) == AllPayments(b, store, cashier, from, until)
    ensures GaveBack(b, Window(store, cashier, from, until), None) == AllRefunds(b, store, cashier, from, until)
  {
    var w := Window(store, cashier, from, until);
    SumPointwise(b.settlements, TakenIn(w, None), b.settlements, (s: Settlement) =>
      if s.store == store && s.cashier == cashier && from <= s.at < until then s.gross else 0);
    SumPointwise(b.refunds, ReturnedIn(b.settlements, w, None), b.refunds, (r: Refund) =>
      if r.settlement < |b.settlements| && r.store == store && b.settlements[r.settlement].cashier == cashier
         && from <= r.at < until then r.amount else 0);
  }

  /** Both derivations of a shift's figures, the service's and the reconciler's, are
      these sums. */
  lemma FiguresAre(b: Books, store: int, cashier: int, from: int, until: int)
    ensures var w := Window(store, cashier, from, until);
            var gross, refunds := AllPayments(b, store, cashier, from, until),
                                  AllRefunds(b, store, cashier, from, until);
            && Computed(b, w) == Derived(b, w)
            && Computed(b, w) == Totals(PaymentsIn(b, store, cashier, from, until, Cash),
                                        RefundsMade(b, store, cashier, from, until, Cash),
                                        PaymentsIn(b, store, cashier, from, until, Card),
                                        RefundsMade(b, store, cashier, from, until, Card),
                                        gross, refunds, gross - refunds)
  {
    GroupsAddUp(b, Window(store, cashier, from, until));
    TakingsAre(b, store, cashier, from, until, Cash);
    TakingsAre(b, store, cashier, from, until, Card);
    AllTakingsAre(b, store, cashier, from, until);
  }

  // ── Commands ───────────────────────────────────────────────────────────────

  datatype Error =
    | KeyRequired | OpeningInvalid | CountedInvalid | NotFound | Forbidden | IdempotencyMismatch | AlreadyClosed

  datatype Outcome = Done(id: nat) | AlreadyOpen(id: nat) | Replayed(id: nat) | Refused(error: Error)

  datatype Staff = Staff(user: int, store: int, supervisor: bool)

  datatype Command =
    | Till(command: PaymentCommands.Command)
    | OpenShift(staff: Staff, opening: int, note: string, key: string)
    | CloseShift(staff: Staff, shift: nat, counted: int, note: string, key: string)

  function OpenKeyed(store: int, key: string): Shift -> bool { (s: Shift) => s.store == store && s.openKey == key }

  function OpenFor(store: int, cashier: int): Shift -> bool {
    (s: Shift) => s.store == store && s.cashier == cashier && s.closing.None?
  }

  function OpenStep(d: Desk, staff: Staff, opening: int, note: string, key: string, now: int): (Desk, Outcome) {
    var k := Strip(key);
    var keyed, open := Find(d.shifts, OpenKeyed(staff.store, k)), Find(d.shifts, OpenFor(staff.store, staff.user));
    if k == "" then (d, Refused(KeyRequired))
    else if opening < 0 then (d, Refused(OpeningInvalid))
    else if keyed < |d.shifts| then
      (d, if d.shifts[keyed].opening == opening && d.shifts[keyed].openNote == Strip(note) then Replayed(keyed)
          else Refused(IdempotencyMismatch))
    else if open < |d.shifts| then (d, AlreadyOpen(open))
    else (d.(shifts := d.shifts + [Shift(staff.store, staff.user, now, opening, k, Strip(note), None)]),
          Done(|d.shifts|))
  }

  /** The snapshot a close writes. */
  function Snapshot(b: Books, s: Shift, counted: int, key: string, note: string, now: int): Closing {
    var totals := Computed(b, Window(s.store, s.cashier, s.openedAt, now));
    var expected := s.opening + totals.cashPayments - totals.cashRefunds;
    Closing(now, counted, totals, expected, counted - expected, key, note)
  }

  function CloseStep(d: Desk, staff: Staff, id: nat, counted: int, note: string, key: string, now: int): (Desk, Outcome)
  {
    var k := Strip(key);
    if k == "" then (d, Refused(KeyRequired))
    else if counted < 0 then (d, Refused(CountedInvalid))
    else if id >= |d.shifts| || d.shifts[id].store != staff.store then (d, Refused(NotFound))
    else if d.shifts[id].cashier != staff.user && !staff.supervisor then (d, Refused(Forbidden))
    else if d.shifts[id].closing.Some? then
      var c := d.shifts[id].closing.value;
      (d, if c.key != k then Refused(AlreadyClosed)
          else if c.counted == counted && c.note == Strip(note) then Replayed(id) else Refused(IdempotencyMismatch))
    else
      var s := d.shifts[id];
      (d.(shifts := d.shifts[id := s.(closing := Some(Snapshot(d.books, s, counted, k, Strip(note), now)))]), Done(id))
  }

  /** A shift is opened exactly when its key is new, the cash is not negative and the
      cashier has none open; nothing else changes. */
  lemma OpeningAddsOneShift(d: Desk, staff: Staff, opening: int, note: string, key: string, now: int)
    ensures var (after, outcome) := OpenStep(d, staff, opening, note, key, now);
            && (outcome.Done? <==>
                  && Strip(key) != "" && opening >= 0
                  && forall k :: 0 <= k < |d.shifts| && d.shifts[k].store == staff.store ==>
                       d.shifts[k].openKey != Strip(key) && (d.shifts[k].cashier == staff.user ==>
                                                             d.shifts[k].closing.Some?))
            && (outcome.Done? ==>
                  && outcome.id == |d.shifts|
                  && after == d.(shifts := d.shifts + [
                       Shift(staff.store, staff.user, now, opening, Strip(key), Strip(note), None)]))
            && (outcome.AlreadyOpen? ==>
                  && outcome.id < |d.shifts| && d.shifts[outcome.id].store == staff.store
                  && d.shifts[outcome.id].cashier == staff.user && d.shifts[outcome.id].closing.None?)
            && (!outcome.Done? ==> after == d)
  {
    var keyed, open := Find(d.shifts, OpenKeyed(staff.store, Strip(key))),
                       Find(d.shifts, OpenFor(staff.store, staff.user));
    forall k | 0 <= k < |d.shifts|
      ensures k < keyed ==> !OpenKeyed(staff.store, Strip(key))(d.shifts[k])
      ensures k < open ==> !OpenFor(staff.store, staff.user)(d.shifts[k])
    {}
  }

  /** A close freezes the drawer: cash and card apart, taken and given back in the
      shift's own window by its own cashier; the cash that should be there is the
      opening plus cash taken less cash given back, and the discrepancy is what was
      counted beyond it. */
  lemma ClosingFreezesTheWindow(d: Desk, staff: Staff, id: nat, counted: int, note: string, key: string, now: int)
    ensures var (after, outcome) := CloseStep(d, staff, id, counted, note, key, now);
            && (outcome.Done? <==>
                  && Strip(key) != "" && counted >= 0
                  && id < |d.shifts| && d.shifts[id].store == staff.store && d.shifts[id].closing.None?
                  && (d.shifts[id].cashier == staff.user || staff.supervisor))
            && (outcome.Done? ==>
                  && outcome.id == id
                  && var s := d.shifts[id];
                     var cash := PaymentsIn(d.books, s.store, s.cashier, s.openedAt, now, Cash);
                     var cashBack := RefundsMade(d.books, s.store, s.cashier, s.openedAt, now, Cash);
                     var card := PaymentsIn(d.books, s.store, s.cashier, s.openedAt, now, Card);
                     var cardBack := RefundsMade(d.books, s.store, s.cashier, s.openedAt, now, Card);
                     var gross := AllPayments(d.books, s.store, s.cashier, s.openedAt, now);
                     var refunds := AllRefunds(d.books, s.store, s.cashier, s.openedAt, now);
                     after == d.(shifts := d.shifts[id := s.(closing := Some(
                       Closing(now, counted, Totals(cash, cashBack, card, cardBack, gross, refunds, gross - refunds),
                               s.opening + cash - cashBack, counted - (s.opening + cash - cashBack), Strip(key),
                               Strip(note))))]))
            && (!outcome.Done? ==> after == d)
  {
    if id < |d.shifts| {
      FiguresAre(d.books, d.shifts[id].store, d.shifts[id].cashier, d.shifts[id].openedAt, now);
    }
  }

  /** No shift is refused for a cause that is not there. */
  lemma ShiftRefusalsTellTheTruth(d: Desk, staff: Staff, amount: int, note: string, key: string, now: int, id: nat)
    ensures match OpenStep(d, staff, amount, note, key, now).1
            case Done(_) => true
            case AlreadyOpen(_) => true
            case Replayed(k) =>
              k < |d.shifts| && d.shifts[k].store == staff.store && d.shifts[k].openKey == Strip(key)
              && d.shifts[k].opening == amount && d.shifts[k].openNote == Strip(note)
            case Refused(error) =>
              match error
              case KeyRequired => Strip(key) == ""
              case OpeningInvalid => amount < 0
              case IdempotencyMismatch =>
                exists k :: 0 <= k < |d.shifts| && d.shifts[k].store == staff.store && d.shifts[k].openKey == Strip(key)
                            && (d.shifts[k].opening != amount || d.shifts[k].openNote != Strip(note))
              case _ => false
    ensures match CloseStep(d, staff, id, amount, note, key, now).1
            case Done(_) => true
            case AlreadyOpen(_) => false
            case Replayed(k) =>
              k == id < |d.shifts| && d.shifts[id].closing.Some? && d.shifts[id].closing.value.key == Strip(key)
              && d.shifts[id].closing.value.counted == amount && d.shifts[id].closing.value.note == Strip(note)
            case Refused(error) =>
              match error
              case KeyRequired => Strip(key) == ""
              case CountedInvalid => amount < 0
              case NotFound => id >= |d.shifts| || d.shifts[id].store != staff.store
              case Forbidden => id < |d.shifts| && d.shifts[id].cashier != staff.user && !staff.supervisor
              case AlreadyClosed =>
                id < |d.shifts| && d.shifts[id].closing.Some? && d.shifts[id].closing.value.key != Strip(key)
              case IdempotencyMismatch =>
                && id < |d.shifts| && d.shifts[id].closing.Some? && d.shifts[id].closing.value.key == Strip(key)
                && (d.shifts[id].closing.value.counted != amount || d.shifts[id].closing.value.note != Strip(note))
              case _ => false
  {
    var keyed := Find(d.shifts, OpenKeyed(staff.store, Strip(key)));
    if keyed < |d.shifts| { assert OpenKeyed(staff.store, Strip(key))(d.shifts[keyed]); }
  }

  function Exec(site: Site, d: Desk, command: Command, now: int): Desk {
    match command
    case Till(c) => d.(books := PaymentCommands.Exec(site, d.books, c, now).0)
    case OpenShift(staff, opening, note, key) => OpenStep(d, staff, opening, note, key, now).0
    case CloseShift(staff, id, counted, note, key) => CloseStep(d, staff, id, counted, note, key, now).0
  }

  // ── Constraints ────────────────────────────────────────────────────────────

  /** The CHECKs of a closed shift; the open ones only bound the opening cash. */
  predicate ShiftChecks(s: Shift) {
    && s.opening >= 0
    && (s.closing.Some? ==>
          var c := s.closing.value;
          && c.counted >= 0 && c.totals.cashPayments >= 0 && c.totals.cashRefunds >= 0
          && c.totals.cardPayments >= 0 && c.totals.cardRefunds >= 0 && c.totals.gross >= 0 && c.totals.refunds >= 0
          && c.totals.gross >= c.totals.cashPayments + c.totals.cardPayments
          && c.totals.refunds >= c.totals.cashRefunds + c.totals.cardRefunds)
  }

  /** uq_cashier_shift_one_open. */
  predicate OneOpenEach(shifts: seq<Shift>) {
    forall j, k :: 0 <= j < k < |shifts| && shifts[j].closing.None? && shifts[k].closing.None? ==>
      shifts[j].store != shifts[k].store || shifts[j].cashier != shifts[k].cashier
  }

  predicate UniqueOpenKeys(shifts: seq<Shift>) {
    forall j, k :: 0 <= j < k < |shifts| ==>
        shifts[j].store != shifts[k].store || shifts[j].openKey != shifts[k].openKey
  }

  /** sweetops_guard_cashier_shift: an UPDATE may only close an open shift and must
      carry its opening over unchanged; DELETE never passes. */
  predicate GuardAllows(before: Shift, after: Shift) {
    before.closing.None? && after.closing.Some? && after == before.(closing := after.closing)
  }

  // ── reconcile_shifts ───────────────────────────────────────────────────────

  function WindowOf(s: Shift): Window
    requires s.closing.Some?
  {
    Window(s.store, s.cashier, s.openedAt, s.closing.value.closedAt)
  }

  datatype Field = CashPayments | CardPayments | CashRefunds | CardRefunds | GrossPayments | TotalRefunds
                 | NetCollected | ExpectedClosingCash | CashDiscrepancy

  function Flag(off: bool, f: Field): seq<Field> { if off then [f] else [] }

  function TenderDifferences(c: Closing, l: Totals): seq<Field> {
    Flag(c.totals.cashPayments != l.cashPayments, CashPayments)
    + Flag(c.totals.cardPayments != l.cardPayments, CardPayments)
    + Flag(c.totals.cashRefunds != l.cashRefunds, CashRefunds)
    + Flag(c.totals.cardRefunds != l.cardRefunds, CardRefunds)
  }

  function TotalDifferences(c: Closing, l: Totals): seq<Field> {
    Flag(c.totals.gross != l.gross, GrossPayments)
    + Flag(c.totals.refunds != l.refunds, TotalRefunds)
    + Flag(c.totals.net != l.gross - l.refunds, NetCollected)
  }

  function CashDifferences(c: Closing, expected: int): seq<Field> {
    Flag(c.expected != expected, ExpectedClosingCash) + Flag(c.discrepancy != c.counted - expected, CashDiscrepancy)
  }

  /** The figures of a snapshot that differ from what the ledger says now. */
  function Differences(c: Closing, opening: int, l: Totals): seq<Field> {
    TenderDifferences(c, l) + TotalDifferences(c, l) + CashDifferences(c, opening + l.cashPayments - l.cashRefunds)
  }

  function FieldsOff(b: Books, s: Shift): seq<Field>
    requires s.closing.Some?
  {
    Differences(s.closing.value, s.opening, Derived(b, WindowOf(s)))
  }

  /** Nothing is reported exactly when the snapshot is the ledger's own arithmetic. */
  lemma NoDifferenceExactlyWhen(c: Closing, opening: int, l: Totals)
    ensures Differences(c, opening, l) == [] <==>
              && c.totals.cashPayments == l.cashPayments && c.totals.cardPayments == l.cardPayments
              && c.totals.cashRefunds == l.cashRefunds && c.totals.cardRefunds == l.cardRefunds
              && c.totals.gross == l.gross && c.totals.refunds == l.refunds && c.totals.net == l.gross - l.refunds
              && c.expected == opening + l.cashPayments - l.cashRefunds && c.discrepancy == c.counted - c.expected
  {
    var expected := opening + l.cashPayments - l.cashRefunds;
    assert |Differences(c, opening, l)| ==
             |TenderDifferences(c, l)| + |TotalDifferences(c, l)| + |CashDifferences(c, expected)|;
    assert |TenderDifferences(c, l)| ==
             |Flag(c.totals.cashPayments != l.cashPayments, CashPayments)|
                 + |Flag(c.totals.cardPayments != l.cardPayments, CardPayments)|
             + |Flag(c.totals.cashRefunds != l.cashRefunds, CashRefunds)|
                 + |Flag(c.totals.cardRefunds != l.cardRefunds, CardRefunds)|;
    assert |TotalDifferences(c, l)| ==
             |Flag(c.totals.gross != l.gross, GrossPayments)| + |Flag(c.totals.refunds != l.refunds, TotalRefunds)|
             + |Flag(c.totals.net != l.gross - l.refunds, NetCollected)|;
    assert |CashDifferences(c, expected)| ==
             |Flag(c.expected != expected, ExpectedClosingCash)|
                 + |Flag(c.discrepancy != c.counted - expected, CashDiscrepancy)|;
  }

  lemma Flagged(off: bool, f: Field, g: Field)
    ensures g in Flag(off, f) <==> off && g == f
  {}

  lemma TendersNamed(c: Closing, l: Totals, f: Field)
    ensures f in TenderDifferences(c, l) <==>
              match f
              case CashPayments => c.totals.cashPayments != l.cashPayments
              case CardPayments => c.totals.cardPayments != l.cardPayments
              case CashRefunds => c.totals.cashRefunds != l.cashRefunds
              case CardRefunds => c.totals.cardRefunds != l.cardRefunds
              case _ => false
  {
    Flagged(c.totals.cashPayments != l.cashPayments, CashPayments, f);
    Flagged(c.totals.cardPayments != l.cardPayments, CardPayments, f);
    Flagged(c.totals.cashRefunds != l.cashRefunds, CashRefunds, f);
    Flagged(c.totals.cardRefunds != l.cardRefunds, CardRefunds, f);
  }

  lemma TotalsNamed(c: Closing, l: Totals, f: Field)
    ensures f in TotalDifferences(c, l) <==>
              match f
              case GrossPayments => c.totals.gross != l.gross
              case TotalRefunds => c.totals.refunds != l.refunds
              case NetCollected => c.totals.net != l.gross - l.refunds
              case _ => false
  {
    Flagged(c.totals.gross != l.gross, GrossPayments, f);
    Flagged(c.totals.refunds != l.refunds, TotalRefunds, f);
    Flagged(c.totals.net != l.gross - l.refunds, NetCollected, f);
  }

  /** Each figure that differs is named, and no other. */
  lemma EachDifferenceIsNamed(c: Closing, opening: int, l: Totals, f: Field)
    ensures f in Differences(c, opening, l) <==>
              match f
              case CashPayments => c.totals.cashPayments != l.cashPayments
              case CardPayments => c.totals.cardPayments != l.cardPayments
              case CashRefunds => c.totals.cashRefunds != l.cashRefunds
              case CardRefunds => c.totals.cardRefunds != l.cardRefunds
              case GrossPayments => c.totals.gross != l.gross
              case TotalRefunds => c.totals.refunds != l.refunds
              case NetCollected => c.totals.net != l.gross - l.refunds
              case ExpectedClosingCash => c.expected != opening + l.cashPayments - l.cashRefunds
              case CashDiscrepancy => c.discrepancy != c.counted - (opening + l.cashPayments - l.cashRefunds)
  {
    TendersNamed(c, l, f);
    TotalsNamed(c, l, f);
  }

  datatype Mismatch = Mismatch(shift: nat, fields: seq<Field>)

  /** What the report says of one shift; nothing for an open one or another store's. */
  function Report(d: Desk, store: Option<int>, k: nat): seq<Field>
    requires k < |d.shifts|
  {
    if d.shifts[k].closing.Some? && (store.None? || store.value == d.shifts[k].store)
      then FieldsOff(d.books, d.shifts[k]) else []
  }

  method Troubled(rows: seq<seq<Field>>) returns (mismatches: seq<Mismatch>)
    ensures forall m :: m in mismatches <==> exists k :: 0 <= k < |rows| && rows[k] != [] && m == Mismatch(k, rows[k])
    ensures forall i, j :: 0 <= i < j < |mismatches| ==> mismatches[i].shift < mismatches[j].shift
  {
    mismatches := [];
    for n := 0 to |rows|
      invariant forall m :: m in mismatches <==> exists k :: 0 <= k < n && rows[k] != [] && m == Mismatch(k, rows[k])
      invariant forall i, j :: 0 <= i < j < |mismatches| ==> mismatches[i].shift < mismatches[j].shift
      invariant forall i :: 0 <= i < |mismatches| ==> mismatches[i].shift < n
    {
      if rows[n] != [] {
        mismatches := mismatches + [Mismatch(n, rows[n])];
      }
    }
  }

  method FindTenderDifferences(c: Closing, l: Totals) returns (problems: seq<Field>)
    ensures problems == TenderDifferences(c, l)
  {
    problems := [];
    if c.totals.cashPayments != l.cashPayments { problems := problems + [CashPayments]; }
    if c.totals.cardPayments != l.cardPayments { problems := problems + [CardPayments]; }
    if c.totals.cashRefunds != l.cashRefunds { problems := problems + [CashRefunds]; }
    if c.totals.cardRefunds != l.cardRefunds { problems := problems + [CardRefunds]; }
  }

  method FindTotalDifferences(c: Closing, l: Totals) returns (problems: seq<Field>)
    ensures problems == TotalDifferences(c, l)
  {
    var net := l.gross - l.refunds;
    problems := [];
    if c.totals.gross != l.gross { problems := problems + [GrossPayments]; }
    if c.totals.refunds != l.refunds { problems := problems + [TotalRefunds]; }
    if c.totals.net != net { problems := problems + [NetCollected]; }
  }

  method FindCashDifferences(c: Closing, expected: int) returns (problems: seq<Field>)
    ensures problems == CashDifferences(c, expected)
  {
    var discrepancy := c.counted - expected;
    problems := [];
    if c.expected != expected { problems := problems + [ExpectedClosingCash]; }
    if c.discrepancy != discrepancy { problems := problems + [CashDiscrepancy]; }
  }

  method FindDifferences(c: Closing, opening: int, l: Totals) returns (problems: seq<Field>)
    ensures problems == Differences(c, opening, l)
  {
    problems := FindTenderDifferences(c, l);
    var totals := FindTotalDifferences(c, l);
    var cash := FindCashDifferences(c, opening + l.cashPayments - l.cashRefunds);
    problems := problems + totals + cash;
  }

  method FindFieldsOff(b: Books, s: Shift) returns (problems: seq<Field>)
    requires s.closing.Some?
    ensures problems == FieldsOff(b, s)
  {
    problems := FindDifferences(s.closing.value, s.opening, Derived(b, WindowOf(s)));
  }

  method ReconcileShifts(d: Desk, store: Option<int>) returns (mismatches: seq<Mismatch>)
    ensures forall m :: m in mismatches <==>
              exists k :: 0 <= k < |d.shifts| && Report(d, store, k) != [] && m == Mismatch(k, Report(d, store, k))
    ensures forall i, j :: 0 <= i < j < |mismatches| ==> mismatches[i].shift < mismatches[j].shift
  {
    var rows: seq<seq<Field>> := [];
    for n := 0 to |d.shifts|
      invariant |rows| == n && forall k :: 0 <= k < n ==> rows[k] == Report(d, store, k)
    {
      var problems := [];
      if d.shifts[n].closing.Some? && (store.None? || store.value == d.shifts[n].store) {
        problems := FindFieldsOff(d.books, d.shifts[n]);
      }
      rows := rows + [problems];
    }
    mismatches := Troubled(rows);
  }
}
