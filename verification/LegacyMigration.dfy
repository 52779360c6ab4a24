/** Revision c3b7e01f9a24: one conflated stock column becomes on-hand and reserved,
    signed deltas become a typed ledger, and an opening balance is invented so that
    the ledger sums to the shelf. Statements run in order, on tables rewritten in
    place; quantities are in thousandths. */
module LegacyMigration {
  import opened Tables
  import opened Text
  import Inventory
  import opened InventoryCommands
  import opened OrderSafety

  /** movement_type is free text with no CHECK before this revision. */
  datatype MovementType =
    | OrderDeduction | CancellationReturn | Restock | ManualAdjust
    | Consumption | Returned | PurchaseReceipt | ManualAdjustment | ReservationCreated | ReservationReleased
    | Waste | OtherType(text: string)

  datatype ReferenceType = OrderReference | OtherReference(text: string)

  datatype PastOrder = PastOrder(store: Option<int>, cancelled: bool)

  /** One row of order_item_ingredients. */
  datatype Use = Use(item: Option<nat>, ingredient: Option<int>, consumed: Option<int>)

  /** ingredient_stock before and after: quantity is stock_quantity, then
      on_hand_quantity; the store column arrives with the next revision. */
  datatype Shelf = Shelf(store: Option<int>, ingredient: int, onHand: int, reserved: int)

  /** ingredient_stock_movements with the columns of both shapes; those a shape
      does not have are NULL or at their default. */
  datatype Entry = Entry(store: Option<int>, ingredient: int, kind: MovementType,
                         delta: Option<int>, refType: Option<ReferenceType>, refId: Option<int>,
                         quantity: Option<int>, dOnHand: int, dReserved: int,
                         order: Option<int>, line: Option<nat>, actor: Option<int>, reason: Option<string>,
                         legacy: bool)
  {
    function Delta(): int { if delta.Some? then delta.value else 0 }
  }

  datatype PastLine = PastLine(store: Option<int>, order: int, item: nat, ingredient: int,
                               reserved: int, consumed: int, released: int, waste: int, returned: int)
  {
    function Outstanding(): int { reserved - consumed - released }
  }

  /** The tables this revision only reads: `items` maps an order item to its order. */
  datatype Past = Past(ingredients: set<int>, orders: map<int, PastOrder>, items: map<nat, Option<int>>, uses: seq<Use>)

  datatype Snapshot = Snapshot(past: Past, stock: seq<Shelf>, movements: seq<Entry>, lines: seq<PastLine>)

  // ── SQL statements over whole tables ───────────────────────────────────────

  /** UPDATE every row. */
  function Each<S, T>(s: seq<S>, f: S -> T): (r: seq<T>)
    ensures |r| == |s| && forall k :: 0 <= k < |s| ==> r[k] == f(s[k])
  {
    seq(|s|, k requires 0 <= k < |s| => f(s[k]))
  }

  /** What a DELETE leaves. */
  function Keep<T>(s: seq<T>, p: T -> bool): seq<T> {
    if |s| == 0 then []
    else
      var front, last := Keep(s[..|s| - 1], p), s[|s| - 1];
      if p(last) then front + [last] else front
  }

  lemma {:induction false} KeptRows<T>(s: seq<T>, p: T -> bool)
    ensures forall k :: 0 <= k < |Keep(s, p)| ==> p(Keep(s, p)[k]) && Keep(s, p)[k] in s
  {
    if |s| > 0 {
      KeptRows(s[..|s| - 1], p);
    }
  }

  lemma {:induction false} KeptAll<T>(s: seq<T>, p: T -> bool)
    requires forall k :: 0 <= k < |s| ==> p(s[k])
    ensures Keep(s, p) == s
  {
    if |s| > 0 {
      KeptAll(s[..|s| - 1], p);
    }
  }

  // ── The legacy tables ──────────────────────────────────────────────────────

  /** NUMERIC(10,2): whole hundredths. */
  predicate Hundredths(x: int) { x % 10 == 0 }

  predicate LegacyEntry(e: Entry) {
    && e.store.None? && e.delta.Some? && Hundredths(e.delta.value)
    && e.quantity.None? && e.dOnHand == 0 && e.dReserved == 0
    && e.order.None? && e.line.None? && e.actor.None? && !e.legacy
  }

  predicate LegacyShelf(r: Shelf) { r.store.None? && r.reserved == 0 && Hundredths(r.onHand) }

  ghost predicate OneShelfEach(stock: seq<Shelf>) {
    forall j, k :: 0 <= j < k < |stock| ==> stock[j].ingredient != stock[k].ingredient
  }

  /** Column types, NOT NULLs and the unique key of the schema before this revision. */
  ghost predicate LegacyTables(s: Snapshot) {
    && (forall k :: 0 <= k < |s.movements| ==> LegacyEntry(s.movements[k]))
    && (forall k :: 0 <= k < |s.stock| ==> LegacyShelf(s.stock[k]))
    && OneShelfEach(s.stock) && s.lines == []
  }

  // ── upgrade() ──────────────────────────────────────────────────────────────

  function NewKind(kind: MovementType): MovementType {
    match kind
    case OrderDeduction => Consumption
    case CancellationReturn => Returned
    case Restock => PurchaseReceipt
    case ManualAdjust => ManualAdjustment
    case Waste => Waste
    case _ => ManualAdjustment
  }

  const MAX_REASON := 500

  /** VARCHAR(500) takes a longer text only when everything past the limit is spaces. */
  predicate NoteFits(e: Entry) {
    e.reason.None? || |e.reason.value| <= MAX_REASON || Blank(e.reason.value[MAX_REASON..])
  }

  /** ... and cuts those spaces off. */
  function Shortened(e: Entry): Entry {
    if e.reason.Some? && |e.reason.value| > MAX_REASON then e.(reason := Some(e.reason.value[..MAX_REASON])) else e
  }

  function Noted(s: Snapshot): seq<Entry> { Each(s.movements, Shortened) }

  lemma NotedRows(s: Snapshot)
    requires LegacyTables(s)
    ensures forall e :: e in Noted(s) ==>
              LegacyEntry(e) && (exists m :: m in s.movements && m.ingredient == e.ingredient)
    ensures forall e :: e in Noted(s) ==> e.reason.Some? ==> |e.reason.value| <= MAX_REASON
  {
    forall e | e in Noted(s) ensures LegacyEntry(e) && exists m :: m in s.movements && m.ingredient == e.ingredient {
      var k :| 0 <= k < |s.movements| && Shortened(s.movements[k]) == e;
      assert LegacyEntry(s.movements[k]) && s.movements[k] in s.movements;
    }
  }

  predicate Moves(e: Entry) { e.delta != Some(0) }

  function Reshaped(e: Entry): Entry {
    e.(quantity := Some(Inventory.Abs(e.Delta())), dOnHand := e.Delta(), dReserved := 0, legacy := true,
       order := if e.refType == Some(OrderReference) then e.refId else None, kind := NewKind(e.kind))
  }

  /** A referenced order may since have been deleted. */
  function Relinked(orders: map<int, PastOrder>): Entry -> Entry {
    (e: Entry) => if e.order.Some? && e.order.value !in orders then e.(order := None) else e
  }

  /** The ambiguous signed-delta columns are dropped. */
  function Retired(e: Entry): Entry { e.(delta := None, refType := None, refId := None) }

  predicate Joined(p: Past, u: Use) {
    && u.item.Some? && u.item.value in p.items && p.items[u.item.value].Some? && p.items[u.item.value].value in p.orders
    && u.ingredient.Some? && u.ingredient.value in p.ingredients && u.consumed.Some? && u.consumed.value > 0
  }

  /** The rows the INSERT … SELECT reads: persisted requirements whose joins hold. */
  function Asked(p: Past, uses: seq<Use>): seq<Need> {
    if |uses| == 0 then []
    else
      var front, last := Asked(p, uses[..|uses| - 1]), uses[|uses| - 1];
      if Joined(p, last) then front + [Need(last.item.value, last.ingredient.value, last.consumed.value)] else front
  }

  function PastOrderOf(p: Past, item: nat): int {
    if item in p.items && p.items[item].Some? then p.items[item].value else 0
  }

  predicate WasCancelled(p: Past, order: int) { order in p.orders && p.orders[order].cancelled }

  /** The old code had already deducted the quantity, whatever the order's status. */
  function Backfilled(p: Past): Need -> PastLine {
    (n: Need) => PastLine(None, PastOrderOf(p, n.item), n.item, n.ingredient, n.quantity, n.quantity, 0, 0,
                          if WasCancelled(p, PastOrderOf(p, n.item)) then n.quantity else 0)
  }

  function LedgerOf(ingredient: int): Entry -> int {
    (e: Entry) => if e.ingredient == ingredient then e.dOnHand else 0
  }

  const OPENING := "opening balance"

  function Opening(ingredient: int, delta: int): Entry {
    Entry(None, ingredient, if delta > 0 then PurchaseReceipt else ManualAdjustment, None, None, None,
          Some(Inventory.Abs(delta)), delta, 0, None, None, None, Some(OPENING), true)
  }

  /** What each shelf holds beyond its ledger, as one row; none for no difference. */
  function Openings(stock: seq<Shelf>, ledger: seq<Entry>): seq<Entry> {
    if |stock| == 0 then []
    else
      var front, r := Openings(stock[..|stock| - 1], ledger), stock[|stock| - 1];
      var delta := r.onHand - Sum(ledger, LedgerOf(r.ingredient));
      if delta == 0 then front else front + [Opening(r.ingredient, delta)]
  }

  function RewrittenLedger(s: Snapshot): seq<Entry> {
    Each(Each(Each(Keep(Noted(s), Moves), Reshaped), Relinked(s.past.orders)), Retired)
  }

  function Upgraded(s: Snapshot): Snapshot {
    s.(movements := RewrittenLedger(s) + Openings(s.stock, RewrittenLedger(s)),
       lines := Each(Aggregate(Asked(s.past, s.past.uses)), Backfilled(s.past)))
  }

  // ── The constraints installed afterwards ───────────────────────────────────

  const TYPES := {ReservationCreated, ReservationReleased, Consumption, Waste, Returned,
                  ManualAdjustment, PurchaseReceipt}

  const MANUAL := {ManualAdjustment, Waste, Returned, PurchaseReceipt}

  const REASONED := {ManualAdjustment, Waste}

  predicate DeltaFits(e: Entry, q: int) {
    || (e.kind == ReservationCreated && e.dOnHand == 0 && e.dReserved == q)
    || (e.kind == ReservationReleased && e.dOnHand == 0 && e.dReserved == -q)
    || (e.kind == Consumption && e.dOnHand == -q && e.dReserved == -q)
    || (e.kind == Waste && e.dOnHand == -q && e.dReserved == 0)
    || ((e.kind == Returned || e.kind == PurchaseReceipt) && e.dOnHand == q && e.dReserved == 0)
    || (e.kind == ManualAdjustment && Inventory.Abs(e.dOnHand) == q && e.dReserved == 0)
  }

  predicate EntryChecks(orders: map<int, PastOrder>, e: Entry) {
    && e.quantity.Some? && e.quantity.value > 0
    && e.kind in TYPES
    && (e.legacy || e.kind !in MANUAL || e.actor.Some?)
    && (e.legacy || e.kind !in REASONED || (e.reason.Some? && !Blank(e.reason.value)))
    && (e.legacy || DeltaFits(e, e.quantity.value))
    && (e.reason.Some? ==> |e.reason.value| <= MAX_REASON)
    && (e.order.Some? ==> e.order.value in orders)
  }

  predicate PastLineChecks(p: Past, l: PastLine) {
    && l.reserved >= 0 && l.consumed >= 0 && l.released >= 0 && l.waste >= 0 && l.returned >= 0
    && l.consumed + l.released <= l.reserved
    && l.order in p.orders && l.item in p.items && l.ingredient in p.ingredients
  }

  predicate UniquePastLines(lines: seq<PastLine>) {
    forall j, k :: 0 <= j < k < |lines| ==> lines[j].item != lines[k].item || lines[j].ingredient != lines[k].ingredient
  }

  predicate ShelfChecks(r: Shelf) { r.onHand >= 0 && 0 <= r.reserved <= r.onHand }

  /** Every CHECK, foreign key and unique index of the schema after this revision. */
  predicate LifecycleChecks(s: Snapshot) {
    match s
    case Snapshot(past, stock, movements, lines) =>
      && (forall k :: 0 <= k < |stock| ==> ShelfChecks(stock[k]))
      && (forall k :: 0 <= k < |movements| ==> EntryChecks(past.orders, movements[k]))
      && (forall k :: 0 <= k < |lines| ==> PastLineChecks(past, lines[k]))
      && UniquePastLines(lines)
  }

  function OwedOf(ingredient: int): PastLine -> int {
    (l: PastLine) => if l.ingredient == ingredient then l.Outstanding() else 0
  }

  /** The global books, one shelf per ingredient: what the reconciler compares. */
  ghost predicate Balanced(s: Snapshot) {
    forall k :: 0 <= k < |s.stock| ==>
      && s.stock[k].onHand == Sum(s.movements, LedgerOf(s.stock[k].ingredient))
      && s.stock[k].reserved == Sum(s.lines, OwedOf(s.stock[k].ingredient))
  }

  // ── What upgrade() guarantees ──────────────────────────────────────────────

  predicate IsOpening(e: Entry) { e.dOnHand != 0 && e == Opening(e.ingredient, e.dOnHand) }

  lemma {:induction false} OpeningRows(stock: seq<Shelf>, ledger: seq<Entry>)
    ensures forall k :: 0 <= k < |Openings(stock, ledger)| ==> IsOpening(Openings(stock, ledger)[k])
  {
    if |stock| > 0 {
      OpeningRows(stock[..|stock| - 1], ledger);
    }
  }

  lemma RewrittenRowOk(orders: map<int, PastOrder>, e: Entry)
    requires LegacyEntry(e) && Moves(e) && (e.reason.Some? ==> |e.reason.value| <= MAX_REASON)
    ensures EntryChecks(orders, Retired(Relinked(orders)(Reshaped(e))))
  {}

  lemma RewrittenRows(s: Snapshot)
    requires LegacyTables(s)
    ensures forall k :: 0 <= k < |RewrittenLedger(s)| ==> EntryChecks(s.past.orders, RewrittenLedger(s)[k])
  {
    NotedRows(s);
    KeptRows(Noted(s), Moves);
    var kept := Keep(Noted(s), Moves);
    forall k | 0 <= k < |kept| ensures EntryChecks(s.past.orders, RewrittenLedger(s)[k]) {
      RewrittenRowOk(s.past.orders, kept[k]);
    }
  }

  lemma {:induction false} AskedRows(p: Past, uses: seq<Use>)
    ensures forall k :: 0 <= k < |Asked(p, uses)| ==>
              var n := Asked(p, uses)[k];
              && n.quantity > 0 && n.ingredient in p.ingredients && n.item in p.items
              && PastOrderOf(p, n.item) in p.orders
  {
    if |uses| > 0 {
      AskedRows(p, uses[..|uses| - 1]);
    }
  }

  lemma BackfilledLines(s: Snapshot)
    ensures forall k :: 0 <= k < |Upgraded(s).lines| ==>
              PastLineChecks(s.past, Upgraded(s).lines[k]) && Upgraded(s).lines[k].Outstanding() == 0
    ensures UniquePastLines(Upgraded(s).lines)
  {
    var needs := Asked(s.past, s.past.uses);
    var groups := Aggregate(needs);
    AskedRows(s.past, s.past.uses);
    AggregateIsDistinct(needs);
    forall k | 0 <= k < |groups| ensures PastLineChecks(s.past, Backfilled(s.past)(groups[k])) {
      var i :| 0 <= i < |needs| && SameLine(groups[k].item, groups[k].ingredient)(needs[i]);
      assert PastOrderOf(s.past, needs[i].item) in s.past.orders;
    }
    forall j, k | 0 <= j < k < |groups|
      ensures groups[j].item != groups[k].item || groups[j].ingredient != groups[k].ingredient
    {
      assert !SameLine(groups[k].item, groups[k].ingredient)(groups[j]);
    }
  }

  lemma {:induction false} OpeningStep(stock: seq<Shelf>, ledger: seq<Entry>, ingredient: int)
    requires |stock| > 0
    ensures var r := stock[|stock| - 1];
            Sum(Openings(stock, ledger), LedgerOf(ingredient)) ==
              Sum(Openings(stock[..|stock| - 1], ledger), LedgerOf(ingredient))
              + (if r.ingredient == ingredient then r.onHand - Sum(ledger, LedgerOf(ingredient)) else 0)
  {
    var front, r := Openings(stock[..|stock| - 1], ledger), stock[|stock| - 1];
    SumAppend(front, Opening(r.ingredient, r.onHand - Sum(ledger, LedgerOf(r.ingredient))), LedgerOf(ingredient));
  }

  lemma {:induction false} NoShelfNoOpening(stock: seq<Shelf>, ledger: seq<Entry>, ingredient: int)
    requires forall k :: 0 <= k < |stock| ==> stock[k].ingredient != ingredient
    ensures Sum(Openings(stock, ledger), LedgerOf(ingredient)) == 0
  {
    if |stock| > 0 {
      NoShelfNoOpening(stock[..|stock| - 1], ledger, ingredient);
      OpeningStep(stock, ledger, ingredient);
    }
  }

  /** The opening rows add, for each shelf, exactly what its ledger is missing. */
  lemma {:induction false} OpeningsFillTheGap(stock: seq<Shelf>, ledger: seq<Entry>, k: nat)
    requires OneShelfEach(stock) && k < |stock|
    ensures Sum(Openings(stock, ledger), LedgerOf(stock[k].ingredient))
         == stock[k].onHand - Sum(ledger, LedgerOf(stock[k].ingredient))
  {
    OpeningStep(stock, ledger, stock[k].ingredient);
    if k == |stock| - 1 {
      NoShelfNoOpening(stock[..k], ledger, stock[k].ingredient);
    } else {
      OpeningsFillTheGap(stock[..|stock| - 1], ledger, k);
    }
  }

  /** From any legacy database without negative stock the rewritten rows satisfy
      every constraint installed after them, the ledger sums to every shelf, and
      nothing is left outstanding. */
  lemma UpgradeIsCorrect(s: Snapshot)
    requires LegacyTables(s) && forall k :: 0 <= k < |s.stock| ==> s.stock[k].onHand >= 0
    ensures LifecycleChecks(Upgraded(s)) && Balanced(Upgraded(s))
    ensures Upgraded(s).stock == s.stock
  {
    RewrittenRows(s);
    OpeningRows(s.stock, RewrittenLedger(s));
    BackfilledLines(s);
    var after, ledger := Upgraded(s), RewrittenLedger(s);
    forall k | 0 <= k < |after.movements| ensures EntryChecks(s.past.orders, after.movements[k]) {
      if k >= |ledger| {
        assert IsOpening(Openings(s.stock, ledger)[k - |ledger|]);
      }
    }
    forall k | 0 <= k < |s.stock|
      ensures s.stock[k].onHand == Sum(after.movements, LedgerOf(s.stock[k].ingredient))
      ensures s.stock[k].reserved == Sum(after.lines, OwedOf(s.stock[k].ingredient))
    {
      assert LegacyShelf(s.stock[k]);
      OpeningsFillTheGap(s.stock, ledger, k);
      SumConcat(ledger, Openings(s.stock, ledger), LedgerOf(s.stock[k].ingredient));
      SumZero(after.lines, OwedOf(s.stock[k].ingredient));
    }
  }

  function ConsumedOf(ingredient: int): PastLine -> int {
    (l: PastLine) => if l.ingredient == ingredient then l.consumed else 0
  }

  /** The lines account for every persisted requirement, ingredient by ingredient. */
  lemma LinesConsumeWhatWasAsked(s: Snapshot, ingredient: int)
    ensures Sum(Upgraded(s).lines, ConsumedOf(ingredient)) == Sum(Asked(s.past, s.past.uses), QuantityOf(ingredient))
  {
    AggregateKeepsTotals(Asked(s.past, s.past.uses), ingredient);
    SumPointwise(Upgraded(s).lines, ConsumedOf(ingredient), Aggregate(Asked(s.past, s.past.uses)),
                 QuantityOf(ingredient));
  }

  // ── What becomes of each row ───────────────────────────────────────────────

  function DeltaOf(ingredient: int): Entry -> int {
    (e: Entry) => if e.ingredient == ingredient && e.delta.Some? then e.delta.value else 0
  }

  function Moving(): Entry -> int { (e: Entry) => if e.delta == Some(0) then 0 else 1 }

  lemma {:induction false} KeepMoving(es: seq<Entry>, ingredient: int)
    ensures Sum(Keep(es, Moves), DeltaOf(ingredient)) == Sum(es, DeltaOf(ingredient))
    ensures |Keep(es, Moves)| == Sum(es, Moving())
  {
    if |es| > 0 {
      var front, last := es[..|es| - 1], es[|es| - 1];
      KeepMoving(front, ingredient);
      if Moves(last) { SumAppend(Keep(front, Moves), last, DeltaOf(ingredient)); }
    }
  }

  lemma NotedTotals(s: Snapshot, ingredient: int)
    ensures Sum(Noted(s), DeltaOf(ingredient)) == Sum(s.movements, DeltaOf(ingredient))
    ensures Sum(Noted(s), Moving()) == Sum(s.movements, Moving())
  {
    SumPointwise(Noted(s), DeltaOf(ingredient), s.movements, DeltaOf(ingredient));
    SumPointwise(Noted(s), Moving(), s.movements, Moving());
  }

  lemma RewrittenDelta(orders: map<int, PastOrder>, e: Entry, ingredient: int)
    requires LegacyEntry(e)
    ensures LedgerOf(ingredient)(Retired(Relinked(orders)(Reshaped(e)))) == DeltaOf(ingredient)(e)
  {}

  lemma RewrittenTotals(s: Snapshot, ingredient: int)
    requires LegacyTables(s)
    ensures Sum(RewrittenLedger(s), LedgerOf(ingredient)) == Sum(Keep(Noted(s), Moves), DeltaOf(ingredient))
  {
    NotedRows(s);
    KeptRows(Noted(s), Moves);
    var kept := Keep(Noted(s), Moves);
    forall k | 0 <= k < |kept| ensures LedgerOf(ingredient)(RewrittenLedger(s)[k]) == DeltaOf(ingredient)(kept[k]) {
      RewrittenDelta(s.past.orders, kept[k], ingredient);
    }
    SumPointwise(RewrittenLedger(s), LedgerOf(ingredient), kept, DeltaOf(ingredient));
  }

  /** The rewrite loses no movement: only rows of zero go, and each ingredient's ledger
      still adds up to its signed deltas. */
  lemma RewritingKeepsTheTotals(s: Snapshot, ingredient: int)
    requires LegacyTables(s)
    ensures Sum(RewrittenLedger(s), LedgerOf(ingredient)) == Sum(s.movements, DeltaOf(ingredient))
    ensures |RewrittenLedger(s)| == Sum(s.movements, Moving())
  {
    NotedTotals(s, ingredient);
    KeepMoving(Noted(s), ingredient);
    RewrittenTotals(s, ingredient);
  }

  /** A legacy row in its new shape: the type its old name meant, the quantity it moved,
      and the order it cited as long as that order still exists. */
  predicate BecomesOf(orders: map<int, PastOrder>, m: Entry, e: Entry) {
    var moved := m.Delta();
    && moved != 0
    && e.kind == (match m.kind
                  case OrderDeduction => Consumption
                  case CancellationReturn => Returned
                  case Restock => PurchaseReceipt
                  case ManualAdjust => ManualAdjustment
                  case Waste => Waste
                  case _ => ManualAdjustment)
    && e == Entry(None, m.ingredient, e.kind, None, None, None, Some(if moved < 0 then -moved else moved), moved, 0,
                  if m.refType == Some(OrderReference) && m.refId.Some? && m.refId.value in orders then m.refId
                  else None,
                  None, None,
                  if m.reason.Some? && |m.reason.value| > 500 then Some(m.reason.value[..500]) else m.reason, true)
  }

  lemma RowBecomes(orders: map<int, PastOrder>, m: Entry)
    requires LegacyEntry(m) && Moves(m)
    ensures BecomesOf(orders, m, Retired(Relinked(orders)(Reshaped(Shortened(m)))))
  {}

  lemma EveryRowIsRewritten(s: Snapshot, k: nat)
    requires LegacyTables(s) && k < |RewrittenLedger(s)|
    ensures exists j :: 0 <= j < |s.movements| && BecomesOf(s.past.orders, s.movements[j], RewrittenLedger(s)[k])
  {
    KeptRows(Noted(s), Moves);
    var e := Keep(Noted(s), Moves)[k];
    var j :| 0 <= j < |s.movements| && Shortened(s.movements[j]) == e;
    RowBecomes(s.past.orders, s.movements[j]);
  }

  lemma {:induction false} OpeningsAreOf(stock: seq<Shelf>, ledger: seq<Entry>)
    ensures forall e :: e in Openings(stock, ledger) ==>
              exists j :: 0 <= j < |stock| && stock[j].ingredient == e.ingredient
  {
    if |stock| > 0 {
      var n := |stock| - 1;
      OpeningsAreOf(stock[..n], ledger);
      forall e | e in Openings(stock, ledger)
        ensures exists j :: 0 <= j < |stock| && stock[j].ingredient == e.ingredient
      {
        if e in Openings(stock[..n], ledger) {
          var j :| 0 <= j < n && stock[..n][j].ingredient == e.ingredient;
          assert stock[j].ingredient == e.ingredient;
        } else {
          assert stock[n].ingredient == e.ingredient;
        }
      }
    }
  }

  /** An opening row says which way its shelf and its ledger disagreed; a shelf has one
      exactly when they did. */
  lemma {:induction false} OneOpeningPerGap(stock: seq<Shelf>, ledger: seq<Entry>, k: nat)
    requires OneShelfEach(stock) && k < |stock|
    ensures var gap := stock[k].onHand - Sum(ledger, LedgerOf(stock[k].ingredient));
            var row := Entry(None, stock[k].ingredient, if gap > 0 then PurchaseReceipt else ManualAdjustment, None,
                             None, None, Some(if gap < 0 then -gap else gap), gap, 0, None, None, None, Some(OPENING),
                             true);
            && (gap != 0 <==> row in Openings(stock, ledger))
            && forall e :: e in Openings(stock, ledger) && e.ingredient == stock[k].ingredient ==> e == row
  {
    var n := |stock| - 1;
    var front := Openings(stock[..n], ledger);
    if k < n {
      OneOpeningPerGap(stock[..n], ledger, k);
      assert stock[..n][k] == stock[k] && stock[n].ingredient != stock[k].ingredient;
    } else {
      OpeningsAreOf(stock[..n], ledger);
      forall e | e in front ensures e.ingredient != stock[n].ingredient {
        var j :| 0 <= j < n && stock[j].ingredient == e.ingredient;
      }
    }
  }

  /** What one persisted requirement adds to the line of an item and ingredient. */
  function UsedFor(p: Past, item: nat, ingredient: int): Use -> int {
    (u: Use) =>
      if u.item == Some(item) && u.ingredient == Some(ingredient) && u.consumed.Some? && u.consumed.value > 0
         && item in p.items && p.items[item].Some? && p.items[item].value in p.orders && ingredient in p.ingredients
      then u.consumed.value else 0
  }

  lemma {:induction false} AskedIsUsed(p: Past, uses: seq<Use>, item: nat, ingredient: int)
    ensures Sum(Asked(p, uses), Wanted(item, ingredient)) == Sum(uses, UsedFor(p, item, ingredient))
  {
    if |uses| > 0 {
      var front, last := uses[..|uses| - 1], uses[|uses| - 1];
      AskedIsUsed(p, front, item, ingredient);
      if Joined(p, last) {
        SumAppend(Asked(p, front), Need(last.item.value, last.ingredient.value, last.consumed.value),
                  Wanted(item, ingredient));
      }
    }
  }

  /** A backfilled line: everything used was reserved and consumed, and given back when
      its order was cancelled. */
  predicate TellsUse(p: Past, l: PastLine, used: int) {
    && l.item in p.items && p.items[l.item] == Some(l.order) && l.order in p.orders && used > 0
    && l == PastLine(None, l.order, l.item, l.ingredient, used, used, 0, 0,
                     if p.orders[l.order].cancelled then used else 0)
  }

  lemma {:induction false} GroupIsUsed(p: Past, uses: seq<Use>, k: nat)
    requires k < |Aggregate(Asked(p, uses))|
    ensures var g := Aggregate(Asked(p, uses))[k];
            g.quantity == Sum(uses, UsedFor(p, g.item, g.ingredient))
  {
    var groups, g := Aggregate(Asked(p, uses)), Aggregate(Asked(p, uses))[k];
    AggregateIsDistinct(Asked(p, uses));
    AggregateKeepsEachPair(Asked(p, uses), g.item, g.ingredient);
    AskedIsUsed(p, uses, g.item, g.ingredient);
    forall i | 0 <= i < |groups| && i != k ensures Wanted(g.item, g.ingredient)(groups[i]) == 0 {
      assert i < k ==> !SameLine(groups[k].item, groups[k].ingredient)(groups[i]);
      assert k < i ==> !SameLine(groups[i].item, groups[i].ingredient)(groups[k]);
    }
    SumSingle(groups, k, Wanted(g.item, g.ingredient));
  }

  lemma {:induction false} AskedItems(p: Past, uses: seq<Use>)
    ensures forall n :: n in Asked(p, uses) ==>
              n.quantity > 0 && n.item in p.items && p.items[n.item].Some? && p.items[n.item].value in p.orders
  {
    if |uses| > 0 { AskedItems(p, uses[..|uses| - 1]); }
  }

  /** Every backfilled line tells exactly what the persisted requirements of its item and
      ingredient used. */
  lemma LinesTellWhatWasUsed(s: Snapshot, k: nat)
    requires k < |Upgraded(s).lines|
    ensures var l := Upgraded(s).lines[k];
            TellsUse(s.past, l, Sum(s.past.uses, UsedFor(s.past, l.item, l.ingredient)))
  {
    var needs := Asked(s.past, s.past.uses);
    var g := Aggregate(needs)[k];
    GroupIsUsed(s.past, s.past.uses, k);
    AskedItems(s.past, s.past.uses);
    AggregateIsDistinct(needs);
    var i :| 0 <= i < |needs| && SameLine(g.item, g.ingredient)(needs[i]);
    assert needs[i] in needs;
    SumNonneg(needs, Wanted(g.item, g.ingredient));
    assert Wanted(g.item, g.ingredient)(needs[i]) > 0;
    AskedIsUsed(s.past, s.past.uses, g.item, g.ingredient);
  }

  /** ... and nothing that was used is left without one. */
  lemma EveryUseHasALine(s: Snapshot, item: nat, ingredient: int)
    requires Sum(s.past.uses, UsedFor(s.past, item, ingredient)) > 0
    ensures exists k :: 0 <= k < |Upgraded(s).lines| && Upgraded(s).lines[k].item == item
                        && Upgraded(s).lines[k].ingredient == ingredient
  {
    var needs := Asked(s.past, s.past.uses);
    AskedIsUsed(s.past, s.past.uses, item, ingredient);
    AggregateKeepsEachPair(needs, item, ingredient);
    var k := PositiveRow(Aggregate(needs), Wanted(item, ingredient));
    assert Upgraded(s).lines[k].item == item;
  }

  // ── downgrade() ────────────────────────────────────────────────────────────

  function OldKind(kind: MovementType): MovementType {
    match kind
    case Consumption => OrderDeduction
    case Returned => CancellationReturn
    case PurchaseReceipt => Restock
    case ManualAdjustment => ManualAdjust
    case Waste => Waste
    case _ => ManualAdjust
  }

  /** Storing thousandths in NUMERIC(10,2): half away from zero. */
  function Rounded(x: int): (r: int)
    ensures Hundredths(r) && Hundredths(x) ==> r == x
    ensures x >= 0 ==> r - 5 <= x < r + 5
    ensures x < 0 ==> r - 5 < x <= r + 5
  {
    if x >= 0 then (x + 5) / 10 * 10 else -((-x + 5) / 10 * 10)
  }

  function Reverted(e: Entry): Entry {
    e.(delta := Some(Rounded(e.dOnHand)), kind := OldKind(e.kind),
       refType := if e.order.Some? then Some(OrderReference) else None, refId := e.order)
  }

  /** Rows the DELETE after the rename is meant for. */
  predicate Survives(e: Entry) { e.kind != ReservationCreated && e.kind != ReservationReleased }

  function Narrowed(e: Entry): Entry {
    e.(quantity := None, dOnHand := 0, dReserved := 0, order := None, line := None, actor := None, legacy := false)
  }

  function NarrowedShelf(r: Shelf): Shelf { r.(onHand := Rounded(r.onHand), reserved := 0) }

  function Downgraded(s: Snapshot): Snapshot {
    s.(movements := Each(Keep(Each(s.movements, Reverted), Survives), Narrowed),
       stock := Each(s.stock, NarrowedShelf), lines := [])
  }

  /** The rename runs first, so the DELETE finds nothing. */
  lemma NothingIsDeleted(s: Snapshot)
    ensures |Downgraded(s).movements| == |s.movements|
    ensures forall k :: 0 <= k < |s.movements| ==> Downgraded(s).movements[k] == Narrowed(Reverted(s.movements[k]))
  {
    KeptAll(Each(s.movements, Reverted), Survives);
  }

  /** A row as the old ledger knew it: its old name, the on-hand delta rounded to two
      decimals, and a reference to the order if it had one. */
  lemma EveryRowIsReverted(s: Snapshot, k: nat)
    requires k < |s.movements|
    ensures |Downgraded(s).movements| == |s.movements|
    ensures var m, e := s.movements[k], Downgraded(s).movements[k];
            && e.kind == (match m.kind
                          case Consumption => OrderDeduction
                          case Returned => CancellationReturn
                          case PurchaseReceipt => Restock
                          case ManualAdjustment => ManualAdjust
                          case Waste => Waste
                          case _ => ManualAdjust)
            && e == Entry(m.store, m.ingredient, e.kind, Some(Rounded(m.dOnHand)),
                          if m.order.Some? then Some(OrderReference) else None, m.order, None, 0, 0, None, None, None,
                          m.reason, false)
  {
    NothingIsDeleted(s);
  }

  /** Reservation rows come back as manual adjustments of zero: as many of them as
      there were reservations and releases. */
  lemma ReservationsSurviveDowngrade(s: Snapshot, k: nat)
    requires LifecycleChecks(s) && k < |s.movements| && !s.movements[k].legacy && !Survives(s.movements[k])
    ensures |Downgraded(s).movements| == |s.movements|
    ensures Downgraded(s).movements[k].kind == ManualAdjust && Downgraded(s).movements[k].delta == Some(0)
  {
    NothingIsDeleted(s);
    assert EntryChecks(s.past.orders, s.movements[k]);
  }

  function OldLedgerOf(ingredient: int): Entry -> int {
    (e: Entry) => if e.ingredient == ingredient then e.Delta() else 0
  }

  /** What rounding each row of an ingredient loses, in total. */
  function ResidueOf(ingredient: int): Entry -> int {
    (e: Entry) => if e.ingredient == ingredient then e.dOnHand - Rounded(e.dOnHand) else 0
  }

  lemma DowngradedSum(s: Snapshot, ingredient: int)
    ensures Sum(Downgraded(s).movements, OldLedgerOf(ingredient))
         == Sum(s.movements, LedgerOf(ingredient)) - Sum(s.movements, ResidueOf(ingredient))
  {
    NothingIsDeleted(s);
    var rounded := (e: Entry) => if e.ingredient == ingredient then Rounded(e.dOnHand) else 0;
    SumPointwise(Downgraded(s).movements, OldLedgerOf(ingredient), s.movements, rounded);
    SumAdd(s.movements, rounded, ResidueOf(ingredient), LedgerOf(ingredient));
  }

  lemma {:induction false} SumOfHundredths(es: seq<Entry>, f: Entry -> int)
    requires forall k :: 0 <= k < |es| ==> Hundredths(f(es[k]))
    ensures Hundredths(Sum(es, f))
  {
    if |es| > 0 {
      SumOfHundredths(es[..|es| - 1], f);
    }
  }

  lemma DowngradedHundredths(s: Snapshot, ingredient: int)
    ensures Hundredths(Sum(Downgraded(s).movements, OldLedgerOf(ingredient)))
  {
    NothingIsDeleted(s);
    SumOfHundredths(Downgraded(s).movements, OldLedgerOf(ingredient));
  }

  lemma NearestHundredth(x: int, y: int)
    requires x >= 0 && Hundredths(y)
    ensures Rounded(x) == y <==> -5 <= x - y <= 4
  {}

  /** downgrade() keeps the sum of signed deltas equal to the stock exactly when the
      rounding losses of that ingredient's rows add up to between -0.005 and 0.004. */
  lemma DowngradeBalancesExactlyWhen(s: Snapshot, k: nat)
    requires Balanced(s) && k < |s.stock| && ShelfChecks(s.stock[k])
    ensures var i := s.stock[k].ingredient;
            (Downgraded(s).stock[k].onHand == Sum(Downgraded(s).movements, OldLedgerOf(i)))
            <==> (-5 <= Sum(s.movements, ResidueOf(i)) <= 4)
  {
    var i := s.stock[k].ingredient;
    DowngradedSum(s, i);
    DowngradedHundredths(s, i);
    NearestHundredth(s.stock[k].onHand, Sum(Downgraded(s).movements, OldLedgerOf(i)));
  }

  function Gram(quantity: int): Entry {
    Entry(None, 7, PurchaseReceipt, None, None, None, Some(quantity), quantity, 0, None, None, Some(1), None, false)
  }

  function Grams(): Snapshot {
    Snapshot(Past({7}, map[], map[], []), [Shelf(None, 7, 12, 0)], [Gram(4), Gram(4), Gram(4)], [])
  }

  lemma GramsAdd(f: Entry -> int, each: int)
    requires f(Gram(4)) == each
    ensures Sum(Grams().movements, f) == 3 * each
  {
    var two := [Gram(4), Gram(4)];
    assert Grams().movements == two + [Gram(4)];
    SumAppend(two, Gram(4), f);
    SumPair(two, 0, 1, f);
  }

  /** Three receipts of 0.004: each rounds to nothing, the shelf's 0.012 to 0.01. */
  lemma DowngradeCanLoseStock()
    ensures LifecycleChecks(Grams()) && Balanced(Grams())
    ensures Downgraded(Grams()).stock[0].onHand == 10
    ensures Sum(Downgraded(Grams()).movements, OldLedgerOf(7)) == 0
  {
    GramsAdd(LedgerOf(7), 4);
    GramsAdd(ResidueOf(7), 4);
    DowngradedSum(Grams(), 7);
  }

  // ── Round trips ────────────────────────────────────────────────────────────

  /** The kinds and references the two rewrites agree on. */
  function Canonical(orders: map<int, PastOrder>): Entry -> Entry {
    (e: Entry) =>
      var known := e.refType == Some(OrderReference) && e.refId.Some? && e.refId.value in orders;
      var order := if known then e.refId else None;
      e.(kind := OldKind(NewKind(e.kind)),
         refType := if order.Some? then Some(OrderReference) else None, refId := order)
  }

  lemma WholeHundredthsReturn(stock: seq<Shelf>)
    requires forall k :: 0 <= k < |stock| ==> LegacyShelf(stock[k])
    ensures Each(stock, NarrowedShelf) == stock
  {}

  lemma ShelvesReturn(s: Snapshot)
    requires LegacyTables(s)
    ensures Downgraded(Upgraded(s)).stock == s.stock
  {
    WholeHundredthsReturn(s.stock);
  }

  lemma EntryReturns(orders: map<int, PastOrder>, e: Entry)
    requires LegacyEntry(e)
    ensures Narrowed(Reverted(Retired(Relinked(orders)(Reshaped(e))))) == Canonical(orders)(e)
  {}

  lemma EntriesReturn(s: Snapshot)
    requires LegacyTables(s)
    ensures var kept := Keep(Noted(s), Moves);
            && |kept| <= |Upgraded(s).movements|
            && forall k :: 0 <= k < |kept| ==>
                Narrowed(Reverted(Upgraded(s).movements[k])) == Canonical(s.past.orders)(kept[k])
  {
    NotedRows(s);
    KeptRows(Noted(s), Moves);
    var kept := Keep(Noted(s), Moves);
    forall k | 0 <= k < |kept|
      ensures Narrowed(Reverted(Upgraded(s).movements[k])) == Canonical(s.past.orders)(kept[k])
    {
      assert Upgraded(s).movements[k] == RewrittenLedger(s)[k];
      EntryReturns(s.past.orders, kept[k]);
    }
  }

  lemma TablesReturn(s: Snapshot)
    requires LegacyTables(s)
    ensures var back, kept := Downgraded(Upgraded(s)), Keep(Noted(s), Moves);
            && back.stock == s.stock && back.lines == s.lines
            && |back.movements| == |kept| + |Openings(s.stock, RewrittenLedger(s))|
            && back.movements[..|kept|] == Each(kept, Canonical(s.past.orders))
  {
    NothingIsDeleted(Upgraded(s));
    EntriesReturn(s);
    ShelvesReturn(s);
  }

  lemma {:induction false} OpeningsAreHundredths(stock: seq<Shelf>, ledger: seq<Entry>)
    requires forall k :: 0 <= k < |stock| ==> Hundredths(stock[k].onHand)
    requires forall k :: 0 <= k < |ledger| ==> Hundredths(ledger[k].dOnHand)
    ensures forall k :: 0 <= k < |Openings(stock, ledger)| ==> Hundredths(Openings(stock, ledger)[k].dOnHand)
  {
    if |stock| > 0 {
      OpeningsAreHundredths(stock[..|stock| - 1], ledger);
      SumOfHundredths(ledger, LedgerOf(stock[|stock| - 1].ingredient));
    }
  }

  lemma RewrittenHundredths(s: Snapshot)
    requires LegacyTables(s)
    ensures forall k :: 0 <= k < |RewrittenLedger(s)| ==> Hundredths(RewrittenLedger(s)[k].dOnHand)
  {
    NotedRows(s);
    KeptRows(Noted(s), Moves);
    var kept := Keep(Noted(s), Moves);
    forall k | 0 <= k < |kept| ensures Hundredths(RewrittenLedger(s)[k].dOnHand) {
      assert LegacyEntry(kept[k]);
    }
  }

  lemma {:induction false} NoResidue(es: seq<Entry>, ingredient: int)
    requires forall k :: 0 <= k < |es| ==> Hundredths(es[k].dOnHand)
    ensures Sum(es, ResidueOf(ingredient)) == 0
  {
    SumZero(es, ResidueOf(ingredient));
  }

  /** Legacy hundredths lose nothing to rounding. */
  lemma UpgradedResidue(s: Snapshot, ingredient: int)
    requires LegacyTables(s)
    ensures Sum(Upgraded(s).movements, ResidueOf(ingredient)) == 0
  {
    RewrittenHundredths(s);
    forall k | 0 <= k < |s.stock| ensures Hundredths(s.stock[k].onHand) { assert LegacyShelf(s.stock[k]); }
    OpeningsAreHundredths(s.stock, RewrittenLedger(s));
    NoResidue(RewrittenLedger(s) + Openings(s.stock, RewrittenLedger(s)), ingredient);
  }

  lemma RoundTripBalances(s: Snapshot, k: nat)
    requires LegacyTables(s) && k < |s.stock| && forall k :: 0 <= k < |s.stock| ==> s.stock[k].onHand >= 0
    ensures Downgraded(Upgraded(s)).stock[k].onHand ==
              Sum(Downgraded(Upgraded(s)).movements, OldLedgerOf(s.stock[k].ingredient))
  {
    UpgradeIsCorrect(s);
    UpgradedResidue(s, s.stock[k].ingredient);
    assert ShelfChecks(Upgraded(s).stock[k]);
    DowngradeBalancesExactlyWhen(Upgraded(s), k);
  }

  /** Up and down again: every shelf and every moving row returns, with notes cut to
      what fitted, unknown kinds turned into manual adjustments and dead references dropped; behind
      them stand the opening rows, and the deltas now sum to the stock. */
  lemma DownUndoesUp(s: Snapshot)
    requires LegacyTables(s) && forall k :: 0 <= k < |s.stock| ==> s.stock[k].onHand >= 0
    ensures var back, kept := Downgraded(Upgraded(s)), Keep(Noted(s), Moves);
            && back.stock == s.stock && back.lines == s.lines
            && |back.movements| == |kept| + |Openings(s.stock, RewrittenLedger(s))|
            && back.movements[..|kept|] == Each(kept, Canonical(s.past.orders))
    ensures forall k :: 0 <= k < |s.stock| ==>
              s.stock[k].onHand == Sum(Downgraded(Upgraded(s)).movements, OldLedgerOf(s.stock[k].ingredient))
  {
    TablesReturn(s);
    forall k | 0 <= k < |s.stock|
      ensures s.stock[k].onHand == Sum(Downgraded(Upgraded(s)).movements, OldLedgerOf(s.stock[k].ingredient))
    {
      RoundTripBalances(s, k);
    }
  }

  /** Down and up again: what a reservation wrote to the ledger is gone — the next
      upgrade deletes the zero rows the downgrade kept. */
  lemma ReservationsDoNotReturn(s: Snapshot)
    ensures forall k :: 0 <= k < |RewrittenLedger(Downgraded(s))| ==> RewrittenLedger(Downgraded(s))[k].dOnHand != 0
  {
    NothingIsDeleted(s);
    KeptRows(Noted(Downgraded(s)), Moves);
    forall k | 0 <= k < |RewrittenLedger(Downgraded(s))| ensures RewrittenLedger(Downgraded(s))[k].dOnHand != 0 {
      assert Keep(Noted(Downgraded(s)), Moves)[k] in Noted(Downgraded(s));
    }
  }

  // ── The revision as statements ─────────────────────────────────────────────

  class Database {
    const past: Past

    var stock: seq<Shelf>
    var movements: seq<Entry>
    var lines: seq<PastLine>

    constructor (s: Snapshot)
      ensures State() == s
    {
      past, stock, movements, lines := s.past, s.stock, s.movements, s.lines;
    }

    function State(): Snapshot
      reads this
    {
      Snapshot(past, stock, movements, lines)
    }

    /** The narrowed note column, then DELETE, UPDATE and the foreign-key cleanup of the
        historical ledger. */
    method RewriteLedger()
      modifies `movements
      ensures movements == Each(Each(Keep(Noted(old(State())), Moves), Reshaped), Relinked(past.orders))
    {
      movements := Each(movements, Shortened);
      movements := Keep(movements, Moves);
      movements := Each(movements, Reshaped);
      movements := Each(movements, Relinked(past.orders));
    }

    /** INSERT INTO order_inventory_lines … GROUP BY item, ingredient. */
    method BackfillLines()
      requires lines == []
      modifies `lines
      ensures lines == Each(Aggregate(Asked(past, past.uses)), Backfilled(past))
    {
      lines := lines + Each(Aggregate(Asked(past, past.uses)), Backfilled(past));
    }

    /** The signed-delta columns go, and each shelf gets its opening balance. */
    method RetireAndOpen()
      modifies `movements
      ensures movements == Each(old(movements), Retired) + Openings(stock, Each(old(movements), Retired))
    {
      movements := Each(movements, Retired);
      movements := movements + Openings(stock, movements);
    }

    /** Every statement after the two that can fail. */
    method Backfill()
      requires lines == []
      modifies this
      ensures State() == Upgraded(old(State()))
    {
      RewriteLedger();
      BackfillLines();
      RetireAndOpen();
    }

    /** False when a constraint rejects an existing row: the transaction rolls back.
        Only the first two steps ever do: for negative stock, and for a note that does
        not fit the narrower column. */
    method Upgrade() returns (ok: bool)
      requires LegacyTables(State())
      modifies this
      ensures ok <==>
                && (forall k :: 0 <= k < |old(stock)| ==> old(stock)[k].onHand >= 0)
                && (forall k :: 0 <= k < |old(movements)| ==> NoteFits(old(movements)[k]))
      ensures State() == if ok then Upgraded(old(State())) else old(State())
      ensures ok ==> LifecycleChecks(State()) && Balanced(State())
    {
      if exists k :: 0 <= k < |stock| && !ShelfChecks(stock[k]) {
        assert forall k :: 0 <= k < |stock| ==> LegacyShelf(stock[k]);
        return false;
      }
      if exists k :: 0 <= k < |movements| && !NoteFits(movements[k]) { return false; }
      assert forall k :: 0 <= k < |stock| ==> ShelfChecks(stock[k]);
      UpgradeIsCorrect(State());
      Backfill();
      ok := true;
    }

    method Downgrade()
      modifies this
      ensures State() == Downgraded(old(State()))
    {
      movements := Each(movements, Reverted);
      movements := Keep(movements, Survives);
      movements := Each(movements, Narrowed);
      lines := [];
      stock := Each(stock, NarrowedShelf);
    }
  }
}
