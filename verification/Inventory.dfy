/** The inventory tables as PostgreSQL holds them, with every CHECK, foreign
    key, unique index and deferred trigger that decides whether a transaction
    may commit. Quantities are NUMERIC(12,3), counted here in thousandths; a
    row's id is its position in its table. */
module Inventory {
  import opened Tables
  import opened Text

  datatype Kind =
    | ReservationCreated | ReservationReleased | Consumption | Waste | Returned
    | ManualAdjustment | PurchaseReceipt | TransferOut | TransferIn | StockCountAdjustment
  {
    predicate IsTransfer() { TransferOut? || TransferIn? }

    /** A deliberate human action, so an actor must be named. */
    predicate NeedsActor() {
      ManualAdjustment? || Waste? || Returned? || PurchaseReceipt? || TransferOut? || StockCountAdjustment?
    }

    predicate NeedsReason() {
      ManualAdjustment? || Waste? || TransferOut? || TransferIn? || StockCountAdjustment?
    }
  }

  /** The canonical request body behind a command; its SHA-256 is what the
      source stores, and equal hashes are taken to mean equal bodies. */
  datatype Request =
    | ReceiptBody(ingredient: int, quantity: int, reason: string)
    | AdjustmentBody(ingredient: int, delta: int, reason: string)
    | WasteBody(ingredient: int, quantity: int, reason: string)
    | TransferBody(destination: int, ingredient: int, quantity: int, reason: string, note: string)
    | CountBody(ingredient: int, counted: int, reason: string, note: string)

  datatype StockRow = StockRow(store: int, ingredient: int, onHand: int, reserved: int) {
    function Available(): int { onHand - reserved }
  }

  datatype Line = Line(store: int, order: nat, item: nat, ingredient: int,
                       reserved: int, consumed: int, released: int, waste: int, returned: int)
  {
    function Outstanding(): int { reserved - consumed - released }
  }

  datatype Movement = Movement(store: int, ingredient: int, kind: Kind,
                               quantity: int, dOnHand: int, dReserved: int,
                               order: Option<nat>, line: Option<nat>,
                               reason: Option<string>, actor: Option<int>,
                               key: Option<string>, request: Option<Request>,
                               transfer: Option<nat>, stockCount: Option<nat>,
                               legacy: bool)

  datatype Transfer = Transfer(source: int, destination: int, ingredient: int, quantity: int,
                               reason: string, initiator: int, key: string, request: Request)

  datatype StockCount = StockCount(store: int, ingredient: int, counted: int,
                                   systemOnHand: int, systemReserved: int,
                                   reason: string, countedBy: int, key: string, request: Request)
  {
    /** GENERATED ALWAYS: a count cannot claim another difference. */
    function Delta(): int { counted - systemOnHand }
  }

  /** The tables this model reads but never writes. */
  datatype Catalog = Catalog(stores: set<int>, ingredients: map<int, bool>, staff: map<int, Option<int>>) {
    predicate Active(ingredient: int) { ingredient in ingredients && ingredients[ingredient] }
    predicate WorksAt(user: int, store: int) { user in staff && staff[user] == Some(store) }
  }

  /** `orders` holds each order's store, `items` each order item's order. */
  datatype Db = Db(orders: seq<int>, items: seq<nat>, stock: seq<StockRow>, lines: seq<Line>,
                   movements: seq<Movement>, transfers: seq<Transfer>, counts: seq<StockCount>)

  // ── Row constraints ────────────────────────────────────────────────────────

  predicate DeltaMatchesKind(m: Movement) {
    match m.kind
    case ReservationCreated => m.dOnHand == 0 && m.dReserved == m.quantity
    case ReservationReleased => m.dOnHand == 0 && m.dReserved == -m.quantity
    case Consumption => m.dOnHand == -m.quantity && m.dReserved == -m.quantity
    case Waste => m.dOnHand == -m.quantity && m.dReserved == 0
    case Returned => m.dOnHand == m.quantity && m.dReserved == 0
    case PurchaseReceipt => m.dOnHand == m.quantity && m.dReserved == 0
    case ManualAdjustment => (m.dOnHand == m.quantity || -m.dOnHand == m.quantity) && m.dReserved == 0
    case TransferOut => m.dOnHand == -m.quantity && m.dReserved == 0
    case TransferIn => m.dOnHand == m.quantity && m.dReserved == 0
    case StockCountAdjustment => (m.dOnHand == m.quantity || -m.dOnHand == m.quantity) && m.dReserved == 0
  }

  predicate MovementChecks(m: Movement) {
    && m.quantity > 0
    && (m.legacy || !m.kind.NeedsActor() || m.actor.Some?)
    && (m.legacy || !m.kind.NeedsReason() || (m.reason.Some? && !Blank(m.reason.value)))
    && (m.legacy || DeltaMatchesKind(m))
    && (m.kind.IsTransfer() <==> m.transfer.Some?)
    && (m.kind.TransferIn? ==> m.actor.None?)
    && (m.kind.StockCountAdjustment? <==> m.stockCount.Some?)
  }

  predicate LineChecks(l: Line) {
    && l.reserved >= 0 && l.consumed >= 0 && l.released >= 0 && l.waste >= 0 && l.returned >= 0
    && l.consumed + l.released <= l.reserved
  }

  predicate StockChecks(r: StockRow) { r.onHand >= 0 && 0 <= r.reserved <= r.onHand }

  predicate Shelves(r: StockRow, store: int, ingredient: int) { r.store == store && r.ingredient == ingredient }

  /** What every (store_id, ingredient_id) → ingredient_stock key demands. */
  predicate Stocked(stock: seq<StockRow>, store: int, ingredient: int) {
    exists k :: 0 <= k < |stock| && Shelves(stock[k], store, ingredient)
  }

  // ── Foreign keys (MATCH SIMPLE: a NULL half exempts the row) ───────────────

  predicate MovementKeys(c: Catalog, db: Db, m: Movement) {
    && Stocked(db.stock, m.store, m.ingredient)
    && (m.order.Some? ==> m.order.value < |db.orders| && db.orders[m.order.value] == m.store)
    && (m.line.Some? ==> m.line.value < |db.lines| && db.lines[m.line.value].store == m.store)
    && (m.actor.Some? ==> c.WorksAt(m.actor.value, m.store))
    && (m.transfer.Some? ==>
          && m.transfer.value < |db.transfers|
          && var t := db.transfers[m.transfer.value];
             && (m.kind.TransferOut? ==> t.source == m.store && t.ingredient == m.ingredient)
             && (m.kind.TransferIn? ==> t.destination == m.store && t.ingredient == m.ingredient))
    && (m.stockCount.Some? ==>
          && m.stockCount.value < |db.counts|
          && var n := db.counts[m.stockCount.value];
             n.store == m.store && n.ingredient == m.ingredient)
  }

  predicate LineKeys(db: Db, l: Line) {
    && l.order < |db.orders| && db.orders[l.order] == l.store
    && l.item < |db.items|
    && Stocked(db.stock, l.store, l.ingredient)
  }

  predicate TransferOk(c: Catalog, db: Db, t: Transfer) {
    && t.quantity > 0 && t.source != t.destination && !Blank(t.reason)
    && c.WorksAt(t.initiator, t.source)
    && Stocked(db.stock, t.source, t.ingredient)
    && Stocked(db.stock, t.destination, t.ingredient)
  }

  predicate CountOk(c: Catalog, db: Db, n: StockCount) {
    && n.counted >= 0 && n.systemOnHand >= 0 && n.systemReserved >= 0
    && n.counted >= n.systemReserved && !Blank(n.reason)
    && c.WorksAt(n.countedBy, n.store)
    && Stocked(db.stock, n.store, n.ingredient)
  }

  // ── Unique indexes ─────────────────────────────────────────────────────────

  predicate UniqueShelves(stock: seq<StockRow>) {
    forall j, k :: 0 <= j < k < |stock| ==> !Shelves(stock[j], stock[k].store, stock[k].ingredient)
  }

  predicate UniqueLines(lines: seq<Line>) {
    forall j, k :: 0 <= j < k < |lines| ==>
      lines[j].item != lines[k].item || lines[j].ingredient != lines[k].ingredient
  }

  /** The three partial unique indexes of the ledger: one leg per direction,
      one movement per count, one movement per store and key. */
  predicate MayCoexist(a: Movement, b: Movement) {
    && (a.transfer.Some? && a.transfer == b.transfer ==> a.kind != b.kind)
    && (a.stockCount.Some? ==> a.stockCount != b.stockCount)
    && (a.key.Some? && a.store == b.store ==> a.key != b.key)
  }

  predicate UniqueMovements(ms: seq<Movement>) {
    forall j, k :: 0 <= j < k < |ms| ==> MayCoexist(ms[j], ms[k])
  }

  predicate UniqueTransferKeys(ts: seq<Transfer>) {
    forall j, k :: 0 <= j < k < |ts| ==> ts[j].source != ts[k].source || ts[j].key != ts[k].key
  }

  predicate UniqueCountKeys(ns: seq<StockCount>) {
    forall j, k :: 0 <= j < k < |ns| ==> ns[j].store != ns[k].store || ns[j].key != ns[k].key
  }

  /** Everything the schema checks row by row and index by index. */
  ghost predicate RowsOk(c: Catalog, db: Db) {
    match db
    case Db(orders, items, stock, lines, movements, transfers, counts) =>
      && (forall k :: 0 <= k < |stock| ==> StockChecks(stock[k]))
      && (forall k :: 0 <= k < |items| ==> items[k] < |orders|)
      && (forall k :: 0 <= k < |lines| ==> LineChecks(lines[k]) && LineKeys(db, lines[k]))
      && (forall k :: 0 <= k < |movements| ==> MovementChecks(movements[k]) && MovementKeys(c, db, movements[k]))
      && (forall k :: 0 <= k < |transfers| ==> TransferOk(c, db, transfers[k]))
      && (forall k :: 0 <= k < |counts| ==> CountOk(c, db, counts[k]))
      && UniqueShelves(stock) && UniqueLines(lines) && UniqueMovements(movements)
      && UniqueTransferKeys(transfers) && UniqueCountKeys(counts)
  }

  // ── The reconciler's queries ───────────────────────────────────────────────

  function OnHandOf(store: int, ingredient: int): Movement -> int {
    (m: Movement) => if m.store == store && m.ingredient == ingredient then m.dOnHand else 0
  }

  function ReservedOf(store: int, ingredient: int): Movement -> int {
    (m: Movement) => if m.store == store && m.ingredient == ingredient then m.dReserved else 0
  }

  function OutstandingOf(store: int, ingredient: int): Line -> int {
    (l: Line) => if l.store == store && l.ingredient == ingredient then l.Outstanding() else 0
  }

  /** A leg that matches its transfer in every compared column. */
  predicate IsOutLeg(m: Movement, id: nat, t: Transfer) {
    m.transfer == Some(id) && m.kind == TransferOut && m.store == t.source && m.ingredient == t.ingredient
    && m.quantity == t.quantity && m.dOnHand == -t.quantity && m.dReserved == 0
  }

  predicate IsInLeg(m: Movement, id: nat, t: Transfer) {
    m.transfer == Some(id) && m.kind == TransferIn && m.store == t.destination && m.ingredient == t.ingredient
    && m.quantity == t.quantity && m.dOnHand == t.quantity && m.dReserved == 0
  }

  function OutLegs(id: nat, t: Transfer): Movement -> int {
    (m: Movement) => if IsOutLeg(m, id, t) then 1 else 0
  }

  function InLegs(id: nat, t: Transfer): Movement -> int {
    (m: Movement) => if IsInLeg(m, id, t) then 1 else 0
  }

  function Abs(x: int): int { if x < 0 then -x else x }

  predicate IsCorrection(m: Movement, id: nat, n: StockCount) {
    m.stockCount == Some(id) && m.kind == StockCountAdjustment && m.store == n.store
    && m.ingredient == n.ingredient && m.quantity == Abs(n.Delta())
    && m.dOnHand == n.Delta() && m.dReserved == 0
  }

  function Corrections(id: nat, n: StockCount): Movement -> int {
    (m: Movement) => if IsCorrection(m, id, n) then 1 else 0
  }

  function Citing(id: nat): Movement -> int {
    (m: Movement) => if m.stockCount == Some(id) then 1 else 0
  }

  // ── Deferred constraint triggers ───────────────────────────────────────────

  /** sweetops_check_transfer_pairing for one transfer. */
  predicate TransferPaired(db: Db, id: nat)
    requires id < |db.transfers|
  {
    var t := db.transfers[id];
    Sum(db.movements, OutLegs(id, t)) == 1 && Sum(db.movements, InLegs(id, t)) == 1
  }

  /** sweetops_check_stock_count_movement for one count. */
  predicate CountMatched(db: Db, id: nat)
    requires id < |db.counts|
  {
    var n := db.counts[id];
    var matching, total := Sum(db.movements, Corrections(id, n)), Sum(db.movements, Citing(id));
    if n.Delta() == 0 then total == 0 else matching == 1 && total == 1
  }

  /** What PostgreSQL lets any client commit, as long as it inserts transfers
      and does not edit them: all row constraints hold afterwards, the ledger
      and the counts only grew, and the deferred triggers pass for the
      transfers and counts this transaction touched, and only for those. */
  ghost predicate Accepts(c: Catalog, before: Db, after: Db) {
    && RowsOk(c, after)
    && before.movements <= after.movements
    && before.transfers <= after.transfers
    && before.counts <= after.counts
    && (forall id :: |before.transfers| <= id < |after.transfers| ==> TransferPaired(after, id))
    && (forall id :: |before.counts| <= id < |after.counts| ==> CountMatched(after, id))
    && (forall k :: |before.movements| <= k < |after.movements| && after.movements[k].transfer.Some? ==>
          TransferPaired(after, after.movements[k].transfer.value))
    && (forall k :: |before.movements| <= k < |after.movements| && after.movements[k].stockCount.Some? ==>
          CountMatched(after, after.movements[k].stockCount.value))
  }

  ghost predicate AllPaired(db: Db) {
    && (forall id :: 0 <= id < |db.transfers| ==> TransferPaired(db, id))
    && (forall id :: 0 <= id < |db.counts| ==> CountMatched(db, id))
  }

  /** The legs of a transfer no new row cites are counted as before. */
  lemma UntouchedTransfer(before: Db, after: Db, id: nat)
    requires before.movements <= after.movements && before.transfers <= after.transfers
    requires id < |before.transfers|
    requires forall k :: |before.movements| <= k < |after.movements| ==> after.movements[k].transfer != Some(id)
    ensures TransferPaired(after, id) == TransferPaired(before, id)
  {
    var t, added := before.transfers[id], after.movements[|before.movements|..];
    assert after.movements == before.movements + added && after.transfers[id] == t;
    SumConcat(before.movements, added, OutLegs(id, t));
    SumConcat(before.movements, added, InLegs(id, t));
    SumZero(added, OutLegs(id, t));
    SumZero(added, InLegs(id, t));
  }

  lemma UntouchedCount(before: Db, after: Db, id: nat)
    requires before.movements <= after.movements && before.counts <= after.counts
    requires id < |before.counts|
    requires forall k :: |before.movements| <= k < |after.movements| ==> after.movements[k].stockCount != Some(id)
    ensures CountMatched(after, id) == CountMatched(before, id)
  {
    var n, added := before.counts[id], after.movements[|before.movements|..];
    assert after.movements == before.movements + added && after.counts[id] == n;
    SumConcat(before.movements, added, Corrections(id, n));
    SumConcat(before.movements, added, Citing(id));
    SumZero(added, Corrections(id, n));
    SumZero(added, Citing(id));
  }

  /** Triggers that look only at what a transaction touched keep the pairing
      of every transfer and every count, however old. */
  lemma IncrementalChecksAreGlobal(c: Catalog, before: Db, after: Db)
    requires AllPaired(before) && Accepts(c, before, after)
    ensures AllPaired(after)
  {
    forall id | 0 <= id < |after.transfers| ensures TransferPaired(after, id) {
      if id < |before.transfers| {
        if k :| |before.movements| <= k < |after.movements| && after.movements[k].transfer == Some(id) {
          assert TransferPaired(after, after.movements[k].transfer.value);
        } else {
          UntouchedTransfer(before, after, id);
        }
      }
    }
    forall id | 0 <= id < |after.counts| ensures CountMatched(after, id) {
      if id < |before.counts| {
        if k :| |before.movements| <= k < |after.movements| && after.movements[k].stockCount == Some(id) {
          assert CountMatched(after, after.movements[k].stockCount.value);
        } else {
          UntouchedCount(before, after, id);
        }
      }
    }
  }

  /** A run of arbitrary committed transactions. */
  ghost predicate Commits(c: Catalog, run: seq<Db>) {
    |run| > 0 && forall i :: 0 < i < |run| ==> Accepts(c, run[i - 1], run[i])
  }

  lemma {:induction false} EveryCommittedStateIsPaired(c: Catalog, run: seq<Db>)
    requires Commits(c, run) && AllPaired(run[0])
    ensures AllPaired(run[|run| - 1])
  {
    if |run| > 1 {
      EveryCommittedStateIsPaired(c, run[..|run| - 1]);
      IncrementalChecksAreGlobal(c, run[|run| - 2], run[|run| - 1]);
    }
  }
}
