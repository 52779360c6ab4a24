/** What each inventory command does to the tables, as a function from the state
    before to the state after its transaction. A refused command changes
    nothing: the source rolls back. */
module InventoryCommands {
  import opened Tables
  import opened Text
  import opened Inventory

  datatype Error =
    | KeyRequired | ReasonRequired | InvalidQuantity | IdempotencyMismatch
    | IngredientNotFound | StockNotConfigured | InsufficientOnHand
    | SameStore | DestinationNotFound | InsufficientAvailable | BelowReserved
    | NoIngredients | UnknownIngredients | OutOfStock | OrderNotFound | StockRowMissing

  /** `id` is the row the command wrote: a movement, transfer, count or order. */
  datatype Outcome = Done(id: nat) | Replayed(id: nat) | Failed(error: Error)

  /** The authenticated session: a member of staff and their own store. */
  datatype Staff = Staff(user: int, store: int)

  /** One ingredient an order item asks for, already multiplied out. */
  datatype Need = Need(item: nat, ingredient: int, quantity: nat)

  datatype Command =
    | Receive(staff: Staff, ingredient: int, quantity: int, reason: string, key: string)
    | Adjust(staff: Staff, ingredient: int, delta: int, reason: string, key: string)
    | WriteOff(staff: Staff, ingredient: int, quantity: int, reason: string, key: string)
    | Ship(staff: Staff, destination: int, ingredient: int, quantity: int, reason: string, note: string, key: string)
    | CountShelf(staff: Staff, ingredient: int, counted: int, reason: string, note: string, key: string)
    | PlaceOrder(store: int, itemCount: nat, needs: seq<Need>)
    | StartPreparation(order: nat, actor: Option<int>)
    | CancelOrder(order: nat, actor: Option<int>)

  predicate ActorOk(c: Catalog, db: Db, order: nat, actor: Option<int>) {
    order < |db.orders| && actor.Some? ==> c.WorksAt(actor.value, db.orders[order])
  }

  /** What the callers guarantee: staff act in the store they belong to, and an
      order's needs belong to its items. */
  predicate WellFormed(c: Catalog, db: Db, command: Command) {
    match command
    case Receive(s, _, _, _, _) => c.WorksAt(s.user, s.store)
    case Adjust(s, _, _, _, _) => c.WorksAt(s.user, s.store)
    case WriteOff(s, _, _, _, _) => c.WorksAt(s.user, s.store)
    case Ship(s, _, _, _, _, _, _) => c.WorksAt(s.user, s.store)
    case CountShelf(s, _, _, _, _, _) => c.WorksAt(s.user, s.store)
    case PlaceOrder(_, itemCount, needs) => forall k :: 0 <= k < |needs| ==> needs[k].item < itemCount
    case StartPreparation(order, actor) => ActorOk(c, db, order, actor)
    case CancelOrder(order, actor) => ActorOk(c, db, order, actor)
  }

  // ── Lookups ────────────────────────────────────────────────────────────────

  function ShelfAt(store: int, ingredient: int): StockRow -> bool {
    (r: StockRow) => Shelves(r, store, ingredient)
  }

  function MovementKeyed(store: int, key: string): Movement -> bool {
    (m: Movement) => m.store == store && m.key == Some(key)
  }

  function TransferKeyed(source: int, key: string): Transfer -> bool {
    (t: Transfer) => t.source == source && t.key == key
  }

  function CountKeyed(store: int, key: string): StockCount -> bool {
    (n: StockCount) => n.store == store && n.key == key
  }

  /** A shelf's on-hand moved together with the ledger row that says why. */
  function Moved(db: Db, shelf: nat, m: Movement): Db
    requires shelf < |db.stock|
  {
    var r := db.stock[shelf];
    db.(stock := db.stock[shelf := r.(onHand := r.onHand + m.dOnHand)], movements := db.movements + [m])
  }

  // ── Manual commands ────────────────────────────────────────────────────────

  /** The shared body of receipt, adjustment and waste. */
  function Manual(c: Catalog, db: Db, staff: Staff, kind: Kind, ingredient: int, quantity: int, delta: int,
                  reason: Option<string>, key: string, body: Request): (Db, Outcome)
  {
    var existing := Find(db.movements, MovementKeyed(staff.store, key));
    var shelf := Find(db.stock, ShelfAt(staff.store, ingredient));
    if existing < |db.movements| then
      (db, if db.movements[existing].request == Some(body) then Replayed(existing) else Failed(IdempotencyMismatch))
    else if !c.Active(ingredient) then (db, Failed(IngredientNotFound))
    else if shelf == |db.stock| then (db, Failed(StockNotConfigured))
    else
      var row := db.stock[shelf];
      if row.onHand + delta < 0 || row.onHand + delta < row.reserved then (db, Failed(InsufficientOnHand))
      else
        var m := Movement(staff.store, ingredient, kind, quantity, delta, 0, None, None, reason,
                          Some(staff.user), Some(key), Some(body), None, None, false);
        (Moved(db, shelf, m), Done(|db.movements|))
  }

  function ReceiveStep(c: Catalog, db: Db, staff: Staff, ingredient: int, quantity: int, reason: string,
                       key: string): (Db, Outcome)
  {
    if Strip(key) == "" then (db, Failed(KeyRequired))
    else if quantity <= 0 then (db, Failed(InvalidQuantity))
    else
      var note := Strip(reason);
      Manual(c, db, staff, PurchaseReceipt, ingredient, quantity, quantity,
             if note == "" then None else Some(note), Strip(key), ReceiptBody(ingredient, quantity, note))
  }

  function AdjustStep(c: Catalog, db: Db, staff: Staff, ingredient: int, delta: int, reason: string,
                      key: string): (Db, Outcome)
  {
    if Strip(key) == "" then (db, Failed(KeyRequired))
    else if Strip(reason) == "" then (db, Failed(ReasonRequired))
    else if delta == 0 then (db, Failed(InvalidQuantity))
    else
      Manual(c, db, staff, ManualAdjustment, ingredient, Abs(delta), delta,
             Some(Strip(reason)), Strip(key), AdjustmentBody(ingredient, delta, Strip(reason)))
  }

  function WriteOffStep(c: Catalog, db: Db, staff: Staff, ingredient: int, quantity: int, reason: string,
                        key: string): (Db, Outcome)
  {
    if Strip(key) == "" then (db, Failed(KeyRequired))
    else if quantity <= 0 then (db, Failed(InvalidQuantity))
    else if Strip(reason) == "" then (db, Failed(ReasonRequired))
    else
      Manual(c, db, staff, Waste, ingredient, quantity, -quantity,
             Some(Strip(reason)), Strip(key), WasteBody(ingredient, quantity, Strip(reason)))
  }

  // ── Transfer ───────────────────────────────────────────────────────────────

  /** The destination's shelf, materialised at zero when it never held any. */
  function WithShelf(stock: seq<StockRow>, store: int, ingredient: int): seq<StockRow> {
    if Find(stock, ShelfAt(store, ingredient)) < |stock| then stock else stock + [StockRow(store, ingredient, 0, 0)]
  }

  function OutLeg(t: Transfer, id: nat): Movement {
    Movement(t.source, t.ingredient, TransferOut, t.quantity, -t.quantity, 0, None, None, Some(t.reason),
             Some(t.initiator), None, None, Some(id), None, false)
  }

  /** No actor: the initiator belongs to the source store. */
  function InLeg(t: Transfer, id: nat): Movement {
    Movement(t.destination, t.ingredient, TransferIn, t.quantity, t.quantity, 0, None, None, Some(t.reason),
             None, None, None, Some(id), None, false)
  }

  /** The transfer row and both legs, each posted on its shelf. */
  function Shipped(db: Db, from: nat, to: nat, t: Transfer): Db
    requires from < |db.stock| && to < |db.stock|
  {
    var id := |db.transfers|;
    Moved(Moved(db.(transfers := db.transfers + [t]), from, OutLeg(t, id)), to, InLeg(t, id))
  }

  /** The transfer as PostgreSQL sees it, once the key is known to be new. */
  function Dispatch(c: Catalog, db: Db, t: Transfer): (Db, Outcome) {
    if t.destination !in c.stores then (db, Failed(DestinationNotFound))
    else if !c.Active(t.ingredient) then (db, Failed(IngredientNotFound))
    else
      var stock := WithShelf(db.stock, t.destination, t.ingredient);
      var from, to := Find(stock, ShelfAt(t.source, t.ingredient)), Find(stock, ShelfAt(t.destination, t.ingredient));
      if from == |stock| then (db, Failed(StockNotConfigured))
      else if stock[from].Available() < t.quantity then (db, Failed(InsufficientAvailable))
      else if to == |stock| then (db, Failed(StockRowMissing))
      else (Shipped(db.(stock := stock), from, to, t), Done(|db.transfers|))
  }

  function ShipStep(c: Catalog, db: Db, staff: Staff, destination: int, ingredient: int, quantity: int, reason: string,
                    note: string, key: string): (Db, Outcome)
  {
    var why, k := Strip(reason), Strip(key);
    var body := TransferBody(destination, ingredient, quantity, why, Strip(note));
    var existing := Find(db.transfers, TransferKeyed(staff.store, k));
    if k == "" then (db, Failed(KeyRequired))
    else if quantity <= 0 then (db, Failed(InvalidQuantity))
    else if why == "" then (db, Failed(ReasonRequired))
    else if destination == staff.store then (db, Failed(SameStore))
    else if existing < |db.transfers| then
      (db, if db.transfers[existing].request == body then Replayed(existing) else Failed(IdempotencyMismatch))
    else Dispatch(c, db, Transfer(staff.store, destination, ingredient, quantity, why, staff.user, k, body))
  }

  // ── Physical count ─────────────────────────────────────────────────────────

  function Correction(n: StockCount, id: nat): Movement {
    Movement(n.store, n.ingredient, StockCountAdjustment, Abs(n.Delta()), n.Delta(), 0, None, None,
             Some(n.reason), Some(n.countedBy), None, None, None, Some(id), false)
  }

  /** The count, and the correction its difference demands; none for no difference. */
  function Recorded(db: Db, shelf: nat, n: StockCount): Db
    requires shelf < |db.stock|
  {
    var recorded := db.(counts := db.counts + [n]);
    if n.Delta() == 0 then recorded else Moved(recorded, shelf, Correction(n, |db.counts|))
  }

  function CountStep(c: Catalog, db: Db, staff: Staff, ingredient: int, counted: int, reason: string, note: string,
                     key: string): (Db, Outcome)
  {
    var why, k := Strip(reason), Strip(key);
    var body := CountBody(ingredient, counted, why, Strip(note));
    var existing := Find(db.counts, CountKeyed(staff.store, k));
    var shelf := Find(db.stock, ShelfAt(staff.store, ingredient));
    if k == "" then (db, Failed(KeyRequired))
    else if counted < 0 then (db, Failed(InvalidQuantity))
    else if why == "" then (db, Failed(ReasonRequired))
    else if existing < |db.counts| then
      (db, if db.counts[existing].request == body then Replayed(existing) else Failed(IdempotencyMismatch))
    else if !c.Active(ingredient) then (db, Failed(IngredientNotFound))
    else if shelf == |db.stock| then (db, Failed(StockNotConfigured))
    else
      var row := db.stock[shelf];
      if counted < row.reserved then (db, Failed(BelowReserved))
      else
        var id := |db.counts|;
        var n := StockCount(staff.store, ingredient, counted, row.onHand, row.reserved, why, staff.user, k, body);
        (Recorded(db, shelf, n), Done(id))
  }

  // ── Order lifecycle ────────────────────────────────────────────────────────

  function QuantityOf(ingredient: int): Need -> int {
    (n: Need) => if n.ingredient == ingredient then n.quantity else 0
  }

  function SameLine(item: nat, ingredient: int): Need -> bool {
    (n: Need) => n.item == item && n.ingredient == ingredient
  }

  /** One requirement per (item, ingredient), in order of first mention: the
      grain of order_inventory_lines. */
  function Aggregate(needs: seq<Need>): seq<Need> {
    if |needs| == 0 then []
    else
      var sofar, last := Aggregate(needs[..|needs| - 1]), needs[|needs| - 1];
      var k := Find(sofar, SameLine(last.item, last.ingredient));
      if k < |sofar| then sofar[k := sofar[k].(quantity := sofar[k].quantity + last.quantity)]
      else sofar + [last]
  }

  /** Zero requirements get no line. */
  function Positive(needs: seq<Need>): seq<Need> {
    if |needs| == 0 then []
    else
      var front, last := Positive(needs[..|needs| - 1]), needs[|needs| - 1];
      if last.quantity > 0 then front + [last] else front
  }

  predicate Short(db: Db, store: int, needs: seq<Need>, ingredient: int) {
    var shelf := Find(db.stock, ShelfAt(store, ingredient));
    shelf == |db.stock| || db.stock[shelf].Available() < Sum(needs, QuantityOf(ingredient))
  }

  function NewLine(store: int, order: nat, firstItem: nat, n: Need): Line {
    Line(store, order, firstItem + n.item, n.ingredient, n.quantity, 0, 0, 0, 0)
  }

  function NewReservation(store: int, order: nat, line: nat, n: Need): Movement {
    Movement(store, n.ingredient, ReservationCreated, n.quantity, 0, n.quantity, Some(order), Some(line),
             None, None, None, None, None, None, false)
  }

  function NewLines(store: int, order: nat, firstItem: nat, needs: seq<Need>): (r: seq<Line>)
    ensures |r| == |needs| && forall k :: 0 <= k < |r| ==> r[k] == NewLine(store, order, firstItem, needs[k])
  {
    seq(|needs|, k requires 0 <= k < |needs| => NewLine(store, order, firstItem, needs[k]))
  }

  function NewReservations(store: int, order: nat, firstLine: nat, needs: seq<Need>): (r: seq<Movement>)
    ensures |r| == |needs| && forall k :: 0 <= k < |r| ==> r[k] == NewReservation(store, order, firstLine + k, needs[k])
  {
    seq(|needs|, k requires 0 <= k < |needs| => NewReservation(store, order, firstLine + k, needs[k]))
  }

  function Claimed(r: StockRow, store: int, needs: seq<Need>): StockRow {
    if r.store == store then r.(reserved := r.reserved + Sum(needs, QuantityOf(r.ingredient))) else r
  }

  /** Every shelf of the store rises by what the requirements take from it. */
  function ClaimStock(stock: seq<StockRow>, store: int, needs: seq<Need>): (r: seq<StockRow>)
    ensures |r| == |stock| && forall k :: 0 <= k < |r| ==> r[k] == Claimed(stock[k], store, needs)
  {
    seq(|stock|, k requires 0 <= k < |stock| => Claimed(stock[k], store, needs))
  }

  /** The requirements of an order, as its lines record them. */
  function Required(needs: seq<Need>): seq<Need> { Positive(Aggregate(needs)) }

  /** The order with its items, one line and one ledger row per requirement, and
      the claims on the shelves. */
  function Placed(db: Db, store: int, itemCount: nat, required: seq<Need>): Db {
    db.(orders := db.orders + [store],
        items := db.items + seq(itemCount, _ => |db.orders|),
        lines := db.lines + NewLines(store, |db.orders|, |db.items|, required),
        movements := db.movements + NewReservations(store, |db.orders|, |db.lines|, required),
        stock := ClaimStock(db.stock, store, required))
  }

  /** Why the order is refused, if it is: checked before anything is written. */
  function OrderError(c: Catalog, db: Db, store: int, needs: seq<Need>): Option<Error> {
    if |needs| == 0 then Some(NoIngredients)
    else if exists k :: 0 <= k < |needs| && !c.Active(needs[k].ingredient) then Some(UnknownIngredients)
    else if exists k :: 0 <= k < |needs| && Short(db, store, needs, needs[k].ingredient) then Some(OutOfStock)
    else None
  }

  function PlaceStep(c: Catalog, db: Db, store: int, itemCount: nat, needs: seq<Need>): (Db, Outcome) {
    var error := OrderError(c, db, store, needs);
    if error.Some? then (db, Failed(error.value))
    else (Placed(db, store, itemCount, Required(needs)), Done(|db.orders|))
  }

  /** Whether settling the order touches this line, and by how much. */
  predicate Pending(l: Line, store: int, order: nat) {
    l.store == store && l.order == order && l.Outstanding() > 0
  }

  function Due(store: int, order: nat, ingredient: int): Line -> int {
    (l: Line) => if Pending(l, store, order) && l.ingredient == ingredient then l.Outstanding() else 0
  }

  function SettledLine(l: Line, store: int, order: nat, cooked: bool): Line {
    if !Pending(l, store, order) then l
    else if cooked then l.(consumed := l.consumed + l.Outstanding())
    else l.(released := l.released + l.Outstanding())
  }

  function SettleLines(lines: seq<Line>, store: int, order: nat, cooked: bool): (r: seq<Line>)
    ensures |r| == |lines| && forall k :: 0 <= k < |r| ==> r[k] == SettledLine(lines[k], store, order, cooked)
  {
    seq(|lines|, k requires 0 <= k < |lines| => SettledLine(lines[k], store, order, cooked))
  }

  function SettledRow(r: StockRow, lines: seq<Line>, store: int, order: nat, cooked: bool): StockRow {
    if r.store != store then r
    else
      var due := Sum(lines, Due(store, order, r.ingredient));
      r.(reserved := r.reserved - due, onHand := if cooked then r.onHand - due else r.onHand)
  }

  function SettleStock(stock: seq<StockRow>, lines: seq<Line>, store: int, order: nat, cooked: bool): (r: seq<StockRow>)
    ensures |r| == |stock| && forall k :: 0 <= k < |r| ==> r[k] == SettledRow(stock[k], lines, store, order, cooked)
  {
    seq(|stock|, k requires 0 <= k < |stock| => SettledRow(stock[k], lines, store, order, cooked))
  }

  function Settlement(l: Line, line: nat, cooked: bool, actor: Option<int>): Movement {
    var q := l.Outstanding();
    Movement(l.store, l.ingredient, if cooked then Consumption else ReservationReleased,
             q, if cooked then -q else 0, -q, Some(l.order), Some(line), None, actor, None, None, None, None, false)
  }

  /** One ledger row per pending line, in line order. */
  function Settlements(lines: seq<Line>, store: int, order: nat, cooked: bool, actor: Option<int>): seq<Movement> {
    if |lines| == 0 then []
    else
      var n := |lines| - 1;
      var front := Settlements(lines[..n], store, order, cooked, actor);
      if Pending(lines[n], store, order) then front + [Settlement(lines[n], n, cooked, actor)] else front
  }

  function Settled(db: Db, order: nat, cooked: bool, actor: Option<int>): Db
    requires order < |db.orders|
  {
    var store := db.orders[order];
    db.(lines := SettleLines(db.lines, store, order, cooked),
        stock := SettleStock(db.stock, db.lines, store, order, cooked),
        movements := db.movements + Settlements(db.lines, store, order, cooked, actor))
  }

  /** consume_order when cooked, release_order_reservation when not. */
  function SettleStep(db: Db, order: nat, cooked: bool, actor: Option<int>): (Db, Outcome) {
    if order >= |db.orders| then (db, Failed(OrderNotFound))
    else if exists k :: 0 <= k < |db.lines| && Pending(db.lines[k], db.orders[order], order)
                        && !Stocked(db.stock, db.orders[order], db.lines[k].ingredient)
                          then (db, Failed(StockRowMissing))
    else (Settled(db, order, cooked, actor), Done(order))
  }

  // ── All commands ───────────────────────────────────────────────────────────

  function Exec(c: Catalog, db: Db, command: Command): (Db, Outcome) {
    match command
    case Receive(s, i, q, reason, key) => ReceiveStep(c, db, s, i, q, reason, key)
    case Adjust(s, i, d, reason, key) => AdjustStep(c, db, s, i, d, reason, key)
    case WriteOff(s, i, q, reason, key) => WriteOffStep(c, db, s, i, q, reason, key)
    case Ship(s, to, i, q, reason, note, key) => ShipStep(c, db, s, to, i, q, reason, note, key)
    case CountShelf(s, i, counted, reason, note, key) => CountStep(c, db, s, i, counted, reason, note, key)
    case PlaceOrder(store, itemCount, needs) => PlaceStep(c, db, store, itemCount, needs)
    case StartPreparation(order, actor) => SettleStep(db, order, true, actor)
    case CancelOrder(order, actor) => SettleStep(db, order, false, actor)
  }
}
