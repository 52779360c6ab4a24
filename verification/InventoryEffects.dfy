/** What an accepted inventory command leaves in the tables, in the words of its own
    request, and exactly when a command is accepted. */
module InventoryEffects {
  import opened Tables
  import opened Text
  import opened Inventory
  import opened InventoryCommands
  import opened OrderSafety

  // ── Receipt, adjustment and waste ──────────────────────────────────────────

  /** One shelf of the key moved by delta; every other row is what it was. */
  ghost predicate OneShelfMoved(before: seq<StockRow>, after: seq<StockRow>, store: int, ingredient: int, delta: int) {
    exists k :: 0 <= k < |before| && before[k].store == store && before[k].ingredient == ingredient
                && after == before[k := before[k].(onHand := before[k].onHand + delta)]
  }

  /** The delivery is on the shelf and in the ledger. */
  ghost predicate Received(before: Db, after: Db, s: Staff, ingredient: int, quantity: int, reason: string,
                           key: string)
  {
    var note := Strip(reason);
    && OneShelfMoved(before.stock, after.stock, s.store, ingredient, quantity)
    && after == before.(stock := after.stock, movements := before.movements + [
                          Movement(s.store, ingredient, PurchaseReceipt, quantity, quantity, 0, None, None,
                                   if note == "" then None else Some(note), Some(s.user), Some(Strip(key)),
                                   Some(ReceiptBody(ingredient, quantity, note)), None, None, false)])
  }

  ghost predicate Adjusted(before: Db, after: Db, s: Staff, ingredient: int, delta: int, reason: string, key: string) {
    && OneShelfMoved(before.stock, after.stock, s.store, ingredient, delta)
    && after == before.(stock := after.stock, movements := before.movements + [
                          Movement(s.store, ingredient, ManualAdjustment, if delta < 0 then -delta else delta, delta, 0,
                                   None, None, Some(Strip(reason)), Some(s.user), Some(Strip(key)),
                                   Some(AdjustmentBody(ingredient, delta, Strip(reason))), None, None, false)])
  }

  ghost predicate ThrownAway(before: Db, after: Db, s: Staff, ingredient: int, quantity: int, reason: string,
                             key: string)
  {
    && OneShelfMoved(before.stock, after.stock, s.store, ingredient, -quantity)
    && after == before.(stock := after.stock, movements := before.movements + [
                          Movement(s.store, ingredient, Waste, quantity, -quantity, 0, None, None,
                                   Some(Strip(reason)), Some(s.user), Some(Strip(key)),
                                   Some(WasteBody(ingredient, quantity, Strip(reason))), None, None, false)])
  }

  lemma ReceivingStocksTheShelf(c: Catalog, db: Db, s: Staff, ingredient: int, quantity: int, reason: string,
                                key: string)
    requires Exec(c, db, Receive(s, ingredient, quantity, reason, key)).1.Done?
    ensures var (after, outcome) := Exec(c, db, Receive(s, ingredient, quantity, reason, key));
            Received(db, after, s, ingredient, quantity, reason, key) && outcome.id == |db.movements|
  {
    var shelf := Find(db.stock, ShelfAt(s.store, ingredient));
    assert Shelves(db.stock[shelf], s.store, ingredient);
  }

  lemma AdjustingMovesTheDifference(c: Catalog, db: Db, s: Staff, ingredient: int, delta: int, reason: string,
                                    key: string)
    requires Exec(c, db, Adjust(s, ingredient, delta, reason, key)).1.Done?
    ensures var (after, outcome) := Exec(c, db, Adjust(s, ingredient, delta, reason, key));
            Adjusted(db, after, s, ingredient, delta, reason, key) && outcome.id == |db.movements|
  {
    var shelf := Find(db.stock, ShelfAt(s.store, ingredient));
    assert Shelves(db.stock[shelf], s.store, ingredient);
  }

  lemma WasteEmptiesTheShelf(c: Catalog, db: Db, s: Staff, ingredient: int, quantity: int, reason: string,
                             key: string)
    requires Exec(c, db, WriteOff(s, ingredient, quantity, reason, key)).1.Done?
    ensures var (after, outcome) := Exec(c, db, WriteOff(s, ingredient, quantity, reason, key));
            ThrownAway(db, after, s, ingredient, quantity, reason, key) && outcome.id == |db.movements|
  {
    var shelf := Find(db.stock, ShelfAt(s.store, ingredient));
    assert Shelves(db.stock[shelf], s.store, ingredient);
  }

  /** No ledger row of the store carries the key yet. */
  ghost predicate NewKey(db: Db, store: int, key: string) {
    forall k :: 0 <= k < |db.movements| && db.movements[k].store == store ==> db.movements[k].key != Some(key)
  }

  /** The store keeps the ingredient, and what is promised stays covered after delta. */
  ghost predicate Covers(db: Db, store: int, ingredient: int, delta: int) {
    exists k :: 0 <= k < |db.stock| && db.stock[k].store == store && db.stock[k].ingredient == ingredient
                && 0 <= db.stock[k].onHand + delta && db.stock[k].reserved <= db.stock[k].onHand + delta
  }

  lemma CoversMeans(db: Db, store: int, ingredient: int, delta: int)
    requires UniqueShelves(db.stock)
    ensures var shelf := Find(db.stock, ShelfAt(store, ingredient));
            Covers(db, store, ingredient, delta) <==>
              && shelf < |db.stock| && 0 <= db.stock[shelf].onHand + delta
              && db.stock[shelf].reserved <= db.stock[shelf].onHand + delta
  {
    var shelf := Find(db.stock, ShelfAt(store, ingredient));
    if shelf < |db.stock| { assert Shelves(db.stock[shelf], store, ingredient); }
    forall k | 0 <= k < |db.stock| && db.stock[k].store == store && db.stock[k].ingredient == ingredient
      ensures k == shelf
    {
      TheShelf(db.stock, k);
    }
  }

  lemma NewKeyMeans(db: Db, store: int, key: string)
    ensures NewKey(db, store, key) <==> Find(db.movements, MovementKeyed(store, key)) == |db.movements|
  {
    var k := Find(db.movements, MovementKeyed(store, key));
    forall i | 0 <= i < k ensures !MovementKeyed(store, key)(db.movements[i]) {}
  }

  /** Refusals have no other cause: each manual command is accepted exactly when its
      own fields are filled in, its key is new, the ingredient is in use and the
      promises made from the shelf stay covered. */
  lemma ManualCommandsAreAcceptedExactlyWhen(c: Catalog, db: Db, s: Staff, ingredient: int, amount: int,
                                             reason: string, key: string)
    requires UniqueShelves(db.stock)
    ensures Exec(c, db, Receive(s, ingredient, amount, reason, key)).1.Done? <==>
              && Strip(key) != "" && amount > 0
              && NewKey(db, s.store, Strip(key)) && c.Active(ingredient) && Covers(db, s.store, ingredient, amount)
    ensures Exec(c, db, Adjust(s, ingredient, amount, reason, key)).1.Done? <==>
              && Strip(key) != "" && Strip(reason) != "" && amount != 0
              && NewKey(db, s.store, Strip(key)) && c.Active(ingredient) && Covers(db, s.store, ingredient, amount)
    ensures Exec(c, db, WriteOff(s, ingredient, amount, reason, key)).1.Done? <==>
              && Strip(key) != "" && Strip(reason) != "" && amount > 0
              && NewKey(db, s.store, Strip(key)) && c.Active(ingredient) && Covers(db, s.store, ingredient, -amount)
  {
    NewKeyMeans(db, s.store, Strip(key));
    CoversMeans(db, s.store, ingredient, amount);
    CoversMeans(db, s.store, ingredient, -amount);
  }

  /** Why a manual command may be refused: each error names a cause that is there. */
  ghost predicate ManualRefusal(c: Catalog, db: Db, s: Staff, ingredient: int, delta: int, amountOk: bool,
                                reasonOk: bool, key: string, body: Request, error: Error)
  {
    match error
    case KeyRequired => Strip(key) == ""
    case InvalidQuantity => !amountOk
    case ReasonRequired => !reasonOk
    case IdempotencyMismatch =>
      exists k :: 0 <= k < |db.movements| && db.movements[k].store == s.store
                  && db.movements[k].key == Some(Strip(key)) && db.movements[k].request != Some(body)
    case IngredientNotFound => !c.Active(ingredient)
    case StockNotConfigured =>
      forall k :: 0 <= k < |db.stock| ==> db.stock[k].store != s.store || db.stock[k].ingredient != ingredient
    case InsufficientOnHand =>
      exists k :: 0 <= k < |db.stock| && db.stock[k].store == s.store && db.stock[k].ingredient == ingredient
                  && (db.stock[k].onHand + delta < 0 || db.stock[k].onHand + delta < db.stock[k].reserved)
    case _ => false
  }

  /** The answer to a command that was carried out before. */
  predicate SameMovement(db: Db, id: nat, s: Staff, key: string, body: Request) {
    && id < |db.movements| && db.movements[id].store == s.store && db.movements[id].key == Some(Strip(key))
    && db.movements[id].request == Some(body)
  }

  lemma ManualTellsTheTruth(c: Catalog, db: Db, s: Staff, kind: Kind, ingredient: int, quantity: int, delta: int,
                            reason: Option<string>, key: string, body: Request)
    requires Strip(key) != ""
    ensures match Manual(c, db, s, kind, ingredient, quantity, delta, reason, Strip(key), body).1
            case Done(_) => true
            case Replayed(id) => SameMovement(db, id, s, key, body)
            case Failed(error) => ManualRefusal(c, db, s, ingredient, delta, true, true, key, body, error)
  {
    var shelf, keyed := Find(db.stock, ShelfAt(s.store, ingredient)),
                        Find(db.movements, MovementKeyed(s.store, Strip(key)));
    if keyed < |db.movements| { assert MovementKeyed(s.store, Strip(key))(db.movements[keyed]); }
    if shelf < |db.stock| {
      assert Shelves(db.stock[shelf], s.store, ingredient);
    } else {
      forall k | 0 <= k < |db.stock| ensures !Shelves(db.stock[k], s.store, ingredient) {
        assert !ShelfAt(s.store, ingredient)(db.stock[k]);
      }
    }
  }

  /** No receipt is ever refused for a cause that is not there, or answered from a row
      that was not its own. */
  lemma ReceiptRefusalsTellTheTruth(c: Catalog, db: Db, s: Staff, ingredient: int, quantity: int, reason: string,
                                    key: string)
    ensures var body := ReceiptBody(ingredient, quantity, Strip(reason));
            match Exec(c, db, Receive(s, ingredient, quantity, reason, key)).1
            case Done(_) => true
            case Replayed(id) => SameMovement(db, id, s, key, body)
            case Failed(error) => ManualRefusal(c, db, s, ingredient, quantity, quantity > 0, true, key, body, error)
  {
    var note := Strip(reason);
    if Strip(key) != "" {
      ManualTellsTheTruth(c, db, s, PurchaseReceipt, ingredient, quantity, quantity,
                          if note == "" then None else Some(note), key, ReceiptBody(ingredient, quantity, note));
    }
  }

  /** Nor is an adjustment. */
  lemma AdjustmentRefusalsTellTheTruth(c: Catalog, db: Db, s: Staff, ingredient: int, delta: int, reason: string,
                                       key: string)
    ensures var body := AdjustmentBody(ingredient, delta, Strip(reason));
            match Exec(c, db, Adjust(s, ingredient, delta, reason, key)).1
            case Done(_) => true
            case Replayed(id) => SameMovement(db, id, s, key, body)
            case Failed(error) =>
              ManualRefusal(c, db, s, ingredient, delta, delta != 0, Strip(reason) != "", key, body, error)
  {
    if Strip(key) != "" {
      ManualTellsTheTruth(c, db, s, ManualAdjustment, ingredient, Abs(delta), delta, Some(Strip(reason)), key,
                          AdjustmentBody(ingredient, delta, Strip(reason)));
    }
  }

  /** Nor is a write-off. */
  lemma WasteRefusalsTellTheTruth(c: Catalog, db: Db, s: Staff, ingredient: int, quantity: int, reason: string,
                                  key: string)
    ensures var body := WasteBody(ingredient, quantity, Strip(reason));
            match Exec(c, db, WriteOff(s, ingredient, quantity, reason, key)).1
            case Done(_) => true
            case Replayed(id) => SameMovement(db, id, s, key, body)
            case Failed(error) =>
              ManualRefusal(c, db, s, ingredient, -quantity, quantity > 0, Strip(reason) != "", key, body, error)
  {
    if Strip(key) != "" {
      ManualTellsTheTruth(c, db, s, Waste, ingredient, quantity, -quantity, Some(Strip(reason)), key,
                          WasteBody(ingredient, quantity, Strip(reason)));
    }
  }

  // ── Transfer ───────────────────────────────────────────────────────────────

  /** The quantity stands on the destination's shelf, a new one if there was none; every
      other row is as it was left. */
  ghost predicate Arrived(left: seq<StockRow>, after: seq<StockRow>, destination: int, ingredient: int, quantity: int) {
    || (exists to :: 0 <= to < |left| && left[to].store == destination && left[to].ingredient == ingredient
                     && after == left[to := left[to].(onHand := left[to].onHand + quantity)])
    || ((forall k :: 0 <= k < |left| ==> left[k].store != destination || left[k].ingredient != ingredient)
        && after == left + [StockRow(destination, ingredient, quantity, 0)])
  }

  /** The quantity left one shelf and arrived on another; no other row changed. */
  ghost predicate LeftAndArrived(before: seq<StockRow>, after: seq<StockRow>, source: int, destination: int,
                                 ingredient: int, quantity: int)
  {
    exists from :: 0 <= from < |before| && before[from].store == source && before[from].ingredient == ingredient
                   && Arrived(before[from := before[from].(onHand := before[from].onHand - quantity)], after,
                              destination, ingredient, quantity)
  }

  ghost predicate Transferred(before: Db, after: Db, s: Staff, destination: int, ingredient: int, quantity: int,
                         reason: string, note: string, key: string)
  {
    var why, id := Strip(reason), |before.transfers|;
    && LeftAndArrived(before.stock, after.stock, s.store, destination, ingredient, quantity)
    && after == before.(
         stock := after.stock,
         transfers := before.transfers + [
           Transfer(s.store, destination, ingredient, quantity, why, s.user, Strip(key),
                    TransferBody(destination, ingredient, quantity, why, Strip(note)))],
         movements := before.movements + [
           Movement(s.store, ingredient, TransferOut, quantity, -quantity, 0, None, None, Some(why), Some(s.user), None,
                    None, Some(id), None, false),
           Movement(destination, ingredient, TransferIn, quantity, quantity, 0, None, None, Some(why), None, None, None,
                    Some(id), None, false)])
  }

  lemma ArrivesOnItsShelf(left: seq<StockRow>, to: nat, destination: int, ingredient: int, quantity: int)
    requires to < |left| && Shelves(left[to], destination, ingredient)
    ensures Arrived(left, left[to := left[to].(onHand := left[to].onHand + quantity)],
                    destination, ingredient, quantity)
  {}

  lemma ArrivesOnANewShelf(left: seq<StockRow>, destination: int, ingredient: int, quantity: int)
    requires forall k :: 0 <= k < |left| ==> !Shelves(left[k], destination, ingredient)
    ensures Arrived(left, left + [StockRow(destination, ingredient, quantity, 0)], destination, ingredient, quantity)
  {
    forall k | 0 <= k < |left| ensures left[k].store != destination || left[k].ingredient != ingredient {
      assert !Shelves(left[k], destination, ingredient);
    }
  }

  /** Materialising the destination's shelf first comes to the same. */
  lemma ShelvesAfterShipping(before: seq<StockRow>, from: nat, to: nat, t: Transfer)
    requires var stock := WithShelf(before, t.destination, t.ingredient);
             && from < |stock| && to < |stock| && t.source != t.destination
             && Shelves(stock[from], t.source, t.ingredient) && to == Find(stock, ShelfAt(t.destination, t.ingredient))
    ensures from < |before|
    ensures var stock := WithShelf(before, t.destination, t.ingredient);
            var left := stock[from := stock[from].(onHand := stock[from].onHand - t.quantity)];
            Arrived(before[from := before[from].(onHand := before[from].onHand - t.quantity)],
                    left[to := left[to].(onHand := left[to].onHand + t.quantity)],
                    t.destination, t.ingredient, t.quantity)
  {
    var stock := WithShelf(before, t.destination, t.ingredient);
    var left := before[from := before[from].(onHand := before[from].onHand - t.quantity)];
    assert Shelves(stock[to], t.destination, t.ingredient);
    if Find(before, ShelfAt(t.destination, t.ingredient)) < |before| {
      ArrivesOnItsShelf(left, to, t.destination, t.ingredient, t.quantity);
    } else {
      forall k | 0 <= k < |left| ensures !Shelves(left[k], t.destination, t.ingredient) {
        assert !ShelfAt(t.destination, t.ingredient)(before[k]);
      }
      ArrivesOnANewShelf(left, t.destination, t.ingredient, t.quantity);
      assert left + [StockRow(t.destination, t.ingredient, t.quantity, 0)] ==
          (left + [StockRow(t.destination, t.ingredient, 0, 0)])
            [to := StockRow(t.destination, t.ingredient, t.quantity, 0)];
    }
  }

  lemma ShippedStock(db: Db, stock: seq<StockRow>, from: nat, to: nat, t: Transfer)
    requires from < |stock| && to < |stock|
    ensures var left := stock[from := stock[from].(onHand := stock[from].onHand - t.quantity)];
            Shipped(db.(stock := stock), from, to, t).stock ==
              left[to := left[to].(onHand := left[to].onHand + t.quantity)]
  {}

  lemma DispatchShips(c: Catalog, db: Db, t: Transfer)
    requires Dispatch(c, db, t).1.Done?
    ensures var stock := WithShelf(db.stock, t.destination, t.ingredient);
            var from, to := Find(stock, ShelfAt(t.source, t.ingredient)),
                            Find(stock, ShelfAt(t.destination, t.ingredient));
            && from < |stock| && to < |stock| && Shelves(stock[from], t.source, t.ingredient)
            && Dispatch(c, db, t).0 == Shipped(db.(stock := stock), from, to, t)
  {
    var stock := WithShelf(db.stock, t.destination, t.ingredient);
    assert ShelfAt(t.source, t.ingredient)(stock[Find(stock, ShelfAt(t.source, t.ingredient))]);
  }

  lemma DispatchMovesTheQuantity(c: Catalog, db: Db, t: Transfer)
    requires Dispatch(c, db, t).1.Done? && t.source != t.destination
    ensures LeftAndArrived(db.stock, Dispatch(c, db, t).0.stock, t.source, t.destination, t.ingredient, t.quantity)
  {
    var stock := WithShelf(db.stock, t.destination, t.ingredient);
    var from, to := Find(stock, ShelfAt(t.source, t.ingredient)), Find(stock, ShelfAt(t.destination, t.ingredient));
    DispatchShips(c, db, t);
    ShippedStock(db, stock, from, to, t);
    ShelvesAfterShipping(db.stock, from, to, t);
  }

  lemma DispatchWritesBothLegs(c: Catalog, db: Db, t: Transfer)
    requires Dispatch(c, db, t).1.Done?
    ensures var (after, outcome) := Dispatch(c, db, t);
            var id := |db.transfers|;
            && outcome.id == id
            && after == db.(
                 stock := after.stock, transfers := db.transfers + [t],
                 movements := db.movements + [
                   Movement(t.source, t.ingredient, TransferOut, t.quantity, -t.quantity, 0, None, None, Some(t.reason),
                            Some(t.initiator), None, None, Some(id), None, false),
                   Movement(t.destination, t.ingredient, TransferIn, t.quantity, t.quantity, 0, None, None,
                            Some(t.reason), None, None, None, Some(id), None, false)])
  {}

  /** A transfer takes the quantity asked for off its own shelf and puts all of it on
      the destination's, and the ledger holds both legs. */
  lemma ShippingMovesTheQuantity(c: Catalog, db: Db, s: Staff, destination: int, ingredient: int, quantity: int,
                                 reason: string, note: string, key: string)
    requires Exec(c, db, Ship(s, destination, ingredient, quantity, reason, note, key)).1.Done?
    ensures var (after, outcome) := Exec(c, db, Ship(s, destination, ingredient, quantity, reason, note, key));
            && Transferred(db, after, s, destination, ingredient, quantity, reason, note, key)
            && outcome.id == |db.transfers|
  {
    var t := Transfer(s.store, destination, ingredient, quantity, Strip(reason), s.user, Strip(key),
                      TransferBody(destination, ingredient, quantity, Strip(reason), Strip(note)));
    assert Exec(c, db, Ship(s, destination, ingredient, quantity, reason, note, key)) == Dispatch(c, db, t);
    DispatchMovesTheQuantity(c, db, t);
    DispatchWritesBothLegs(c, db, t);
  }

  /** A materialised destination hides no shelf of the source. */
  lemma ShelfAndDestination(before: seq<StockRow>, source: int, destination: int, ingredient: int)
    requires UniqueShelves(before)
    ensures var stock := WithShelf(before, destination, ingredient);
            && Find(stock, ShelfAt(destination, ingredient)) < |stock|
            && (source != destination ==>
                  var from := Find(stock, ShelfAt(source, ingredient));
                  && (from < |stock| ==> from < |before| && Shelves(before[from], source, ingredient))
                  && forall k :: 0 <= k < |before| && Shelves(before[k], source, ingredient) ==> k == from)
  {
    var stock := WithShelf(before, destination, ingredient);
    if stock != before { assert ShelfAt(destination, ingredient)(stock[|before|]); }
    var from := Find(stock, ShelfAt(source, ingredient));
    if source != destination {
      if from < |stock| { assert Shelves(stock[from], source, ingredient); }
      forall k | 0 <= k < |before| && Shelves(before[k], source, ingredient) ensures k == from {
        assert ShelfAt(source, ingredient)(stock[k]);
        TheShelf(before, k);
      }
    }
  }

  /** Only what is not promised may leave: the gate is available stock. */
  lemma TransfersAreAcceptedExactlyWhen(c: Catalog, db: Db, s: Staff, destination: int, ingredient: int,
                                        quantity: int, reason: string, note: string, key: string)
    requires UniqueShelves(db.stock)
    ensures Exec(c, db, Ship(s, destination, ingredient, quantity, reason, note, key)).1.Done? <==>
              && Strip(key) != "" && quantity > 0 && Strip(reason) != "" && destination != s.store
              && destination in c.stores && c.Active(ingredient)
              && (forall k :: 0 <= k < |db.transfers| && db.transfers[k].source == s.store ==>
                    db.transfers[k].key != Strip(key))
              && exists k :: 0 <= k < |db.stock| && db.stock[k].store == s.store && db.stock[k].ingredient == ingredient
                             && quantity <= db.stock[k].onHand - db.stock[k].reserved
  {
    var keyed := Find(db.transfers, TransferKeyed(s.store, Strip(key)));
    forall i | 0 <= i < keyed ensures !TransferKeyed(s.store, Strip(key))(db.transfers[i]) {}
    ShelfAndDestination(db.stock, s.store, destination, ingredient);
  }

  ghost predicate TransferRefusal(c: Catalog, db: Db, s: Staff, destination: int, ingredient: int, quantity: int,
                                  reason: string, note: string, key: string, error: Error)
  {
    match error
    case KeyRequired => Strip(key) == ""
    case InvalidQuantity => quantity <= 0
    case ReasonRequired => Strip(reason) == ""
    case SameStore => destination == s.store
    case IdempotencyMismatch =>
      exists k :: 0 <= k < |db.transfers| && db.transfers[k].source == s.store && db.transfers[k].key == Strip(key)
                  && db.transfers[k].request !=
                       TransferBody(destination, ingredient, quantity, Strip(reason), Strip(note))
    case DestinationNotFound => destination !in c.stores
    case IngredientNotFound => !c.Active(ingredient)
    case StockNotConfigured =>
      forall k :: 0 <= k < |db.stock| ==> db.stock[k].store != s.store || db.stock[k].ingredient != ingredient
    case InsufficientAvailable =>
      exists k :: 0 <= k < |db.stock| && db.stock[k].store == s.store && db.stock[k].ingredient == ingredient
                  && db.stock[k].onHand - db.stock[k].reserved < quantity
    case _ => false
  }

  lemma DispatchTellsTheTruth(c: Catalog, db: Db, t: Transfer, key: string, reason: string, note: string, s: Staff)
    requires t.source == s.store && t.source != t.destination
    ensures Dispatch(c, db, t).1.Failed? ==>
              TransferRefusal(c, db, s, t.destination, t.ingredient, t.quantity, reason, note, key,
                              Dispatch(c, db, t).1.error)
    ensures !Dispatch(c, db, t).1.Replayed?
  {
    var stock := WithShelf(db.stock, t.destination, t.ingredient);
    var from, to := Find(stock, ShelfAt(t.source, t.ingredient)), Find(stock, ShelfAt(t.destination, t.ingredient));
    if stock != db.stock { assert ShelfAt(t.destination, t.ingredient)(stock[|db.stock|]); }
    if from < |stock| {
      assert Shelves(stock[from], t.source, t.ingredient) && from < |db.stock|;
    } else {
      forall k | 0 <= k < |db.stock| ensures !Shelves(db.stock[k], t.source, t.ingredient) {
        assert !ShelfAt(t.source, t.ingredient)(stock[k]);
      }
    }
  }

  /** The same for a transfer; a destination without a shelf is never a reason. */
  lemma TransferRefusalsTellTheTruth(c: Catalog, db: Db, s: Staff, destination: int, ingredient: int, quantity: int,
                                     reason: string, note: string, key: string)
    ensures match Exec(c, db, Ship(s, destination, ingredient, quantity, reason, note, key)).1
            case Done(_) => true
            case Replayed(id) =>
              && id < |db.transfers| && db.transfers[id].source == s.store && db.transfers[id].key == Strip(key)
              && db.transfers[id].request == TransferBody(destination, ingredient, quantity, Strip(reason), Strip(note))
            case Failed(error) =>
              TransferRefusal(c, db, s, destination, ingredient, quantity, reason, note, key, error)
  {
    var keyed := Find(db.transfers, TransferKeyed(s.store, Strip(key)));
    if keyed < |db.transfers| { assert TransferKeyed(s.store, Strip(key))(db.transfers[keyed]); }
    if destination != s.store {
      var body := TransferBody(destination, ingredient, quantity, Strip(reason), Strip(note));
      var t := Transfer(s.store, destination, ingredient, quantity, Strip(reason), s.user, Strip(key), body);
      DispatchTellsTheTruth(c, db, t, key, reason, note, s);
    }
  }

  // ── Physical count ─────────────────────────────────────────────────────────

  /** The shelf holds what was counted; the count keeps both numbers it compared, and
      the ledger their difference. */
  ghost predicate CountTaken(before: Db, after: Db, s: Staff, ingredient: int, counted: int, reason: string,
                             note: string, key: string)
  {
    var why, id := Strip(reason), |before.counts|;
    exists k ::
      && 0 <= k < |before.stock| && before.stock[k].store == s.store && before.stock[k].ingredient == ingredient
      && var r := before.stock[k];
         && r.reserved <= counted
         && after == before.(
              stock := before.stock[k := r.(onHand := counted)],
              counts := before.counts + [
                StockCount(s.store, ingredient, counted, r.onHand, r.reserved, why, s.user, Strip(key),
                           CountBody(ingredient, counted, why, Strip(note)))],
              movements := before.movements +
                if counted == r.onHand then [] else [
                  Movement(s.store, ingredient, StockCountAdjustment,
                           if counted < r.onHand then r.onHand - counted else counted - r.onHand, counted - r.onHand, 0,
                           None, None, Some(why), Some(s.user), None, None, None, Some(id), false)])
  }

  lemma CountingSetsTheShelf(c: Catalog, db: Db, s: Staff, ingredient: int, counted: int, reason: string, note: string,
                             key: string)
    requires Exec(c, db, CountShelf(s, ingredient, counted, reason, note, key)).1.Done?
    ensures var (after, outcome) := Exec(c, db, CountShelf(s, ingredient, counted, reason, note, key));
            CountTaken(db, after, s, ingredient, counted, reason, note, key) && outcome.id == |db.counts|
  {
    var k := Find(db.stock, ShelfAt(s.store, ingredient));
    assert Shelves(db.stock[k], s.store, ingredient);
    var r := db.stock[k];
    assert db.stock[k := r] == db.stock && db.movements + [] == db.movements;
    assert counted == r.onHand ==> r.(onHand := counted) == r;
  }

  /** A count is never refused for differing, only for contradicting a promise. */
  lemma CountsAreAcceptedExactlyWhen(c: Catalog, db: Db, s: Staff, ingredient: int, counted: int, reason: string,
                                     note: string, key: string)
    requires UniqueShelves(db.stock)
    ensures Exec(c, db, CountShelf(s, ingredient, counted, reason, note, key)).1.Done? <==>
              && Strip(key) != "" && counted >= 0 && Strip(reason) != "" && c.Active(ingredient)
              && (forall k :: 0 <= k < |db.counts| && db.counts[k].store == s.store ==> db.counts[k].key != Strip(key))
              && exists k :: 0 <= k < |db.stock| && db.stock[k].store == s.store && db.stock[k].ingredient == ingredient
                             && db.stock[k].reserved <= counted
  {
    var keyed := Find(db.counts, CountKeyed(s.store, Strip(key)));
    forall i | 0 <= i < keyed ensures !CountKeyed(s.store, Strip(key))(db.counts[i]) {}
    var shelf := Find(db.stock, ShelfAt(s.store, ingredient));
    if shelf < |db.stock| { assert Shelves(db.stock[shelf], s.store, ingredient); }
    forall k | 0 <= k < |db.stock| && Shelves(db.stock[k], s.store, ingredient) ensures k == shelf {
      TheShelf(db.stock, k);
    }
  }

  lemma CountRefusalsTellTheTruth(c: Catalog, db: Db, s: Staff, ingredient: int, counted: int, reason: string,
                                  note: string, key: string)
    ensures match Exec(c, db, CountShelf(s, ingredient, counted, reason, note, key)).1
            case Done(_) => true
            case Replayed(id) =>
              && id < |db.counts| && db.counts[id].store == s.store && db.counts[id].key == Strip(key)
              && db.counts[id].request == CountBody(ingredient, counted, Strip(reason), Strip(note))
            case Failed(error) =>
              match error
              case KeyRequired => Strip(key) == ""
              case InvalidQuantity => counted < 0
              case ReasonRequired => Strip(reason) == ""
              case IdempotencyMismatch =>
                exists k :: 0 <= k < |db.counts| && db.counts[k].store == s.store && db.counts[k].key == Strip(key)
                            && db.counts[k].request != CountBody(ingredient, counted, Strip(reason), Strip(note))
              case IngredientNotFound => !c.Active(ingredient)
              case StockNotConfigured =>
                forall k :: 0 <= k < |db.stock| ==> db.stock[k].store != s.store || db.stock[k].ingredient != ingredient
              case BelowReserved =>
                exists k :: 0 <= k < |db.stock| && db.stock[k].store == s.store && db.stock[k].ingredient == ingredient
                            && counted < db.stock[k].reserved
              case _ => false
  {
    var keyed, shelf := Find(db.counts, CountKeyed(s.store, Strip(key))), Find(db.stock, ShelfAt(s.store, ingredient));
    if keyed < |db.counts| { assert CountKeyed(s.store, Strip(key))(db.counts[keyed]); }
    if shelf < |db.stock| {
      assert Shelves(db.stock[shelf], s.store, ingredient);
    } else {
      forall k | 0 <= k < |db.stock| ensures !Shelves(db.stock[k], s.store, ingredient) {
        assert !ShelfAt(s.store, ingredient)(db.stock[k]);
      }
    }
  }

  // ── Placing an order ───────────────────────────────────────────────────────

  /** Each requirement is the whole of what the order asks for that item and
      ingredient, and nothing asked for is missing. */
  lemma {:induction false} RequirementsAreComplete(needs: seq<Need>)
    ensures forall j :: 0 <= j < |Required(needs)| ==>
              var r := Required(needs)[j];
              r.quantity > 0 && r.quantity == Sum(needs, Wanted(r.item, r.ingredient))
    ensures forall k :: 0 <= k < |needs| && needs[k].quantity > 0 ==>
              exists j :: 0 <= j < |Required(needs)| && Required(needs)[j].item == needs[k].item
                          && Required(needs)[j].ingredient == needs[k].ingredient
  {
    var required := Required(needs);
    AggregateIsDistinct(needs);
    PositiveIsDistinct(Aggregate(needs));
    PositiveRows(Aggregate(needs));
    forall j | 0 <= j < |required|
      ensures required[j].quantity == Sum(needs, Wanted(required[j].item, required[j].ingredient))
    {
      var r := required[j];
      AggregateKeepsEachPair(needs, r.item, r.ingredient);
      PositiveKeepsEachPair(Aggregate(needs), r.item, r.ingredient);
      forall i | 0 <= i < |required| && i != j ensures Wanted(r.item, r.ingredient)(required[i]) == 0 {
        assert i < j ==> !SameLine(required[j].item, required[j].ingredient)(required[i]);
        assert j < i ==> !SameLine(required[i].item, required[i].ingredient)(required[j]);
      }
      SumSingle(required, j, Wanted(r.item, r.ingredient));
    }
    forall k | 0 <= k < |needs| && needs[k].quantity > 0
      ensures exists j :: 0 <= j < |required| && required[j].item == needs[k].item
                          && required[j].ingredient == needs[k].ingredient
    {
      var f := Wanted(needs[k].item, needs[k].ingredient);
      AggregateKeepsEachPair(needs, needs[k].item, needs[k].ingredient);
      PositiveKeepsEachPair(Aggregate(needs), needs[k].item, needs[k].ingredient);
      SumNonneg(needs, f);
      assert f(needs[k]) > 0;
      var j := PositiveRow(required, f);
    }
  }

  /** One untouched promise for every item and ingredient the order asks for, of
      exactly what it asks. */
  ghost predicate Promised(added: seq<Line>, store: int, order: nat, firstItem: nat, needs: seq<Need>) {
    && (forall j :: 0 <= j < |added| ==>
          var l := added[j];
          && l.item >= firstItem && l.reserved > 0
          && l == Line(store, order, l.item, l.ingredient, l.reserved, 0, 0, 0, 0)
          && l.reserved == Sum(needs, Wanted(l.item - firstItem, l.ingredient)))
    && (forall i, j :: 0 <= i < j < |added| ==>
          added[i].item != added[j].item || added[i].ingredient != added[j].ingredient)
    && (forall k :: 0 <= k < |needs| && needs[k].quantity > 0 ==>
          exists j :: 0 <= j < |added| && added[j].item == firstItem + needs[k].item
                      && added[j].ingredient == needs[k].ingredient)
  }

  /** The ledger row behind each promise. */
  ghost predicate Reserved(written: seq<Movement>, added: seq<Line>, order: nat, firstLine: nat) {
    && |written| == |added|
    && forall j :: 0 <= j < |added| ==>
         written[j] == Movement(added[j].store, added[j].ingredient, ReservationCreated, added[j].reserved, 0,
                                added[j].reserved, Some(order), Some(firstLine + j), None, None, None, None, None,
                                None, false)
  }

  /** Every shelf of the store promises what the order asks of it; nothing leaves a shelf. */
  ghost predicate ShelvesPromise(before: seq<StockRow>, after: seq<StockRow>, store: int, needs: seq<Need>) {
    && |after| == |before|
    && forall k :: 0 <= k < |before| ==>
         var i := before[k].ingredient;
         after[k] == if before[k].store != store then before[k]
                     else before[k].(reserved := before[k].reserved
                       + Sum(needs, (n: Need) => if n.ingredient == i then n.quantity else 0))
  }

  ghost predicate OrderPlaced(before: Db, after: Db, store: int, itemCount: nat, needs: seq<Need>) {
    var order := |before.orders|;
    && after == before.(orders := before.orders + [store], items := after.items, lines := after.lines,
                        movements := after.movements, stock := after.stock)
    && |after.items| == |before.items| + itemCount && before.items <= after.items
    && (forall k :: |before.items| <= k < |after.items| ==> after.items[k] == order)
    && before.lines <= after.lines && before.movements <= after.movements
    && var added := after.lines[|before.lines|..];
       && Promised(added, store, order, |before.items|, needs)
       && Reserved(after.movements[|before.movements|..], added, order, |before.lines|)
       && ShelvesPromise(before.stock, after.stock, store, needs)
  }

  lemma LinesPromise(store: int, order: nat, firstItem: nat, needs: seq<Need>)
    ensures Promised(NewLines(store, order, firstItem, Required(needs)), store, order, firstItem, needs)
  {
    var required, added := Required(needs), NewLines(store, order, firstItem, Required(needs));
    RequirementsAreComplete(needs);
    AggregateIsDistinct(needs);
    PositiveIsDistinct(Aggregate(needs));
    forall i, j | 0 <= i < j < |added|
      ensures added[i].item != added[j].item || added[i].ingredient != added[j].ingredient
    {
      assert !SameLine(required[j].item, required[j].ingredient)(required[i]);
    }
    forall k | 0 <= k < |needs| && needs[k].quantity > 0
      ensures exists j :: 0 <= j < |added| && added[j].item == firstItem + needs[k].item
                          && added[j].ingredient == needs[k].ingredient
    {
      var j :| 0 <= j < |required| && required[j].item == needs[k].item
               && required[j].ingredient == needs[k].ingredient;
      assert added[j].item == firstItem + needs[k].item;
    }
  }

  lemma ShelvesAreClaimed(stock: seq<StockRow>, store: int, needs: seq<Need>)
    ensures ShelvesPromise(stock, ClaimStock(stock, store, Required(needs)), store, needs)
  {
    forall k | 0 <= k < |stock|
      ensures var i := stock[k].ingredient;
              Claimed(stock[k], store, Required(needs)) ==
                if stock[k].store != store then stock[k]
                else stock[k].(reserved := stock[k].reserved
                  + Sum(needs, (n: Need) => if n.ingredient == i then n.quantity else 0))
    {
      var i := stock[k].ingredient;
      RequiredTotals(needs, i);
      SumPointwise(needs, QuantityOf(i), needs, (n: Need) => if n.ingredient == i then n.quantity else 0);
    }
  }

  lemma PlacedIsOrdered(db: Db, store: int, itemCount: nat, needs: seq<Need>)
    ensures OrderPlaced(db, Placed(db, store, itemCount, Required(needs)), store, itemCount, needs)
  {
    var after := Placed(db, store, itemCount, Required(needs));
    LinesPromise(store, |db.orders|, |db.items|, needs);
    ShelvesAreClaimed(db.stock, store, needs);
    assert after.lines[|db.lines|..] == NewLines(store, |db.orders|, |db.items|, Required(needs));
    assert after.movements[|db.movements|..] ==
             NewReservations(store, |db.orders|, |db.lines|, Required(needs));
  }

  /** An accepted order is promised exactly what its items ask for, from its own
      store's shelves, and the ledger says so line by line. */
  lemma PlacingPromisesWhatWasAsked(c: Catalog, db: Db, store: int, itemCount: nat, needs: seq<Need>)
    requires Exec(c, db, PlaceOrder(store, itemCount, needs)).1.Done?
    ensures var (after, outcome) := Exec(c, db, PlaceOrder(store, itemCount, needs));
            OrderPlaced(db, after, store, itemCount, needs) && outcome.id == |db.orders|
  {
    PlacedIsOrdered(db, store, itemCount, needs);
  }

  /** The store has unpromised stock for all the order asks of the ingredient. */
  ghost predicate CanServe(db: Db, store: int, needs: seq<Need>, ingredient: int) {
    exists k :: 0 <= k < |db.stock| && db.stock[k].store == store && db.stock[k].ingredient == ingredient
                && db.stock[k].onHand - db.stock[k].reserved
                   >= Sum(needs, (n: Need) => if n.ingredient == ingredient then n.quantity else 0)
  }

  lemma ShortMeans(db: Db, store: int, needs: seq<Need>, ingredient: int)
    requires UniqueShelves(db.stock)
    ensures !Short(db, store, needs, ingredient) <==> CanServe(db, store, needs, ingredient)
  {
    SumPointwise(needs, QuantityOf(ingredient), needs,
                 (n: Need) => if n.ingredient == ingredient then n.quantity else 0);
    var shelf := Find(db.stock, ShelfAt(store, ingredient));
    if shelf < |db.stock| { assert Shelves(db.stock[shelf], store, ingredient); }
    forall k | 0 <= k < |db.stock| && Shelves(db.stock[k], store, ingredient) ensures k == shelf {
      TheShelf(db.stock, k);
    }
  }

  lemma NothingIsShort(db: Db, store: int, needs: seq<Need>)
    requires UniqueShelves(db.stock)
    ensures forall i :: 0 <= i < |needs| ==>
              (Short(db, store, needs, needs[i].ingredient) <==> !CanServe(db, store, needs, needs[i].ingredient))
  {
    forall i | 0 <= i < |needs|
      ensures Short(db, store, needs, needs[i].ingredient) <==> !CanServe(db, store, needs, needs[i].ingredient)
    {
      ShortMeans(db, store, needs, needs[i].ingredient);
    }
  }

  /** Availability is the whole gate: an order of known ingredients is accepted exactly
      when its own store has unpromised stock for all it asks of each. */
  lemma OrdersAreAcceptedExactlyWhen(c: Catalog, db: Db, store: int, itemCount: nat, needs: seq<Need>)
    requires UniqueShelves(db.stock)
    ensures Exec(c, db, PlaceOrder(store, itemCount, needs)).1.Done? <==>
              && needs != []
              && forall i :: 0 <= i < |needs| ==>
                   c.Active(needs[i].ingredient) && CanServe(db, store, needs, needs[i].ingredient)
  {
    NothingIsShort(db, store, needs);
  }

  /** A refused order is empty, or asks for something unknown, or for more than its
      store has unpromised. */
  lemma OrderRefusalsTellTheTruth(c: Catalog, db: Db, store: int, itemCount: nat, needs: seq<Need>)
    requires UniqueShelves(db.stock)
    ensures match Exec(c, db, PlaceOrder(store, itemCount, needs)).1
            case Done(_) => true
            case Replayed(_) => false
            case Failed(error) =>
              match error
              case NoIngredients => needs == []
              case UnknownIngredients => exists i :: 0 <= i < |needs| && !c.Active(needs[i].ingredient)
              case OutOfStock => exists i :: 0 <= i < |needs| && !CanServe(db, store, needs, needs[i].ingredient)
              case _ => false
  {
    NothingIsShort(db, store, needs);
  }

  // ── Cooking and cancelling an order ────────────────────────────────────────

  /** A line of the order, in the order's store, with something still promised. */
  predicate Open(l: Line, store: int, order: nat) {
    l.store == store && l.order == order && l.reserved > l.consumed + l.released
  }

  /** What the order is still promised of one ingredient. */
  function StillPromised(lines: seq<Line>, store: int, order: nat, ingredient: int): int {
    Sum(lines, (l: Line) =>
      if Open(l, store, order) && l.ingredient == ingredient then l.reserved - l.consumed - l.released else 0)
  }

  /** The ledger row that closes line k. */
  predicate Closes(m: Movement, lines: seq<Line>, order: nat, kind: Kind, onHand: int, actor: Option<int>) {
    && m.line.Some? && m.line.value < |lines|
    && var l := lines[m.line.value];
       var promised := l.reserved - l.consumed - l.released;
       && Open(l, m.store, order)
       && m == Movement(l.store, l.ingredient, kind, promised, onHand * promised, -promised, Some(order), m.line, None,
                        actor, None, None, None, None, false)
  }

  predicate Cites(written: seq<Movement>, line: nat) {
    exists j :: 0 <= j < |written| && written[j].line == Some(line)
  }

  predicate InLineOrder(written: seq<Movement>) {
    forall i, j :: 0 <= i < j < |written| ==>
      written[i].line.Some? && written[j].line.Some? && written[i].line.value < written[j].line.value
  }

  /** One ledger row for each open line, in line order, and no other. */
  ghost predicate Closed(written: seq<Movement>, lines: seq<Line>, store: int, order: nat, kind: Kind, onHand: int,
                         actor: Option<int>)
  {
    && (forall j :: 0 <= j < |written| ==>
          written[j].store == store && Closes(written[j], lines, order, kind, onHand, actor))
    && InLineOrder(written)
    && forall k :: 0 <= k < |lines| && Open(lines[k], store, order) ==> Cites(written, k)
  }

  /** The batter is poured: everything still promised is consumed, off the shelf and
      off the promise. */
  ghost predicate OrderCooked(before: Db, after: Db, order: nat, actor: Option<int>)
    requires order < |before.orders|
  {
    var store := before.orders[order];
    && after == before.(lines := after.lines, stock := after.stock, movements := after.movements)
    && |after.lines| == |before.lines|
    && (forall k :: 0 <= k < |before.lines| ==>
          var l := before.lines[k];
          after.lines[k] == if Open(l, store, order) then l.(consumed := l.reserved - l.released) else l)
    && |after.stock| == |before.stock|
    && (forall k :: 0 <= k < |before.stock| ==>
          var r := before.stock[k];
          var promised := StillPromised(before.lines, store, order, r.ingredient);
          after.stock[k] == if r.store != store then r
                            else r.(onHand := r.onHand - promised, reserved := r.reserved - promised))
    && before.movements <= after.movements
    && Closed(after.movements[|before.movements|..], before.lines, store, order, Consumption, -1, actor)
  }

  /** The promise is taken back: everything still promised is released, and nothing
      moves on or off a shelf. */
  ghost predicate OrderReleased(before: Db, after: Db, order: nat, actor: Option<int>)
    requires order < |before.orders|
  {
    var store := before.orders[order];
    && after == before.(lines := after.lines, stock := after.stock, movements := after.movements)
    && |after.lines| == |before.lines|
    && (forall k :: 0 <= k < |before.lines| ==>
          var l := before.lines[k];
          after.lines[k] == if Open(l, store, order) then l.(released := l.reserved - l.consumed) else l)
    && |after.stock| == |before.stock|
    && (forall k :: 0 <= k < |before.stock| ==>
          var r := before.stock[k];
          after.stock[k] == if r.store != store then r
                            else r.(reserved := r.reserved
                              - StillPromised(before.lines, store, order, r.ingredient)))
    && before.movements <= after.movements
    && Closed(after.movements[|before.movements|..], before.lines, store, order, ReservationReleased, 0, actor)
  }

  lemma DueIsPromised(lines: seq<Line>, store: int, order: nat, ingredient: int)
    ensures Sum(lines, Due(store, order, ingredient)) == StillPromised(lines, store, order, ingredient)
  {
    SumPointwise(lines, Due(store, order, ingredient), lines, (l: Line) =>
      if Open(l, store, order) && l.ingredient == ingredient then l.reserved - l.consumed - l.released else 0);
  }

  lemma {:induction false} SettlementRowsClose(lines: seq<Line>, store: int, order: nat, cooked: bool,
                                               actor: Option<int>)
    ensures var written := Settlements(lines, store, order, cooked, actor);
            forall j :: 0 <= j < |written| ==>
              written[j].store == store
              && Closes(written[j], lines, order, if cooked then Consumption else ReservationReleased,
                        if cooked then -1 else 0, actor)
  {
    SettlementRows(lines, order, store, cooked, actor);
  }

  lemma {:induction false} SettlementsInOrder(lines: seq<Line>, store: int, order: nat, cooked: bool,
                                              actor: Option<int>)
    ensures InLineOrder(Settlements(lines, store, order, cooked, actor))
  {
    if |lines| > 0 {
      SettlementsInOrder(lines[..|lines| - 1], store, order, cooked, actor);
      SettlementRows(lines[..|lines| - 1], order, store, cooked, actor);
    }
  }

  lemma {:induction false} EveryOpenLineCloses(lines: seq<Line>, store: int, order: nat, cooked: bool,
                                               actor: Option<int>, k: nat)
    requires k < |lines| && Open(lines[k], store, order)
    ensures Cites(Settlements(lines, store, order, cooked, actor), k)
  {
    var n := |lines| - 1;
    var front, written := Settlements(lines[..n], store, order, cooked, actor),
                          Settlements(lines, store, order, cooked, actor);
    if k < n {
      EveryOpenLineCloses(lines[..n], store, order, cooked, actor, k);
      var j :| 0 <= j < |front| && front[j].line == Some(k);
      assert written[j].line == Some(k);
    } else {
      assert written[|front|].line == Some(k);
    }
  }

  lemma SettlementsClose(lines: seq<Line>, store: int, order: nat, cooked: bool, actor: Option<int>)
    ensures Closed(Settlements(lines, store, order, cooked, actor), lines, store, order,
                   if cooked then Consumption else ReservationReleased, if cooked then -1 else 0, actor)
  {
    SettlementRowsClose(lines, store, order, cooked, actor);
    SettlementsInOrder(lines, store, order, cooked, actor);
    forall k | 0 <= k < |lines| && Open(lines[k], store, order)
      ensures Cites(Settlements(lines, store, order, cooked, actor), k)
    {
      EveryOpenLineCloses(lines, store, order, cooked, actor, k);
    }
  }

  lemma CookedInFull(db: Db, order: nat, actor: Option<int>)
    requires order < |db.orders|
    ensures OrderCooked(db, Settled(db, order, true, actor), order, actor)
  {
    var after := Settled(db, order, true, actor);
    forall k | 0 <= k < |db.stock|
      ensures after.stock[k] == SettledRow(db.stock[k], db.lines, db.orders[order], order, true)
      ensures Sum(db.lines, Due(db.orders[order], order, db.stock[k].ingredient)) ==
                StillPromised(db.lines, db.orders[order], order, db.stock[k].ingredient)
    {
      DueIsPromised(db.lines, db.orders[order], order, db.stock[k].ingredient);
    }
    SettlementsClose(db.lines, db.orders[order], order, true, actor);
    assert after.movements[|db.movements|..] == Settlements(db.lines, db.orders[order], order, true, actor);
  }

  lemma ReleasedInFull(db: Db, order: nat, actor: Option<int>)
    requires order < |db.orders|
    ensures OrderReleased(db, Settled(db, order, false, actor), order, actor)
  {
    var after := Settled(db, order, false, actor);
    forall k | 0 <= k < |db.stock|
      ensures after.stock[k] == SettledRow(db.stock[k], db.lines, db.orders[order], order, false)
      ensures Sum(db.lines, Due(db.orders[order], order, db.stock[k].ingredient)) ==
                StillPromised(db.lines, db.orders[order], order, db.stock[k].ingredient)
    {
      DueIsPromised(db.lines, db.orders[order], order, db.stock[k].ingredient);
    }
    SettlementsClose(db.lines, db.orders[order], order, false, actor);
    assert after.movements[|db.movements|..] == Settlements(db.lines, db.orders[order], order, false, actor);
  }

  /** Settling an order is either refused, for an unknown order or a shelf that is
      gone, or does all of it. */
  lemma SettlingIsAllOrNothing(c: Catalog, db: Db, order: nat, actor: Option<int>)
    ensures var (after, outcome) := Exec(c, db, StartPreparation(order, actor));
            if outcome.Done? then order < |db.orders| && outcome.id == order && OrderCooked(db, after, order, actor)
            else after == db
    ensures var (after, outcome) := Exec(c, db, CancelOrder(order, actor));
            if outcome.Done? then order < |db.orders| && outcome.id == order && OrderReleased(db, after, order, actor)
            else after == db
    ensures Exec(c, db, StartPreparation(order, actor)).1.Done? <==> Exec(c, db, CancelOrder(order, actor)).1.Done?
    ensures Exec(c, db, CancelOrder(order, actor)).1.Done? <==>
              && order < |db.orders|
              && forall k :: 0 <= k < |db.lines| && Open(db.lines[k], db.orders[order], order) ==>
                   exists j :: 0 <= j < |db.stock| && db.stock[j].store == db.orders[order]
                               && db.stock[j].ingredient == db.lines[k].ingredient
  {
    if order < |db.orders| {
      CookedInFull(db, order, actor);
      ReleasedInFull(db, order, actor);
      forall k | 0 <= k < |db.lines|
        ensures Open(db.lines[k], db.orders[order], order) <==> Pending(db.lines[k], db.orders[order], order)
        ensures Stocked(db.stock, db.orders[order], db.lines[k].ingredient) <==>
                  exists j :: 0 <= j < |db.stock| && db.stock[j].store == db.orders[order]
                              && db.stock[j].ingredient == db.lines[k].ingredient
      {
        if j :| 0 <= j < |db.stock| && db.stock[j].store == db.orders[order]
                && db.stock[j].ingredient == db.lines[k].ingredient {
          assert Shelves(db.stock[j], db.orders[order], db.lines[k].ingredient);
        }
      }
    }
  }

  /** Under the schema neither can be refused: every line has its shelf. */
  lemma SettlingSucceeds(c: Catalog, db: Db, order: nat, actor: Option<int>)
    requires RowsOk(c, db) && order < |db.orders|
    ensures Exec(c, db, StartPreparation(order, actor)).1 == Done(order)
    ensures Exec(c, db, CancelOrder(order, actor)).1 == Done(order)
  {
    forall k | 0 <= k < |db.lines| && Pending(db.lines[k], db.orders[order], order)
      ensures Stocked(db.stock, db.orders[order], db.lines[k].ingredient)
    {
      assert LineKeys(db, db.lines[k]);
    }
  }

  lemma LineOfItsOrder(c: Catalog, db: Db, order: nat, k: nat)
    requires RowsOk(c, db) && order < |db.orders| && k < |db.lines|
    ensures db.lines[k].reserved >= db.lines[k].consumed + db.lines[k].released
    ensures db.lines[k].order == order ==> db.lines[k].store == db.orders[order]
  {
    assert LineChecks(db.lines[k]) && LineKeys(db, db.lines[k]);
  }

  /** Under the schema, line by line: cooking consumes all that was not released,
      cancelling releases all that was not consumed, and the lines of other orders
      and the shelves of other stores are left alone. */
  lemma SettlingLineByLine(c: Catalog, db: Db, order: nat, actor: Option<int>, k: nat)
    requires RowsOk(c, db) && order < |db.orders| && k < |db.lines|
    ensures var l := db.lines[k];
            var cooked := Exec(c, db, StartPreparation(order, actor)).0.lines;
            var released := Exec(c, db, CancelOrder(order, actor)).0.lines;
            && k < |cooked| && k < |released|
            && cooked[k] == (if l.order == order then l.(consumed := l.reserved - l.released) else l)
            && released[k] == if l.order == order then l.(released := l.reserved - l.consumed) else l
  {
    LineOfItsOrder(c, db, order, k);
    SettlingSucceeds(c, db, order, actor);
    SettlingIsAllOrNothing(c, db, order, actor);
  }

  /** A command that was refused, or answered from an earlier row, writes nothing. */
  lemma RefusalsWriteNothing(c: Catalog, db: Db, command: Command)
    ensures !Exec(c, db, command).1.Done? ==> Exec(c, db, command).0 == db
  {
    match command
    case StartPreparation(order, actor) => SettlingIsAllOrNothing(c, db, order, actor);
    case CancelOrder(order, actor) => SettlingIsAllOrNothing(c, db, order, actor);
    case _ =>
  }
}
