/** Every command keeps the books: the constraints hold, the three records of
    stock agree, transfers and counts stay matched — so what was promised to an
    accepted order is there when the kitchen asks for it. */
module InventorySafety {
  import opened Tables
  import opened Text
  import opened Inventory
  import opened InventoryCommands
  import opened InventoryConservation

  /** reconcile()'s reserved column, against the order lines and, beyond what the
      script compares, against the ledger. */
  ghost predicate ReservedAgrees(db: Db) {
    forall k :: 0 <= k < |db.stock| ==>
      var r := db.stock[k];
      && r.reserved == Sum(db.lines, OutstandingOf(r.store, r.ingredient))
      && r.reserved == Sum(db.movements, ReservedOf(r.store, r.ingredient))
  }

  /** The constraints hold and the three records of stock agree. */
  ghost predicate Booked(c: Catalog, db: Db) {
    match db
    case Db(_, _, _, _, _, _, _) => RowsOk(c, db) && OnHandAgrees(db) && ReservedAgrees(db)
  }

  ghost predicate Sound(c: Catalog, db: Db) {
    Booked(c, db) && AllPaired(db)
  }

  /** What a command owes: sound books after a commit PostgreSQL accepts. */
  ghost predicate Kept(c: Catalog, before: Db, after: Db) {
    match after
    case Db(_, _, _, _, _, _, _) => Sound(c, after) && Accepts(c, before, after)
  }

  // ── Rows that were there keep their references ─────────────────────────────

  ghost predicate SameKeys(a: Line, b: Line) {
    a.store == b.store && a.order == b.order && a.item == b.item && a.ingredient == b.ingredient
  }

  ghost predicate Extends(before: Db, after: Db) {
    match before
    case Db(orders, items, stock, lines, movements, transfers, counts) =>
      && orders <= after.orders && items <= after.items
      && movements <= after.movements && transfers <= after.transfers && counts <= after.counts
      && |lines| <= |after.lines|
      && (forall k :: 0 <= k < |lines| ==> SameKeys(lines[k], after.lines[k]))
      && |stock| <= |after.stock|
      && (forall k :: 0 <= k < |stock| ==> Shelves(after.stock[k], stock[k].store, stock[k].ingredient))
  }

  lemma StillStocked(before: Db, after: Db, store: int, ingredient: int)
    requires Extends(before, after) && Stocked(before.stock, store, ingredient)
    ensures Stocked(after.stock, store, ingredient)
  {
    var k :| 0 <= k < |before.stock| && Shelves(before.stock[k], store, ingredient);
    assert Shelves(after.stock[k], store, ingredient);
  }

  lemma OldRowsStand(c: Catalog, before: Db, after: Db)
    requires RowsOk(c, before) && Extends(before, after)
    ensures forall k :: 0 <= k < |before.movements| ==>
              MovementChecks(after.movements[k]) && MovementKeys(c, after, after.movements[k])
    ensures forall k :: 0 <= k < |before.transfers| ==> TransferOk(c, after, after.transfers[k])
    ensures forall k :: 0 <= k < |before.counts| ==> CountOk(c, after, after.counts[k])
    ensures forall k :: 0 <= k < |before.lines| ==> LineKeys(after, after.lines[k])
  {
    forall k | 0 <= k < |before.movements|
      ensures MovementChecks(after.movements[k]) && MovementKeys(c, after, after.movements[k])
    {
      var m := before.movements[k];
      assert after.movements[k] == m && MovementChecks(m) && MovementKeys(c, before, m);
      StillStocked(before, after, m.store, m.ingredient);
      if m.line.Some? { assert SameKeys(before.lines[m.line.value], after.lines[m.line.value]); }
    }
    forall k | 0 <= k < |before.transfers| ensures TransferOk(c, after, after.transfers[k]) {
      var t := before.transfers[k];
      assert after.transfers[k] == t && TransferOk(c, before, t);
      StillStocked(before, after, t.source, t.ingredient);
      StillStocked(before, after, t.destination, t.ingredient);
    }
    forall k | 0 <= k < |before.counts| ensures CountOk(c, after, after.counts[k]) {
      var n := before.counts[k];
      assert after.counts[k] == n && CountOk(c, before, n);
      StillStocked(before, after, n.store, n.ingredient);
    }
    forall k | 0 <= k < |before.lines| ensures LineKeys(after, after.lines[k]) {
      assert SameKeys(before.lines[k], after.lines[k]) && LineKeys(before, before.lines[k]);
      StillStocked(before, after, before.lines[k].store, before.lines[k].ingredient);
    }
  }

  lemma RefusalKeepsSound(c: Catalog, db: Db)
    requires Sound(c, db)
    ensures Kept(c, db, db)
  {}

  // ── One shelf, one ledger row ──────────────────────────────────────────────

  /** Moving a summary together with its ledger row keeps them in agreement. */
  lemma MovedAgrees(db: Db, shelf: nat, m: Movement)
    requires shelf < |db.stock| && UniqueShelves(db.stock)
    requires OnHandAgrees(db) && ReservedAgrees(db)
    requires Shelves(db.stock[shelf], m.store, m.ingredient) && m.dReserved == 0
    ensures OnHandAgrees(Moved(db, shelf, m)) && ReservedAgrees(Moved(db, shelf, m))
    ensures UniqueShelves(Moved(db, shelf, m).stock)
  {
    var after := Moved(db, shelf, m);
    forall k | 0 <= k < |after.stock|
      ensures var r := after.stock[k];
              && r.onHand == Sum(after.movements, OnHandOf(r.store, r.ingredient))
              && r.reserved == Sum(after.lines, OutstandingOf(r.store, r.ingredient))
              && r.reserved == Sum(after.movements, ReservedOf(r.store, r.ingredient))
    {
      var r := db.stock[k];
      if k < shelf { assert !Shelves(db.stock[k], db.stock[shelf].store, db.stock[shelf].ingredient); }
      if shelf < k { assert !Shelves(db.stock[shelf], db.stock[k].store, db.stock[k].ingredient); }
      SumAppend(db.movements, m, OnHandOf(r.store, r.ingredient));
      SumAppend(db.movements, m, ReservedOf(r.store, r.ingredient));
    }
    forall j, k | 0 <= j < k < |after.stock|
      ensures !Shelves(after.stock[j], after.stock[k].store, after.stock[k].ingredient)
    {
      assert !Shelves(db.stock[j], db.stock[k].store, db.stock[k].ingredient);
    }
  }

  /** The constraints after a shelf moved and its row was written. */
  lemma MovedRowsOk(c: Catalog, db: Db, shelf: nat, m: Movement)
    requires RowsOk(c, db) && shelf < |db.stock|
    requires StockChecks(db.stock[shelf].(onHand := db.stock[shelf].onHand + m.dOnHand))
    requires MovementChecks(m) && MovementKeys(c, db, m)
    requires forall k :: 0 <= k < |db.movements| ==> MayCoexist(db.movements[k], m)
    ensures RowsOk(c, Moved(db, shelf, m))
  {
    var after := Moved(db, shelf, m);
    OldRowsStand(c, db, after);
    StillStocked(db, after, m.store, m.ingredient);
    forall j, k | 0 <= j < k < |after.stock|
      ensures !Shelves(after.stock[j], after.stock[k].store, after.stock[k].ingredient)
    {
      assert !Shelves(db.stock[j], db.stock[k].store, db.stock[k].ingredient);
    }
  }

  /** A shelf moved with its row keeps the books. */
  lemma MovedKeepsBooks(c: Catalog, db: Db, shelf: nat, m: Movement)
    requires Booked(c, db) && shelf < |db.stock| && Shelves(db.stock[shelf], m.store, m.ingredient)
    requires db.stock[shelf].reserved <= db.stock[shelf].onHand + m.dOnHand && m.dReserved == 0
    requires MovementChecks(m) && MovementKeys(c, db, m)
    requires forall k :: 0 <= k < |db.movements| ==> MayCoexist(db.movements[k], m)
    ensures Booked(c, Moved(db, shelf, m))
  {
    assert StockChecks(db.stock[shelf]);
    MovedRowsOk(c, db, shelf, m);
    MovedAgrees(db, shelf, m);
  }

  /** A movement that belongs to no transfer and no count. */
  lemma MovedSound(c: Catalog, db: Db, shelf: nat, m: Movement)
    requires Sound(c, db) && shelf < |db.stock| && Shelves(db.stock[shelf], m.store, m.ingredient)
    requires db.stock[shelf].reserved <= db.stock[shelf].onHand + m.dOnHand && m.dReserved == 0
    requires MovementChecks(m) && MovementKeys(c, db, m) && m.transfer.None? && m.stockCount.None?
    requires forall k :: 0 <= k < |db.movements| ==> MayCoexist(db.movements[k], m)
    ensures Kept(c, db, Moved(db, shelf, m))
  {
    MovedKeepsBooks(c, db, shelf, m);
    IncrementalChecksAreGlobal(c, db, Moved(db, shelf, m));
  }

  lemma ManualKeepsSound(c: Catalog, db: Db, staff: Staff, kind: Kind, ingredient: int, quantity: int, delta: int,
                         reason: Option<string>, key: string, body: Request)
    requires Sound(c, db) && c.WorksAt(staff.user, staff.store)
    requires kind in {PurchaseReceipt, ManualAdjustment, Waste} && quantity > 0
    requires kind == PurchaseReceipt ==> delta == quantity
    requires kind == ManualAdjustment ==> Abs(delta) == quantity
    requires kind == Waste ==> delta == -quantity
    requires kind.NeedsReason() ==> reason.Some? && !Blank(reason.value)
    ensures Kept(c, db, Manual(c, db, staff, kind, ingredient, quantity, delta, reason, key, body).0)
  {
    RefusalKeepsSound(c, db);
    var after := Manual(c, db, staff, kind, ingredient, quantity, delta, reason, key, body).0;
    if Manual(c, db, staff, kind, ingredient, quantity, delta, reason, key, body).1.Done? {
      var shelf := Find(db.stock, ShelfAt(staff.store, ingredient));
      var m := Movement(staff.store, ingredient, kind, quantity, delta, 0, None, None, reason,
                        Some(staff.user), Some(key), Some(body), None, None, false);
      assert Shelves(db.stock[shelf], staff.store, ingredient) && StockChecks(db.stock[shelf]);
      MovedSound(c, db, shelf, m);
    }
  }

  // ── Transfers ──────────────────────────────────────────────────────────────

  /** Materialising an empty shelf changes no total: nothing could cite it. */
  lemma NothingCitesAMissingShelf(c: Catalog, db: Db, store: int, ingredient: int)
    requires RowsOk(c, db) && !Stocked(db.stock, store, ingredient)
    ensures Sum(db.movements, OnHandOf(store, ingredient)) == 0
    ensures Sum(db.movements, ReservedOf(store, ingredient)) == 0
    ensures Sum(db.lines, OutstandingOf(store, ingredient)) == 0
  {
    forall k | 0 <= k < |db.movements|
      ensures OnHandOf(store, ingredient)(db.movements[k]) == 0 && ReservedOf(store, ingredient)(db.movements[k]) == 0
    {
      assert MovementKeys(c, db, db.movements[k]);
    }
    forall k | 0 <= k < |db.lines| ensures OutstandingOf(store, ingredient)(db.lines[k]) == 0 {
      assert LineKeys(db, db.lines[k]);
    }
    SumZero(db.movements, OnHandOf(store, ingredient));
    SumZero(db.movements, ReservedOf(store, ingredient));
    SumZero(db.lines, OutstandingOf(store, ingredient));
  }

  lemma ShelfRowsOk(c: Catalog, db: Db, store: int, ingredient: int)
    requires RowsOk(c, db) && !Stocked(db.stock, store, ingredient)
    ensures RowsOk(c, db.(stock := db.stock + [StockRow(store, ingredient, 0, 0)]))
  {
    var after := db.(stock := db.stock + [StockRow(store, ingredient, 0, 0)]);
    OldRowsStand(c, db, after);
    assert UniqueShelves(after.stock) by {
      forall j, k | 0 <= j < k < |after.stock|
        ensures !Shelves(after.stock[j], after.stock[k].store, after.stock[k].ingredient)
      {
        if k < |db.stock| { assert !Shelves(db.stock[j], db.stock[k].store, db.stock[k].ingredient); }
      }
    }
  }

  lemma ShelfKeepsBooks(c: Catalog, db: Db, store: int, ingredient: int)
    requires Booked(c, db)
    ensures var after := db.(stock := WithShelf(db.stock, store, ingredient));
            Booked(c, after)
  {
    var after := db.(stock := WithShelf(db.stock, store, ingredient));
    if after != db {
      assert !Stocked(db.stock, store, ingredient);
      NothingCitesAMissingShelf(c, db, store, ingredient);
      ShelfRowsOk(c, db, store, ingredient);
    }
  }

  /** A new transfer and its two legs are matched, each exactly once. */
  lemma NewTransferPaired(db: Db, after: Db, leaving: Movement, arriving: Movement)
    requires |after.transfers| == |db.transfers| + 1
    requires after.movements == db.movements + [leaving] + [arriving]
    requires forall k :: 0 <= k < |db.movements| ==> db.movements[k].transfer != Some(|db.transfers|)
    requires IsOutLeg(leaving, |db.transfers|, after.transfers[|db.transfers|])
    requires IsInLeg(arriving, |db.transfers|, after.transfers[|db.transfers|])
    ensures TransferPaired(after, |db.transfers|)
  {
    var id, t, n := |db.transfers|, after.transfers[|db.transfers|], |db.movements|;
    SumSingle(after.movements, n, OutLegs(id, t));
    SumSingle(after.movements, n + 1, InLegs(id, t));
  }

  /** A leg, posted on its shelf. */
  ghost predicate LegOk(c: Catalog, db: Db, shelf: nat, m: Movement) {
    && shelf < |db.stock| && Shelves(db.stock[shelf], m.store, m.ingredient)
    && db.stock[shelf].reserved <= db.stock[shelf].onHand + m.dOnHand && m.dReserved == 0
    && MovementChecks(m) && MovementKeys(c, db, m) && m.key.None? && m.stockCount.None?
  }

  lemma OtherLegStands(c: Catalog, db: Db, from: nat, to: nat, leaving: Movement, arriving: Movement)
    requires from < |db.stock| && from != to && LegOk(c, db, to, arriving)
    ensures LegOk(c, Moved(db, from, leaving), to, arriving)
  {
    StillStocked(db, Moved(db, from, leaving), arriving.store, arriving.ingredient);
  }

  /** Both legs posted on their shelves, for a transfer already listed. */
  lemma LegsKeepBooks(c: Catalog, db: Db, from: nat, to: nat, leaving: Movement, arriving: Movement)
    requires Booked(c, db) && from != to && LegOk(c, db, from, leaving) && LegOk(c, db, to, arriving)
    requires leaving.kind != arriving.kind
    requires forall k :: 0 <= k < |db.movements| ==>
               db.movements[k].transfer != leaving.transfer && db.movements[k].transfer != arriving.transfer
    ensures Booked(c, Moved(Moved(db, from, leaving), to, arriving))
  {
    MovedKeepsBooks(c, db, from, leaving);
    OtherLegStands(c, db, from, to, leaving, arriving);
    MovedKeepsBooks(c, Moved(db, from, leaving), to, arriving);
  }

  lemma TransferLegsOk(c: Catalog, db: Db, from: nat, to: nat, t: Transfer)
    requires RowsOk(c, db) && |db.transfers| > 0 && db.transfers[|db.transfers| - 1] == t
    requires from < |db.stock| && to < |db.stock| && t.quantity <= db.stock[from].Available()
    requires Shelves(db.stock[from], t.source, t.ingredient) && Shelves(db.stock[to], t.destination, t.ingredient)
    requires t.quantity > 0 && !Blank(t.reason) && c.WorksAt(t.initiator, t.source)
    ensures LegOk(c, db, from, OutLeg(t, |db.transfers| - 1)) && LegOk(c, db, to, InLeg(t, |db.transfers| - 1))
  {
    assert StockChecks(db.stock[to]);
  }

  lemma ShippedKeepsBooks(c: Catalog, db: Db, from: nat, to: nat, t: Transfer)
    requires Booked(c, db) && |db.transfers| > 0 && db.transfers[|db.transfers| - 1] == t
    requires from < |db.stock| && to < |db.stock| && t.quantity <= db.stock[from].Available()
    requires t.source != t.destination
    requires Shelves(db.stock[from], t.source, t.ingredient) && Shelves(db.stock[to], t.destination, t.ingredient)
    requires t.quantity > 0 && !Blank(t.reason) && c.WorksAt(t.initiator, t.source)
    requires forall k :: 0 <= k < |db.movements| ==> db.movements[k].transfer != Some(|db.transfers| - 1)
    ensures var id := |db.transfers| - 1;
            Booked(c, Moved(Moved(db, from, OutLeg(t, id)), to, InLeg(t, id)))
  {
    TransferLegsOk(c, db, from, to, t);
    LegsKeepBooks(c, db, from, to, OutLeg(t, |db.transfers| - 1), InLeg(t, |db.transfers| - 1));
  }

  lemma ListedOk(c: Catalog, db: Db, t: Transfer)
    requires RowsOk(c, db) && TransferOk(c, db, t)
    requires forall k :: 0 <= k < |db.transfers| ==> db.transfers[k].source != t.source || db.transfers[k].key != t.key
    ensures RowsOk(c, db.(transfers := db.transfers + [t]))
  {
    var listed := db.(transfers := db.transfers + [t]);
    OldRowsStand(c, db, listed);
  }

  /** The transfer row, listed with both its shelves in place. */
  lemma ListedBooks(c: Catalog, db: Db, stock: seq<StockRow>, t: Transfer)
    requires Booked(c, db) && stock == WithShelf(db.stock, t.destination, t.ingredient)
    requires Stocked(stock, t.source, t.ingredient) && Stocked(stock, t.destination, t.ingredient)
    requires t.quantity > 0 && t.source != t.destination && !Blank(t.reason) && c.WorksAt(t.initiator, t.source)
    requires forall k :: 0 <= k < |db.transfers| ==> db.transfers[k].source != t.source || db.transfers[k].key != t.key
    ensures Booked(c, db.(stock := stock).(transfers := db.transfers + [t]))
  {
    ShelfKeepsBooks(c, db, t.destination, t.ingredient);
    ListedOk(c, db.(stock := stock), t);
  }

  lemma UncitedTransfer(c: Catalog, db: Db)
    requires RowsOk(c, db)
    ensures forall k :: 0 <= k < |db.movements| ==> db.movements[k].transfer != Some(|db.transfers|)
  {
    forall k | 0 <= k < |db.movements| ensures db.movements[k].transfer != Some(|db.transfers|) {
      assert MovementKeys(c, db, db.movements[k]);
    }
  }

  lemma ShipmentAccepted(c: Catalog, db: Db, after: Db)
    requires AllPaired(db) && Booked(c, after) && db.counts == after.counts
    requires |after.transfers| == |db.transfers| + 1 && db.transfers <= after.transfers
    requires db.movements <= after.movements && TransferPaired(after, |db.transfers|)
    requires forall k :: |db.movements| <= k < |after.movements| ==>
               after.movements[k].transfer == Some(|db.transfers|) && after.movements[k].stockCount.None?
    ensures Kept(c, db, after)
  {
    IncrementalChecksAreGlobal(c, db, after);
  }

  lemma ShipmentBooked(c: Catalog, db: Db, stock: seq<StockRow>, from: nat, to: nat, t: Transfer)
    requires Booked(c, db) && stock == WithShelf(db.stock, t.destination, t.ingredient)
    requires from < |stock| && to < |stock| && t.quantity <= stock[from].Available()
    requires Shelves(stock[from], t.source, t.ingredient) && Shelves(stock[to], t.destination, t.ingredient)
    requires t.quantity > 0 && t.source != t.destination && !Blank(t.reason) && c.WorksAt(t.initiator, t.source)
    requires forall k :: 0 <= k < |db.transfers| ==> db.transfers[k].source != t.source || db.transfers[k].key != t.key
    ensures Booked(c, Shipped(db.(stock := stock), from, to, t))
  {
    ListedBooks(c, db, stock, t);
    UncitedTransfer(c, db);
    ShippedKeepsBooks(c, db.(stock := stock).(transfers := db.transfers + [t]), from, to, t);
  }

  lemma ShipmentPaired(c: Catalog, db: Db, stock: seq<StockRow>, from: nat, to: nat, t: Transfer)
    requires RowsOk(c, db) && from < |stock| && to < |stock|
    ensures TransferPaired(Shipped(db.(stock := stock), from, to, t), |db.transfers|)
  {
    UncitedTransfer(c, db);
    NewTransferPaired(db, Shipped(db.(stock := stock), from, to, t), OutLeg(t, |db.transfers|),
                      InLeg(t, |db.transfers|));
  }

  /** What a shipment adds: one transfer and the two rows that cite it. */
  lemma ShipmentAdds(db: Db, stock: seq<StockRow>, from: nat, to: nat, t: Transfer)
    requires from < |stock| && to < |stock|
    ensures var after := Shipped(db.(stock := stock), from, to, t);
            && after.counts == db.counts && |after.transfers| == |db.transfers| + 1 && db.transfers <= after.transfers
            && db.movements <= after.movements
            && forall k :: |db.movements| <= k < |after.movements| ==>
                 after.movements[k].transfer == Some(|db.transfers|) && after.movements[k].stockCount.None?
  {}

  lemma ShipmentSound(c: Catalog, db: Db, stock: seq<StockRow>, from: nat, to: nat, t: Transfer)
    requires Sound(c, db) && stock == WithShelf(db.stock, t.destination, t.ingredient)
    requires from < |stock| && to < |stock| && t.quantity <= stock[from].Available()
    requires Shelves(stock[from], t.source, t.ingredient) && Shelves(stock[to], t.destination, t.ingredient)
    requires t.quantity > 0 && t.source != t.destination && !Blank(t.reason) && c.WorksAt(t.initiator, t.source)
    requires forall k :: 0 <= k < |db.transfers| ==> db.transfers[k].source != t.source || db.transfers[k].key != t.key
    ensures Kept(c, db, Shipped(db.(stock := stock), from, to, t))
  {
    ShipmentBooked(c, db, stock, from, to, t);
    ShipmentPaired(c, db, stock, from, to, t);
    ShipmentAdds(db, stock, from, to, t);
    ShipmentAccepted(c, db, Shipped(db.(stock := stock), from, to, t));
  }

  lemma DispatchKeepsSound(c: Catalog, db: Db, t: Transfer)
    requires Sound(c, db) && c.WorksAt(t.initiator, t.source)
    requires t.quantity > 0 && t.source != t.destination && !Blank(t.reason)
    requires forall k :: 0 <= k < |db.transfers| ==> db.transfers[k].source != t.source || db.transfers[k].key != t.key
    ensures Kept(c, db, Dispatch(c, db, t).0)
  {
    if Dispatch(c, db, t).1.Done? {
      var stock := WithShelf(db.stock, t.destination, t.ingredient);
      var from, to := Find(stock, ShelfAt(t.source, t.ingredient)), Find(stock, ShelfAt(t.destination, t.ingredient));
      ShipmentSound(c, db, stock, from, to, t);
    } else {
      RefusalKeepsSound(c, db);
    }
  }

  lemma ShipKeepsSound(c: Catalog, db: Db, staff: Staff, destination: int, ingredient: int, quantity: int,
                       reason: string, note: string, key: string)
    requires Sound(c, db) && c.WorksAt(staff.user, staff.store)
    ensures Kept(c, db, ShipStep(c, db, staff, destination, ingredient, quantity, reason, note, key).0)
  {
    RefusalKeepsSound(c, db);
    var why, k := Strip(reason), Strip(key);
    if k != "" && quantity > 0 && why != "" && destination != staff.store
       && Find(db.transfers, TransferKeyed(staff.store, k)) == |db.transfers| {
      DispatchKeepsSound(c, db, Transfer(staff.store, destination, ingredient, quantity, why, staff.user, k,
                                         TransferBody(destination, ingredient, quantity, why, Strip(note))));
    }
  }

  // ── Counts ─────────────────────────────────────────────────────────────────

  lemma RecordedOk(c: Catalog, db: Db, n: StockCount)
    requires RowsOk(c, db) && CountOk(c, db, n)
    requires forall k :: 0 <= k < |db.counts| ==> db.counts[k].store != n.store || db.counts[k].key != n.key
    ensures RowsOk(c, db.(counts := db.counts + [n]))
  {
    OldRowsStand(c, db, db.(counts := db.counts + [n]));
  }

  lemma CountMoves(c: Catalog, db: Db, shelf: nat, id: nat, m: Movement)
    requires Booked(c, db)
    requires shelf < |db.stock| && Shelves(db.stock[shelf], m.store, m.ingredient)
    requires id < |db.counts| && IsCorrection(m, id, db.counts[id]) && db.counts[id].Delta() != 0
    requires MovementChecks(m) && m.transfer.None? && m.key.None? && m.order.None? && m.line.None?
    requires m.actor.Some? ==> c.WorksAt(m.actor.value, m.store)
    requires db.stock[shelf].reserved <= db.stock[shelf].onHand + m.dOnHand
    requires forall k :: 0 <= k < |db.movements| ==> db.movements[k].stockCount != Some(id)
    ensures var after := Moved(db, shelf, m);
            Booked(c, after) && CountMatched(after, id)
  {
    var after := Moved(db, shelf, m);
    assert StockChecks(db.stock[shelf]);
    MovedRowsOk(c, db, shelf, m);
    MovedAgrees(db, shelf, m);
    SumSingle(after.movements, |db.movements|, Corrections(id, db.counts[id]));
    SumSingle(after.movements, |db.movements|, Citing(id));
  }

  lemma RecordedMatches(c: Catalog, db: Db, shelf: nat, n: StockCount)
    requires Booked(c, db) && CountOk(c, db, n)
    requires forall k :: 0 <= k < |db.counts| ==> db.counts[k].store != n.store || db.counts[k].key != n.key
    requires shelf < |db.stock| && Shelves(db.stock[shelf], n.store, n.ingredient)
    requires n.systemOnHand == db.stock[shelf].onHand && n.systemReserved == db.stock[shelf].reserved
    ensures Booked(c, Recorded(db, shelf, n)) && CountMatched(Recorded(db, shelf, n), |db.counts|)
  {
    var id, after := |db.counts|, Recorded(db, shelf, n);
    var recorded := db.(counts := db.counts + [n]);
    RecordedOk(c, db, n);
    assert Booked(c, recorded);
    forall k | 0 <= k < |db.movements| ensures db.movements[k].stockCount != Some(id) {
      assert MovementKeys(c, db, db.movements[k]);
    }
    if n.Delta() == 0 {
      SumZero(after.movements, Citing(id));
    } else {
      CountMoves(c, recorded, shelf, id, Correction(n, id));
    }
  }

  lemma CountAccepted(c: Catalog, db: Db, after: Db)
    requires AllPaired(db) && RowsOk(c, after) && db.transfers == after.transfers
    requires |after.counts| == |db.counts| + 1 && db.counts <= after.counts
    requires db.movements <= after.movements && CountMatched(after, |db.counts|)
    requires forall k :: |db.movements| <= k < |after.movements| ==>
               after.movements[k].stockCount == Some(|db.counts|) && after.movements[k].transfer.None?
    ensures Accepts(c, db, after) && AllPaired(after)
  {
    IncrementalChecksAreGlobal(c, db, after);
  }

  lemma CountSound(c: Catalog, db: Db, shelf: nat, n: StockCount)
    requires Sound(c, db) && CountOk(c, db, n)
    requires forall k :: 0 <= k < |db.counts| ==> db.counts[k].store != n.store || db.counts[k].key != n.key
    requires shelf < |db.stock| && Shelves(db.stock[shelf], n.store, n.ingredient)
    requires n.systemOnHand == db.stock[shelf].onHand && n.systemReserved == db.stock[shelf].reserved
    ensures Kept(c, db, Recorded(db, shelf, n))
  {
    RecordedMatches(c, db, shelf, n);
    CountAccepted(c, db, Recorded(db, shelf, n));
  }

  /** The count an accepted command records. */
  function CountOf(db: Db, shelf: nat, staff: Staff, ingredient: int, counted: int, reason: string, note: string,
                   key: string): StockCount
    requires shelf < |db.stock|
  {
    StockCount(staff.store, ingredient, counted, db.stock[shelf].onHand, db.stock[shelf].reserved, Strip(reason),
               staff.user, Strip(key), CountBody(ingredient, counted, Strip(reason), Strip(note)))
  }

  lemma CountCases(c: Catalog, db: Db, staff: Staff, ingredient: int, counted: int, reason: string, note: string,
                   key: string)
    ensures var (after, outcome) := CountStep(c, db, staff, ingredient, counted, reason, note, key);
            var shelf := Find(db.stock, ShelfAt(staff.store, ingredient));
            if outcome.Done?
            then && shelf < |db.stock| && Shelves(db.stock[shelf], staff.store, ingredient)
                 && counted >= 0 && db.stock[shelf].reserved <= counted && Strip(reason) != ""
                 && (forall k :: 0 <= k < |db.counts| ==>
                       db.counts[k].store != staff.store || db.counts[k].key != Strip(key))
                 && after == Recorded(db, shelf, CountOf(db, shelf, staff, ingredient, counted, reason, note, key))
            else after == db
  {
    var keyed := Find(db.counts, CountKeyed(staff.store, Strip(key)));
    forall k | 0 <= k < keyed ensures !CountKeyed(staff.store, Strip(key))(db.counts[k]) {}
  }

  lemma CountKeepsSound(c: Catalog, db: Db, staff: Staff, ingredient: int, counted: int, reason: string, note: string,
                        key: string)
    requires Sound(c, db) && c.WorksAt(staff.user, staff.store)
    ensures Kept(c, db, CountStep(c, db, staff, ingredient, counted, reason, note, key).0)
  {
    CountCases(c, db, staff, ingredient, counted, reason, note, key);
    if CountStep(c, db, staff, ingredient, counted, reason, note, key).1.Done? {
      var shelf := Find(db.stock, ShelfAt(staff.store, ingredient));
      assert StockChecks(db.stock[shelf]);
      CountSound(c, db, shelf, CountOf(db, shelf, staff, ingredient, counted, reason, note, key));
    } else {
      RefusalKeepsSound(c, db);
    }
  }
}
