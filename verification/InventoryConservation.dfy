/** What the committed transfers and counts say about physical stock: a transfer
    is exactly two ledger rows, shipping conserves the chain's stock, and the one
    hole in the pairing guarantee is an UPDATE of a transfer row. */
module InventoryConservation {
  import opened Tables
  import opened Text
  import opened Inventory

  // ── A transfer is two rows, never one, never three ─────────────────────────

  lemma LegsOf(c: Catalog, db: Db, id: nat) returns (leaving: nat, arriving: nat)
    requires RowsOk(c, db) && id < |db.transfers| && TransferPaired(db, id)
    ensures leaving < |db.movements| && arriving < |db.movements| && leaving != arriving
    ensures IsOutLeg(db.movements[leaving], id, db.transfers[id])
    ensures IsInLeg(db.movements[arriving], id, db.transfers[id])
    ensures forall k :: 0 <= k < |db.movements| ==>
              (db.movements[k].transfer == Some(id) <==> k == leaving || k == arriving)
  {
    var ms := db.movements;
    leaving := PositiveRow(ms, OutLegs(id, db.transfers[id]));
    arriving := PositiveRow(ms, InLegs(id, db.transfers[id]));
    forall k | 0 <= k < |ms| && ms[k].transfer == Some(id) ensures k == leaving || k == arriving {
      assert MovementChecks(ms[k]);
      if k < leaving { assert MayCoexist(ms[k], ms[leaving]); }
      if leaving < k { assert MayCoexist(ms[leaving], ms[k]); }
      if k < arriving { assert MayCoexist(ms[k], ms[arriving]); }
      if arriving < k { assert MayCoexist(ms[arriving], ms[k]); }
    }
  }

  // ── Editing a transfer row ─────────────────────────────────────────────────

  /** An UPDATE of one inventory_transfers row: no trigger listens for it. */
  function EditTransfer(db: Db, id: nat, t: Transfer): Db
    requires id < |db.transfers|
  {
    db.(transfers := db.transfers[id := t])
  }

  /** The legs' composite keys pin source, destination and ingredient; nothing
      pins the quantity. A committed edit leaves the transfer paired exactly
      when it leaves the quantity alone. */
  lemma EditedTransferStaysPaired(c: Catalog, db: Db, id: nat, t: Transfer)
    requires RowsOk(c, db) && AllPaired(db) && id < |db.transfers|
    requires RowsOk(c, EditTransfer(db, id, t))
    ensures TransferPaired(EditTransfer(db, id, t), id) <==> t.quantity == db.transfers[id].quantity
  {
    var edited := EditTransfer(db, id, t);
    var original := db.transfers[id];
    assert TransferPaired(db, id);
    var o, i := LegsOf(c, db, id);
    var ms := db.movements;
    assert MovementKeys(c, edited, ms[o]) && MovementKeys(c, edited, ms[i]);
    assert edited.transfers[id] == t && t.source == original.source && t.destination == original.destination
        && t.ingredient == original.ingredient;
    if t.quantity == original.quantity {
      SumPointwise(ms, OutLegs(id, original), ms, OutLegs(id, t));
      SumPointwise(ms, InLegs(id, original), ms, InLegs(id, t));
    } else {
      SumZero(ms, OutLegs(id, t));
    }
  }

  const BRANCHES := Catalog({1, 2}, map[7 := true], map[5 := Some(1)])

  function ExampleMovement(store: int, kind: Kind, quantity: int, delta: int, transfer: Option<nat>): Movement {
    Movement(store, 7, kind, quantity, delta, 0, None, None, Some("r"),
             if kind.TransferIn? then None else Some(5), None, None, transfer, None, false)
  }

  /** Two branches: 5.000 kg received, 2.000 kg of it shipped, and a transfer row
      that claims the given quantity. */
  function Shipment(claimed: int): Db {
    Db([], [], [StockRow(1, 7, 3000, 0), StockRow(2, 7, 2000, 0)], [],
       [ExampleMovement(1, PurchaseReceipt, 5000, 5000, None),
        ExampleMovement(1, TransferOut, 2000, -2000, Some(0)),
        ExampleMovement(2, TransferIn, 2000, 2000, Some(0))],
       [Transfer(1, 2, 7, claimed, "r", 5, "k", TransferBody(2, 7, claimed, "r", ""))], [])
  }

  lemma ShipmentMovementsOk(claimed: int)
    ensures forall k :: 0 <= k < |Shipment(claimed).movements| ==>
              MovementChecks(Shipment(claimed).movements[k])
              && MovementKeys(BRANCHES, Shipment(claimed), Shipment(claimed).movements[k])
  {
    var db := Shipment(claimed);
    assert !Blank("r") by { assert "r"[0] == 'r'; }
    assert Shelves(db.stock[0], 1, 7) && Shelves(db.stock[1], 2, 7);
    forall k | 0 <= k < |db.movements|
      ensures MovementChecks(db.movements[k]) && MovementKeys(BRANCHES, db, db.movements[k])
    {
      if k == 0 {
        assert MovementChecks(db.movements[0]) && MovementKeys(BRANCHES, db, db.movements[0]);
      } else if k == 1 {
        assert MovementChecks(db.movements[1]) && MovementKeys(BRANCHES, db, db.movements[1]);
      } else {
        assert MovementChecks(db.movements[2]) && MovementKeys(BRANCHES, db, db.movements[2]);
      }
    }
  }

  lemma ShipmentRowsOk(claimed: int)
    requires claimed > 0
    ensures RowsOk(BRANCHES, Shipment(claimed))
  {
    var db := Shipment(claimed);
    assert "r"[0] == 'r';
    assert Shelves(db.stock[0], 1, 7) && Shelves(db.stock[1], 2, 7);
    ShipmentMovementsOk(claimed);
  }

  /** Every constraint accepts an edit from 2.000 kg to 3.000 kg, and the transfer
      no longer matches its legs. */
  lemma AnEditCanBreakATransfer()
    ensures RowsOk(BRANCHES, Shipment(2000)) && AllPaired(Shipment(2000))
    ensures exists t :: RowsOk(BRANCHES, EditTransfer(Shipment(2000), 0, t))
              && !AllPaired(EditTransfer(Shipment(2000), 0, t))
  {
    var db, edited := Shipment(2000), Shipment(3000);
    ShipmentRowsOk(2000);
    ShipmentRowsOk(3000);
    SumSingle(db.movements, 1, OutLegs(0, db.transfers[0]));
    SumSingle(db.movements, 2, InLegs(0, db.transfers[0]));
    assert TransferPaired(db, 0);
    assert edited == EditTransfer(db, 0, edited.transfers[0]);
    EditedTransferStaysPaired(BRANCHES, db, 0, edited.transfers[0]);
    assert !TransferPaired(edited, 0);
  }

  // ── Conservation ───────────────────────────────────────────────────────────

  /** Every summary equals its own slice of the ledger: what reconcile() checks
      of on-hand, row by row. */
  ghost predicate OnHandAgrees(db: Db) {
    forall k :: 0 <= k < |db.stock| ==>
      db.stock[k].onHand == Sum(db.movements, OnHandOf(db.stock[k].store, db.stock[k].ingredient))
  }

  function ChainOnHand(ingredient: int): StockRow -> int {
    (r: StockRow) => if r.ingredient == ingredient then r.onHand else 0
  }

  function ChainDelta(ingredient: int): Movement -> int {
    (m: Movement) => if m.ingredient == ingredient then m.dOnHand else 0
  }

  function ShippedDelta(ingredient: int): Movement -> int {
    (m: Movement) => if m.ingredient == ingredient && m.kind.IsTransfer() then m.dOnHand else 0
  }

  function UnshippedDelta(ingredient: int): Movement -> int {
    (m: Movement) => if m.ingredient == ingredient && !m.kind.IsTransfer() then m.dOnHand else 0
  }

  /** How much movement m contributes to shelf r. */
  function OnShelf(ingredient: int): (StockRow, Movement) -> int {
    (r: StockRow, m: Movement) =>
      if r.ingredient == ingredient && Shelves(r, m.store, m.ingredient) then m.dOnHand else 0
  }

  lemma LedgerCoversTheShelves(c: Catalog, db: Db, ingredient: int)
    requires RowsOk(c, db) && OnHandAgrees(db)
    ensures Sum(db.stock, ChainOnHand(ingredient)) == Sum(db.movements, ChainDelta(ingredient))
  {
    var w := OnShelf(ingredient);
    forall k | 0 <= k < |db.stock|
      ensures ChainOnHand(ingredient)(db.stock[k]) == Across(db.movements, w)(db.stock[k])
    {
      var r := db.stock[k];
      var row := Row(w, r);
      if r.ingredient == ingredient {
        SumPointwise(db.movements, OnHandOf(r.store, r.ingredient), db.movements, row);
      } else {
        SumZero(db.movements, row);
      }
    }
    SumPointwise(db.stock, ChainOnHand(ingredient), db.stock, Across(db.movements, w));
    SumExchange(db.stock, db.movements, w);
    forall k | 0 <= k < |db.movements|
      ensures ChainDelta(ingredient)(db.movements[k]) == Down(db.stock, w)(db.movements[k])
    {
      var m := db.movements[k];
      assert MovementKeys(c, db, m);
      var shelf :| 0 <= shelf < |db.stock| && Shelves(db.stock[shelf], m.store, m.ingredient);
      SumSingle(db.stock, shelf, Column(w, m));
    }
    SumPointwise(db.movements, ChainDelta(ingredient), db.movements, Down(db.stock, w));
  }

  /** How much movement m, as a leg of transfer id, moves of the ingredient. */
  function OnLeg(ingredient: int): (int, Movement) -> int {
    (id: int, m: Movement) => if m.transfer.Some? && m.transfer.value == id && m.ingredient == ingredient then m.dOnHand
      else 0
  }

  lemma ShipmentsCancelOut(c: Catalog, db: Db, ingredient: int)
    requires RowsOk(c, db) && AllPaired(db)
    ensures Sum(db.movements, ShippedDelta(ingredient)) == 0
  {
    var w, ids := OnLeg(ingredient), Ids(|db.transfers|);
    forall k | 0 <= k < |db.movements|
      ensures ShippedDelta(ingredient)(db.movements[k]) == Down(ids, w)(db.movements[k])
    {
      var m := db.movements[k];
      assert MovementChecks(m) && MovementKeys(c, db, m);
      if m.transfer.Some? {
        SumSingle(ids, m.transfer.value, Column(w, m));
      } else {
        SumZero(ids, Column(w, m));
      }
    }
    SumPointwise(db.movements, ShippedDelta(ingredient), db.movements, Down(ids, w));
    SumExchange(ids, db.movements, w);
    forall k | 0 <= k < |ids| ensures Across(db.movements, w)(ids[k]) == 0 {
      assert TransferPaired(db, k);
      var o, i := LegsOf(c, db, k);
      var row := Row(w, k);
      if o < i { SumPair(db.movements, o, i, row); } else { SumPair(db.movements, i, o, row); }
    }
    SumZero(ids, Across(db.movements, w));
  }

  /** Shipping moves stock between branches and nothing else: the chain holds
      exactly what the non-transfer movements put there. */
  lemma TransfersConserveStock(c: Catalog, db: Db, ingredient: int)
    requires RowsOk(c, db) && AllPaired(db) && OnHandAgrees(db)
    ensures Sum(db.stock, ChainOnHand(ingredient)) == Sum(db.movements, UnshippedDelta(ingredient))
    ensures Sum(db.stock, (r: StockRow) => if r.ingredient == ingredient then r.onHand else 0) ==
              Sum(db.movements, (m: Movement) =>
                if m.ingredient == ingredient && m.kind != TransferOut && m.kind != TransferIn then m.dOnHand else 0)
  {
    forall k | 0 <= k < |db.movements| ensures MovementChecks(db.movements[k]) {}
    SumPointwise(db.stock, ChainOnHand(ingredient), db.stock, (r: StockRow) =>
      if r.ingredient == ingredient then r.onHand else 0);
    SumPointwise(db.movements, UnshippedDelta(ingredient), db.movements, (m: Movement) =>
      if m.ingredient == ingredient && m.kind != TransferOut && m.kind != TransferIn then m.dOnHand else 0);
    LedgerCoversTheShelves(c, db, ingredient);
    ShipmentsCancelOut(c, db, ingredient);
    SumAdd(db.movements, ShippedDelta(ingredient), UnshippedDelta(ingredient), ChainDelta(ingredient));
  }
}
