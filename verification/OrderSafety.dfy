/** The order lifecycle: reserving claims only what is available, and settling an
    order — cooking it or cancelling it — always finds what was promised. */
module OrderSafety {
  import opened Tables
  import opened Inventory
  import opened InventoryCommands
  import opened InventoryConservation
  import opened InventorySafety

  // ── Aggregation ────────────────────────────────────────────────────────────

  predicate DistinctLines(needs: seq<Need>) {
    forall j, k :: 0 <= j < k < |needs| ==> !SameLine(needs[k].item, needs[k].ingredient)(needs[j])
  }

  /** Aggregating to one requirement per (item, ingredient) loses and invents
      nothing, ingredient by ingredient. */
  lemma {:induction false} AggregateKeepsTotals(needs: seq<Need>, ingredient: int)
    ensures Sum(Aggregate(needs), QuantityOf(ingredient)) == Sum(needs, QuantityOf(ingredient))
  {
    if |needs| > 0 {
      var front, last := needs[..|needs| - 1], needs[|needs| - 1];
      AggregateKeepsTotals(front, ingredient);
      var sofar := Aggregate(front);
      var k := Find(sofar, SameLine(last.item, last.ingredient));
      if k < |sofar| {
        SumUpdate(sofar, k, sofar[k].(quantity := sofar[k].quantity + last.quantity), QuantityOf(ingredient));
      } else {
        SumAppend(sofar, last, QuantityOf(ingredient));
      }
    }
  }

  lemma {:induction false} AggregateIsDistinct(needs: seq<Need>)
    ensures DistinctLines(Aggregate(needs))
    ensures forall j :: 0 <= j < |Aggregate(needs)| ==>
              exists k :: 0 <= k < |needs|
                  && SameLine(Aggregate(needs)[j].item, Aggregate(needs)[j].ingredient)(needs[k])
  {
    if |needs| > 0 {
      var n := |needs| - 1;
      var front, last := needs[..n], needs[n];
      AggregateIsDistinct(front);
      var sofar, all := Aggregate(front), Aggregate(needs);
      forall j | 0 <= j < |all|
        ensures exists k :: 0 <= k < |needs| && SameLine(all[j].item, all[j].ingredient)(needs[k])
      {
        if j < |sofar| {
          var k :| 0 <= k < |front| && SameLine(sofar[j].item, sofar[j].ingredient)(front[k]);
          assert SameLine(all[j].item, all[j].ingredient)(needs[k]);
        } else {
          assert SameLine(all[j].item, all[j].ingredient)(needs[n]);
        }
      }
      forall j, k | 0 <= j < k < |all| ensures !SameLine(all[k].item, all[k].ingredient)(all[j]) {
        if k < |sofar| { assert !SameLine(sofar[k].item, sofar[k].ingredient)(sofar[j]); }
      }
    }
  }

  lemma {:induction false} PositiveKeepsTotals(needs: seq<Need>, ingredient: int)
    ensures Sum(Positive(needs), QuantityOf(ingredient)) == Sum(needs, QuantityOf(ingredient))
  {
    if |needs| > 0 {
      var front, last := needs[..|needs| - 1], needs[|needs| - 1];
      PositiveKeepsTotals(front, ingredient);
      if last.quantity > 0 {
        SumAppend(Positive(front), last, QuantityOf(ingredient));
      }
    }
  }

  /** What the needs ask of one ingredient for one item. */
  function Wanted(item: nat, ingredient: int): Need -> int {
    (n: Need) => if n.item == item && n.ingredient == ingredient then n.quantity else 0
  }

  /** Nor is a quantity moved from one item to another. */
  lemma {:induction false} AggregateKeepsEachPair(needs: seq<Need>, item: nat, ingredient: int)
    ensures Sum(Aggregate(needs), Wanted(item, ingredient)) == Sum(needs, Wanted(item, ingredient))
  {
    if |needs| > 0 {
      var front, last := needs[..|needs| - 1], needs[|needs| - 1];
      AggregateKeepsEachPair(front, item, ingredient);
      var sofar := Aggregate(front);
      var k := Find(sofar, SameLine(last.item, last.ingredient));
      if k < |sofar| {
        SumUpdate(sofar, k, sofar[k].(quantity := sofar[k].quantity + last.quantity), Wanted(item, ingredient));
      } else {
        SumAppend(sofar, last, Wanted(item, ingredient));
      }
    }
  }

  lemma {:induction false} PositiveKeepsEachPair(needs: seq<Need>, item: nat, ingredient: int)
    ensures Sum(Positive(needs), Wanted(item, ingredient)) == Sum(needs, Wanted(item, ingredient))
  {
    if |needs| > 0 {
      var front, last := needs[..|needs| - 1], needs[|needs| - 1];
      PositiveKeepsEachPair(front, item, ingredient);
      if last.quantity > 0 {
        SumAppend(Positive(front), last, Wanted(item, ingredient));
      }
    }
  }

  lemma {:induction false} PositiveRows(needs: seq<Need>)
    ensures forall j :: 0 <= j < |Positive(needs)| ==> Positive(needs)[j].quantity > 0 && Positive(needs)[j] in needs
  {
    if |needs| > 0 {
      PositiveRows(needs[..|needs| - 1]);
    }
  }

  lemma DistinctAppend(some: seq<Need>, needs: seq<Need>, n: nat)
    requires DistinctLines(needs) && n < |needs| && DistinctLines(some)
    requires forall j :: 0 <= j < |some| ==> some[j] in needs[..n]
    ensures DistinctLines(some + [needs[n]])
  {
    forall j | 0 <= j < |some| ensures !SameLine(needs[n].item, needs[n].ingredient)(some[j]) {
      var i :| 0 <= i < n && needs[i] == some[j];
    }
  }

  lemma {:induction false} PositiveIsDistinct(needs: seq<Need>)
    requires DistinctLines(needs)
    ensures DistinctLines(Positive(needs))
  {
    if |needs| > 0 {
      var n := |needs| - 1;
      PositiveIsDistinct(needs[..n]);
      PositiveRows(needs[..n]);
      if needs[n].quantity > 0 {
        DistinctAppend(Positive(needs[..n]), needs, n);
      }
    }
  }

  // ── Placing an order ───────────────────────────────────────────────────────

  lemma {:induction false} RequiredTotals(needs: seq<Need>, ingredient: int)
    ensures Sum(Required(needs), QuantityOf(ingredient)) == Sum(needs, QuantityOf(ingredient))
  {
    AggregateKeepsTotals(needs, ingredient);
    PositiveKeepsTotals(Aggregate(needs), ingredient);
  }

  lemma RequiredRows(needs: seq<Need>, itemCount: nat)
    requires forall k :: 0 <= k < |needs| ==> needs[k].item < itemCount
    ensures DistinctLines(Required(needs))
    ensures forall j :: 0 <= j < |Required(needs)| ==>
              var r := Required(needs)[j];
              && r.quantity > 0 && r.item < itemCount
              && exists k :: 0 <= k < |needs| && needs[k].ingredient == r.ingredient
  {
    AggregateIsDistinct(needs);
    PositiveIsDistinct(Aggregate(needs));
    PositiveRows(Aggregate(needs));
    forall j | 0 <= j < |Required(needs)|
      ensures var r := Required(needs)[j];
              && r.quantity > 0 && r.item < itemCount
              && exists k :: 0 <= k < |needs| && needs[k].ingredient == r.ingredient
    {
      var r := Required(needs)[j];
      var i :| 0 <= i < |Aggregate(needs)| && Aggregate(needs)[i] == r;
      var k :| 0 <= k < |needs| && SameLine(r.item, r.ingredient)(needs[k]);
    }
  }

  /** What every shelf must hold for the order to be accepted. */
  ghost predicate Available(stock: seq<StockRow>, store: int, required: seq<Need>) {
    && (forall j :: 0 <= j < |required| ==> Stocked(stock, store, required[j].ingredient))
    && (forall k :: 0 <= k < |stock| && stock[k].store == store ==>
          0 <= Sum(required, QuantityOf(stock[k].ingredient)) <= stock[k].Available())
  }

  /** Looking up a shelf by its key finds that row. */
  lemma {:induction false} TheShelf(stock: seq<StockRow>, k: nat)
    requires UniqueShelves(stock) && k < |stock|
    ensures Find(stock, ShelfAt(stock[k].store, stock[k].ingredient)) == k
  {
    var shelf := Find(stock, ShelfAt(stock[k].store, stock[k].ingredient));
    assert ShelfAt(stock[k].store, stock[k].ingredient)(stock[k]);
    assert shelf <= k;
  }

  lemma AcceptedOrdersAreAvailable(c: Catalog, db: Db, store: int, itemCount: nat, needs: seq<Need>)
    requires RowsOk(c, db) && forall k :: 0 <= k < |needs| ==> needs[k].item < itemCount
    requires forall k :: 0 <= k < |needs| ==> !Short(db, store, needs, needs[k].ingredient)
    ensures Available(db.stock, store, Required(needs))
  {
    RequiredRows(needs, itemCount);
    forall j | 0 <= j < |Required(needs)| ensures Stocked(db.stock, store, Required(needs)[j].ingredient) {
      var k :| 0 <= k < |needs| && needs[k].ingredient == Required(needs)[j].ingredient;
      assert !Short(db, store, needs, needs[k].ingredient);
      var shelf := Find(db.stock, ShelfAt(store, needs[k].ingredient));
      assert Shelves(db.stock[shelf], store, needs[k].ingredient);
    }
    forall k | 0 <= k < |db.stock| && db.stock[k].store == store
      ensures 0 <= Sum(Required(needs), QuantityOf(db.stock[k].ingredient)) <= db.stock[k].Available()
    {
      var i := db.stock[k].ingredient;
      RequiredTotals(needs, i);
      SumNonneg(needs, QuantityOf(i));
      assert StockChecks(db.stock[k]);
      if j :| 0 <= j < |needs| && needs[j].ingredient == i {
        assert !Short(db, store, needs, needs[j].ingredient);
        TheShelf(db.stock, k);
      } else {
        SumZero(needs, QuantityOf(i));
      }
    }
  }

  lemma SameShelvesUnique(stock: seq<StockRow>, after: seq<StockRow>)
    requires |stock| == |after| && UniqueShelves(stock)
    requires forall k :: 0 <= k < |stock| ==> Shelves(after[k], stock[k].store, stock[k].ingredient)
    ensures UniqueShelves(after)
  {
    forall j, k | 0 <= j < k < |after| ensures !Shelves(after[j], after[k].store, after[k].ingredient) {
      assert !Shelves(stock[j], stock[k].store, stock[k].ingredient);
      assert Shelves(after[j], stock[j].store, stock[j].ingredient)
          && Shelves(after[k], stock[k].store, stock[k].ingredient);
    }
  }

  lemma NewLineOk(c: Catalog, db: Db, after: Db, store: int, n: Need)
    requires Stocked(after.stock, store, n.ingredient) && n.quantity > 0
    requires |db.orders| < |after.orders| && after.orders[|db.orders|] == store && |db.items| + n.item < |after.items|
    ensures var l := NewLine(store, |db.orders|, |db.items|, n);
            LineChecks(l) && LineKeys(after, l)
  {}

  lemma NewReservationOk(c: Catalog, db: Db, after: Db, store: int, line: nat, n: Need)
    requires Stocked(after.stock, store, n.ingredient) && n.quantity > 0
    requires |db.orders| < |after.orders| && after.orders[|db.orders|] == store
    requires line < |after.lines| && after.lines[line].store == store
    ensures var m := NewReservation(store, |db.orders|, line, n);
            MovementChecks(m) && MovementKeys(c, after, m)
  {}

  lemma NewLinesUnique(db: Db, lines: seq<Line>, store: int, required: seq<Need>)
    requires UniqueLines(db.lines) && DistinctLines(required)
    requires forall k :: 0 <= k < |db.lines| ==> db.lines[k].item < |db.items|
    requires lines == NewLines(store, |db.orders|, |db.items|, required)
    ensures UniqueLines(db.lines + lines)
  {
    var all, n := db.lines + lines, |db.lines|;
    forall j, k | 0 <= j < k < |all| ensures all[j].item != all[k].item || all[j].ingredient != all[k].ingredient {
      if j >= n {
        assert !SameLine(required[k - n].item, required[k - n].ingredient)(required[j - n]);
      }
    }
  }

  lemma UnkeyedRowsUnique(kept: seq<Movement>, added: seq<Movement>)
    requires UniqueMovements(kept)
    requires forall j :: 0 <= j < |added| ==> added[j].transfer.None? && added[j].stockCount.None? && added[j].key.None?
    ensures UniqueMovements(kept + added)
  {
    var all := kept + added;
    forall j, k | 0 <= j < k < |all| ensures MayCoexist(all[j], all[k]) {
      if k < |kept| { assert MayCoexist(kept[j], kept[k]); }
    }
  }

  ghost predicate LinesOk(db: Db) {
    match db
    case Db(_, _, _, lines, _, _, _) => forall k :: 0 <= k < |lines| ==> LineChecks(lines[k]) && LineKeys(db, lines[k])
  }

  ghost predicate MovementsOk(c: Catalog, db: Db) {
    match db
    case Db(_, _, _, _, movements, _, _) =>
      forall k :: 0 <= k < |movements| ==> MovementChecks(movements[k]) && MovementKeys(c, db, movements[k])
  }

  lemma PlacedLinesOk(c: Catalog, db: Db, after: Db, store: int, itemCount: nat, required: seq<Need>)
    requires RowsOk(c, db) && Available(db.stock, store, required) && Extends(db, after)
    requires after == Placed(db, store, itemCount, required)
    requires forall j :: 0 <= j < |required| ==> required[j].quantity > 0 && required[j].item < itemCount
    ensures LinesOk(after)
  {
    OldRowsStand(c, db, after);
    var n := |db.lines|;
    forall k | 0 <= k < |after.lines| ensures LineChecks(after.lines[k]) && LineKeys(after, after.lines[k]) {
      if k < n {
        assert LineChecks(db.lines[k]);
      } else {
        StillStocked(db, after, store, required[k - n].ingredient);
        NewLineOk(c, db, after, store, required[k - n]);
      }
    }
  }

  lemma PlacedMovementsOk(c: Catalog, db: Db, after: Db, store: int, itemCount: nat, required: seq<Need>)
    requires RowsOk(c, db) && Available(db.stock, store, required) && Extends(db, after)
    requires after == Placed(db, store, itemCount, required)
    requires forall j :: 0 <= j < |required| ==> required[j].quantity > 0 && required[j].item < itemCount
    ensures MovementsOk(c, after)
  {
    OldRowsStand(c, db, after);
    var n := |db.movements|;
    forall k | 0 <= k < |after.movements|
      ensures MovementChecks(after.movements[k]) && MovementKeys(c, after, after.movements[k])
    {
      if k >= n {
        StillStocked(db, after, store, required[k - n].ingredient);
        NewReservationOk(c, db, after, store, |db.lines| + (k - n), required[k - n]);
      }
    }
  }

  lemma PlacedRowsOk(c: Catalog, db: Db, store: int, itemCount: nat, required: seq<Need>)
    requires RowsOk(c, db) && Available(db.stock, store, required) && DistinctLines(required)
    requires forall j :: 0 <= j < |required| ==> required[j].quantity > 0 && required[j].item < itemCount
    ensures RowsOk(c, Placed(db, store, itemCount, required))
  {
    var after := Placed(db, store, itemCount, required);
    PlacedLinesOk(c, db, after, store, itemCount, required);
    PlacedMovementsOk(c, db, after, store, itemCount, required);
    OldRowsStand(c, db, after);
    SameShelvesUnique(db.stock, after.stock);
    forall k | 0 <= k < |after.stock| ensures StockChecks(after.stock[k]) { assert StockChecks(db.stock[k]); }
    forall k | 0 <= k < |db.lines| ensures db.lines[k].item < |db.items| { assert LineKeys(db, db.lines[k]); }
    NewLinesUnique(db, NewLines(store, |db.orders|, |db.items|, required), store, required);
    UnkeyedRowsUnique(db.movements, NewReservations(store, |db.orders|, |db.lines|, required));
  }

  lemma PlacedAgrees(c: Catalog, db: Db, store: int, itemCount: nat, required: seq<Need>)
    requires Booked(c, db)
    ensures OnHandAgrees(Placed(db, store, itemCount, required))
    ensures ReservedAgrees(Placed(db, store, itemCount, required))
  {
    var after := Placed(db, store, itemCount, required);
    var ls := NewLines(store, |db.orders|, |db.items|, required);
    var ms := NewReservations(store, |db.orders|, |db.lines|, required);
    forall k | 0 <= k < |after.stock|
      ensures var r := after.stock[k];
              && r.onHand == Sum(after.movements, OnHandOf(r.store, r.ingredient))
              && r.reserved == Sum(after.lines, OutstandingOf(r.store, r.ingredient))
              && r.reserved == Sum(after.movements, ReservedOf(r.store, r.ingredient))
    {
      var s, i := db.stock[k].store, db.stock[k].ingredient;
      SumConcat(db.movements, ms, OnHandOf(s, i));
      SumConcat(db.movements, ms, ReservedOf(s, i));
      SumConcat(db.lines, ls, OutstandingOf(s, i));
      SumZero(ms, OnHandOf(s, i));
      if s == store {
        SumPointwise(ms, ReservedOf(s, i), required, QuantityOf(i));
        SumPointwise(ls, OutstandingOf(s, i), required, QuantityOf(i));
      } else {
        SumZero(ms, ReservedOf(s, i));
        SumZero(ls, OutstandingOf(s, i));
      }
    }
  }

  /** A transaction whose new rows belong to no transfer and no count. */
  lemma OrderAccepted(c: Catalog, db: Db, after: Db)
    requires AllPaired(db) && Booked(c, after) && db.transfers == after.transfers && db.counts == after.counts
    requires db.movements <= after.movements
    requires forall k :: |db.movements| <= k < |after.movements| ==>
               after.movements[k].transfer.None? && after.movements[k].stockCount.None?
    ensures Kept(c, db, after)
  {
    IncrementalChecksAreGlobal(c, db, after);
  }

  lemma PlacedSound(c: Catalog, db: Db, store: int, itemCount: nat, required: seq<Need>)
    requires Sound(c, db) && Available(db.stock, store, required) && DistinctLines(required)
    requires forall j :: 0 <= j < |required| ==> required[j].quantity > 0 && required[j].item < itemCount
    ensures Kept(c, db, Placed(db, store, itemCount, required))
  {
    PlacedRowsOk(c, db, store, itemCount, required);
    PlacedAgrees(c, db, store, itemCount, required);
    OrderAccepted(c, db, Placed(db, store, itemCount, required));
  }

  lemma PlaceKeepsSound(c: Catalog, db: Db, store: int, itemCount: nat, needs: seq<Need>)
    requires Sound(c, db) && forall k :: 0 <= k < |needs| ==> needs[k].item < itemCount
    ensures Kept(c, db, PlaceStep(c, db, store, itemCount, needs).0)
  {
    if PlaceStep(c, db, store, itemCount, needs).1.Done? {
      AcceptedOrdersAreAvailable(c, db, store, itemCount, needs);
      RequiredRows(needs, itemCount);
      PlacedSound(c, db, store, itemCount, Required(needs));
    } else {
      RefusalKeepsSound(c, db);
    }
  }

  // ── Settling an order ──────────────────────────────────────────────────────

  /** What settling the order takes from one shelf. */
  function DueAt(lines: seq<Line>, order: nat, orderStore: int, store: int, ingredient: int): int {
    if store == orderStore then Sum(lines, Due(orderStore, order, ingredient)) else 0
  }

  lemma {:induction false} SettledOutstanding(lines: seq<Line>, order: nat, orderStore: int, cooked: bool, store: int,
                                              ingredient: int)
    ensures Sum(SettleLines(lines, orderStore, order, cooked), OutstandingOf(store, ingredient))
         == Sum(lines, OutstandingOf(store, ingredient)) - DueAt(lines, order, orderStore, store, ingredient)
  {
    var left := (l: Line) => OutstandingOf(store, ingredient)(SettledLine(l, orderStore, order, cooked));
    SumPointwise(SettleLines(lines, orderStore, order, cooked), OutstandingOf(store, ingredient), lines, left);
    if store == orderStore {
      SumAdd(lines, left, Due(orderStore, order, ingredient), OutstandingOf(store, ingredient));
    } else {
      SumPointwise(lines, left, lines, OutstandingOf(store, ingredient));
    }
  }

  lemma {:induction false} SettledReserved(lines: seq<Line>, order: nat, orderStore: int, cooked: bool,
                                           actor: Option<int>, store: int, ingredient: int)
    ensures Sum(Settlements(lines, orderStore, order, cooked, actor), ReservedOf(store, ingredient))
         == -DueAt(lines, order, orderStore, store, ingredient)
  {
    if |lines| > 0 {
      var n := |lines| - 1;
      SettledReserved(lines[..n], order, orderStore, cooked, actor, store, ingredient);
      if Pending(lines[n], orderStore, order) {
        SumAppend(Settlements(lines[..n], orderStore, order, cooked, actor), Settlement(lines[n], n, cooked, actor),
                  ReservedOf(store, ingredient));
      }
    }
  }

  lemma {:induction false} SettledOnHand(lines: seq<Line>, order: nat, orderStore: int, cooked: bool,
                                         actor: Option<int>, store: int, ingredient: int)
    ensures Sum(Settlements(lines, orderStore, order, cooked, actor), OnHandOf(store, ingredient))
         == if cooked then -DueAt(lines, order, orderStore, store, ingredient) else 0
  {
    if |lines| > 0 {
      var n := |lines| - 1;
      SettledOnHand(lines[..n], order, orderStore, cooked, actor, store, ingredient);
      if Pending(lines[n], orderStore, order) {
        SumAppend(Settlements(lines[..n], orderStore, order, cooked, actor), Settlement(lines[n], n, cooked, actor),
                  OnHandOf(store, ingredient));
      }
    }
  }

  lemma {:induction false} SettlementRows(lines: seq<Line>, order: nat, store: int, cooked: bool, actor: Option<int>)
    ensures forall j :: 0 <= j < |Settlements(lines, store, order, cooked, actor)| ==>
              var m := Settlements(lines, store, order, cooked, actor)[j];
              && m.line.Some? && m.line.value < |lines| && Pending(lines[m.line.value], store, order)
              && m == Settlement(lines[m.line.value], m.line.value, cooked, actor)
  {
    if |lines| > 0 {
      SettlementRows(lines[..|lines| - 1], order, store, cooked, actor);
    }
  }

  /** What one order is still owed never exceeds what its shelf has reserved. */
  lemma DueIsReserved(c: Catalog, db: Db, order: nat, orderStore: int, k: nat)
    requires Booked(c, db) && k < |db.stock|
    ensures 0 <= DueAt(db.lines, order, orderStore, db.stock[k].store, db.stock[k].ingredient) <= db.stock[k].reserved
  {
    var s, i := db.stock[k].store, db.stock[k].ingredient;
    forall j | 0 <= j < |db.lines|
      ensures 0 <= Due(orderStore, order, i)(db.lines[j]) && 0 <= OutstandingOf(s, i)(db.lines[j])
    {
      assert LineChecks(db.lines[j]);
    }
    SumNonneg(db.lines, Due(orderStore, order, i));
    SumNonneg(db.lines, OutstandingOf(s, i));
    if s == orderStore {
      SumLe(db.lines, Due(orderStore, order, i), OutstandingOf(s, i));
    }
  }

  lemma SettlementOk(c: Catalog, db: Db, after: Db, k: nat, order: nat, cooked: bool, actor: Option<int>)
    requires k < |db.lines| && Pending(db.lines[k], db.lines[k].store, order) && LineKeys(db, db.lines[k])
    requires Extends(db, after) && ActorOk(c, db, order, actor)
    ensures var m := Settlement(db.lines[k], k, cooked, actor);
            MovementChecks(m) && MovementKeys(c, after, m)
  {
    StillStocked(db, after, db.lines[k].store, db.lines[k].ingredient);
    assert SameKeys(db.lines[k], after.lines[k]);
  }

  lemma SettledMovementsOk(c: Catalog, db: Db, after: Db, order: nat, cooked: bool, actor: Option<int>)
    requires RowsOk(c, db) && order < |db.orders| && ActorOk(c, db, order, actor) && Extends(db, after)
    requires after == Settled(db, order, cooked, actor)
    ensures MovementsOk(c, after)
  {
    OldRowsStand(c, db, after);
    SettlementRows(db.lines, order, db.orders[order], cooked, actor);
    forall k | 0 <= k < |after.movements|
      ensures MovementChecks(after.movements[k]) && MovementKeys(c, after, after.movements[k])
    {
      if k >= |db.movements| {
        var m := Settlements(db.lines, db.orders[order], order, cooked, actor)[k - |db.movements|];
        assert after.movements[k] == m && LineKeys(db, db.lines[m.line.value]);
        SettlementOk(c, db, after, m.line.value, order, cooked, actor);
      }
    }
  }

  lemma SettledLinesOk(c: Catalog, db: Db, after: Db, order: nat, cooked: bool, actor: Option<int>)
    requires RowsOk(c, db) && order < |db.orders| && Extends(db, after)
    requires after == Settled(db, order, cooked, actor)
    ensures LinesOk(after) && UniqueLines(after.lines)
  {
    OldRowsStand(c, db, after);
    forall k | 0 <= k < |after.lines| ensures LineChecks(after.lines[k]) && LineKeys(after, after.lines[k]) {
      assert LineChecks(db.lines[k]);
    }
    forall j, k | 0 <= j < k < |after.lines|
      ensures after.lines[j].item != after.lines[k].item || after.lines[j].ingredient != after.lines[k].ingredient
    {
      assert db.lines[j].item != db.lines[k].item || db.lines[j].ingredient != db.lines[k].ingredient;
    }
  }

  lemma SettledRowsOk(c: Catalog, db: Db, order: nat, cooked: bool, actor: Option<int>)
    requires Booked(c, db) && order < |db.orders| && ActorOk(c, db, order, actor)
    ensures RowsOk(c, Settled(db, order, cooked, actor))
  {
    var store, after := db.orders[order], Settled(db, order, cooked, actor);
    forall k | 0 <= k < |db.lines| ensures SameKeys(db.lines[k], after.lines[k]) {}
    SettledMovementsOk(c, db, after, order, cooked, actor);
    SettledLinesOk(c, db, after, order, cooked, actor);
    OldRowsStand(c, db, after);
    SameShelvesUnique(db.stock, after.stock);
    forall k | 0 <= k < |after.stock| ensures StockChecks(after.stock[k]) {
      assert StockChecks(db.stock[k]);
      DueIsReserved(c, db, order, store, k);
    }
    SettlementRows(db.lines, order, store, cooked, actor);
    UnkeyedRowsUnique(db.movements, Settlements(db.lines, store, order, cooked, actor));
  }

  lemma OnHandAfterSettling(db: Db, order: nat, cooked: bool, actor: Option<int>, k: nat)
    requires OnHandAgrees(db) && order < |db.orders| && k < |db.stock|
    ensures var after := Settled(db, order, cooked, actor);
            var r := after.stock[k];
            r.onHand == Sum(after.movements, OnHandOf(r.store, r.ingredient))
  {
    var s, i := db.stock[k].store, db.stock[k].ingredient;
    SumConcat(db.movements, Settlements(db.lines, db.orders[order], order, cooked, actor), OnHandOf(s, i));
    SettledOnHand(db.lines, order, db.orders[order], cooked, actor, s, i);
  }

  lemma OutstandingAfterSettling(db: Db, order: nat, cooked: bool, actor: Option<int>, k: nat)
    requires ReservedAgrees(db) && order < |db.orders| && k < |db.stock|
    ensures var after := Settled(db, order, cooked, actor);
            var r := after.stock[k];
            r.reserved == Sum(after.lines, OutstandingOf(r.store, r.ingredient))
  {
    SettledOutstanding(db.lines, order, db.orders[order], cooked, db.stock[k].store, db.stock[k].ingredient);
  }

  lemma ReservedAfterSettling(db: Db, order: nat, cooked: bool, actor: Option<int>, k: nat)
    requires ReservedAgrees(db) && order < |db.orders| && k < |db.stock|
    ensures var after := Settled(db, order, cooked, actor);
            var r := after.stock[k];
            r.reserved == Sum(after.movements, ReservedOf(r.store, r.ingredient))
  {
    var s, i := db.stock[k].store, db.stock[k].ingredient;
    SumConcat(db.movements, Settlements(db.lines, db.orders[order], order, cooked, actor), ReservedOf(s, i));
    SettledReserved(db.lines, order, db.orders[order], cooked, actor, s, i);
  }

  lemma SettledAgrees(c: Catalog, db: Db, order: nat, cooked: bool, actor: Option<int>)
    requires Booked(c, db) && order < |db.orders|
    ensures OnHandAgrees(Settled(db, order, cooked, actor)) && ReservedAgrees(Settled(db, order, cooked, actor))
  {
    forall k | 0 <= k < |Settled(db, order, cooked, actor).stock|
      ensures var after := Settled(db, order, cooked, actor);
              var r := after.stock[k];
              && r.onHand == Sum(after.movements, OnHandOf(r.store, r.ingredient))
              && r.reserved == Sum(after.lines, OutstandingOf(r.store, r.ingredient))
              && r.reserved == Sum(after.movements, ReservedOf(r.store, r.ingredient))
    {
      OnHandAfterSettling(db, order, cooked, actor, k);
      OutstandingAfterSettling(db, order, cooked, actor, k);
      ReservedAfterSettling(db, order, cooked, actor, k);
    }
  }

  /** The promise: in any sound state, whatever ran before, an accepted order can
      be cooked or cancelled in full, and every CHECK still holds after it. */
  lemma PromiseIsKept(c: Catalog, db: Db, order: nat, cooked: bool, actor: Option<int>)
    requires Sound(c, db) && order < |db.orders| && ActorOk(c, db, order, actor)
    ensures SettleStep(db, order, cooked, actor).1 == Done(order)
    ensures Kept(c, db, SettleStep(db, order, cooked, actor).0)
  {
    forall k | 0 <= k < |db.lines| && Pending(db.lines[k], db.orders[order], order)
      ensures Stocked(db.stock, db.orders[order], db.lines[k].ingredient)
    {
      assert LineKeys(db, db.lines[k]);
    }
    SettledRowsOk(c, db, order, cooked, actor);
    SettledAgrees(c, db, order, cooked, actor);
    SettlementRows(db.lines, order, db.orders[order], cooked, actor);
    OrderAccepted(c, db, Settled(db, order, cooked, actor));
  }

  lemma SettleKeepsSound(c: Catalog, db: Db, order: nat, cooked: bool, actor: Option<int>)
    requires Sound(c, db) && ActorOk(c, db, order, actor)
    ensures Kept(c, db, SettleStep(db, order, cooked, actor).0)
  {
    RefusalKeepsSound(c, db);
    if order < |db.orders| {
      PromiseIsKept(c, db, order, cooked, actor);
    }
  }

  lemma {:induction false} NothingPending(lines: seq<Line>, order: nat, store: int, cooked: bool, actor: Option<int>)
    requires forall k :: 0 <= k < |lines| ==> !Pending(lines[k], store, order)
    ensures Settlements(lines, store, order, cooked, actor) == []
  {
    if |lines| > 0 {
      NothingPending(lines[..|lines| - 1], order, store, cooked, actor);
    }
  }

  lemma SettledWhenNothingPends(db: Db, order: nat, cooked: bool, actor: Option<int>)
    requires order < |db.orders| && forall k :: 0 <= k < |db.lines| ==> !Pending(db.lines[k], db.orders[order], order)
    ensures Settled(db, order, cooked, actor) == db
  {
    var store := db.orders[order];
    NothingPending(db.lines, order, store, cooked, actor);
    forall k | 0 <= k < |db.stock| ensures SettledRow(db.stock[k], db.lines, store, order, cooked) == db.stock[k] {
      SumZero(db.lines, Due(store, order, db.stock[k].ingredient));
    }
    assert SettleLines(db.lines, store, order, cooked) == db.lines;
    assert SettleStock(db.stock, db.lines, store, order, cooked) == db.stock;
    assert db.movements + [] == db.movements;
  }

  /** Settling is exactly-once: after an order was cooked or cancelled, cooking or
      cancelling it again changes no row. */
  lemma SettlingTwiceChangesNothing(c: Catalog, db: Db, order: nat, cooked: bool, again: bool, actor: Option<int>,
                                    other: Option<int>)
    requires Sound(c, db) && order < |db.orders| && ActorOk(c, db, order, actor)
    ensures var once := SettleStep(db, order, cooked, actor).0;
            SettleStep(once, order, again, other).0 == once
  {
    PromiseIsKept(c, db, order, cooked, actor);
    var store, once := db.orders[order], Settled(db, order, cooked, actor);
    forall k | 0 <= k < |once.lines| ensures !Pending(once.lines[k], store, order) {}
    SettledWhenNothingPends(once, order, again, other);
  }
}
