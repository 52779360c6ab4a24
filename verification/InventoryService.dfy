/** The inventory service: the same commands as code that updates tables in
    place, loop by loop, each proved to do exactly what its specification says. */
module InventoryService {
  import opened Tables
  import opened Text
  import opened Inventory
  import opened InventoryCommands
  import opened InventoryConservation
  import opened InventoryEffects
  import opened OrderSafety

  class Service {
    const catalog: Catalog

    var orders: seq<int>
    var items: seq<nat>
    var stock: seq<StockRow>
    var lines: seq<Line>
    var movements: seq<Movement>
    var transfers: seq<Transfer>
    var counts: seq<StockCount>

    constructor (catalog: Catalog, stock: seq<StockRow>)
      ensures this.catalog == catalog && State() == Db([], [], stock, [], [], [], [])
    {
      this.catalog, this.stock := catalog, stock;
      orders, items, lines, movements, transfers, counts := [], [], [], [], [], [];
    }

    function State(): Db
      reads this
    {
      Db(orders, items, stock, lines, movements, transfers, counts)
    }

    // ── Manual commands ──────────────────────────────────────────────────────

    method ApplyManualMovement(staff: Staff, kind: Kind, ingredient: int, quantity: int, delta: int,
                               reason: Option<string>, key: string, body: Request)
      returns (outcome: Outcome)
      modifies `stock, `movements
      ensures (State(), outcome) ==
                Manual(catalog, old(State()), staff, kind, ingredient, quantity, delta, reason, key, body)
      ensures !outcome.Done? ==> stock == old(stock) && movements == old(movements)
      ensures outcome.Done? ==>
                exists shelf :: 0 <= shelf < |old(stock)| && Shelves(old(stock)[shelf], staff.store, ingredient)
                  && stock == old(stock)[shelf := old(stock)[shelf].(onHand := old(stock)[shelf].onHand + delta)]
                  && stock[shelf].reserved <= stock[shelf].onHand
      ensures outcome.Done? ==>
                && |movements| == |old(movements)| + 1 && old(movements) <= movements
                && var m := movements[|old(movements)|];
                   m.kind == kind && m.dOnHand == delta && m.actor == Some(staff.user) && m.key == Some(key)
    {
      var existing := Find(movements, MovementKeyed(staff.store, key));
      if existing < |movements| {
        return if movements[existing].request == Some(body) then Replayed(existing) else Failed(IdempotencyMismatch);
      }
      if !catalog.Active(ingredient) { return Failed(IngredientNotFound); }
      var shelf := Find(stock, ShelfAt(staff.store, ingredient));
      if shelf == |stock| { return Failed(StockNotConfigured); }
      var newOnHand := stock[shelf].onHand + delta;
      if newOnHand < 0 || newOnHand < stock[shelf].reserved { return Failed(InsufficientOnHand); }
      outcome := Done(|movements|);
      movements := movements + [Movement(staff.store, ingredient, kind, quantity, delta, 0, None, None, reason,
                                         Some(staff.user), Some(key), Some(body), None, None, false)];
      stock := stock[shelf := stock[shelf].(onHand := newOnHand)];
    }

    method RecordPurchaseReceipt(staff: Staff, ingredient: int, quantity: int, reason: string, key: string)
      returns (outcome: Outcome)
      modifies `stock, `movements
      ensures (State(), outcome) == ReceiveStep(catalog, old(State()), staff, ingredient, quantity, reason, key)
      ensures if outcome.Done? then Received(old(State()), State(), staff, ingredient, quantity, reason, key)
              else State() == old(State())
    {
      if Strip(key) == "" { return Failed(KeyRequired); }
      if quantity <= 0 { return Failed(InvalidQuantity); }
      var note := Strip(reason);
      outcome := ApplyManualMovement(staff, PurchaseReceipt, ingredient, quantity, quantity,
                                     if note == "" then None else Some(note), Strip(key),
                                     ReceiptBody(ingredient, quantity, note));
      if outcome.Done? {
        ReceivingStocksTheShelf(catalog, old(State()), staff, ingredient, quantity, reason, key);
      }
    }

    method RecordManualAdjustment(staff: Staff, ingredient: int, delta: int, reason: string, key: string)
      returns (outcome: Outcome)
      modifies `stock, `movements
      ensures (State(), outcome) == AdjustStep(catalog, old(State()), staff, ingredient, delta, reason, key)
      ensures if outcome.Done? then Adjusted(old(State()), State(), staff, ingredient, delta, reason, key)
              else State() == old(State())
    {
      if Strip(key) == "" { return Failed(KeyRequired); }
      if Strip(reason) == "" { return Failed(ReasonRequired); }
      if delta == 0 { return Failed(InvalidQuantity); }
      outcome := ApplyManualMovement(staff, ManualAdjustment, ingredient, Abs(delta), delta, Some(Strip(reason)),
                                     Strip(key), AdjustmentBody(ingredient, delta, Strip(reason)));
      if outcome.Done? {
        AdjustingMovesTheDifference(catalog, old(State()), staff, ingredient, delta, reason, key);
      }
    }

    method RecordWaste(staff: Staff, ingredient: int, quantity: int, reason: string, key: string)
      returns (outcome: Outcome)
      modifies `stock, `movements
      ensures (State(), outcome) == WriteOffStep(catalog, old(State()), staff, ingredient, quantity, reason, key)
      ensures if outcome.Done? then ThrownAway(old(State()), State(), staff, ingredient, quantity, reason, key)
              else State() == old(State())
    {
      if Strip(key) == "" { return Failed(KeyRequired); }
      if quantity <= 0 { return Failed(InvalidQuantity); }
      if Strip(reason) == "" { return Failed(ReasonRequired); }
      outcome := ApplyManualMovement(staff, Waste, ingredient, quantity, -quantity, Some(Strip(reason)),
                                     Strip(key), WasteBody(ingredient, quantity, Strip(reason)));
      if outcome.Done? {
        WasteEmptiesTheShelf(catalog, old(State()), staff, ingredient, quantity, reason, key);
      }
    }

    // ── Transfer ─────────────────────────────────────────────────────────────

    /** What leaves one shelf arrives at another; an empty new shelf adds nothing. */
    static lemma {:induction false} ShippingConserves(before: seq<StockRow>, stock: seq<StockRow>, from: nat, to: nat,
                                                      t: Transfer)
      requires stock == WithShelf(before, t.destination, t.ingredient) && from < |stock| && to < |stock|
      requires t.source != t.destination
      requires Shelves(stock[from], t.source, t.ingredient) && Shelves(stock[to], t.destination, t.ingredient)
      ensures var left := stock[from := stock[from].(onHand := stock[from].onHand - t.quantity)];
              var after := left[to := left[to].(onHand := left[to].onHand + t.quantity)];
              forall i :: Sum(after, ChainOnHand(i)) == Sum(before, ChainOnHand(i))
    {
      var left := stock[from := stock[from].(onHand := stock[from].onHand - t.quantity)];
      var after := left[to := left[to].(onHand := left[to].onHand + t.quantity)];
      forall i ensures Sum(after, ChainOnHand(i)) == Sum(before, ChainOnHand(i)) {
        SumAppend(before, StockRow(t.destination, t.ingredient, 0, 0), ChainOnHand(i));
        SumUpdate(stock, from, left[from], ChainOnHand(i));
        SumUpdate(left, to, after[to], ChainOnHand(i));
      }
    }

    /** INSERT … ON CONFLICT DO NOTHING. */
    method EnsureDestinationStockRow(store: int, ingredient: int)
      modifies `stock
      ensures stock == WithShelf(old(stock), store, ingredient)
      ensures Find(stock, ShelfAt(store, ingredient)) < |stock|
    {
      if Find(stock, ShelfAt(store, ingredient)) == |stock| {
        stock := stock + [StockRow(store, ingredient, 0, 0)];
        assert ShelfAt(store, ingredient)(stock[|stock| - 1]);
      }
    }

    /** The transfer itself, once its key is known to be new. */
    method DispatchTransfer(t: Transfer) returns (outcome: Outcome)
      requires t.source != t.destination
      modifies `stock, `movements, `transfers
      ensures (State(), outcome) == Dispatch(catalog, old(State()), t)
      ensures !outcome.Done? ==> State() == old(State())
      ensures forall i :: Sum(stock, ChainOnHand(i)) == Sum(old(stock), ChainOnHand(i))
      ensures outcome.Done? ==> |movements| == |old(movements)| + 2 && |transfers| == |old(transfers)| + 1
    {
      if t.destination !in catalog.stores { return Failed(DestinationNotFound); }
      if !catalog.Active(t.ingredient) { return Failed(IngredientNotFound); }
      var before := stock;
      EnsureDestinationStockRow(t.destination, t.ingredient);
      var from, to := Find(stock, ShelfAt(t.source, t.ingredient)), Find(stock, ShelfAt(t.destination, t.ingredient));
      if from == |stock| { stock := before; return Failed(StockNotConfigured); }
      if stock[from].Available() < t.quantity { stock := before; return Failed(InsufficientAvailable); }
      assert to < |stock|;
      var id := |transfers|;
      transfers := transfers + [t];
      movements := movements + [OutLeg(t, id)] + [InLeg(t, id)];
      ShippingConserves(before, stock, from, to, t);
      stock := stock[from := stock[from].(onHand := stock[from].onHand - t.quantity)];
      stock := stock[to := stock[to].(onHand := stock[to].onHand + t.quantity)];
      outcome := Done(id);
    }

    method TransferStock(staff: Staff, destination: int, ingredient: int, quantity: int, reason: string, note: string,
                         key: string)
      returns (outcome: Outcome)
      modifies `stock, `movements, `transfers
      ensures (State(), outcome) ==
                ShipStep(catalog, old(State()), staff, destination, ingredient, quantity, reason, note, key)
      ensures if outcome.Done?
              then Transferred(old(State()), State(), staff, destination, ingredient, quantity, reason, note, key)
              else State() == old(State())
      ensures forall i :: Sum(stock, ChainOnHand(i)) == Sum(old(stock), ChainOnHand(i))
    {
      var why, k := Strip(reason), Strip(key);
      var body := TransferBody(destination, ingredient, quantity, why, Strip(note));
      if k == "" { return Failed(KeyRequired); }
      if quantity <= 0 { return Failed(InvalidQuantity); }
      if why == "" { return Failed(ReasonRequired); }
      if destination == staff.store { return Failed(SameStore); }
      var existing := Find(transfers, TransferKeyed(staff.store, k));
      if existing < |transfers| {
        return if transfers[existing].request == body then Replayed(existing) else Failed(IdempotencyMismatch);
      }
      outcome := DispatchTransfer(Transfer(staff.store, destination, ingredient, quantity, why, staff.user, k, body));
      if outcome.Done? {
        ShippingMovesTheQuantity(catalog, old(State()), staff, destination, ingredient, quantity, reason, note, key);
      }
    }

    // ── Physical count ───────────────────────────────────────────────────────

    method RecordStockCount(staff: Staff, ingredient: int, counted: int, reason: string, note: string, key: string)
      returns (outcome: Outcome)
      modifies `stock, `movements, `counts
      ensures (State(), outcome) == CountStep(catalog, old(State()), staff, ingredient, counted, reason, note, key)
      ensures if outcome.Done?
              then CountTaken(old(State()), State(), staff, ingredient, counted, reason, note, key)
              else State() == old(State())
    {
      var why, k := Strip(reason), Strip(key);
      var body := CountBody(ingredient, counted, why, Strip(note));
      if k == "" { return Failed(KeyRequired); }
      if counted < 0 { return Failed(InvalidQuantity); }
      if why == "" { return Failed(ReasonRequired); }
      var existing := Find(counts, CountKeyed(staff.store, k));
      if existing < |counts| {
        return if counts[existing].request == body then Replayed(existing) else Failed(IdempotencyMismatch);
      }
      if !catalog.Active(ingredient) { return Failed(IngredientNotFound); }
      var shelf := Find(stock, ShelfAt(staff.store, ingredient));
      if shelf == |stock| { return Failed(StockNotConfigured); }
      var row := stock[shelf];
      if counted < row.reserved { return Failed(BelowReserved); }
      var id := |counts|;
      var n := StockCount(staff.store, ingredient, counted, row.onHand, row.reserved, why, staff.user, k, body);
      counts := counts + [n];
      if counted != row.onHand {
        movements := movements + [Correction(n, id)];
        stock := stock[shelf := row.(onHand := counted)];
      }
      outcome := Done(id);
      CountingSetsTheShelf(catalog, old(State()), staff, ingredient, counted, reason, note, key);
    }

    // ── Order acceptance ─────────────────────────────────────────────────────

    /** A dictionary of totals per ingredient. */
    static ghost predicate Totals(amounts: map<int, int>, needs: seq<Need>) {
      && (forall i :: i in amounts ==> amounts[i] == Sum(needs, QuantityOf(i)))
      && (forall i :: i !in amounts ==> Sum(needs, QuantityOf(i)) == 0)
    }

    static lemma OneMoreTotal(amounts: map<int, int>, needs: seq<Need>, need: Need)
      requires Totals(amounts, needs)
      ensures Totals(amounts[need.ingredient := (if need.ingredient in amounts then amounts[need.ingredient] else 0)
                             + need.quantity],
                     needs + [need])
    {
      forall i ensures Sum(needs + [need], QuantityOf(i)) == Sum(needs, QuantityOf(i)) + QuantityOf(i)(need) {
        SumAppend(needs, need, QuantityOf(i));
      }
    }

    /** Quantities an order asks for, ingredient by ingredient. */
    static method RequiredStock(needs: seq<Need>) returns (required: map<int, int>)
      ensures forall i :: i in required <==> exists k :: 0 <= k < |needs| && needs[k].ingredient == i
      ensures forall i :: i in required ==> required[i] == Sum(needs, QuantityOf(i))
    {
      required := map[];
      for n := 0 to |needs|
        invariant forall i :: i in required <==> exists k :: 0 <= k < n && needs[k].ingredient == i
        invariant Totals(required, needs[..n])
      {
        OneMoreTotal(required, needs[..n], needs[n]);
        assert needs[..n + 1] == needs[..n] + [needs[n]];
        required := required[needs[n].ingredient :=
          (if needs[n].ingredient in required then required[needs[n].ingredient] else 0) + needs[n].quantity];
      }
      assert needs[..|needs|] == needs;
    }

    /** Refuses as soon as one ingredient is short on this store's own shelf. */
    method CheckAvailability(store: int, required: map<int, int>) returns (short: set<int>)
      ensures forall i :: i in short <==>
                i in required && (var shelf := Find(stock, ShelfAt(store, i));
                                  shelf == |stock| || stock[shelf].Available() < required[i])
    {
      short := {};
      var left := required.Keys;
      while exists i :: i in left
        invariant left <= required.Keys
        invariant forall i :: i in short <==>
                    i in required.Keys - left && (var shelf := Find(stock, ShelfAt(store, i));
                                                  shelf == |stock| || stock[shelf].Available() < required[i])
        decreases |left|
      {
        var i :| i in left;
        var shelf := Find(stock, ShelfAt(store, i));
        if shelf == |stock| || stock[shelf].Available() < required[i] {
          short := short + {i};
        }
        left := left - {i};
      }
    }

    /** One requirement per (item, ingredient): a dictionary filled in place. */
    static method LineRequirements(needs: seq<Need>) returns (perLine: seq<Need>)
      ensures perLine == Aggregate(needs)
    {
      perLine := [];
      for n := 0 to |needs|
        invariant perLine == Aggregate(needs[..n])
      {
        assert needs[..n + 1][..n] == needs[..n];
        var k := Find(perLine, SameLine(needs[n].item, needs[n].ingredient));
        if k < |perLine| {
          perLine := perLine[k := perLine[k].(quantity := perLine[k].quantity + needs[n].quantity)];
        } else {
          perLine := perLine + [needs[n]];
        }
      }
      assert needs[..|needs|] == needs;
    }

    method OrderRefusal(store: int, needs: seq<Need>) returns (error: Option<Error>)
      ensures error == OrderError(catalog, State(), store, needs)
    {
      if |needs| == 0 { return Some(NoIngredients); }
      if exists k :: 0 <= k < |needs| && !catalog.Active(needs[k].ingredient) { return Some(UnknownIngredients); }
      var required := RequiredStock(needs);
      var short := CheckAvailability(store, required);
      if exists i :: i in short {
        var i :| i in short;
        var k :| 0 <= k < |needs| && needs[k].ingredient == i;
        assert Short(State(), store, needs, needs[k].ingredient);
        return Some(OutOfStock);
      }
      assert forall k :: 0 <= k < |needs| ==> needs[k].ingredient in required && needs[k].ingredient !in short;
      error := None;
    }

    method InsertOrder(store: int, itemCount: nat) returns (order: nat, firstItem: nat)
      modifies `orders, `items
      ensures order == |old(orders)| && firstItem == |old(items)|
      ensures orders == old(orders) + [store] && items == old(items) + seq(itemCount, _ => |old(orders)|)
    {
      order, firstItem := |orders|, |items|;
      orders := orders + [store];
      items := items + seq(itemCount, _ => order);
    }

    static lemma OneMoreLine(store: int, order: nat, firstItem: nat, firstLine: nat, needs: seq<Need>, need: Need)
      ensures NewLines(store, order, firstItem, needs + [need])
           == NewLines(store, order, firstItem, needs) + [NewLine(store, order, firstItem, need)]
      ensures NewReservations(store, order, firstLine, needs + [need])
           == NewReservations(store, order, firstLine, needs)
               + [NewReservation(store, order, firstLine + |needs|, need)]
    {}

    /** One inventory line and the ledger row that cites it. */
    method ReserveLine(store: int, order: nat, firstItem: nat, need: Need, ghost lines0: seq<Line>,
                       ghost movements0: seq<Movement>, ghost done: seq<Need>)
      requires lines == lines0 + NewLines(store, order, firstItem, done)
      requires movements == movements0 + NewReservations(store, order, |lines0|, done)
      modifies `lines, `movements
      ensures lines == lines0 + NewLines(store, order, firstItem, done + [need])
      ensures movements == movements0 + NewReservations(store, order, |lines0|, done + [need])
    {
      OneMoreLine(store, order, firstItem, |lines0|, done, need);
      movements := movements + [NewReservation(store, order, |lines|, need)];
      lines := lines + [NewLine(store, order, firstItem, need)];
    }

    /** No other row carries the key. */
    static lemma {:induction false} TheOnlyShelf(stock: seq<StockRow>, store: int, ingredient: int)
      requires UniqueShelves(stock)
      ensures forall k :: 0 <= k < |stock| && k != Find(stock, ShelfAt(store, ingredient)) ==>
                !Shelves(stock[k], store, ingredient)
    {
      var shelf := Find(stock, ShelfAt(store, ingredient));
      forall k | 0 <= k < |stock| && k != shelf ensures !Shelves(stock[k], store, ingredient) {
        if Shelves(stock[k], store, ingredient) { TheShelf(stock, k); }
      }
    }

    /** Raises every claimed shelf by its own total, one ingredient at a time. */
    method ClaimShelves(store: int, amounts: map<int, int>, ghost needs: seq<Need>)
      requires UniqueShelves(stock)
      requires Totals(amounts, needs)
      modifies `stock
      ensures stock == ClaimStock(old(stock), store, needs)
    {
      var left := amounts.Keys;
      while exists i :: i in left
        invariant left <= amounts.Keys && |stock| == |old(stock)|
        invariant forall k :: 0 <= k < |stock| ==>
          stock[k] == if old(stock)[k].ingredient in left then old(stock)[k] else Claimed(old(stock)[k], store, needs)
        decreases |left|
      {
        var i :| i in left;
        var shelf := Find(stock, ShelfAt(store, i));
        SameShelvesUnique(old(stock), stock);
        if shelf < |stock| {
          TheOnlyShelf(stock, store, i);
          stock := stock[shelf := stock[shelf].(reserved := stock[shelf].reserved + amounts[i])];
        }
        left := left - {i};
      }
    }

    method ReserveForOrder(store: int, order: nat, firstItem: nat, perLine: seq<Need>)
      requires UniqueShelves(stock)
      modifies `stock, `lines, `movements
      ensures lines == old(lines) + NewLines(store, order, firstItem, Positive(perLine))
      ensures movements == old(movements) + NewReservations(store, order, |old(lines)|, Positive(perLine))
      ensures stock == ClaimStock(old(stock), store, Positive(perLine))
    {
      var reservedByIngredient: map<int, int> := map[];
      for n := 0 to |perLine|
        invariant lines == old(lines) + NewLines(store, order, firstItem, Positive(perLine[..n]))
        invariant movements == old(movements) + NewReservations(store, order, |old(lines)|, Positive(perLine[..n]))
        invariant Totals(reservedByIngredient, Positive(perLine[..n]))
        invariant stock == old(stock)
      {
        var need := perLine[n];
        assert perLine[..n + 1][..n] == perLine[..n];
        if need.quantity > 0 {
          ghost var some := Positive(perLine[..n]);
          OneMoreTotal(reservedByIngredient, some, need);
          reservedByIngredient := reservedByIngredient[need.ingredient :=
            (if need.ingredient in reservedByIngredient then reservedByIngredient[need.ingredient] else 0)
                + need.quantity];
          ReserveLine(store, order, firstItem, need, old(lines), old(movements), some);
        }
      }
      assert perLine[..|perLine|] == perLine;
      ClaimShelves(store, reservedByIngredient, Positive(perLine));
    }

    method CreateOrder(store: int, itemCount: nat, needs: seq<Need>) returns (outcome: Outcome)
      requires UniqueShelves(stock)
      modifies `orders, `items, `stock, `lines, `movements
      ensures (State(), outcome) == PlaceStep(catalog, old(State()), store, itemCount, needs)
      ensures if outcome.Done? then OrderPlaced(old(State()), State(), store, itemCount, needs)
              else State() == old(State())
    {
      var error := OrderRefusal(store, needs);
      if error.Some? { return Failed(error.value); }
      var order, firstItem := InsertOrder(store, itemCount);
      var perLine := LineRequirements(needs);
      ReserveForOrder(store, order, firstItem, perLine);
      assert State() == Placed(old(State()), store, itemCount, Required(needs));
      PlacedIsOrdered(old(State()), store, itemCount, needs);
      outcome := Done(order);
    }

    // ── Order settlement ─────────────────────────────────────────────────────

    /** The first n lines settled, the rest untouched. */
    static ghost predicate Halfway(before: Db, n: nat, store: int, order: nat, cooked: bool, actor: Option<int>,
                                   stock: seq<StockRow>, lines: seq<Line>, movements: seq<Movement>)
    {
      match before
      case Db(_, _, stock0, lines0, movements0, _, _) =>
        && n <= |lines0| && UniqueShelves(stock0)
        && lines == SettleLines(lines0[..n], store, order, cooked) + lines0[n..]
        && movements == movements0 + Settlements(lines0[..n], store, order, cooked, actor)
        && stock == SettleStock(stock0, lines0[..n], store, order, cooked)
        && (forall k :: 0 <= k < n && Pending(lines0[k], store, order) ==> Stocked(stock0, store, lines0[k].ingredient))
    }

    static lemma NothingSettled(before: Db, store: int, order: nat, cooked: bool, actor: Option<int>)
      requires UniqueShelves(before.stock)
      ensures Halfway(before, 0, store, order, cooked, actor, before.stock, before.lines, before.movements)
    {}

    static lemma {:induction false} EverythingSettled(before: Db, store: int, order: nat, cooked: bool,
                                                      actor: Option<int>, stock: seq<StockRow>, lines: seq<Line>,
                                                      movements: seq<Movement>)
      requires Halfway(before, |before.lines|, store, order, cooked, actor, stock, lines, movements)
      ensures lines == SettleLines(before.lines, store, order, cooked)
      ensures movements == before.movements + Settlements(before.lines, store, order, cooked, actor)
      ensures stock == SettleStock(before.stock, before.lines, store, order, cooked)
      ensures forall k :: 0 <= k < |before.lines| && Pending(before.lines[k], store, order) ==>
                Stocked(before.stock, store, before.lines[k].ingredient)
    {
      assert before.lines[..|before.lines|] == before.lines;
    }

    static lemma SettleOneLine(lines: seq<Line>, n: nat, store: int, order: nat, cooked: bool)
      requires n < |lines|
      ensures (SettleLines(lines[..n], store, order, cooked)
               + lines[n..])[n := SettledLine(lines[n], store, order, cooked)]
           == SettleLines(lines[..n + 1], store, order, cooked) + lines[n + 1..]
    {}

    static lemma {:induction false} NoShelfEither(before: seq<StockRow>, stock: seq<StockRow>, store: int,
                                                  ingredient: int)
      requires |before| == |stock| && Find(stock, ShelfAt(store, ingredient)) == |stock|
      requires forall k :: 0 <= k < |stock| ==> Shelves(stock[k], before[k].store, before[k].ingredient)
      ensures !Stocked(before, store, ingredient)
    {
      forall k | 0 <= k < |before| ensures !Shelves(before[k], store, ingredient) {
        assert !ShelfAt(store, ingredient)(stock[k]);
      }
    }

    static lemma SettleOneShelf(before: seq<StockRow>, lines: seq<Line>, n: nat, store: int, order: nat, cooked: bool,
                                shelf: nat)
      requires n < |lines| && Pending(lines[n], store, order) && UniqueShelves(before)
      requires shelf < |before| && Shelves(before[shelf], store, lines[n].ingredient)
      ensures var stock := SettleStock(before, lines[..n], store, order, cooked);
              var q := lines[n].Outstanding();
              SettleStock(before, lines[..n + 1], store, order, cooked) ==
                stock[shelf := stock[shelf].(reserved := stock[shelf].reserved - q,
                                             onHand := if cooked then stock[shelf].onHand - q else stock[shelf].onHand)]
    {
      TheShelf(before, shelf);
      TheOnlyShelf(before, store, lines[n].ingredient);
      forall k | 0 <= k < |before|
        ensures Sum(lines[..n + 1], Due(store, order, before[k].ingredient))
             == Sum(lines[..n], Due(store, order, before[k].ingredient))
                 + Due(store, order, before[k].ingredient)(lines[n])
      {
        SumStep(lines, n, Due(store, order, before[k].ingredient));
      }
    }

    static lemma SettleNoShelf(before: seq<StockRow>, lines: seq<Line>, n: nat, store: int, order: nat, cooked: bool)
      requires n < |lines| && !Pending(lines[n], store, order)
      ensures SettleStock(before, lines[..n + 1], store, order, cooked) ==
                SettleStock(before, lines[..n], store, order, cooked)
    {
      forall k | 0 <= k < |before|
        ensures Sum(lines[..n + 1], Due(store, order, before[k].ingredient)) ==
                  Sum(lines[..n], Due(store, order, before[k].ingredient))
      {
        SumStep(lines, n, Due(store, order, before[k].ingredient));
      }
    }

    method SettleLine(ghost before: Db, n: nat, store: int, order: nat, cooked: bool, actor: Option<int>)
      returns (settled: bool)
      requires n < |lines| == |before.lines|
      requires Halfway(before, n, store, order, cooked, actor, stock, lines, movements)
      modifies `stock, `lines, `movements
      ensures settled ==>
                && |lines| == |before.lines|
                && Halfway(before, n + 1, store, order, cooked, actor, stock, lines, movements)
      ensures !settled ==>
                && Pending(before.lines[n], store, order)
                && !Stocked(before.stock, store, before.lines[n].ingredient)
    {
      ghost var stock0, lines0 := before.stock, before.lines;
      assert lines[n] == lines0[n];
      assert lines0[..n + 1][..n] == lines0[..n];
      SettleOneLine(lines0, n, store, order, cooked);
      var l := lines[n];
      if !Pending(l, store, order) {
        SettleNoShelf(stock0, lines0, n, store, order, cooked);
        return true;
      }
      var qty, shelf := l.Outstanding(), Find(stock, ShelfAt(store, l.ingredient));
      if shelf == |stock| {
        NoShelfEither(stock0, stock, store, l.ingredient);
        return false;
      }
      assert Shelves(stock[shelf], store, l.ingredient) && Shelves(stock0[shelf], store, l.ingredient);
      SettleOneShelf(stock0, lines0, n, store, order, cooked, shelf);
      lines := lines[n := SettledLine(l, store, order, cooked)];
      stock := stock[shelf := stock[shelf].(reserved := stock[shelf].reserved - qty,
                                            onHand := if cooked then stock[shelf].onHand - qty
                                              else stock[shelf].onHand)];
      movements := movements + [Settlement(l, n, cooked, actor)];
      settled := true;
    }

    /** Each pending line is settled, its shelf lowered and its ledger row written. */
    method SettlePending(store: int, order: nat, cooked: bool, actor: Option<int>) returns (settled: bool)
      requires UniqueShelves(stock)
      modifies `stock, `lines, `movements
      ensures settled <==> forall k :: 0 <= k < |old(lines)| && Pending(old(lines)[k], store, order) ==>
                             Stocked(old(stock), store, old(lines)[k].ingredient)
      ensures settled ==>
                && lines == SettleLines(old(lines), store, order, cooked)
                && movements == old(movements) + Settlements(old(lines), store, order, cooked, actor)
                && stock == SettleStock(old(stock), old(lines), store, order, cooked)
    {
      ghost var before := State();
      NothingSettled(before, store, order, cooked, actor);
      for n := 0 to |lines|
        invariant |lines| == |before.lines|
        invariant Halfway(before, n, store, order, cooked, actor, stock, lines, movements)
      {
        settled := SettleLine(before, n, store, order, cooked, actor);
        if !settled { return; }
      }
      EverythingSettled(before, store, order, cooked, actor, stock, lines, movements);
      settled := true;
    }

    /** What both share; a missing shelf rolls everything back. */
    method SettleOrder(order: nat, cooked: bool, actor: Option<int>) returns (outcome: Outcome)
      requires UniqueShelves(stock)
      modifies `stock, `lines, `movements
      ensures (State(), outcome) == SettleStep(old(State()), order, cooked, actor)
    {
      if order >= |orders| { return Failed(OrderNotFound); }
      var savedStock, savedLines, savedMovements := stock, lines, movements;
      var settled := SettlePending(orders[order], order, cooked, actor);
      if settled {
        outcome := Done(order);
      } else {
        stock, lines, movements := savedStock, savedLines, savedMovements;
        outcome := Failed(StockRowMissing);
      }
    }

    method ConsumeOrder(order: nat, actor: Option<int>) returns (outcome: Outcome)
      requires UniqueShelves(stock)
      modifies `stock, `lines, `movements
      ensures (State(), outcome) == SettleStep(old(State()), order, true, actor)
      ensures if outcome.Done? then order < |old(orders)| && OrderCooked(old(State()), State(), order, actor)
              else State() == old(State())
    {
      outcome := SettleOrder(order, true, actor);
      SettlingIsAllOrNothing(catalog, old(State()), order, actor);
    }

    method ReleaseOrderReservation(order: nat, actor: Option<int>) returns (outcome: Outcome)
      requires UniqueShelves(stock)
      modifies `stock, `lines, `movements
      ensures (State(), outcome) == SettleStep(old(State()), order, false, actor)
      ensures if outcome.Done? then order < |old(orders)| && OrderReleased(old(State()), State(), order, actor)
              else State() == old(State())
    {
      outcome := SettleOrder(order, false, actor);
      SettlingIsAllOrNothing(catalog, old(State()), order, actor);
    }
  }
}
