/** Whole runs of the inventory: any sequence of commands, accepted or refused. */
module InventoryRuns {
  import opened Tables
  import opened Text
  import opened Inventory
  import opened InventoryCommands
  import opened InventoryConservation
  import opened InventorySafety
  import opened OrderSafety

  function Run(c: Catalog, db: Db, commands: seq<Command>): Db {
    if |commands| == 0 then db
    else
      var n := |commands| - 1;
      Exec(c, Run(c, db, commands[..n]), commands[n]).0
  }

  /** Every command is well-formed in the state it meets. */
  ghost predicate Proper(c: Catalog, db: Db, commands: seq<Command>) {
    forall i :: 0 <= i < |commands| ==> WellFormed(c, Run(c, db, commands[..i]), commands[i])
  }

  lemma ReceiveKeepsSound(c: Catalog, db: Db, s: Staff, ingredient: int, quantity: int, reason: string, key: string)
    requires Sound(c, db) && c.WorksAt(s.user, s.store)
    ensures Kept(c, db, ReceiveStep(c, db, s, ingredient, quantity, reason, key).0)
  {
    if Strip(key) == "" || quantity <= 0 {
      RefusalKeepsSound(c, db);
    } else {
      var note := Strip(reason);
      ManualKeepsSound(c, db, s, PurchaseReceipt, ingredient, quantity, quantity,
                       if note == "" then None else Some(note), Strip(key), ReceiptBody(ingredient, quantity, note));
    }
  }

  lemma AdjustKeepsSound(c: Catalog, db: Db, s: Staff, ingredient: int, delta: int, reason: string, key: string)
    requires Sound(c, db) && c.WorksAt(s.user, s.store)
    ensures Kept(c, db, AdjustStep(c, db, s, ingredient, delta, reason, key).0)
  {
    if Strip(key) == "" || Strip(reason) == "" || delta == 0 {
      RefusalKeepsSound(c, db);
    } else {
      ManualKeepsSound(c, db, s, ManualAdjustment, ingredient, Abs(delta), delta,
                       Some(Strip(reason)), Strip(key), AdjustmentBody(ingredient, delta, Strip(reason)));
    }
  }

  lemma WriteOffKeepsSound(c: Catalog, db: Db, s: Staff, ingredient: int, quantity: int, reason: string, key: string)
    requires Sound(c, db) && c.WorksAt(s.user, s.store)
    ensures Kept(c, db, WriteOffStep(c, db, s, ingredient, quantity, reason, key).0)
  {
    if Strip(key) == "" || quantity <= 0 || Strip(reason) == "" {
      RefusalKeepsSound(c, db);
    } else {
      ManualKeepsSound(c, db, s, Waste, ingredient, quantity, -quantity,
                       Some(Strip(reason)), Strip(key), WasteBody(ingredient, quantity, Strip(reason)));
    }
  }

  lemma ExecKeepsSound(c: Catalog, db: Db, command: Command)
    requires Sound(c, db) && WellFormed(c, db, command)
    ensures Kept(c, db, Exec(c, db, command).0)
  {
    match command
    case Receive(s, i, q, reason, key) => ReceiveKeepsSound(c, db, s, i, q, reason, key);
    case Adjust(s, i, d, reason, key) => AdjustKeepsSound(c, db, s, i, d, reason, key);
    case WriteOff(s, i, q, reason, key) => WriteOffKeepsSound(c, db, s, i, q, reason, key);
    case Ship(s, to, i, q, reason, note, key) => ShipKeepsSound(c, db, s, to, i, q, reason, note, key);
    case CountShelf(s, i, counted, reason, note, key) => CountKeepsSound(c, db, s, i, counted, reason, note, key);
    case PlaceOrder(store, itemCount, needs) => PlaceKeepsSound(c, db, store, itemCount, needs);
    case StartPreparation(order, actor) => SettleKeepsSound(c, db, order, true, actor);
    case CancelOrder(order, actor) => SettleKeepsSound(c, db, order, false, actor);
  }

  lemma ProperPrefix(c: Catalog, db: Db, commands: seq<Command>, n: nat)
    requires Proper(c, db, commands) && n <= |commands|
    ensures Proper(c, db, commands[..n])
  {
    forall i | 0 <= i < n ensures WellFormed(c, Run(c, db, commands[..n][..i]), commands[..n][i]) {
      assert commands[..n][..i] == commands[..i];
    }
  }

  /** Every reachable state is sound: the constraints hold, on-hand, reserved and
      the order lines agree with the ledger shelf by shelf, and every transfer and
      count is matched. */
  lemma {:induction false} EveryReachableStateIsSound(c: Catalog, db: Db, commands: seq<Command>)
    requires Sound(c, db) && Proper(c, db, commands)
    ensures Sound(c, Run(c, db, commands))
  {
    if |commands| > 0 {
      var n := |commands| - 1;
      ProperPrefix(c, db, commands, n);
      EveryReachableStateIsSound(c, db, commands[..n]);
      ExecKeepsSound(c, Run(c, db, commands[..n]), commands[n]);
    }
  }

  // ── What a run leaves alone ────────────────────────────────────────────────

  lemma NothingExtends(db: Db)
    ensures Extends(db, db)
  {}

  lemma ShippedExtends(db: Db, stock: seq<StockRow>, from: nat, to: nat, t: Transfer)
    requires db.stock <= stock && from < |stock| && to < |stock|
    ensures Extends(db, Shipped(db.(stock := stock), from, to, t))
  {}

  lemma PlaceExtends(c: Catalog, db: Db, store: int, itemCount: nat, needs: seq<Need>)
    ensures Extends(db, PlaceStep(c, db, store, itemCount, needs).0)
  {}

  lemma SettleExtends(db: Db, order: nat, cooked: bool, actor: Option<int>)
    ensures Extends(db, SettleStep(db, order, cooked, actor).0)
  {}

  lemma CountExtends(c: Catalog, db: Db, staff: Staff, ingredient: int, counted: int, reason: string, note: string,
                     key: string)
    ensures Extends(db, CountStep(c, db, staff, ingredient, counted, reason, note, key).0)
  {}

  lemma DispatchExtends(c: Catalog, db: Db, t: Transfer)
    ensures Extends(db, Dispatch(c, db, t).0)
  {
    if Dispatch(c, db, t).1.Done? {
      var stock := WithShelf(db.stock, t.destination, t.ingredient);
      ShippedExtends(db, stock, Find(stock, ShelfAt(t.source, t.ingredient)),
                     Find(stock, ShelfAt(t.destination, t.ingredient)), t);
    }
  }

  lemma ShipExtends(c: Catalog, db: Db, staff: Staff, destination: int, ingredient: int, quantity: int, reason: string,
                    note: string, key: string)
    ensures Extends(db, ShipStep(c, db, staff, destination, ingredient, quantity, reason, note, key).0)
  {
    NothingExtends(db);
    var why, k := Strip(reason), Strip(key);
    DispatchExtends(c, db, Transfer(staff.store, destination, ingredient, quantity, why, staff.user, k,
                                    TransferBody(destination, ingredient, quantity, why, Strip(note))));
  }

  lemma ReceiveExtends(c: Catalog, db: Db, s: Staff, ingredient: int, quantity: int, reason: string, key: string)
    ensures Extends(db, ReceiveStep(c, db, s, ingredient, quantity, reason, key).0)
  {}

  lemma AdjustExtends(c: Catalog, db: Db, s: Staff, ingredient: int, delta: int, reason: string, key: string)
    ensures Extends(db, AdjustStep(c, db, s, ingredient, delta, reason, key).0)
  {}

  lemma WriteOffExtends(c: Catalog, db: Db, s: Staff, ingredient: int, quantity: int, reason: string, key: string)
    ensures Extends(db, WriteOffStep(c, db, s, ingredient, quantity, reason, key).0)
  {}

  /** Earlier rows keep their keys; ledger, transfers and counts only grow. */
  lemma ExecExtends(c: Catalog, db: Db, command: Command)
    ensures Extends(db, Exec(c, db, command).0)
  {
    match command
    case Receive(s, i, q, reason, key) => ReceiveExtends(c, db, s, i, q, reason, key);
    case Adjust(s, i, d, reason, key) => AdjustExtends(c, db, s, i, d, reason, key);
    case WriteOff(s, i, q, reason, key) => WriteOffExtends(c, db, s, i, q, reason, key);
    case Ship(s, to, i, q, reason, note, key) => ShipExtends(c, db, s, to, i, q, reason, note, key);
    case CountShelf(s, i, counted, reason, note, key) => CountExtends(c, db, s, i, counted, reason, note, key);
    case PlaceOrder(store, itemCount, needs) => PlaceExtends(c, db, store, itemCount, needs);
    case StartPreparation(order, actor) => SettleExtends(db, order, true, actor);
    case CancelOrder(order, actor) => SettleExtends(db, order, false, actor);
  }

  lemma ExtendsTransitive(a: Db, b: Db, c: Db)
    requires Extends(a, b) && Extends(b, c)
    ensures Extends(a, c)
  {
    forall k | 0 <= k < |a.lines| ensures SameKeys(a.lines[k], c.lines[k]) {
      assert SameKeys(a.lines[k], b.lines[k]) && SameKeys(b.lines[k], c.lines[k]);
    }
    forall k | 0 <= k < |a.stock| ensures Shelves(c.stock[k], a.stock[k].store, a.stock[k].ingredient) {
      assert Shelves(b.stock[k], a.stock[k].store, a.stock[k].ingredient)
          && Shelves(c.stock[k], b.stock[k].store, b.stock[k].ingredient);
    }
  }

  lemma {:induction false} RunExtends(c: Catalog, db: Db, commands: seq<Command>)
    ensures Extends(db, Run(c, db, commands))
  {
    if |commands| > 0 {
      var n := |commands| - 1;
      RunExtends(c, db, commands[..n]);
      ExecExtends(c, Run(c, db, commands[..n]), commands[n]);
      ExtendsTransitive(db, Run(c, db, commands[..n]), Run(c, db, commands));
    }
  }

  predicate Settles(command: Command, order: nat) {
    (command.StartPreparation? || command.CancelOrder?) && command.order == order
  }

  /** Only cooking or cancelling an order touches its lines. */
  lemma ExecLeavesOrder(c: Catalog, db: Db, command: Command, order: nat, k: nat)
    requires k < |db.lines| && db.lines[k].order == order && !Settles(command, order)
    ensures k < |Exec(c, db, command).0.lines| && Exec(c, db, command).0.lines[k] == db.lines[k]
  {
    if !(command.StartPreparation? || command.CancelOrder?) {
      assert db.lines <= Exec(c, db, command).0.lines;
    }
  }

  lemma {:induction false} RunLeavesOrder(c: Catalog, db: Db, commands: seq<Command>, order: nat, k: nat)
    requires k < |db.lines| && db.lines[k].order == order
    requires forall i :: 0 <= i < |commands| ==> !Settles(commands[i], order)
    ensures k < |Run(c, db, commands).lines| && Run(c, db, commands).lines[k] == db.lines[k]
  {
    if |commands| > 0 {
      var n := |commands| - 1;
      RunLeavesOrder(c, db, commands[..n], order, k);
      ExecLeavesOrder(c, Run(c, db, commands[..n]), commands[n], order, k);
    }
  }

  lemma CookedLine(db: Db, order: nat, actor: Option<int>, k: nat)
    requires order < |db.orders| && k < |db.lines| && LineChecks(db.lines[k])
    requires db.lines[k].order == order && db.lines[k].store == db.orders[order]
    ensures var l := Settled(db, order, true, actor).lines[k];
            l.consumed == db.lines[k].consumed + db.lines[k].Outstanding() && l.Outstanding() == 0
  {}

  lemma CookingTakesWhatIsOwed(c: Catalog, db: Db, order: nat, actor: Option<int>, k: nat)
    requires Sound(c, db) && order < |db.orders| && ActorOk(c, db, order, actor)
    requires k < |db.lines| && db.lines[k].order == order
    ensures var cooked := SettleStep(db, order, true, actor);
            && cooked.1 == Done(order) && Kept(c, db, cooked.0)
            && k < |cooked.0.lines|
            && cooked.0.lines[k].consumed == db.lines[k].consumed + db.lines[k].Outstanding()
            && cooked.0.lines[k].Outstanding() == 0
  {
    PromiseIsKept(c, db, order, true, actor);
    assert LineChecks(db.lines[k]) && LineKeys(db, db.lines[k]);
    CookedLine(db, order, actor, k);
    assert SettleStep(db, order, true, actor).0 == Settled(db, order, true, actor);
  }

  /** Promised stock is never taken: whatever waste, adjustments, shipments,
      counts and other orders run in between, an order can be cooked in full, and
      cooking consumes exactly what each of its lines was owed at the start. */
  lemma {:induction false} PromiseOutlivesAnyRun(c: Catalog, db: Db, commands: seq<Command>, order: nat,
                                                 actor: Option<int>, k: nat)
    requires Sound(c, db) && Proper(c, db, commands)
    requires order < |db.orders| && ActorOk(c, Run(c, db, commands), order, actor)
    requires forall i :: 0 <= i < |commands| ==> !Settles(commands[i], order)
    requires k < |db.lines| && db.lines[k].order == order
    ensures var cooked := SettleStep(Run(c, db, commands), order, true, actor);
            && cooked.1 == Done(order)
            && Kept(c, Run(c, db, commands), cooked.0)
            && k < |cooked.0.lines|
            && cooked.0.lines[k].consumed == db.lines[k].consumed + db.lines[k].Outstanding()
            && cooked.0.lines[k].Outstanding() == 0
  {
    EveryReachableStateIsSound(c, db, commands);
    RunExtends(c, db, commands);
    RunLeavesOrder(c, db, commands, order, k);
    CookingTakesWhatIsOwed(c, Run(c, db, commands), order, actor, k);
  }

  // ── Conservation over runs ─────────────────────────────────────────────────

  lemma ChangeInStock(c: Catalog, db: Db, after: Db, ingredient: int)
    requires Sound(c, db) && Sound(c, after) && db.movements <= after.movements
    ensures Sum(after.stock, ChainOnHand(ingredient)) ==
              Sum(db.stock, ChainOnHand(ingredient))
                  + Sum(after.movements[|db.movements|..], UnshippedDelta(ingredient))
  {
    TransfersConserveStock(c, db, ingredient);
    TransfersConserveStock(c, after, ingredient);
    SumGrowth(db.movements, after.movements, UnshippedDelta(ingredient));
  }

  /** Over any run the chain's stock of an ingredient changes by the new ledger
      rows that are not shipments, and by nothing else. */
  lemma {:induction false} RunConservesStock(c: Catalog, db: Db, commands: seq<Command>, ingredient: int)
    requires Sound(c, db) && Proper(c, db, commands)
    ensures var after := Run(c, db, commands);
            && db.movements <= after.movements
            && Sum(after.stock, ChainOnHand(ingredient)) ==
                 Sum(db.stock, ChainOnHand(ingredient))
                     + Sum(after.movements[|db.movements|..], UnshippedDelta(ingredient))
  {
    EveryReachableStateIsSound(c, db, commands);
    RunExtends(c, db, commands);
    ChangeInStock(c, db, Run(c, db, commands), ingredient);
  }

  // ── Retries ────────────────────────────────────────────────────────────────

  /** A key names at most one ledger row of its store. */
  lemma {:induction false} KeyedMovement(ms: seq<Movement>, id: nat, key: string)
    requires UniqueMovements(ms) && id < |ms| && ms[id].key == Some(key)
    ensures Find(ms, MovementKeyed(ms[id].store, key)) == id
  {
    assert MovementKeyed(ms[id].store, key)(ms[id]);
  }

  /** The row, key and body a keyed command leaves behind. */
  ghost predicate Remembers(db: Db, command: Command, id: nat) {
    match command
    case Receive(s, i, q, reason, key) =>
      id < |db.movements| && db.movements[id].store == s.store && db.movements[id].key == Some(Strip(key))
      && db.movements[id].request == Some(ReceiptBody(i, q, Strip(reason)))
    case Adjust(s, i, d, reason, key) =>
      id < |db.movements| && db.movements[id].store == s.store && db.movements[id].key == Some(Strip(key))
      && db.movements[id].request == Some(AdjustmentBody(i, d, Strip(reason)))
    case WriteOff(s, i, q, reason, key) =>
      id < |db.movements| && db.movements[id].store == s.store && db.movements[id].key == Some(Strip(key))
      && db.movements[id].request == Some(WasteBody(i, q, Strip(reason)))
    case Ship(s, to, i, q, reason, note, key) =>
      id < |db.transfers| && db.transfers[id].source == s.store && db.transfers[id].key == Strip(key)
      && db.transfers[id].request == TransferBody(to, i, q, Strip(reason), Strip(note))
    case CountShelf(s, i, counted, reason, note, key) =>
      id < |db.counts| && db.counts[id].store == s.store && db.counts[id].key == Strip(key)
      && db.counts[id].request == CountBody(i, counted, Strip(reason), Strip(note))
    case _ => false
  }

  predicate Keyed(command: Command) {
    command.Receive? || command.Adjust? || command.WriteOff? || command.Ship? || command.CountShelf?
  }

  lemma DispatchWrites(c: Catalog, db: Db, t: Transfer)
    ensures var (after, outcome) := Dispatch(c, db, t);
            outcome.Done? ==> outcome.id == |db.transfers| && after.transfers == db.transfers + [t]
  {}

  lemma ShipIsRemembered(c: Catalog, db: Db, staff: Staff, destination: int, ingredient: int, quantity: int,
                         reason: string, note: string, key: string)
    requires ShipStep(c, db, staff, destination, ingredient, quantity, reason, note, key).1.Done?
    ensures var (after, outcome) := ShipStep(c, db, staff, destination, ingredient, quantity, reason, note, key);
            Remembers(after, Ship(staff, destination, ingredient, quantity, reason, note, key), outcome.id)
  {
    DispatchWrites(c, db, Transfer(staff.store, destination, ingredient, quantity, Strip(reason), staff.user,
                                   Strip(key),
                                   TransferBody(destination, ingredient, quantity, Strip(reason), Strip(note))));
  }

  lemma DoneIsRemembered(c: Catalog, db: Db, command: Command, id: nat)
    requires Keyed(command) && Exec(c, db, command).1 == Done(id)
    ensures Remembers(Exec(c, db, command).0, command, id)
  {
    if command.Ship? {
      var Ship(s, to, i, q, reason, note, key) := command;
      ShipIsRemembered(c, db, s, to, i, q, reason, note, key);
    }
  }

  lemma MemoryLasts(before: Db, after: Db, command: Command, id: nat)
    requires Extends(before, after) && Remembers(before, command, id)
    ensures Remembers(after, command, id)
  {}

  /** Two commands draw on the same key: the same table, store and key. */
  predicate SameKey(a: Command, b: Command) {
    && Keyed(a) && Keyed(b) && a.staff.store == b.staff.store && Strip(a.key) == Strip(b.key)
    && (a.Ship? <==> b.Ship?) && (a.CountShelf? <==> b.CountShelf?)
  }

  /** What the stored request body distinguishes. */
  predicate SameBody(a: Command, b: Command)
    requires Keyed(a) && Keyed(b)
  {
    match (a, b)
    case (Receive(_, i, q, reason, _), Receive(_, i', q', reason', _)) => i == i' && q == q'
        && Strip(reason) == Strip(reason')
    case (Adjust(_, i, d, reason, _), Adjust(_, i', d', reason', _)) => i == i' && d == d'
        && Strip(reason) == Strip(reason')
    case (WriteOff(_, i, q, reason, _), WriteOff(_, i', q', reason', _)) => i == i' && q == q'
        && Strip(reason) == Strip(reason')
    case (Ship(_, to, i, q, reason, note, _), Ship(_, to', i', q', reason', note', _)) =>
      to == to' && i == i' && q == q' && Strip(reason) == Strip(reason') && Strip(note) == Strip(note')
    case (CountShelf(_, i, n, reason, note, _), CountShelf(_, i', n', reason', note', _)) =>
      i == i' && n == n' && Strip(reason) == Strip(reason') && Strip(note) == Strip(note')
    case _ => false
  }

  /** The checks a command must pass before its key is looked up. */
  predicate Admissible(command: Command) {
    match command
    case Receive(_, _, q, _, key) => Strip(key) != "" && q > 0
    case Adjust(_, _, d, reason, key) => Strip(key) != "" && Strip(reason) != "" && d != 0
    case WriteOff(_, _, q, reason, key) => Strip(key) != "" && q > 0 && Strip(reason) != ""
    case Ship(s, to, _, q, reason, _, key) => Strip(key) != "" && q > 0 && Strip(reason) != "" && to != s.store
    case CountShelf(_, _, counted, reason, _, key) => Strip(key) != "" && counted >= 0 && Strip(reason) != ""
    case _ => true
  }

  lemma RememberedManual(c: Catalog, db: Db, first: Command, id: nat, again: Command)
    requires RowsOk(c, db) && SameKey(first, again) && Remembers(db, first, id) && Admissible(again)
    requires first.Receive? || first.Adjust? || first.WriteOff?
    ensures Exec(c, db, again) == (db, if SameBody(first, again) then Replayed(id) else Failed(IdempotencyMismatch))
  {
    KeyedMovement(db.movements, id, Strip(again.key));
  }

  lemma RememberedShipment(c: Catalog, db: Db, first: Command, id: nat, again: Command)
    requires RowsOk(c, db) && SameKey(first, again) && Remembers(db, first, id) && Admissible(again)
    requires first.Ship?
    ensures Exec(c, db, again) == (db, if SameBody(first, again) then Replayed(id) else Failed(IdempotencyMismatch))
  {
    assert TransferKeyed(first.staff.store, Strip(first.key))(db.transfers[id]);
    assert Find(db.transfers, TransferKeyed(first.staff.store, Strip(first.key))) == id;
  }

  lemma RememberedCount(c: Catalog, db: Db, first: Command, id: nat, again: Command)
    requires RowsOk(c, db) && SameKey(first, again) && Remembers(db, first, id) && Admissible(again)
    requires first.CountShelf?
    ensures Exec(c, db, again) == (db, if SameBody(first, again) then Replayed(id) else Failed(IdempotencyMismatch))
  {
    assert CountKeyed(first.staff.store, Strip(first.key))(db.counts[id]);
    assert Find(db.counts, CountKeyed(first.staff.store, Strip(first.key))) == id;
  }

  /** A retry is idempotent for ever: after a command succeeded and anything at
      all ran since, re-sending it answers with the original row and writes
      nothing, and re-using its key for another body is refused. */
  lemma {:induction false} RetriesReplay(c: Catalog, db: Db, first: Command, id: nat, later: seq<Command>,
                                         again: Command)
    requires Sound(c, db) && WellFormed(c, db, first) && Exec(c, db, first).1 == Done(id)
    requires Proper(c, Exec(c, db, first).0, later)
    requires SameKey(first, again) && Admissible(again)
    ensures var now := Run(c, Exec(c, db, first).0, later);
            Exec(c, now, again) == (now, if SameBody(first, again) then Replayed(id) else Failed(IdempotencyMismatch))
  {
    var done := Exec(c, db, first).0;
    var now := Run(c, done, later);
    ExecKeepsSound(c, db, first);
    EveryReachableStateIsSound(c, done, later);
    RunExtends(c, done, later);
    DoneIsRemembered(c, db, first, id);
    MemoryLasts(done, now, first, id);
    if first.Ship? {
      RememberedShipment(c, now, first, id, again);
    } else if first.CountShelf? {
      RememberedCount(c, now, first, id, again);
    } else {
      RememberedManual(c, now, first, id, again);
    }
  }

  // ── A physical count ───────────────────────────────────────────────────────

  /** An accepted count makes the shelf hold what was counted, keeps the promises
      made from it, moves no other shelf, and writes one ledger row exactly when
      there was a difference. */
  lemma CountSetsTheShelf(c: Catalog, db: Db, staff: Staff, ingredient: int, counted: int, reason: string, note: string,
                          key: string)
    requires Sound(c, db) && CountStep(c, db, staff, ingredient, counted, reason, note, key).1.Done?
    ensures var after := CountStep(c, db, staff, ingredient, counted, reason, note, key).0;
            && |after.stock| == |db.stock|
            && (forall k :: 0 <= k < |db.stock| ==>
                 after.stock[k] == if Shelves(db.stock[k], staff.store, ingredient)
                                   then db.stock[k].(onHand := counted) else db.stock[k])
            && Stocked(after.stock, staff.store, ingredient)
            && |after.movements| - |db.movements| ==
                 (if Sum(db.movements, OnHandOf(staff.store, ingredient)) == counted then 0 else 1)
  {
    var shelf := Find(db.stock, ShelfAt(staff.store, ingredient));
    var after := CountStep(c, db, staff, ingredient, counted, reason, note, key).0;
    assert Shelves(db.stock[shelf], staff.store, ingredient) && Shelves(after.stock[shelf], staff.store, ingredient);
    forall k | 0 <= k < |db.stock|
      ensures after.stock[k] == if Shelves(db.stock[k], staff.store, ingredient)
                                then db.stock[k].(onHand := counted) else db.stock[k]
    {
      if Shelves(db.stock[k], staff.store, ingredient) {
        TheShelf(db.stock, k);
      }
    }
  }

  // ── Where runs start ───────────────────────────────────────────────────────

  /** A chain that opens its shelves empty is sound after any run. */
  lemma {:induction false} FromEmptyShelves(c: Catalog, stock: seq<StockRow>, commands: seq<Command>)
    requires UniqueShelves(stock)
    requires forall k :: 0 <= k < |stock| ==> stock[k].onHand == 0 && stock[k].reserved == 0
    requires Proper(c, Db([], [], stock, [], [], [], []), commands)
    ensures Sound(c, Run(c, Db([], [], stock, [], [], [], []), commands))
  {
    EveryReachableStateIsSound(c, Db([], [], stock, [], [], [], []), commands);
  }
}
