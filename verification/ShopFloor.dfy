/** The till and the shelves together: one order, two ledgers. Placing an order and
    cancelling it, in the kitchen or by resolving an issue, touch both in one
    transaction; everything else touches one of them. */
module ShopFloor {
  import opened Tables
  import opened Text
  import Stock = Inventory
  import Shelves = InventoryCommands
  import Books = Payments
  import Till = PaymentCommands
  import InventorySafety
  import InventoryRuns
  import OrderSafety
  import PaymentSafety
  import IssueSafety
  import PaymentRuns

  /** Row k of both order tables is the same order. */
  datatype Floor = Floor(books: Books.Books, stock: Stock.Db)

  datatype Command =
    | PlaceOrder(store: int, table: Option<int>, total: int, itemCount: nat, needs: seq<Shelves.Need>)
    | OnShelves(stockCommand: Shelves.Command)
    | AtTill(tillCommand: Till.Command)
    | CancelInKitchen(order: nat, actor: Option<int>)
    | ResolveIssue(staff: Till.Staff, issue: nat, resolution: Books.Resolution, approved: Option<int>,
                   reason: string, note: string, key: string)

  predicate ShelvesOnly(command: Shelves.Command) { !command.PlaceOrder? && !command.CancelOrder? }

  predicate TillOnly(command: Till.Command) {
    !command.PlaceOrder? && !command.CancelInKitchen? && !command.ResolveIssue?
  }

  predicate WellFormed(c: Stock.Catalog, site: Books.Site, f: Floor, command: Command) {
    match command
    case PlaceOrder(_, _, total, itemCount, needs) => total >= 0 && forall k ::
        0 <= k < |needs| ==> needs[k].item < itemCount
    case OnShelves(command) => ShelvesOnly(command) && Shelves.WellFormed(c, f.stock, command)
    case AtTill(command) => TillOnly(command) && Till.WellFormed(site, command)
    case CancelInKitchen(order, actor) => Shelves.ActorOk(c, f.stock, order, actor)
    case ResolveIssue(staff, _, _, _, _, _, _) => site.WorksAt(staff.user, staff.store)
  }

  predicate Cancels(resolution: Books.Resolution) { resolution.FullRefund? || resolution.CancelOnly? }

  /** Both halves commit, or neither does. */
  function Together(f: Floor, books: Books.Books, release: (Stock.Db, Shelves.Outcome)): Floor {
    if release.1.Done? then Floor(books, release.0) else f
  }

  function Place(c: Stock.Catalog, f: Floor, store: int, table: Option<int>, total: int, itemCount: nat,
                 needs: seq<Shelves.Need>): Floor
  {
    Together(f, Till.PlaceOrderStep(f.books, store, table, total).0,
             Shelves.PlaceStep(c, f.stock, store, itemCount, needs))
  }

  function Cancel(f: Floor, order: nat, actor: Option<int>): Floor {
    var (books, outcome) := Till.CancelStep(f.books, order);
    if !outcome.Done? then f else Together(f, books, Shelves.SettleStep(f.stock, order, false, actor))
  }

  function Resolve(f: Floor, staff: Till.Staff, issue: nat, resolution: Books.Resolution, approved: Option<int>,
                   reason: string, note: string, key: string, now: int): Floor
  {
    var (books, outcome) := Till.ResolveIssueStep(f.books, staff, issue, resolution, approved, reason, note, key, now);
    if !outcome.Done? || issue >= |f.books.issues| then f
    else if Cancels(resolution) then
      Together(f, books, Shelves.SettleStep(f.stock, f.books.issues[issue].order, false, Some(staff.user)))
    else f.(books := books)
  }

  function Exec(c: Stock.Catalog, site: Books.Site, f: Floor, command: Command, now: int): Floor {
    match command
    case PlaceOrder(store, table, total, itemCount, needs) =>
      Place(c, f, store, table, total, itemCount, needs)
    case OnShelves(command) => f.(stock := Shelves.Exec(c, f.stock, command).0)
    case AtTill(command) => f.(books := Till.Exec(site, f.books, command, now).0)
    case CancelInKitchen(order, actor) => Cancel(f, order, actor)
    case ResolveIssue(staff, issue, resolution, approved, reason, note, key) =>
      Resolve(f, staff, issue, resolution, approved, reason, note, key, now)
  }

  // ── The invariant ──────────────────────────────────────────────────────────

  /** users is one table. */
  ghost predicate SameStaff(c: Stock.Catalog, site: Books.Site) {
    forall user, store :: site.WorksAt(user, store) ==> c.WorksAt(user, store)
  }

  ghost predicate SameOrders(books: Books.Books, stock: Stock.Db) {
    && |books.orders| == |stock.orders|
    && forall k :: 0 <= k < |books.orders| ==> books.orders[k].store == stock.orders[k]
  }

  /** What is still promised to the order's lines. */
  predicate Promised(stock: Stock.Db, order: nat) {
    exists k :: 0 <= k < |stock.lines| && stock.lines[k].order == order && stock.lines[k].Outstanding() != 0
  }

  /** A cancelled order claims nothing from any shelf. */
  ghost predicate CancelledIsReleased(books: Books.Books, stock: Stock.Db) {
    forall k :: 0 <= k < |books.orders| && books.orders[k].cancelled ==> !Promised(stock, k)
  }

  ghost predicate Joined(books: Books.Books, stock: Stock.Db) {
    match books
    case Books(_, _, _, _, _) => SameOrders(books, stock) && CancelledIsReleased(books, stock)
  }

  ghost predicate Sound(c: Stock.Catalog, site: Books.Site, f: Floor) {
    && InventorySafety.Sound(c, f.stock) && IssueSafety.Settled(site, f.books)
    && SameStaff(c, site) && Joined(f.books, f.stock)
  }

  // ── Each half leaves the other's orders alone ──────────────────────────────

  /** Orders keep their store and whether they were cancelled. */
  ghost predicate SameStates(before: seq<Books.Order>, after: seq<Books.Order>) {
    && |before| == |after|
    && forall k :: 0 <= k < |before| ==> after[k].store == before[k].store && after[k].cancelled == before[k].cancelled
  }

  lemma CollectKeepsStates(site: Books.Site, b: Books.Books, staff: Till.Staff, table: Option<int>, ids: set<nat>,
                           part: Option<int>, guardRecollect: bool, tender: Books.Tender, key: string,
                           body: Books.Request, now: int)
    ensures SameStates(b.orders,
                       Till.Collect(site, b, staff, table, ids, part, guardRecollect, tender, key, body, now).0.orders)
  {}

  lemma RefundKeepsStates(b: Books.Books, staff: Till.Staff, allocation: nat, amount: int, reason: string, key: string,
                          now: int)
    ensures SameStates(b.orders, Till.RefundStep(b, staff, allocation, amount, reason, key, now).0.orders)
  {}

  lemma TillKeepsStates(site: Books.Site, b: Books.Books, command: Till.Command, now: int)
    requires TillOnly(command)
    ensures SameStates(b.orders, Till.Exec(site, b, command, now).0.orders)
  {
    match command
    case SettleTable(s, table, ids, tender, note, key) =>
      CollectKeepsStates(site, b, s, Some(table), ids, None, true, tender, Strip(key),
                         Books.SettlementBody(table, ids, tender, note), now);
    case PayOrder(s, order, part, tender, note, key) =>
      if order < |b.orders| {
        CollectKeepsStates(site, b, s, b.orders[order].table, {order}, part, false, tender, Strip(key),
                           Books.OrderPaymentBody(order, part, tender, note), now);
      }
    case RefundAllocation(s, allocation, amount, reason, key) =>
      RefundKeepsStates(b, s, allocation, amount, reason, key, now);
    case _ =>
  }

  lemma TillKeepsJoined(site: Books.Site, f: Floor, command: Till.Command, now: int)
    requires TillOnly(command) && Joined(f.books, f.stock)
    ensures Joined(Till.Exec(site, f.books, command, now).0, f.stock)
  {
    TillKeepsStates(site, f.books, command, now);
  }

  lemma ShelvesKeepOrders(c: Stock.Catalog, db: Stock.Db, command: Shelves.Command)
    requires ShelvesOnly(command)
    ensures Shelves.Exec(c, db, command).0.orders == db.orders
  {}

  lemma SettlingPromisesNothing(db: Stock.Db, settled: nat, cooked: bool, actor: Option<int>, order: nat)
    requires !Promised(db, order)
    ensures !Promised(Shelves.SettleStep(db, settled, cooked, actor).0, order)
  {
    var after := Shelves.SettleStep(db, settled, cooked, actor).0;
    forall k | 0 <= k < |after.lines| && after.lines[k].order == order ensures after.lines[k].Outstanding() == 0 {
      assert db.lines[k].order == order;
    }
  }

  /** No shelf command promises anything anew. */
  lemma ShelvesPromiseNothing(c: Stock.Catalog, db: Stock.Db, command: Shelves.Command, order: nat)
    requires ShelvesOnly(command) && !Promised(db, order)
    ensures !Promised(Shelves.Exec(c, db, command).0, order)
  {
    if command.StartPreparation? {
      SettlingPromisesNothing(db, command.order, true, command.actor, order);
    } else {
      assert Shelves.Exec(c, db, command).0.lines == db.lines;
    }
  }

  lemma ShelvesKeepJoined(c: Stock.Catalog, f: Floor, command: Shelves.Command)
    requires ShelvesOnly(command) && Joined(f.books, f.stock)
    ensures Joined(f.books, Shelves.Exec(c, f.stock, command).0)
  {
    ShelvesKeepOrders(c, f.stock, command);
    forall k | 0 <= k < |f.books.orders| && f.books.orders[k].cancelled
      ensures !Promised(Shelves.Exec(c, f.stock, command).0, k)
    {
      ShelvesPromiseNothing(c, f.stock, command, k);
    }
  }

  // ── Placing ────────────────────────────────────────────────────────────────

  lemma PlacingKeepsJoined(c: Stock.Catalog, f: Floor, store: int, table: Option<int>, total: int, itemCount: nat,
                           needs: seq<Shelves.Need>)
    requires Joined(f.books, f.stock)
    requires Shelves.PlaceStep(c, f.stock, store, itemCount, needs).1.Done?
    ensures Joined(Till.PlaceOrderStep(f.books, store, table, total).0,
                   Shelves.PlaceStep(c, f.stock, store, itemCount, needs).0)
  {
    var stock := Shelves.PlaceStep(c, f.stock, store, itemCount, needs).0;
    forall k | 0 <= k < |f.books.orders| && f.books.orders[k].cancelled ensures !Promised(stock, k) {
      forall j | 0 <= j < |stock.lines| && stock.lines[j].order == k ensures stock.lines[j].Outstanding() == 0 {
        assert j < |f.stock.lines| ==> stock.lines[j] == f.stock.lines[j];
      }
    }
  }

  // ── Cancelling ─────────────────────────────────────────────────────────────

  /** Only this order may have been cancelled. */
  ghost predicate AtMostCancels(before: seq<Books.Order>, after: seq<Books.Order>, order: nat) {
    && |before| == |after|
    && forall k :: 0 <= k < |before| ==>
         after[k].store == before[k].store && (k != order ==> after[k].cancelled == before[k].cancelled)
  }

  /** Releasing an order in a sound state succeeds and leaves it nothing. */
  lemma ReleaseFrees(c: Stock.Catalog, db: Stock.Db, order: nat, actor: Option<int>)
    requires InventorySafety.Sound(c, db) && order < |db.orders| && Shelves.ActorOk(c, db, order, actor)
    ensures var release := Shelves.SettleStep(db, order, false, actor);
            release.1.Done? && InventorySafety.Sound(c, release.0) && release.0.orders == db.orders
            && !Promised(release.0, order)
  {
    OrderSafety.PromiseIsKept(c, db, order, false, actor);
    var after := Shelves.SettleStep(db, order, false, actor).0;
    forall k | 0 <= k < |after.lines| && after.lines[k].order == order ensures after.lines[k].Outstanding() == 0 {
      assert db.lines[k].order == order;
      assert Stock.LineChecks(db.lines[k]) && Stock.LineKeys(db, db.lines[k]);
    }
  }

  lemma CancellingKeepsJoined(c: Stock.Catalog, f: Floor, books: Books.Books, order: nat, actor: Option<int>)
    requires InventorySafety.Sound(c, f.stock) && Joined(f.books, f.stock)
    requires order < |f.stock.orders| && Shelves.ActorOk(c, f.stock, order, actor)
    requires AtMostCancels(f.books.orders, books.orders, order)
    ensures Joined(books, Shelves.SettleStep(f.stock, order, false, actor).0)
  {
    ReleaseFrees(c, f.stock, order, actor);
    forall k | 0 <= k < |books.orders| && books.orders[k].cancelled
      ensures !Promised(Shelves.SettleStep(f.stock, order, false, actor).0, k)
    {
      if k != order { SettlingPromisesNothing(f.stock, order, false, actor, k); }
    }
  }

  /** The release commits with the till's own half, and the floor stays sound. */
  lemma BothCommit(c: Stock.Catalog, site: Books.Site, f: Floor, books: Books.Books, order: nat, actor: Option<int>)
    requires Sound(c, site, f) && IssueSafety.Settled(site, books) && AtMostCancels(f.books.orders, books.orders, order)
    requires order < |f.books.orders| && Shelves.ActorOk(c, f.stock, order, actor)
    ensures var after := Together(f, books, Shelves.SettleStep(f.stock, order, false, actor));
            Sound(c, site, after) && after.books == books && !Promised(after.stock, order)
  {
    ReleaseFrees(c, f.stock, order, actor);
    CancellingKeepsJoined(c, f, books, order, actor);
  }

  /** What a granted resolution does to the orders. */
  lemma SettleCancels(b: Books.Books, staff: Till.Staff, id: nat, resolution: Books.Resolution, ruling: Till.Ruling,
                      reason: string, key: string, body: Books.Request, now: int)
    requires id < |b.issues| && b.issues[id].order < |b.orders| && ruling.Grant?
    requires Till.Settle(b, staff, id, resolution, ruling, reason, key, body, now).1.Done?
    ensures var after := Till.Settle(b, staff, id, resolution, ruling, reason, key, body, now).0;
            && AtMostCancels(b.orders, after.orders, b.issues[id].order)
            && after.orders[b.issues[id].order].cancelled == (ruling.cancels || b.orders[b.issues[id].order].cancelled)
  {}

  lemma RulingCancels(o: Books.Order, resolution: Books.Resolution, approved: Option<int>)
    requires Till.Rule(o, resolution, approved).Grant?
    ensures Till.Rule(o, resolution, approved).cancels == Cancels(resolution)
  {}

  lemma OpenResolvingCancels(b: Books.Books, staff: Till.Staff, id: nat, resolution: Books.Resolution,
                             approved: Option<int>, reason: string, key: string, body: Books.Request, now: int)
    requires id < |b.issues| && b.issues[id].store == staff.store
    requires Till.ResolveOpen(b, staff, id, resolution, approved, reason, key, body, now).1.Done?
    ensures var after := Till.ResolveOpen(b, staff, id, resolution, approved, reason, key, body, now).0;
            && b.issues[id].order < |b.orders| && AtMostCancels(b.orders, after.orders, b.issues[id].order)
            && after.orders[b.issues[id].order].cancelled ==
                (Cancels(resolution) || b.orders[b.issues[id].order].cancelled)
  {
    IssueSafety.ResolvingCases(b, staff, id, resolution, approved, reason, key, body, now);
    var ruling := Till.Rule(b.orders[b.issues[id].order], resolution, approved);
    RulingCancels(b.orders[b.issues[id].order], resolution, approved);
    SettleCancels(b, staff, id, resolution, ruling, reason, key, body, now);
  }

  lemma ResolvingCancels(b: Books.Books, staff: Till.Staff, id: nat, resolution: Books.Resolution,
                         approved: Option<int>, reason: string, note: string, key: string, now: int)
    requires Till.ResolveIssueStep(b, staff, id, resolution, approved, reason, note, key, now).1.Done?
    ensures var after := Till.ResolveIssueStep(b, staff, id, resolution, approved, reason, note, key, now).0;
            && id < |b.issues| && b.issues[id].order < |b.orders| && b.issues[id].store == staff.store
            && AtMostCancels(b.orders, after.orders, b.issues[id].order)
            && after.orders[b.issues[id].order].cancelled ==
                (Cancels(resolution) || b.orders[b.issues[id].order].cancelled)
  {
    OpenResolvingCancels(b, staff, id, resolution, approved, Strip(reason), Strip(key),
                         Books.ResolutionBody(id, resolution, approved, Strip(reason), Strip(note)), now);
  }

  lemma IssueOfItsStore(site: Books.Site, b: Books.Books, issue: nat)
    requires IssueSafety.Settled(site, b) && issue < |b.issues|
    ensures b.issues[issue].order < |b.orders| && b.orders[b.issues[issue].order].store == b.issues[issue].store
  {
    assert Books.IssueKeys(site, b, b.issues[issue]);
  }

  lemma CancelledHoldsNothing(site: Books.Site, b: Books.Books, order: nat)
    requires IssueSafety.Settled(site, b) && order < |b.orders| && b.orders[order].cancelled
    ensures b.orders[order].NetPaid() == 0
  {}

  /** An issue resolved by cancelling its order closes that order on both sides: no
      money is held, nothing is promised, and neither half can fail alone. */
  lemma ResolvingClosesTheOrder(c: Stock.Catalog, site: Books.Site, f: Floor, staff: Till.Staff, issue: nat,
                                resolution: Books.Resolution, approved: Option<int>, reason: string, note: string,
                                key: string, now: int)
    requires Sound(c, site, f) && site.WorksAt(staff.user, staff.store) && Cancels(resolution)
    requires Till.ResolveIssueStep(f.books, staff, issue, resolution, approved, reason, note, key, now).1.Done?
    ensures issue < |f.books.issues| && f.books.issues[issue].order < |f.books.orders|
    ensures var after := Resolve(f, staff, issue, resolution, approved, reason, note, key, now);
            var order := f.books.issues[issue].order;
            && after.books == Till.ResolveIssueStep(f.books, staff, issue, resolution, approved, reason, note, key,
                                                    now).0
            && order < |after.books.orders| && after.books.orders[order].cancelled
            && after.books.orders[order].NetPaid() == 0
            && !Promised(after.stock, order)
            && Sound(c, site, after)
  {
    var after := Till.ResolveIssueStep(f.books, staff, issue, resolution, approved, reason, note, key, now).0;
    ResolvingCancels(f.books, staff, issue, resolution, approved, reason, note, key, now);
    IssueSafety.ResolveKeeps(site, f.books, staff, issue, resolution, approved, reason, note, key, now);
    var order := f.books.issues[issue].order;
    IssueOfItsStore(site, f.books, issue);
    BothCommit(c, site, f, after, order, Some(staff.user));
    CancelledHoldsNothing(site, after, order);
  }

  // ── Runs ───────────────────────────────────────────────────────────────────

  lemma ResolveKeepsFloor(c: Stock.Catalog, site: Books.Site, f: Floor, staff: Till.Staff, issue: nat,
                          resolution: Books.Resolution, approved: Option<int>, reason: string, note: string,
                          key: string, now: int)
    requires Sound(c, site, f) && site.WorksAt(staff.user, staff.store)
    ensures Sound(c, site, Resolve(f, staff, issue, resolution, approved, reason, note, key, now))
  {
    if Till.ResolveIssueStep(f.books, staff, issue, resolution, approved, reason, note, key, now).1.Done? {
      if Cancels(resolution) {
        ResolvingClosesTheOrder(c, site, f, staff, issue, resolution, approved, reason, note, key, now);
      } else {
        ResolvingCancels(f.books, staff, issue, resolution, approved, reason, note, key, now);
        IssueSafety.ResolveKeeps(site, f.books, staff, issue, resolution, approved, reason, note, key, now);
      }
    }
  }

  lemma KitchenCancels(site: Books.Site, b: Books.Books, order: nat)
    requires IssueSafety.Settled(site, b) && Till.CancelStep(b, order).1.Done?
    ensures IssueSafety.Settled(site, Till.CancelStep(b, order).0)
    ensures order < |b.orders| && AtMostCancels(b.orders, Till.CancelStep(b, order).0.orders, order)
  {
    PaymentRuns.ExecKeeps(site, b, Till.CancelInKitchen(order), 0);
  }

  lemma CancelKeepsFloor(c: Stock.Catalog, site: Books.Site, f: Floor, order: nat, actor: Option<int>)
    requires Sound(c, site, f) && Shelves.ActorOk(c, f.stock, order, actor)
    ensures Sound(c, site, Cancel(f, order, actor))
  {
    if Till.CancelStep(f.books, order).1.Done? {
      KitchenCancels(site, f.books, order);
      BothCommit(c, site, f, Till.CancelStep(f.books, order).0, order, actor);
    }
  }

  /** The kitchen cancels a live order that holds no money, and then it closes on both
      sides at once. */
  lemma CancellingClosesTheOrder(c: Stock.Catalog, site: Books.Site, f: Floor, order: nat, actor: Option<int>)
    requires Sound(c, site, f) && order < |f.books.orders| && Shelves.ActorOk(c, f.stock, order, actor)
    requires !f.books.orders[order].cancelled && f.books.orders[order].paid <= f.books.orders[order].refunded
    ensures var after := Cancel(f, order, actor);
            && after.books == f.books.(orders := f.books.orders[order := f.books.orders[order].(cancelled := true)])
            && after.stock == Shelves.SettleStep(f.stock, order, false, actor).0
            && !Promised(after.stock, order) && Sound(c, site, after)
  {
    KitchenCancels(site, f.books, order);
    BothCommit(c, site, f, Till.CancelStep(f.books, order).0, order, actor);
  }

  /** An order enters both ledgers, or neither: the till holds it unpaid exactly when the
      shelves could promise it. */
  lemma PlacingOpensBothSides(c: Stock.Catalog, f: Floor, store: int, table: Option<int>, total: int, itemCount: nat,
                              needs: seq<Shelves.Need>)
    ensures var after := Place(c, f, store, table, total, itemCount, needs);
            var promised := Shelves.PlaceStep(c, f.stock, store, itemCount, needs);
            if promised.1.Done?
            then after.stock == promised.0
                 && after.books == f.books.(orders := f.books.orders + [
                      Books.Order(store, table, total, false, 0, 0, Books.Unpaid, Books.NotRefunded)])
            else after == f
  {}

  /** A resolution that keeps its order leaves the shelves alone. */
  lemma KeepingTheOrderLeavesTheShelves(f: Floor, staff: Till.Staff, issue: nat, resolution: Books.Resolution,
                                        approved: Option<int>, reason: string, note: string, key: string, now: int)
    requires resolution.NoRefundNeeded? || resolution.PartialRefund?
    ensures var step := Till.ResolveIssueStep(f.books, staff, issue, resolution, approved, reason, note, key, now);
            var after := Resolve(f, staff, issue, resolution, approved, reason, note, key, now);
            && after.stock == f.stock
            && after.books == if step.1.Done? then step.0 else f.books
  {}

  lemma PlaceKeepsFloor(c: Stock.Catalog, site: Books.Site, f: Floor, store: int, table: Option<int>, total: int,
                        itemCount: nat, needs: seq<Shelves.Need>)
    requires Sound(c, site, f) && total >= 0 && forall k :: 0 <= k < |needs| ==> needs[k].item < itemCount
    ensures Sound(c, site, Place(c, f, store, table, total, itemCount, needs))
  {
    if Shelves.PlaceStep(c, f.stock, store, itemCount, needs).1.Done? {
      OrderSafety.PlaceKeepsSound(c, f.stock, store, itemCount, needs);
      PaymentRuns.ExecKeeps(site, f.books, Till.PlaceOrder(store, table, total), 0);
      PlacingKeepsJoined(c, f, store, table, total, itemCount, needs);
    }
  }

  lemma ExecKeepsFloor(c: Stock.Catalog, site: Books.Site, f: Floor, command: Command, now: int)
    requires Sound(c, site, f) && WellFormed(c, site, f, command)
    ensures Sound(c, site, Exec(c, site, f, command, now))
  {
    match command
    case PlaceOrder(store, table, total, itemCount, needs) =>
      PlaceKeepsFloor(c, site, f, store, table, total, itemCount, needs);
    case OnShelves(command) =>
      InventoryRuns.ExecKeepsSound(c, f.stock, command);
      ShelvesKeepJoined(c, f, command);
    case AtTill(command) =>
      PaymentRuns.ExecKeeps(site, f.books, command, now);
      TillKeepsJoined(site, f, command, now);
    case CancelInKitchen(order, actor) => CancelKeepsFloor(c, site, f, order, actor);
    case ResolveIssue(staff, issue, resolution, approved, reason, note, key) =>
      ResolveKeepsFloor(c, site, f, staff, issue, resolution, approved, reason, note, key, now);
  }

  datatype Event = Event(command: Command, at: int)

  function Run(c: Stock.Catalog, site: Books.Site, f: Floor, events: seq<Event>): Floor {
    if |events| == 0 then f
    else
      var n := |events| - 1;
      Exec(c, site, Run(c, site, f, events[..n]), events[n].command, events[n].at)
  }

  ghost predicate Proper(c: Stock.Catalog, site: Books.Site, f: Floor, events: seq<Event>) {
    forall i :: 0 <= i < |events| ==> WellFormed(c, site, Run(c, site, f, events[..i]), events[i].command)
  }

  lemma ProperPrefix(c: Stock.Catalog, site: Books.Site, f: Floor, events: seq<Event>, n: nat)
    requires Proper(c, site, f, events) && n <= |events|
    ensures Proper(c, site, f, events[..n])
  {
    forall i | 0 <= i < n ensures WellFormed(c, site, Run(c, site, f, events[..n][..i]), events[..n][i].command) {
      assert events[..n][..i] == events[..i];
    }
  }

  /** After any run of both halves the books and the shelves are sound, they speak of
      the same orders, and a cancelled order holds neither money nor stock. */
  lemma {:induction false} EveryReachableFloorIsSound(c: Stock.Catalog, site: Books.Site, f: Floor, events: seq<Event>)
    requires Sound(c, site, f) && Proper(c, site, f, events)
    ensures Sound(c, site, Run(c, site, f, events))
    ensures var now := Run(c, site, f, events);
            forall k :: 0 <= k < |now.books.orders| && now.books.orders[k].cancelled ==>
              now.books.orders[k].NetPaid() == 0 && !Promised(now.stock, k)
  {
    if |events| > 0 {
      var n := |events| - 1;
      ProperPrefix(c, site, f, events, n);
      EveryReachableFloorIsSound(c, site, f, events[..n]);
      ExecKeepsFloor(c, site, Run(c, site, f, events[..n]), events[n].command, events[n].at);
    }
    var now := Run(c, site, f, events);
    forall k | 0 <= k < |now.books.orders| && now.books.orders[k].cancelled ensures now.books.orders[k].NetPaid() == 0 {
      CancelledHoldsNothing(site, now.books, k);
    }
  }
}
