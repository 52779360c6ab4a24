/** A migrated database is where the running system starts: the rows both revisions
    leave behind, seen as the tables the inventory commands work on. Ids become
    positions; the legacy columns the commands never read are forgotten. */
module MigratedInventory {
  import opened Tables
  import opened Inventory
  import opened InventoryCommands
  import opened InventoryConservation
  import opened InventorySafety
  import OrderSafety
  import InventoryRuns
  import Legacy = LegacyMigration
  import Stores = StoreMigration

  // ── Ids as positions ───────────────────────────────────────────────────────

  /** The orders that have a store, and the items of those orders, in some order. */
  datatype Numbering = Numbering(orders: seq<int>, items: seq<nat>)

  function Is<T(==)>(x: T): T -> bool { (y: T) => y == x }

  function Position<T(==)>(s: seq<T>, x: T): nat { Find(s, Is(x)) }

  predicate Distinct<T(==)>(s: seq<T>) { forall j, k :: 0 <= j < k < |s| ==> s[j] != s[k] }

  predicate OrderCounts(past: Legacy.Past, order: int) { Stores.StoreOf(past, order).Some? }

  predicate ItemCounts(past: Legacy.Past, item: nat) {
    item in past.items && past.items[item].Some? && OrderCounts(past, past.items[item].value)
  }

  ghost predicate Numbers(n: Numbering, past: Legacy.Past) {
    && Distinct(n.orders) && (forall o :: o in n.orders <==> OrderCounts(past, o))
    && Distinct(n.items) && (forall i :: i in n.items <==> ItemCounts(past, i))
  }

  lemma Positioned<T>(s: seq<T>, x: T)
    requires x in s
    ensures Position(s, x) < |s| && s[Position(s, x)] == x
  {
    var k :| 0 <= k < |s| && s[k] == x;
    assert Is(x)(s[k]);
  }

  lemma {:induction false} Enumeration<T>(members: set<T>) returns (s: seq<T>)
    ensures Distinct(s) && forall x :: x in s <==> x in members
  {
    if x :| x in members {
      var front := Enumeration(members - {x});
      assert x !in front;
      s := front + [x];
    } else {
      s := [];
    }
  }

  /** Every past can be numbered. */
  lemma NumberingExists(past: Legacy.Past) returns (n: Numbering)
    ensures Numbers(n, past)
  {
    var orders := Enumeration(set o | o in past.orders && OrderCounts(past, o));
    var items := Enumeration(set i | i in past.items && ItemCounts(past, i));
    n := Numbering(orders, items);
  }

  // ── The view ───────────────────────────────────────────────────────────────

  function StoreId(store: Option<int>): int { if store.Some? then store.value else 0 }

  function KindOf(kind: Legacy.MovementType): Kind {
    match kind
    case ReservationCreated => ReservationCreated
    case ReservationReleased => ReservationReleased
    case Consumption => Consumption
    case Waste => Waste
    case Returned => Returned
    case PurchaseReceipt => PurchaseReceipt
    case _ => ManualAdjustment
  }

  function ShelfRow(r: Legacy.Shelf): StockRow { StockRow(StoreId(r.store), r.ingredient, r.onHand, r.reserved) }

  function LineRow(n: Numbering): Legacy.PastLine -> Line {
    (l: Legacy.PastLine) => Line(StoreId(l.store), Position(n.orders, l.order), Position(n.items, l.item), l.ingredient,
                                 l.reserved, l.consumed, l.released, l.waste, l.returned)
  }

  function MovementRow(n: Numbering): Legacy.Entry -> Movement {
    (e: Legacy.Entry) =>
      Movement(StoreId(e.store), e.ingredient, KindOf(e.kind), if e.quantity.Some? then e.quantity.value else 0,
               e.dOnHand, e.dReserved, if e.order.Some? then Some(Position(n.orders, e.order.value)) else None, e.line,
               e.reason, e.actor, None, None, None, None, e.legacy)
  }

  /** Both schemas mean the same rules: a row obeys the old delta CHECK exactly when its
      view obeys the running one, and needs an actor or a reason in the same cases. */
  lemma TheViewKeepsTheRules(n: Numbering, e: Legacy.Entry)
    requires e.quantity.Some? && e.quantity.value > 0 && e.kind in Legacy.TYPES
    ensures var m := MovementRow(n)(e);
            && (Legacy.DeltaFits(e, e.quantity.value) <==> DeltaMatchesKind(m))
            && (e.kind in Legacy.MANUAL <==> m.kind.NeedsActor())
            && (e.kind in Legacy.REASONED <==> m.kind.NeedsReason())
            && (e.kind == Legacy.PurchaseReceipt <==> m.kind == PurchaseReceipt)
            && !m.kind.IsTransfer() && m.kind != StockCountAdjustment
  {}

  function OrderRow(past: Legacy.Past): int -> int { (o: int) => StoreId(Stores.StoreOf(past, o)) }

  function ItemRow(n: Numbering, past: Legacy.Past): nat -> nat {
    (i: nat) => Position(n.orders, Legacy.PastOrderOf(past, i))
  }

  function Viewed(n: Numbering, s: Legacy.Snapshot): Db {
    Db(Legacy.Each(n.orders, OrderRow(s.past)), Legacy.Each(n.items, ItemRow(n, s.past)),
       Legacy.Each(s.stock, ShelfRow), Legacy.Each(s.lines, LineRow(n)), Legacy.Each(s.movements, MovementRow(n)), [],
           [])
  }

  // ── What both revisions leave ──────────────────────────────────────────────

  function Migrated(site: Stores.Site, s: Legacy.Snapshot): Legacy.Snapshot {
    Stores.Scoped(Stores.Resolve(site, Legacy.Upgraded(s)), Legacy.Upgraded(s))
  }

  /** Nothing reserved, nothing outstanding, nothing linked: history only. */
  predicate OldEntry(e: Legacy.Entry) {
    e.legacy && e.dReserved == 0 && e.line.None? && e.actor.None? && e.quantity.Some? && e.quantity.value > 0
  }

  predicate OldLine(past: Legacy.Past, l: Legacy.PastLine) {
    && Legacy.PastLineChecks(past, l) && l.Outstanding() == 0
    && l.item in past.items && past.items[l.item] == Some(l.order)
  }

  predicate OldShelf(r: Legacy.Shelf) { r.onHand >= 0 && r.reserved == 0 }

  ghost predicate History(s: Legacy.Snapshot) {
    && (forall k :: 0 <= k < |s.movements| ==> OldEntry(s.movements[k]))
    && (forall k :: 0 <= k < |s.lines| ==> OldLine(s.past, s.lines[k]))
    && (forall k :: 0 <= k < |s.stock| ==> OldShelf(s.stock[k]))
    && Legacy.UniquePastLines(s.lines)
  }

  lemma {:induction false} AskedItems(p: Legacy.Past, uses: seq<Legacy.Use>)
    ensures forall k :: 0 <= k < |Legacy.Asked(p, uses)| ==>
              var item := Legacy.Asked(p, uses)[k].item;
              item in p.items && p.items[item].Some?
  {
    if |uses| > 0 { AskedItems(p, uses[..|uses| - 1]); }
  }

  lemma UpgradedLines(s: Legacy.Snapshot)
    ensures forall k :: 0 <= k < |Legacy.Upgraded(s).lines| ==> OldLine(s.past, Legacy.Upgraded(s).lines[k])
    ensures Legacy.UniquePastLines(Legacy.Upgraded(s).lines)
  {
    Legacy.BackfilledLines(s);
    var needs := Legacy.Asked(s.past, s.past.uses);
    var lines := Legacy.Upgraded(s).lines;
    AskedItems(s.past, s.past.uses);
    OrderSafety.AggregateIsDistinct(needs);
    forall k | 0 <= k < |lines| ensures OldLine(s.past, lines[k]) {
      var group := Aggregate(needs)[k];
      assert lines[k] == Legacy.Backfilled(s.past)(group);
      var i :| 0 <= i < |needs| && SameLine(group.item, group.ingredient)(needs[i]);
    }
  }

  lemma UpgradedEntries(s: Legacy.Snapshot)
    requires Legacy.LegacyTables(s)
    ensures forall k :: 0 <= k < |Legacy.Upgraded(s).movements| ==> OldEntry(Legacy.Upgraded(s).movements[k])
  {
    var ledger := Legacy.RewrittenLedger(s);
    Legacy.RewrittenRows(s);
    Legacy.NotedRows(s);
    Legacy.KeptRows(Legacy.Noted(s), Legacy.Moves);
    Legacy.OpeningRows(s.stock, ledger);
    forall k | 0 <= k < |Legacy.Upgraded(s).movements| ensures OldEntry(Legacy.Upgraded(s).movements[k]) {
      if k < |ledger| {
        var e := Legacy.Keep(Legacy.Noted(s), Legacy.Moves)[k];
        assert ledger[k] == Legacy.Retired(Legacy.Relinked(s.past.orders)(Legacy.Reshaped(e)));
        assert Legacy.EntryChecks(s.past.orders, ledger[k]) && Legacy.LegacyEntry(e);
      } else {
        assert Legacy.IsOpening(Legacy.Openings(s.stock, ledger)[k - |ledger|]);
      }
    }
  }

  lemma ScopedShelves(s: Legacy.Snapshot, r: Stores.Resolution)
    requires forall k :: 0 <= k < |s.stock| ==> OldShelf(s.stock[k])
    ensures forall k :: 0 <= k < |Stores.Scoped(r, s).stock| ==> OldShelf(Stores.Scoped(r, s).stock[k])
  {
    var placed := Legacy.Each(s.stock, Stores.ShelfPlaced(r));
    forall k | 0 <= k < |Stores.Scoped(r, s).stock| ensures OldShelf(Stores.Scoped(r, s).stock[k]) {
      if k < |s.stock| { assert Stores.Scoped(r, s).stock[k] == placed[k] && OldShelf(s.stock[k]); }
    }
  }

  lemma ScopedRows(s: Legacy.Snapshot, r: Stores.Resolution)
    requires forall k :: 0 <= k < |s.movements| ==> OldEntry(s.movements[k])
    requires (forall k :: 0 <= k < |s.lines| ==> OldLine(s.past, s.lines[k])) && Legacy.UniquePastLines(s.lines)
    ensures forall k :: 0 <= k < |s.movements| ==> OldEntry(Stores.Scoped(r, s).movements[k])
    ensures forall k :: 0 <= k < |s.lines| ==> OldLine(s.past, Stores.Scoped(r, s).lines[k])
    ensures Legacy.UniquePastLines(Stores.Scoped(r, s).lines)
  {
    forall k | 0 <= k < |s.movements|
      ensures OldEntry(Stores.Scoped(r, s).movements[k])
    {
      assert OldEntry(s.movements[k]);
    }
    forall k | 0 <= k < |s.lines|
      ensures OldLine(s.past, Stores.Scoped(r, s).lines[k])
    {
      assert OldLine(s.past, s.lines[k]);
    }
    forall j, k | 0 <= j < k < |s.lines|
      ensures Stores.Scoped(r, s).lines[j].item != Stores.Scoped(r, s).lines[k].item
           || Stores.Scoped(r, s).lines[j].ingredient != Stores.Scoped(r, s).lines[k].ingredient
    {
      assert s.lines[j].item != s.lines[k].item || s.lines[j].ingredient != s.lines[k].ingredient;
    }
  }

  lemma MigratedIsHistory(site: Stores.Site, s: Legacy.Snapshot)
    requires Legacy.LegacyTables(s) && forall k :: 0 <= k < |s.stock| ==> s.stock[k].onHand >= 0
    ensures History(Migrated(site, s))
  {
    UpgradedLines(s);
    UpgradedEntries(s);
    var up, r := Legacy.Upgraded(s), Stores.Resolve(site, Legacy.Upgraded(s));
    ScopedShelves(up, r);
    ScopedRows(up, r);
  }

  // ── The constraints of the running system ──────────────────────────────────

  lemma ShelvesView(n: Numbering, s: Legacy.Snapshot, store: Option<int>, ingredient: int)
    requires store.Some? && Stores.HasShelf(s.stock, store, ingredient)
    ensures Stocked(Viewed(n, s).stock, store.value, ingredient)
  {
    var k :| 0 <= k < |s.stock| && Stores.ShelfKeyed(Stores.Key(store, ingredient))(s.stock[k]);
    assert Shelves(Viewed(n, s).stock[k], store.value, ingredient);
  }

  lemma OrderView(n: Numbering, s: Legacy.Snapshot, order: int)
    requires Numbers(n, s.past) && OrderCounts(s.past, order)
    ensures Position(n.orders, order) < |Viewed(n, s).orders|
    ensures Viewed(n, s).orders[Position(n.orders, order)] == Stores.StoreOf(s.past, order).value
  {
    Positioned(n.orders, order);
  }

  lemma EntryView(c: Catalog, site: Stores.Site, n: Numbering, s: Legacy.Snapshot, e: Legacy.Entry)
    requires Numbers(n, s.past) && OldEntry(e) && Stores.EntryKeys(site, s, e)
    ensures MovementChecks(MovementRow(n)(e)) && MovementKeys(c, Viewed(n, s), MovementRow(n)(e))
  {
    ShelvesView(n, s, e.store, e.ingredient);
    if e.order.Some? { OrderView(n, s, e.order.value); }
  }

  lemma LineView(site: Stores.Site, n: Numbering, s: Legacy.Snapshot, l: Legacy.PastLine)
    requires Numbers(n, s.past) && OldLine(s.past, l) && Stores.LineKeys(site, s, l)
    ensures LineChecks(LineRow(n)(l)) && LineKeys(Viewed(n, s), LineRow(n)(l))
  {
    ShelvesView(n, s, l.store, l.ingredient);
    OrderView(n, s, l.order);
    assert ItemCounts(s.past, l.item);
    Positioned(n.items, l.item);
  }

  lemma ViewedLinesUnique(n: Numbering, s: Legacy.Snapshot)
    requires Legacy.UniquePastLines(s.lines) && forall k :: 0 <= k < |s.lines| ==> s.lines[k].item in n.items
    ensures UniqueLines(Viewed(n, s).lines)
  {
    forall j, k | 0 <= j < k < |s.lines|
      ensures Viewed(n, s).lines[j].item != Viewed(n, s).lines[k].item
           || Viewed(n, s).lines[j].ingredient != Viewed(n, s).lines[k].ingredient
    {
      Positioned(n.items, s.lines[j].item);
      Positioned(n.items, s.lines[k].item);
    }
  }

  lemma ViewedShelvesUnique(n: Numbering, s: Legacy.Snapshot)
    requires Stores.UniqueShelves(s.stock) && forall k :: 0 <= k < |s.stock| ==> s.stock[k].store.Some?
    ensures UniqueShelves(Viewed(n, s).stock)
  {
    forall j, k | 0 <= j < k < |s.stock|
      ensures !Shelves(Viewed(n, s).stock[j], Viewed(n, s).stock[k].store, Viewed(n, s).stock[k].ingredient)
    {
      assert !Stores.ShelfKeyed(Stores.Key(s.stock[k].store, s.stock[k].ingredient))(s.stock[j]);
    }
  }

  lemma ViewedRowsOk(c: Catalog, site: Stores.Site, n: Numbering, s: Legacy.Snapshot)
    requires Numbers(n, s.past) && History(s) && Stores.ScopedChecks(site, s)
    ensures RowsOk(c, Viewed(n, s))
  {
    var db := Viewed(n, s);
    forall k | 0 <= k < |db.movements| ensures MovementChecks(db.movements[k]) && MovementKeys(c, db, db.movements[k]) {
      EntryView(c, site, n, s, s.movements[k]);
    }
    forall k | 0 <= k < |db.lines|
      ensures LineChecks(db.lines[k]) && LineKeys(db, db.lines[k]) && s.lines[k].item in n.items
    {
      LineView(site, n, s, s.lines[k]);
      assert OldLine(s.past, s.lines[k]) && Stores.LineKeys(site, s, s.lines[k]) && ItemCounts(s.past, s.lines[k].item);
    }
    forall k | 0 <= k < |db.items| ensures db.items[k] < |db.orders| {
      assert n.items[k] in n.items;
      Positioned(n.orders, Legacy.PastOrderOf(s.past, n.items[k]));
    }
    forall k | 0 <= k < |db.stock| ensures StockChecks(db.stock[k]) { assert OldShelf(s.stock[k]); }
    ViewedLinesUnique(n, s);
    ViewedShelvesUnique(n, s);
  }

  // ── The books of the running system ────────────────────────────────────────

  lemma ViewedLedger(site: Stores.Site, n: Numbering, s: Legacy.Snapshot, store: int, ingredient: int)
    requires Stores.ScopedChecks(site, s) && History(s)
    ensures Sum(Viewed(n, s).movements, OnHandOf(store, ingredient)) ==
              Sum(s.movements, Stores.StoreLedgerOf(Some(store), ingredient))
    ensures Sum(Viewed(n, s).movements, ReservedOf(store, ingredient)) == 0
    ensures Sum(Viewed(n, s).lines, OutstandingOf(store, ingredient)) == 0
  {
    var db := Viewed(n, s);
    forall k | 0 <= k < |s.movements|
      ensures OnHandOf(store, ingredient)(db.movements[k]) ==
                Stores.StoreLedgerOf(Some(store), ingredient)(s.movements[k])
      ensures ReservedOf(store, ingredient)(db.movements[k]) == 0
    {
      assert Stores.EntryKeys(site, s, s.movements[k]) && OldEntry(s.movements[k]);
    }
    SumPointwise(db.movements, OnHandOf(store, ingredient), s.movements, Stores.StoreLedgerOf(Some(store), ingredient));
    SumZero(db.movements, ReservedOf(store, ingredient));
    forall k | 0 <= k < |s.lines| ensures OutstandingOf(store, ingredient)(db.lines[k]) == 0 {
      assert OldLine(s.past, s.lines[k]);
    }
    SumZero(db.lines, OutstandingOf(store, ingredient));
  }

  /** The running system's invariant holds exactly when no shelf drifts on hand. */
  lemma SoundExactlyWhenNothingDrifts(c: Catalog, site: Stores.Site, n: Numbering, s: Legacy.Snapshot)
    requires Numbers(n, s.past) && History(s) && Stores.ScopedChecks(site, s)
    ensures Sound(c, Viewed(n, s)) <==> forall k :: 0 <= k < |s.stock| ==> Stores.OnHandDrift(s, s.stock[k]) == 0
  {
    ViewedRowsOk(c, site, n, s);
    var db := Viewed(n, s);
    forall k | 0 <= k < |s.stock|
      ensures db.stock[k].onHand - Sum(db.movements, OnHandOf(db.stock[k].store, db.stock[k].ingredient))
           == Stores.OnHandDrift(s, s.stock[k])
      ensures db.stock[k].reserved == Sum(db.lines, OutstandingOf(db.stock[k].store, db.stock[k].ingredient))
      ensures db.stock[k].reserved == Sum(db.movements, ReservedOf(db.stock[k].store, db.stock[k].ingredient))
    {
      ViewedLedger(site, n, s, db.stock[k].store, db.stock[k].ingredient);
      assert OldShelf(s.stock[k]);
    }
    assert ReservedAgrees(db) && AllPaired(db);
    if Sound(c, db) {
      forall k | 0 <= k < |s.stock| ensures Stores.OnHandDrift(s, s.stock[k]) == 0 {
        assert db.stock[k].onHand == Sum(db.movements, OnHandOf(db.stock[k].store, db.stock[k].ingredient));
      }
    }
  }

  /** Both revisions can run, and nothing stops the second. */
  ghost predicate Migrates(site: Stores.Site, s: Legacy.Snapshot) {
    && Legacy.LegacyTables(s) && Stores.LegacyReferences(site, s)
    && (forall k :: 0 <= k < |s.stock| ==> s.stock[k].onHand >= 0)
    && !Stores.Resolve(site, Legacy.Upgraded(s)).Refused? && Stores.CitedOrdersHaveStores(Legacy.Upgraded(s))
  }

  /** Every ledger that had no shelf before sums to nothing. */
  ghost predicate NothingStray(before: seq<Legacy.Shelf>, after: Legacy.Snapshot) {
    forall k :: |before| <= k < |after.stock| ==>
      Sum(after.movements, Stores.StoreLedgerOf(after.stock[k].store, after.stock[k].ingredient)) == 0
  }

  lemma MigratedDrift(site: Stores.Site, s: Legacy.Snapshot)
    requires Migrates(site, s)
    ensures Stores.ScopedChecks(site, Migrated(site, s)) && |s.stock| <= |Migrated(site, s).stock|
    ensures forall k :: 0 <= k < |s.stock| ==> Stores.OnHandDrift(Migrated(site, s), Migrated(site, s).stock[k]) == 0
    ensures forall k :: |s.stock| <= k < |Migrated(site, s).stock| ==> Migrated(site, s).stock[k].onHand == 0
  {
    Stores.BothMigrationsReconcile(site, s);
  }

  lemma DriftsOnlyWhereStray(before: seq<Legacy.Shelf>, after: Legacy.Snapshot)
    requires |before| <= |after.stock|
    requires forall k :: 0 <= k < |before| ==> Stores.OnHandDrift(after, after.stock[k]) == 0
    requires forall k :: |before| <= k < |after.stock| ==> after.stock[k].onHand == 0
    ensures NothingStray(before, after) <==> forall k ::
              0 <= k < |after.stock| ==> Stores.OnHandDrift(after, after.stock[k]) == 0
  {}

  /** A migrated database is a sound start exactly when no shelf that had to be
      materialised has a ledger of its own that does not sum to zero. */
  lemma MigratedIsSoundExactlyWhen(c: Catalog, site: Stores.Site, n: Numbering, s: Legacy.Snapshot)
    requires Migrates(site, s) && Numbers(n, s.past)
    ensures Sound(c, Viewed(n, Migrated(site, s))) <==> NothingStray(s.stock, Migrated(site, s))
  {
    MigratedDrift(site, s);
    MigratedIsHistory(site, s);
    SoundExactlyWhenNothingDrifts(c, site, n, Migrated(site, s));
    DriftsOnlyWhereStray(s.stock, Migrated(site, s));
  }

  /** ... and from there every run of inventory commands keeps it sound. */
  lemma {:induction false} MigratedDatabasesRunSoundly(c: Catalog, site: Stores.Site, n: Numbering, s: Legacy.Snapshot,
                                                       commands: seq<Command>)
    requires Migrates(site, s) && Numbers(n, s.past) && NothingStray(s.stock, Migrated(site, s))
    requires InventoryRuns.Proper(c, Viewed(n, Migrated(site, s)), commands)
    ensures Sound(c, InventoryRuns.Run(c, Viewed(n, Migrated(site, s)), commands))
  {
    MigratedIsSoundExactlyWhen(c, site, n, s);
    InventoryRuns.EveryReachableStateIsSound(c, Viewed(n, Migrated(site, s)), commands);
  }
}
