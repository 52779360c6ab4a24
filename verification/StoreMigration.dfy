/** Revision e2c9a4b16d38: global stock becomes stock per store. What an order
    places is derived; the rest is placed only when a single store can own it, and
    otherwise the migration refuses to guess. */
module StoreMigration {
  import opened Tables
  import opened LegacyMigration

  /** Store ids in order; each user's own store. */
  datatype Site = Site(stores: seq<int>, users: map<int, Option<int>>)

  // ── _resolve_backfill_store ────────────────────────────────────────────────

  datatype Resolution = NothingAmbiguous | Only(store: int) | Refused

  predicate HasStaff(site: Site, store: int) { exists u :: u in site.users && site.users[u] == Some(store) }

  predicate HasOrders(past: Past, store: int) { exists o :: o in past.orders && past.orders[o].store == Some(store) }

  function Operational(site: Site, past: Past): int -> bool {
    (store: int) => HasStaff(site, store) || HasOrders(past, store)
  }

  predicate Ambiguous(s: Snapshot) {
    s.stock != [] || exists k :: 0 <= k < |s.movements| && s.movements[k].order.None?
  }

  function Resolve(site: Site, s: Snapshot): Resolution {
    if !Ambiguous(s) then NothingAmbiguous
    else
      var operational := Keep(site.stores, Operational(site, s.past));
      if |operational| == 1 then Only(operational[0])
      else if |operational| == 0 && |site.stores| == 1 then Only(site.stores[0])
      else Refused
  }

  /** orders.store_id and users.store_id reference stores. */
  ghost predicate KnownStores(site: Site, past: Past) {
    && (forall o :: o in past.orders && past.orders[o].store.Some? ==> past.orders[o].store.value in site.stores)
    && (forall u :: u in site.users && site.users[u].Some? ==> site.users[u].value in site.stores)
  }

  lemma {:induction false} KeptMembers<T>(s: seq<T>, p: T -> bool, x: T)
    requires x in s && p(x)
    ensures x in Keep(s, p)
  {
    if x != s[|s| - 1] {
      assert x in s[..|s| - 1];
      KeptMembers(s[..|s| - 1], p, x);
    }
  }

  /** The store it names is the only one that ever employed anybody or took an
      order: placing the ambiguous stock there guesses nothing. */
  lemma ResolvingIsNoGuess(site: Site, s: Snapshot)
    requires KnownStores(site, s.past) && Resolve(site, s).Only?
    ensures Resolve(site, s).store in site.stores
    ensures forall o :: o in s.past.orders && s.past.orders[o].store.Some? ==>
              s.past.orders[o].store == Some(Resolve(site, s).store)
    ensures forall u :: u in site.users && site.users[u].Some? ==> site.users[u] == Some(Resolve(site, s).store)
  {
    var op := Operational(site, s.past);
    KeptRows(site.stores, op);
    forall o | o in s.past.orders && s.past.orders[o].store.Some?
      ensures s.past.orders[o].store == Some(Resolve(site, s).store)
    {
      assert HasOrders(s.past, s.past.orders[o].store.value);
      KeptMembers(site.stores, op, s.past.orders[o].store.value);
    }
    forall u | u in site.users && site.users[u].Some? ensures site.users[u] == Some(Resolve(site, s).store) {
      assert HasStaff(site, site.users[u].value);
      KeptMembers(site.stores, op, site.users[u].value);
    }
  }

  /** A store that employs somebody or ever took an order. */
  ghost predicate Busy(site: Site, past: Past, store: int) {
    || (exists u :: u in site.users && site.users[u] == Some(store))
    || (exists o :: o in past.orders && past.orders[o].store == Some(store))
  }

  lemma KeepsTheBusy(site: Site, past: Past, store: int)
    ensures store in Keep(site.stores, Operational(site, past)) <==> store in site.stores && Busy(site, past, store)
  {
    var op := Operational(site, past);
    KeptRows(site.stores, op);
    if store in site.stores && op(store) { KeptMembers(site.stores, op, store); }
    if store in Keep(site.stores, op) {
      var k :| 0 <= k < |Keep(site.stores, op)| && Keep(site.stores, op)[k] == store;
    }
  }

  lemma {:induction false} KeepsDistinct(s: seq<int>, p: int -> bool)
    requires forall i, j :: 0 <= i < j < |s| ==> s[i] != s[j]
    ensures forall i, j :: 0 <= i < j < |Keep(s, p)| ==> Keep(s, p)[i] != Keep(s, p)[j]
  {
    if |s| > 0 {
      KeepsDistinct(s[..|s| - 1], p);
      KeptRows(s[..|s| - 1], p);
    }
  }

  /** It names a store exactly when there is something to place and one store alone was
      ever busy, or none was and there is only the one; with nothing to place it names
      none, and in every other case it refuses. */
  lemma ResolvesExactlyWhen(site: Site, s: Snapshot, store: int)
    requires forall i, j :: 0 <= i < j < |site.stores| ==> site.stores[i] != site.stores[j]
    ensures Resolve(site, s) == NothingAmbiguous <==>
              s.stock == [] && forall k :: 0 <= k < |s.movements| ==> s.movements[k].order.Some?
    ensures Resolve(site, s) == Only(store) <==>
              && Resolve(site, s) != NothingAmbiguous && store in site.stores
              && (|| (Busy(site, s.past, store)
                      && forall x :: x in site.stores && Busy(site, s.past, x) ==> x == store)
                  || (site.stores == [store] && !Busy(site, s.past, store)))
  {
    var kept := Keep(site.stores, Operational(site, s.past));
    KeepsDistinct(site.stores, Operational(site, s.past));
    forall x ensures x in kept <==> x in site.stores && Busy(site, s.past, x) { KeepsTheBusy(site, s.past, x); }
    if |kept| > 0 { assert kept[0] in kept; }
    if |kept| > 1 { assert kept[1] in kept && kept[0] != kept[1]; }
    if |site.stores| == 1 { assert site.stores == [site.stores[0]]; }
  }

  // ── The backfill ───────────────────────────────────────────────────────────

  function StoreOf(past: Past, order: int): Option<int> {
    if order in past.orders then past.orders[order].store else None
  }

  function LineStored(past: Past): PastLine -> PastLine {
    (l: PastLine) => l.(store := StoreOf(past, l.order))
  }

  function EntryStored(past: Past): Entry -> Entry {
    (e: Entry) => if e.order.Some? then e.(store := StoreOf(past, e.order.value)) else e
  }

  /** SET store_id = :sid WHERE store_id IS NULL, when a store was resolved. */
  function ShelfPlaced(r: Resolution): Shelf -> Shelf {
    (x: Shelf) => if r.Only? && x.store.None? then x.(store := Some(r.store)) else x
  }

  function EntryPlaced(r: Resolution): Entry -> Entry {
    (e: Entry) => if r.Only? && e.store.None? then e.(store := Some(r.store)) else e
  }

  datatype Key = Key(store: Option<int>, ingredient: int)

  function EntryKey(e: Entry): Key { Key(e.store, e.ingredient) }

  function LineKey(l: PastLine): Key { Key(l.store, l.ingredient) }

  function ShelfKeyed(key: Key): Shelf -> bool { (r: Shelf) => r.store == key.store && r.ingredient == key.ingredient }

  /** The INSERT … WHERE NOT EXISTS: one zero row per referenced, missing shelf. */
  function Materialised(past: Past, stock: seq<Shelf>, keys: seq<Key>): (r: seq<Shelf>)
    ensures stock <= r
    ensures forall k :: |stock| <= k < |r| ==> r[k].onHand == 0 && r[k].reserved == 0 && r[k].store.Some?
  {
    if |keys| == 0 then stock
    else
      var front, key := Materialised(past, stock, keys[..|keys| - 1]), keys[|keys| - 1];
      if key.store.Some? && key.ingredient in past.ingredients && Find(front, ShelfKeyed(key)) == |front|
      then front + [Shelf(key.store, key.ingredient, 0, 0)] else front
  }

  function ScopedMovements(r: Resolution, s: Snapshot): seq<Entry> {
    Each(Each(s.movements, EntryStored(s.past)), EntryPlaced(r))
  }

  function ScopedLines(s: Snapshot): seq<PastLine> { Each(s.lines, LineStored(s.past)) }

  function Keys(movements: seq<Entry>, lines: seq<PastLine>): seq<Key> {
    Each(movements, EntryKey) + Each(lines, LineKey)
  }

  function Scoped(r: Resolution, s: Snapshot): Snapshot {
    s.(movements := ScopedMovements(r, s), lines := ScopedLines(s),
       stock := Materialised(s.past, Each(s.stock, ShelfPlaced(r)), Keys(ScopedMovements(r, s), ScopedLines(s))))
  }

  // ── The keys installed afterwards ──────────────────────────────────────────

  predicate HasShelf(stock: seq<Shelf>, store: Option<int>, ingredient: int) {
    exists k :: 0 <= k < |stock| && ShelfKeyed(Key(store, ingredient))(stock[k])
  }

  /** NOT NULL, fk_movement_store, _stock_store, _order_store, _line_store and
      _actor_store (MATCH SIMPLE). */
  predicate EntryKeys(site: Site, s: Snapshot, e: Entry) {
    && e.store.Some? && e.store.value in site.stores
    && HasShelf(s.stock, e.store, e.ingredient)
    && (e.order.Some? ==> StoreOf(s.past, e.order.value) == e.store)
    && (e.line.Some? ==> e.line.value < |s.lines| && s.lines[e.line.value].store == e.store)
    && (e.actor.Some? ==> e.actor.value in site.users && site.users[e.actor.value] == e.store)
  }

  predicate LineKeys(site: Site, s: Snapshot, l: PastLine) {
    && l.store.Some? && l.store.value in site.stores
    && StoreOf(s.past, l.order) == l.store
    && HasShelf(s.stock, l.store, l.ingredient)
  }

  predicate UniqueShelves(stock: seq<Shelf>) {
    forall j, k :: 0 <= j < k < |stock| ==> !ShelfKeyed(Key(stock[k].store, stock[k].ingredient))(stock[j])
  }

  predicate ScopedChecks(site: Site, s: Snapshot) {
    match s
    case Snapshot(_, stock, movements, lines) =>
      && (forall k :: 0 <= k < |stock| ==> stock[k].store.Some? && stock[k].store.value in site.stores)
      && UniqueShelves(stock)
      && (forall k :: 0 <= k < |movements| ==> EntryKeys(site, s, movements[k]))
      && (forall k :: 0 <= k < |lines| ==> LineKeys(site, s, lines[k]))
  }

  // ── When the migration succeeds ────────────────────────────────────────────

  /** What a schema at the previous revision guarantees. */
  ghost predicate Unscoped(site: Site, s: Snapshot) {
    match s
    case Snapshot(past, stock, movements, lines) =>
      && KnownStores(site, past)
      && OneShelfEach(stock)
      && (forall k :: 0 <= k < |stock| ==> stock[k].store.None?)
      && (forall k :: 0 <= k < |movements| ==>
            movements[k].store.None? && movements[k].ingredient in past.ingredients
            && (movements[k].order.Some? ==> movements[k].order.value in past.orders)
            && (movements[k].line.Some? ==> movements[k].line.value < |lines|))
      && (forall k :: 0 <= k < |lines| ==> lines[k].order in past.orders && lines[k].ingredient in past.ingredients)
  }

  /** Every order a row cites has a store. */
  predicate CitedOrdersHaveStores(s: Snapshot) {
    && (forall k :: 0 <= k < |s.movements| && s.movements[k].order.Some? ==>
        StoreOf(s.past, s.movements[k].order.value).Some?)
    && (forall k :: 0 <= k < |s.lines| ==> StoreOf(s.past, s.lines[k].order).Some?)
  }

  function EntryStoreAfter(r: Resolution, past: Past, e: Entry): Option<int> {
    if e.order.Some? && StoreOf(past, e.order.value).Some? then StoreOf(past, e.order.value)
    else if r.Only? then Some(r.store) else None
  }

  /** A row's actor and order line belong to the store the row lands in. */
  predicate LinkAgrees(site: Site, r: Resolution, s: Snapshot, e: Entry) {
    && (e.actor.Some? ==> e.actor.value in site.users && site.users[e.actor.value] == EntryStoreAfter(r, s.past, e))
    && (e.line.Some? ==> e.line.value < |s.lines|
                         && StoreOf(s.past, s.lines[e.line.value].order) == EntryStoreAfter(r, s.past, e))
  }

  predicate LinksAgree(site: Site, r: Resolution, s: Snapshot) {
    forall k :: 0 <= k < |s.movements| ==> LinkAgrees(site, r, s, s.movements[k])
  }

  lemma {:induction false} EveryKeyHasAShelf(past: Past, stock: seq<Shelf>, keys: seq<Key>, k: nat)
    requires k < |keys| && keys[k].store.Some? && keys[k].ingredient in past.ingredients
    ensures HasShelf(Materialised(past, stock, keys), keys[k].store, keys[k].ingredient)
  {
    var n := |keys| - 1;
    var front, all := Materialised(past, stock, keys[..n]), Materialised(past, stock, keys);
    if k == n {
      var f := Find(front, ShelfKeyed(keys[n]));
      assert ShelfKeyed(Key(keys[n].store, keys[n].ingredient))(all[f]);
    } else {
      EveryKeyHasAShelf(past, stock, keys[..n], k);
      var j :| 0 <= j < |front| && ShelfKeyed(Key(keys[k].store, keys[k].ingredient))(front[j]);
      assert ShelfKeyed(Key(keys[k].store, keys[k].ingredient))(all[j]);
    }
  }

  lemma {:induction false} MaterialisedUnique(past: Past, stock: seq<Shelf>, keys: seq<Key>)
    requires UniqueShelves(stock)
    ensures UniqueShelves(Materialised(past, stock, keys))
  {
    if |keys| > 0 {
      MaterialisedUnique(past, stock, keys[..|keys| - 1]);
    }
  }

  lemma {:induction false} MaterialisedKeys(past: Past, stock: seq<Shelf>, keys: seq<Key>, k: nat)
    requires |stock| <= k < |Materialised(past, stock, keys)|
    ensures exists j :: 0 <= j < |keys|
              && keys[j] == Key(Materialised(past, stock, keys)[k].store, Materialised(past, stock, keys)[k].ingredient)
  {
    var n := |keys| - 1;
    if k < |Materialised(past, stock, keys[..n])| {
      MaterialisedKeys(past, stock, keys[..n], k);
      var j :| 0 <= j < n && keys[..n][j] ==
          Key(Materialised(past, stock, keys)[k].store, Materialised(past, stock, keys)[k].ingredient);
      assert keys[j] == keys[..n][j];
    }
  }

  lemma EntryLandsIn(site: Site, s: Snapshot, r: Resolution, k: nat)
    requires k < |s.movements| && s.movements[k].store.None?
    ensures ScopedMovements(r, s)[k] == s.movements[k].(store := EntryStoreAfter(r, s.past, s.movements[k]))
  {}

  lemma ChecksNeedStores(site: Site, s: Snapshot, r: Resolution)
    requires Unscoped(site, s) && ScopedChecks(site, Scoped(r, s))
    ensures CitedOrdersHaveStores(s) && LinksAgree(site, r, s)
  {
    var after := Scoped(r, s);
    forall k | 0 <= k < |s.lines| ensures StoreOf(s.past, s.lines[k].order).Some? {
      assert LineKeys(site, after, after.lines[k]);
    }
    forall k | 0 <= k < |s.movements|
      ensures s.movements[k].order.Some? ==> StoreOf(s.past, s.movements[k].order.value).Some?
      ensures LinkAgrees(site, r, s, s.movements[k])
    {
      EntryLandsIn(site, s, r, k);
      assert EntryKeys(site, after, after.movements[k]);
    }
  }

  lemma EveryEntryGetsAStore(site: Site, s: Snapshot, r: Resolution)
    requires Unscoped(site, s) && r == Resolve(site, s) && !r.Refused? && CitedOrdersHaveStores(s)
    ensures forall k :: 0 <= k < |s.movements| ==>
              var store := ScopedMovements(r, s)[k].store;
              && store == EntryStoreAfter(r, s.past, s.movements[k]) && store.Some? && store.value in site.stores
    ensures forall k :: 0 <= k < |s.lines| ==>
              var store := ScopedLines(s)[k].store;
              store.Some? && store.value in site.stores
  {
    if r.Only? { ResolvingIsNoGuess(site, s); }
    forall k | 0 <= k < |s.movements|
      ensures var store := ScopedMovements(r, s)[k].store;
              && store == EntryStoreAfter(r, s.past, s.movements[k]) && store.Some? && store.value in site.stores
    {
      EntryLandsIn(site, s, r, k);
    }
  }

  lemma ShelvesPass(site: Site, s: Snapshot, r: Resolution)
    requires Unscoped(site, s) && r == Resolve(site, s) && !r.Refused? && CitedOrdersHaveStores(s)
    ensures UniqueShelves(Scoped(r, s).stock)
    ensures forall k :: 0 <= k < |Scoped(r, s).stock| ==>
              Scoped(r, s).stock[k].store.Some? && Scoped(r, s).stock[k].store.value in site.stores
  {
    if r.Only? { ResolvingIsNoGuess(site, s); }
    EveryEntryGetsAStore(site, s, r);
    var placed, keys := Each(s.stock, ShelfPlaced(r)), Keys(ScopedMovements(r, s), ScopedLines(s));
    assert forall k :: 0 <= k < |s.stock| ==> s.stock[k].store.None?;
    MaterialisedUnique(s.past, placed, keys);
    forall k | 0 <= k < |Scoped(r, s).stock|
      ensures Scoped(r, s).stock[k].store.Some? && Scoped(r, s).stock[k].store.value in site.stores
    {
      if k < |s.stock| {
        assert Scoped(r, s).stock[k] == placed[k];
      } else {
        MaterialisedKeys(s.past, placed, keys, k);
      }
    }
  }

  lemma EntriesPass(site: Site, s: Snapshot, r: Resolution)
    requires Unscoped(site, s) && r == Resolve(site, s) && !r.Refused? && CitedOrdersHaveStores(s)
    requires LinksAgree(site, r, s)
    ensures forall k :: 0 <= k < |s.movements| ==> EntryKeys(site, Scoped(r, s), Scoped(r, s).movements[k])
  {
    EveryEntryGetsAStore(site, s, r);
    var keys := Keys(ScopedMovements(r, s), ScopedLines(s));
    forall k | 0 <= k < |s.movements| ensures EntryKeys(site, Scoped(r, s), Scoped(r, s).movements[k]) {
      EntryLandsIn(site, s, r, k);
      assert keys[k] == EntryKey(ScopedMovements(r, s)[k]);
      EveryKeyHasAShelf(s.past, Each(s.stock, ShelfPlaced(r)), keys, k);
    }
  }

  lemma LinesPass(site: Site, s: Snapshot, r: Resolution)
    requires Unscoped(site, s) && r == Resolve(site, s) && !r.Refused? && CitedOrdersHaveStores(s)
    ensures forall k :: 0 <= k < |s.lines| ==> LineKeys(site, Scoped(r, s), Scoped(r, s).lines[k])
  {
    EveryEntryGetsAStore(site, s, r);
    var keys := Keys(ScopedMovements(r, s), ScopedLines(s));
    forall k | 0 <= k < |s.lines| ensures LineKeys(site, Scoped(r, s), Scoped(r, s).lines[k]) {
      assert keys[|s.movements| + k] == LineKey(ScopedLines(s)[k]);
      EveryKeyHasAShelf(s.past, Each(s.stock, ShelfPlaced(r)), keys, |s.movements| + k);
    }
  }

  /** The keys hold afterwards exactly when the cited orders have stores and the
      links agree with them; nothing else can stop the migration. */
  lemma ScopingSucceedsExactlyWhen(site: Site, s: Snapshot)
    requires Unscoped(site, s) && !Resolve(site, s).Refused?
    ensures ScopedChecks(site, Scoped(Resolve(site, s), s))
        <==> CitedOrdersHaveStores(s) && LinksAgree(site, Resolve(site, s), s)
  {
    var r := Resolve(site, s);
    if ScopedChecks(site, Scoped(r, s)) {
      ChecksNeedStores(site, s, r);
    }
    if CitedOrdersHaveStores(s) && LinksAgree(site, r, s) {
      EveryEntryGetsAStore(site, s, r);
      ShelvesPass(site, s, r);
      EntriesPass(site, s, r);
      LinesPass(site, s, r);
    }
  }

  // ── The books after the migration ──────────────────────────────────────────

  function StoreLedgerOf(store: Option<int>, ingredient: int): Entry -> int {
    (e: Entry) => if e.store == store && e.ingredient == ingredient then e.dOnHand else 0
  }

  function StoreOwedOf(store: Option<int>, ingredient: int): PastLine -> int {
    (l: PastLine) => if l.store == store && l.ingredient == ingredient then l.Outstanding() else 0
  }

  /** What the reconciler reports for one shelf. */
  function OnHandDrift(s: Snapshot, r: Shelf): int { r.onHand - Sum(s.movements, StoreLedgerOf(r.store, r.ingredient)) }

  function ReservedDrift(s: Snapshot, r: Shelf): int { r.reserved - Sum(s.lines, StoreOwedOf(r.store, r.ingredient)) }

  /** When one store owns everything, its own totals are the old global ones. */
  lemma OneStoreHoldsTheLedger(site: Site, s: Snapshot, ingredient: int)
    requires Unscoped(site, s) && Resolve(site, s).Only? && ScopedChecks(site, Scoped(Resolve(site, s), s))
    ensures var r := Resolve(site, s);
            && Sum(Scoped(r, s).movements, StoreLedgerOf(Some(r.store), ingredient)) ==
                Sum(s.movements, LedgerOf(ingredient))
            && Sum(Scoped(r, s).lines, StoreOwedOf(Some(r.store), ingredient)) == Sum(s.lines, OwedOf(ingredient))
  {
    var r := Resolve(site, s);
    var after := Scoped(r, s);
    ResolvingIsNoGuess(site, s);
    forall k | 0 <= k < |s.movements|
      ensures StoreLedgerOf(Some(r.store), ingredient)(after.movements[k]) == LedgerOf(ingredient)(s.movements[k])
    {
      EntryLandsIn(site, s, r, k);
    }
    SumPointwise(after.movements, StoreLedgerOf(Some(r.store), ingredient), s.movements, LedgerOf(ingredient));
    forall k | 0 <= k < |s.lines|
      ensures StoreOwedOf(Some(r.store), ingredient)(after.lines[k]) == OwedOf(ingredient)(s.lines[k])
    {
      assert LineKeys(site, after, after.lines[k]);
    }
    SumPointwise(after.lines, StoreOwedOf(Some(r.store), ingredient), s.lines, OwedOf(ingredient));
  }

  lemma OnlyStoreEverywhere(site: Site, s: Snapshot, k: nat)
    requires Unscoped(site, s) && Resolve(site, s).Only? && ScopedChecks(site, Scoped(Resolve(site, s), s))
    requires |s.stock| <= k < |Scoped(Resolve(site, s), s).stock|
    ensures Scoped(Resolve(site, s), s).stock[k].store == Some(Resolve(site, s).store)
  {
    var r := Resolve(site, s);
    ResolvingIsNoGuess(site, s);
    var keys := Keys(ScopedMovements(r, s), ScopedLines(s));
    MaterialisedKeys(s.past, Each(s.stock, ShelfPlaced(r)), keys, k);
    var j :| 0 <= j < |keys| && keys[j] == Key(Scoped(r, s).stock[k].store, Scoped(r, s).stock[k].ingredient);
    if j < |s.movements| {
      EntryLandsIn(site, s, r, j);
    } else {
      assert LineKeys(site, Scoped(r, s), Scoped(r, s).lines[j - |s.movements|]);
    }
  }

  /** Every shelf that existed keeps its balance; a shelf the migration had to
      materialise shows, with its sign reversed, the ledger that had no shelf. */
  lemma ScopedBooks(site: Site, s: Snapshot, k: nat)
    requires Unscoped(site, s) && Balanced(s) && !Resolve(site, s).Refused?
    requires ScopedChecks(site, Scoped(Resolve(site, s), s)) && k < |Scoped(Resolve(site, s), s).stock|
    ensures var after := Scoped(Resolve(site, s), s);
            var x := after.stock[k];
            && (k < |s.stock| ==> OnHandDrift(after, x) == 0 && ReservedDrift(after, x) == 0
                                  && x.onHand == s.stock[k].onHand && x.reserved == s.stock[k].reserved)
            && (k >= |s.stock| ==> OnHandDrift(after, x) == -Sum(after.movements, StoreLedgerOf(x.store, x.ingredient))
                                   && ReservedDrift(after, x) == -Sum(after.lines, StoreOwedOf(x.store, x.ingredient)))
            && (k >= |s.stock| && Resolve(site, s).Only? ==>
                  x.store == Some(Resolve(site, s).store)
                  && OnHandDrift(after, x) == -Sum(s.movements, LedgerOf(x.ingredient)))
  {
    var r := Resolve(site, s);
    var after := Scoped(r, s);
    if r.Only? {
      OneStoreHoldsTheLedger(site, s, after.stock[k].ingredient);
      if k >= |s.stock| {
        OnlyStoreEverywhere(site, s, k);
      } else {
        assert after.stock[k] == ShelfPlaced(r)(s.stock[k]);
      }
    }
  }

  // ── Composition ────────────────────────────────────────────────────────────

  /** Ids the legacy rows cite exist; stock and movements name known ingredients. */
  ghost predicate LegacyReferences(site: Site, s: Snapshot) {
    && KnownStores(site, s.past)
    && (forall k :: 0 <= k < |s.movements| ==> s.movements[k].ingredient in s.past.ingredients)
    && (forall k :: 0 <= k < |s.stock| ==> s.stock[k].ingredient in s.past.ingredients)
  }

  predicate Unlinked(e: Entry) { e.store.None? && e.line.None? && e.actor.None? }

  lemma {:induction false} OpeningIngredients(stock: seq<Shelf>, ledger: seq<Entry>, ingredients: set<int>)
    requires forall k :: 0 <= k < |stock| ==> stock[k].ingredient in ingredients
    ensures forall k :: 0 <= k < |Openings(stock, ledger)| ==> Openings(stock, ledger)[k].ingredient in ingredients
  {
    if |stock| > 0 {
      OpeningIngredients(stock[..|stock| - 1], ledger, ingredients);
    }
  }

  lemma UpgradedEntry(s: Snapshot, k: nat)
    requires LegacyTables(s) && k < |Upgraded(s).movements|
    requires forall k :: 0 <= k < |s.movements| ==> s.movements[k].ingredient in s.past.ingredients
    requires forall k :: 0 <= k < |s.stock| ==> s.stock[k].ingredient in s.past.ingredients
    ensures Unlinked(Upgraded(s).movements[k]) && Upgraded(s).movements[k].ingredient in s.past.ingredients
  {
    var ledger := RewrittenLedger(s);
    if k < |ledger| {
      NotedRows(s);
      KeptRows(Noted(s), Moves);
      var e := Keep(Noted(s), Moves)[k];
      assert ledger[k] == Retired(Relinked(s.past.orders)(Reshaped(e)));
    } else {
      OpeningRows(s.stock, ledger);
      OpeningIngredients(s.stock, ledger, s.past.ingredients);
      assert IsOpening(Openings(s.stock, ledger)[k - |ledger|]);
    }
  }

  lemma UpgradedIsUnscoped(site: Site, s: Snapshot)
    requires LegacyTables(s) && LegacyReferences(site, s) && forall k :: 0 <= k < |s.stock| ==> s.stock[k].onHand >= 0
    ensures Unscoped(site, Upgraded(s))
    ensures forall k :: 0 <= k < |Upgraded(s).movements| ==> Unlinked(Upgraded(s).movements[k])
  {
    UpgradeIsCorrect(s);
    var up := Upgraded(s);
    forall k | 0 <= k < |up.movements|
      ensures Unlinked(up.movements[k]) && up.movements[k].ingredient in s.past.ingredients
      ensures up.movements[k].order.Some? ==> up.movements[k].order.value in s.past.orders
    {
      UpgradedEntry(s, k);
      assert EntryChecks(s.past.orders, up.movements[k]);
    }
    forall k | 0 <= k < |s.stock| ensures s.stock[k].store.None? { assert LegacyShelf(s.stock[k]); }
    forall k | 0 <= k < |up.lines|
      ensures up.lines[k].order in s.past.orders && up.lines[k].ingredient in s.past.ingredients
    {
      assert PastLineChecks(s.past, up.lines[k]);
    }
  }

  lemma NoLinksNoConflict(site: Site, r: Resolution, s: Snapshot)
    requires forall k :: 0 <= k < |s.movements| ==> Unlinked(s.movements[k])
    ensures LinksAgree(site, r, s)
  {}

  /** A shelf that existed, after both revisions. */
  lemma MigratedShelf(site: Site, s: Snapshot, k: nat)
    requires LegacyTables(s) && k < |s.stock| && Balanced(Upgraded(s)) && Unscoped(site, Upgraded(s))
    requires !Resolve(site, Upgraded(s)).Refused? && ScopedChecks(site, Scoped(Resolve(site, Upgraded(s)), Upgraded(s)))
    ensures var after := Scoped(Resolve(site, Upgraded(s)), Upgraded(s));
            && k < |after.stock| && after.stock[k].onHand == s.stock[k].onHand && after.stock[k].reserved == 0
            && OnHandDrift(after, after.stock[k]) == 0 && ReservedDrift(after, after.stock[k]) == 0
  {
    ScopedBooks(site, Upgraded(s), k);
    assert LegacyShelf(s.stock[k]);
  }

  /** Both revisions in order, from any legacy database without negative stock:
      unless the second refuses to guess, it fails only for a cited order without
      a store, and afterwards the reconciler finds no drift on any shelf that
      existed before. */
  lemma BothMigrationsReconcile(site: Site, s: Snapshot)
    requires LegacyTables(s) && LegacyReferences(site, s) && forall k :: 0 <= k < |s.stock| ==> s.stock[k].onHand >= 0
    requires !Resolve(site, Upgraded(s)).Refused?
    ensures var after := Scoped(Resolve(site, Upgraded(s)), Upgraded(s));
            && (ScopedChecks(site, after) <==> CitedOrdersHaveStores(Upgraded(s)))
            && (ScopedChecks(site, after) ==>
                  forall k :: 0 <= k < |s.stock| ==>
                    && after.stock[k].onHand == s.stock[k].onHand && after.stock[k].reserved == 0
                    && OnHandDrift(after, after.stock[k]) == 0 && ReservedDrift(after, after.stock[k]) == 0)
  {
    var up := Upgraded(s);
    var after := Scoped(Resolve(site, up), up);
    UpgradeIsCorrect(s);
    UpgradedIsUnscoped(site, s);
    ScopingSucceedsExactlyWhen(site, up);
    NoLinksNoConflict(site, Resolve(site, up), up);
    if ScopedChecks(site, after) {
      forall k | 0 <= k < |s.stock|
        ensures after.stock[k].onHand == s.stock[k].onHand && after.stock[k].reserved == 0
        ensures OnHandDrift(after, after.stock[k]) == 0 && ReservedDrift(after, after.stock[k]) == 0
      {
        MigratedShelf(site, s, k);
      }
    }
  }

  // ── The revision as statements ─────────────────────────────────────────────

  datatype Verdict = Migrated | AmbiguousInventoryStore | ConstraintViolation

  function EntryUnscoped(e: Entry): Entry { e.(store := None) }

  function LineUnscoped(l: PastLine): PastLine { l.(store := None) }

  function ShelfUnscoped(r: Shelf): Shelf { r.(store := None) }

  function Unscope(s: Snapshot): Snapshot {
    s.(movements := Each(s.movements, EntryUnscoped), lines := Each(s.lines, LineUnscoped),
       stock := Each(s.stock, ShelfUnscoped))
  }

  class Database {
    const site: Site

    const past: Past

    var stock: seq<Shelf>
    var movements: seq<Entry>
    var lines: seq<PastLine>

    constructor (site: Site, s: Snapshot)
      ensures this.site == site && State() == s
    {
      this.site, past, stock, movements, lines := site, s.past, s.stock, s.movements, s.lines;
    }

    function State(): Snapshot
      reads this
    {
      Snapshot(past, stock, movements, lines)
    }

    /** All or nothing: it migrates exactly when a store is certain and every cited
        order and link agrees; otherwise no row changes. */
    method Upgrade() returns (verdict: Verdict)
      requires Unscoped(site, State())
      modifies this
      ensures verdict == AmbiguousInventoryStore <==> Resolve(site, old(State())).Refused?
      ensures verdict == Migrated <==>
                && !Resolve(site, old(State())).Refused? && CitedOrdersHaveStores(old(State()))
                && LinksAgree(site, Resolve(site, old(State())), old(State()))
      ensures State() == if verdict == Migrated then Scoped(Resolve(site, old(State())), old(State())) else old(State())
      ensures verdict == Migrated ==> ScopedChecks(site, State())
    {
      var backfill := Resolve(site, State());
      if backfill.Refused? { return AmbiguousInventoryStore; }
      ScopingSucceedsExactlyWhen(site, State());
      var savedStock, savedMovements, savedLines := stock, movements, lines;
      lines := Each(lines, LineStored(past));
      movements := Each(movements, EntryStored(past));
      movements := Each(movements, EntryPlaced(backfill));
      stock := Each(stock, ShelfPlaced(backfill));
      stock := Materialised(past, stock, Keys(movements, lines));
      if ScopedChecks(site, State()) {
        verdict := Migrated;
      } else {
        stock, movements, lines := savedStock, savedMovements, savedLines;
        verdict := ConstraintViolation;
      }
    }

    /** Refuses as soon as two stores hold stock; otherwise drops the store columns. */
    method Downgrade() returns (verdict: Verdict)
      modifies this
      ensures verdict == AmbiguousInventoryStore <==>
                exists j, k :: 0 <= j < k < |old(stock)| && old(stock)[j].store != old(stock)[k].store
      ensures verdict == Migrated || verdict == AmbiguousInventoryStore
      ensures State() == if verdict == Migrated then Unscope(old(State())) else old(State())
    {
      if exists j, k :: 0 <= j < k < |stock| && stock[j].store != stock[k].store { return AmbiguousInventoryStore; }
      movements := Each(movements, EntryUnscoped);
      lines := Each(lines, LineUnscoped);
      stock := Each(stock, ShelfUnscoped);
      verdict := Migrated;
    }
  }

  /** Up and down again: with one owning store the downgrade is never refused, and
      everything returns, with empty shelves added for what had none. */
  lemma UnscopeUndoesScope(site: Site, s: Snapshot)
    requires Unscoped(site, s) && Resolve(site, s).Only? && ScopedChecks(site, Scoped(Resolve(site, s), s))
    requires forall k :: 0 <= k < |s.lines| ==> s.lines[k].store.None?
    ensures var after := Scoped(Resolve(site, s), s);
            && (forall k :: 0 <= k < |after.stock| ==> after.stock[k].store == Some(Resolve(site, s).store))
            && Unscope(after).movements == s.movements && Unscope(after).lines == s.lines
            && s.stock <= Unscope(after).stock
            && (forall k :: |s.stock| <= k < |after.stock| ==>
                  Unscope(after).stock[k].onHand == 0 && Unscope(after).stock[k].reserved == 0)
  {
    var r := Resolve(site, s);
    var after := Scoped(r, s);
    forall k | 0 <= k < |after.stock| ensures after.stock[k].store == Some(r.store) {
      if k >= |s.stock| {
        OnlyStoreEverywhere(site, s, k);
      } else {
        assert after.stock[k] == ShelfPlaced(r)(s.stock[k]);
      }
    }
    forall k | 0 <= k < |s.stock| ensures Unscope(after).stock[k] == s.stock[k] {
      assert after.stock[k] == ShelfPlaced(r)(s.stock[k]);
    }
    forall k | 0 <= k < |s.movements| ensures Unscope(after).movements[k] == s.movements[k] {
      EntryLandsIn(site, s, r, k);
    }
  }
}
