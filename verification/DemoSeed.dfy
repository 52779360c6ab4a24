/** The demo database: a fortnight of random orders, and an opening balance derived
    from what they consumed so that the seeded books reconcile. What the dice chose
    is an input. */
module DemoSeed {
  import opened Tables
  import opened Text
  import opened Inventory
  import opened InventoryConservation
  import opened InventorySafety
  import opened OrderSafety

  datatype Unit = Grams | Millilitres | Pieces | OtherUnit

  /** A catalog ingredient; `standard` is the quantity one portion consumes. */
  datatype Ingredient = Ingredient(heavyUse: bool, unit: Unit, standard: nat)

  type Menu = map<int, Ingredient>

  /** One order of one item, with the ingredients drawn for it. */
  datatype Draw = Draw(store: int, picks: seq<int>)

  /** Where a shelf should end up: heavy-use ingredients below their reorder level. */
  function EndingTarget(i: Ingredient): (q: int)
    ensures q > 0
  {
    match (i.heavyUse, i.unit)
    case (true, Millilitres) => 80_000
    case (true, Pieces) => 8_000
    case (true, _) => 150_000
    case (false, Millilitres) => 750_000
    case (false, Pieces) => 60_000
    case (false, _) => 1_500_000
  }

  /** Below this the owner's dashboard calls an ingredient critical. */
  function ReorderLevel(unit: Unit): int {
    match unit
    case Millilitres => 150_000
    case Pieces => 15_000
    case _ => 300_000
  }

  /** The demo always has critical rows to show, and they are the heavy-use ones. */
  lemma HeavyUseEndsCritical(i: Ingredient)
    ensures EndingTarget(i) < ReorderLevel(i.unit) <==> i.heavyUse
  {}

  function Portion(menu: Menu, i: int): nat { if i in menu then menu[i].standard else 0 }

  function ConsumedAt(store: int, ingredient: int): Line -> int {
    (l: Line) => if l.store == store && l.ingredient == ingredient then l.consumed else 0
  }

  // ── Orders ─────────────────────────────────────────────────────────────────

  /** Deductions per store and ingredient are what the lines consumed there. */
  ghost predicate Tallied(deductions: map<(int, int), int>, lines: seq<Line>) {
    && (forall s, i :: (s, i) in deductions ==> deductions[(s, i)] == Sum(lines, ConsumedAt(s, i)))
    && (forall s, i :: (s, i) !in deductions ==> Sum(lines, ConsumedAt(s, i)) == 0)
  }

  /** A delivered order's line: reserved, consumed, nothing outstanding. */
  function DeliveredLine(store: int, order: nat, ingredient: int, q: nat): Line {
    Line(store, order, order, ingredient, q, q, 0, 0, 0)
  }

  predicate Delivered(orders: seq<int>, stock: seq<StockRow>, l: Line) {
    && l.order < |orders| && l.item == l.order && orders[l.order] == l.store
    && l.reserved > 0 && l == DeliveredLine(l.store, l.order, l.ingredient, l.reserved)
    && Stocked(stock, l.store, l.ingredient)
  }

  /** The draws name distinct ingredients, stocked in the order's store. */
  ghost predicate Drawn(plan: seq<Draw>, stock: seq<StockRow>) {
    forall k :: 0 <= k < |plan| ==>
      && (forall j :: 0 <= j < |plan[k].picks| ==> Stocked(stock, plan[k].store, plan[k].picks[j]))
      && (forall i, j :: 0 <= i < j < |plan[k].picks| ==> plan[k].picks[i] != plan[k].picks[j])
  }

  lemma TallyOne(deductions: map<(int, int), int>, lines: seq<Line>, l: Line, key: (int, int))
    requires Tallied(deductions, lines) && key == (l.store, l.ingredient)
    ensures Tallied(deductions[key := (if key in deductions then deductions[key] else 0) + l.consumed], lines + [l])
  {
    forall s, i ensures Sum(lines + [l], ConsumedAt(s, i)) == Sum(lines, ConsumedAt(s, i)) + ConsumedAt(s, i)(l) {
      SumAppend(lines, l, ConsumedAt(s, i));
    }
  }

  lemma TallyNothing(deductions: map<(int, int), int>, lines: seq<Line>, s: int, i: int)
    requires Tallied(deductions, lines)
    ensures Tallied(deductions[(s, i) := (if (s, i) in deductions then deductions[(s, i)] else 0) + 0], lines)
  {}

  /** The draws that become orders; an empty selection is skipped. */
  function Kept(plan: seq<Draw>): seq<Draw> {
    if |plan| == 0 then []
    else
      var front, last := Kept(plan[..|plan| - 1]), plan[|plan| - 1];
      if last.picks == [] then front else front + [last]
  }

  /** Every order drawn with an ingredient is kept, once for each time it was drawn. */
  lemma {:induction false} OnlyEmptyDrawsAreSkipped(plan: seq<Draw>)
    ensures forall d :: d in Kept(plan) <==> d in plan && d.picks != []
    ensures forall d: Draw :: d.picks != [] ==> multiset(Kept(plan))[d] == multiset(plan)[d]
  {
    if |plan| > 0 {
      OnlyEmptyDrawsAreSkipped(plan[..|plan| - 1]);
      assert plan == plan[..|plan| - 1] + [plan[|plan| - 1]];
    }
  }

  lemma {:induction false} KeptAreDrawn(plan: seq<Draw>, stock: seq<StockRow>)
    requires Drawn(plan, stock)
    ensures Drawn(Kept(plan), stock)
  {
    if |plan| > 0 { KeptAreDrawn(plan[..|plan| - 1], stock); }
  }

  /** The line of a drawn ingredient whose portion is not nothing. */
  predicate Serves(plan: seq<Draw>, menu: Menu, l: Line) {
    && l.order < |plan| && l.ingredient in plan[l.order].picks && Portion(menu, l.ingredient) > 0
    && l == DeliveredLine(plan[l.order].store, l.order, l.ingredient, Portion(menu, l.ingredient))
  }

  /** The lines so far: those of the first k orders and of the next one's first picks. */
  ghost predicate Ordered(plan: seq<Draw>, menu: Menu, lines: seq<Line>, k: nat, picked: nat) {
    && UniqueLines(lines)
    && forall l :: l in lines <==>
         Serves(plan, menu, l) && (l.order < k
                                   || (l.order == k && picked <= |plan[k].picks|
                                       && l.ingredient in plan[k].picks[..picked]))
  }

  lemma OrderServed(plan: seq<Draw>, menu: Menu, lines: seq<Line>, k: nat)
    requires |plan| == k + 1 && Ordered(plan, menu, lines, k, |plan[k].picks|)
    ensures Ordered(plan, menu, lines, k + 1, 0)
  {
    assert plan[k].picks[..|plan[k].picks|] == plan[k].picks;
  }

  lemma OneMorePick(picks: seq<int>, j: nat, i: int)
    requires j < |picks|
    ensures i in picks[..j + 1] <==> i in picks[..j] || i == picks[j]
  {
    assert picks[..j + 1] == picks[..j] + [picks[j]];
  }

  lemma OneMoreLine(plan: seq<Draw>, menu: Menu, lines: seq<Line>, k: nat, j: nat, l: Line)
    requires k < |plan| && j < |plan[k].picks| && Ordered(plan, menu, lines, k, j)
    requires forall i :: 0 <= i < j ==> plan[k].picks[i] != plan[k].picks[j]
    requires Serves(plan, menu, l) && l.order == k && l.ingredient == plan[k].picks[j]
    ensures Ordered(plan, menu, lines + [l], k, j + 1)
  {
    forall x: Line
      ensures x.ingredient in plan[k].picks[..j + 1] <==>
                x.ingredient in plan[k].picks[..j] || x.ingredient == l.ingredient
    {
      OneMorePick(plan[k].picks, j, x.ingredient);
    }
    forall n | 0 <= n < |lines| ensures lines[n].item != l.item || lines[n].ingredient != l.ingredient {
      assert lines[n] in lines;
    }
  }

  lemma NoLine(plan: seq<Draw>, menu: Menu, lines: seq<Line>, k: nat, j: nat)
    requires k < |plan| && j < |plan[k].picks| && Ordered(plan, menu, lines, k, j)
    requires Portion(menu, plan[k].picks[j]) == 0
    ensures Ordered(plan, menu, lines, k, j + 1)
  {
    forall x: Line
      ensures x.ingredient in plan[k].picks[..j + 1] <==>
                x.ingredient in plan[k].picks[..j] || x.ingredient == plan[k].picks[j]
    {
      OneMorePick(plan[k].picks, j, x.ingredient);
    }
  }

  /** The ingredients of one order. */
  method ServePicks(d: Draw, ghost kept: seq<Draw>, menu: Menu, k: nat, before: seq<Line>, tally: map<(int, int), int>)
    returns (lines: seq<Line>, deductions: map<(int, int), int>)
    requires |kept| == k + 1 && kept[k] == d && Ordered(kept, menu, before, k, 0) && Tallied(tally, before)
    requires forall i, j :: 0 <= i < j < |d.picks| ==> d.picks[i] != d.picks[j]
    ensures Ordered(kept, menu, lines, k + 1, 0) && Tallied(deductions, lines)
  {
    lines, deductions := before, tally;
    for j := 0 to |d.picks|
      invariant Ordered(kept, menu, lines, k, j)
      invariant Tallied(deductions, lines)
    {
      var i := d.picks[j];
      var q := Portion(menu, i);
      var key := (d.store, i);
      var total := (if key in deductions then deductions[key] else 0) + q;
      if q > 0 {
        var l := DeliveredLine(d.store, k, i, q);
        TallyOne(deductions, lines, l, key);
        OneMoreLine(kept, menu, lines, k, j, l);
        lines := lines + [l];
      } else {
        TallyNothing(deductions, lines, d.store, i);
        NoLine(kept, menu, lines, k, j);
      }
      deductions := deductions[key := total];
    }
    OrderServed(kept, menu, lines, k);
  }

  lemma NextOrder(kept: seq<Draw>, d: Draw, menu: Menu, lines: seq<Line>)
    requires Ordered(kept, menu, lines, |kept|, 0)
    ensures Ordered(kept + [d], menu, lines, |kept|, 0)
  {
    forall l: Line | l.order < |kept| ensures Serves(kept + [d], menu, l) <==> Serves(kept, menu, l) {}
  }

  method GenerateOrders(plan: seq<Draw>, menu: Menu, ghost stock: seq<StockRow>)
    returns (orders: seq<int>, items: seq<nat>, lines: seq<Line>, deductions: map<(int, int), int>)
    requires Drawn(plan, stock)
    ensures |orders| == |items| == |Kept(plan)|
    ensures forall k :: 0 <= k < |orders| ==> orders[k] == Kept(plan)[k].store && items[k] == k
    ensures UniqueLines(lines) && forall l :: l in lines <==> Serves(Kept(plan), menu, l)
    ensures Tallied(deductions, lines)
  {
    orders, items, lines, deductions := [], [], [], map[];
    KeptAreDrawn(plan, stock);
    for n := 0 to |plan|
      invariant |orders| == |items| == |Kept(plan[..n])|
      invariant forall k :: 0 <= k < |orders| ==> orders[k] == Kept(plan[..n])[k].store && items[k] == k
      invariant Ordered(Kept(plan[..n]), menu, lines, |orders|, 0)
      invariant Tallied(deductions, lines)
    {
      assert plan[..n + 1][..n] == plan[..n];
      if plan[n].picks == [] { continue; }
      ghost var kept := Kept(plan[..n + 1]);
      var k := |orders|;
      NextOrder(Kept(plan[..n]), plan[n], menu, lines);
      orders, items := orders + [plan[n].store], items + [k];
      lines, deductions := ServePicks(plan[n], kept, menu, k, lines, deductions);
    }
    assert plan[..|plan|] == plan;
  }

  /** Every line belongs to a delivered order and to a shelf of its store. */
  lemma AllDelivered(plan: seq<Draw>, menu: Menu, stock: seq<StockRow>, orders: seq<int>, lines: seq<Line>)
    requires Drawn(plan, stock) && |orders| == |plan| && forall k :: 0 <= k < |plan| ==> orders[k] == plan[k].store
    requires forall l :: l in lines ==> Serves(plan, menu, l)
    ensures forall n :: 0 <= n < |lines| ==> Delivered(orders, stock, lines[n])
  {
    forall n | 0 <= n < |lines| ensures Delivered(orders, stock, lines[n]) {
      assert lines[n] in lines;
      var j :| 0 <= j < |plan[lines[n].order].picks| && plan[lines[n].order].picks[j] == lines[n].ingredient;
    }
  }

  // ── The ledger ─────────────────────────────────────────────────────────────

  function Deducted(deductions: map<(int, int), int>, r: StockRow): int {
    if (r.store, r.ingredient) in deductions then deductions[(r.store, r.ingredient)] else 0
  }

  function SeedRow(r: StockRow, kind: Kind, quantity: int, onHand: int, reserved: int, legacy: bool): Movement {
    Movement(r.store, r.ingredient, kind, quantity, onHand, reserved, None, None, Some(""), None, None, None, None,
             None, legacy)
  }

  /** Opening balance, then the fortnight's trade: reserved and consumed. */
  function SeedRows(r: StockRow, consumed: int, ending: int): seq<Movement> {
    [SeedRow(r, PurchaseReceipt, consumed + ending, consumed + ending, 0, true)]
    + if consumed > 0 then [SeedRow(r, ReservationCreated, consumed, 0, consumed, false),
                            SeedRow(r, Consumption, consumed, -consumed, -consumed, false)] else []
  }

  function Ledger(menu: Menu, deductions: map<(int, int), int>, stock: seq<StockRow>): seq<Movement> {
    if |stock| == 0 then []
    else
      var front, r := Ledger(menu, deductions, stock[..|stock| - 1]), stock[|stock| - 1];
      if r.ingredient in menu then front + SeedRows(r, Deducted(deductions, r), EndingTarget(menu[r.ingredient]))
      else front
  }

  function Shelved(menu: Menu, r: StockRow): StockRow {
    if r.ingredient in menu then r.(onHand := EndingTarget(menu[r.ingredient]), reserved := 0) else r
  }

  method ApplyDeductions(menu: Menu, deductions: map<(int, int), int>, stock: seq<StockRow>)
    returns (movements: seq<Movement>, shelves: seq<StockRow>)
    ensures movements == Ledger(menu, deductions, stock)
    ensures |shelves| == |stock| && forall k :: 0 <= k < |stock| ==> shelves[k] == Shelved(menu, stock[k])
  {
    movements, shelves := [], stock;
    for n := 0 to |stock|
      invariant movements == Ledger(menu, deductions, stock[..n])
      invariant |shelves| == |stock|
      invariant forall k :: 0 <= k < |stock| ==> shelves[k] == if k < n then Shelved(menu, stock[k]) else stock[k]
    {
      assert stock[..n + 1][..n] == stock[..n];
      var r := shelves[n];
      if r.ingredient !in menu { continue; }
      var consumed, ending := Deducted(deductions, r), EndingTarget(menu[r.ingredient]);
      var opening := consumed + ending;
      var rows := [SeedRow(r, PurchaseReceipt, opening, opening, 0, true)];
      if consumed > 0 {
        rows := rows + [SeedRow(r, ReservationCreated, consumed, 0, consumed, false),
                        SeedRow(r, Consumption, consumed, -consumed, -consumed, false)];
      }
      movements := movements + rows;
      shelves := shelves[n := r.(onHand := ending, reserved := 0)];
    }
    assert stock[..|stock|] == stock;
  }

  lemma SeedRowsAddUp(r: StockRow, consumed: int, ending: int, s: int, i: int)
    requires consumed >= 0
    ensures Sum(SeedRows(r, consumed, ending), OnHandOf(s, i)) == if Shelves(r, s, i) then ending else 0
    ensures Sum(SeedRows(r, consumed, ending), ReservedOf(s, i)) == 0
  {
    var first := [SeedRow(r, PurchaseReceipt, consumed + ending, consumed + ending, 0, true)];
    SumSingle(first, 0, OnHandOf(s, i));
    SumSingle(first, 0, ReservedOf(s, i));
    if consumed > 0 {
      var trade := [SeedRow(r, ReservationCreated, consumed, 0, consumed, false),
                    SeedRow(r, Consumption, consumed, -consumed, -consumed, false)];
      SumPair(trade, 0, 1, OnHandOf(s, i));
      SumPair(trade, 0, 1, ReservedOf(s, i));
      SumConcat(first, trade, OnHandOf(s, i));
      SumConcat(first, trade, ReservedOf(s, i));
    } else {
      assert SeedRows(r, consumed, ending) == first;
    }
  }

  /** What the ledger says of a shelf: nothing before its own rows, then its target. */
  function TargetAt(menu: Menu, stock: seq<StockRow>, s: int, i: int): int {
    if i in menu && exists k :: 0 <= k < |stock| && Shelves(stock[k], s, i) then EndingTarget(menu[i]) else 0
  }

  lemma TargetStep(menu: Menu, stock: seq<StockRow>, s: int, i: int)
    requires |stock| > 0 && UniqueShelves(stock)
    ensures TargetAt(menu, stock, s, i) ==
              TargetAt(menu, stock[..|stock| - 1], s, i)
              + (if Shelves(stock[|stock| - 1], s, i) && i in menu then EndingTarget(menu[i]) else 0)
  {
    var n := |stock| - 1;
    if Shelves(stock[n], s, i) {
      assert forall k :: 0 <= k < n ==> !Shelves(stock[..n][k], s, i);
    } else if k :| 0 <= k < |stock| && Shelves(stock[k], s, i) {
      assert Shelves(stock[..n][k], s, i);
    }
  }

  lemma {:induction false} LedgerAddsUp(menu: Menu, deductions: map<(int, int), int>, stock: seq<StockRow>, s: int,
                                        i: int)
    requires UniqueShelves(stock) && forall r: StockRow :: Deducted(deductions, r) >= 0
    ensures Sum(Ledger(menu, deductions, stock), OnHandOf(s, i)) == TargetAt(menu, stock, s, i)
    ensures Sum(Ledger(menu, deductions, stock), ReservedOf(s, i)) == 0
  {
    if |stock| > 0 {
      var n := |stock| - 1;
      LedgerAddsUp(menu, deductions, stock[..n], s, i);
      TargetStep(menu, stock, s, i);
      if stock[n].ingredient in menu {
        var rows := SeedRows(stock[n], Deducted(deductions, stock[n]), EndingTarget(menu[stock[n].ingredient]));
        SumConcat(Ledger(menu, deductions, stock[..n]), rows, OnHandOf(s, i));
        SumConcat(Ledger(menu, deductions, stock[..n]), rows, ReservedOf(s, i));
        SeedRowsAddUp(stock[n], Deducted(deductions, stock[n]), EndingTarget(menu[stock[n].ingredient]), s, i);
      }
    }
  }

  /** What the ledger writes under one name for one shelf. */
  function WrittenAs(kind: Kind, s: int, i: int): Movement -> int {
    (m: Movement) => if m.kind == kind && m.store == s && m.ingredient == i then m.quantity else 0
  }

  /** An opening balance of what was sold and what is left; the sales reserved, then consumed. */
  function SeededAs(kind: Kind, consumed: int, ending: int): int {
    match kind
    case PurchaseReceipt => consumed + ending
    case ReservationCreated => consumed
    case Consumption => consumed
    case _ => 0
  }

  lemma SeedRowsByKind(r: StockRow, consumed: int, ending: int, kind: Kind, s: int, i: int)
    requires consumed >= 0
    ensures Sum(SeedRows(r, consumed, ending), WrittenAs(kind, s, i)) ==
              if r.store == s && r.ingredient == i then SeededAs(kind, consumed, ending) else 0
  {
    var first := [SeedRow(r, PurchaseReceipt, consumed + ending, consumed + ending, 0, true)];
    SumSingle(first, 0, WrittenAs(kind, s, i));
    if consumed > 0 {
      var trade := [SeedRow(r, ReservationCreated, consumed, 0, consumed, false),
                    SeedRow(r, Consumption, consumed, -consumed, -consumed, false)];
      SumPair(trade, 0, 1, WrittenAs(kind, s, i));
      SumConcat(first, trade, WrittenAs(kind, s, i));
    } else {
      assert SeedRows(r, consumed, ending) == first;
    }
  }

  function SeededAt(menu: Menu, deductions: map<(int, int), int>, stock: seq<StockRow>, kind: Kind, s: int, i: int): int
  {
    if i in menu && exists k :: 0 <= k < |stock| && Shelves(stock[k], s, i)
    then SeededAs(kind, if (s, i) in deductions then deductions[(s, i)] else 0, EndingTarget(menu[i])) else 0
  }

  lemma SeededStep(menu: Menu, deductions: map<(int, int), int>, stock: seq<StockRow>, kind: Kind, s: int, i: int)
    requires |stock| > 0 && UniqueShelves(stock)
    ensures SeededAt(menu, deductions, stock, kind, s, i) ==
              SeededAt(menu, deductions, stock[..|stock| - 1], kind, s, i)
              + (if Shelves(stock[|stock| - 1], s, i) && i in menu
                 then SeededAs(kind, Deducted(deductions, stock[|stock| - 1]), EndingTarget(menu[i])) else 0)
  {
    var n := |stock| - 1;
    if Shelves(stock[n], s, i) {
      assert forall k :: 0 <= k < n ==> !Shelves(stock[..n][k], s, i);
    } else if k :| 0 <= k < |stock| && Shelves(stock[k], s, i) {
      assert Shelves(stock[..n][k], s, i);
    }
  }

  /** The seeded ledger under its own names, shelf by shelf. */
  lemma {:induction false} LedgerByKind(menu: Menu, deductions: map<(int, int), int>, stock: seq<StockRow>,
                                        kind: Kind, s: int, i: int)
    requires UniqueShelves(stock) && forall r: StockRow :: Deducted(deductions, r) >= 0
    ensures Sum(Ledger(menu, deductions, stock), WrittenAs(kind, s, i)) ==
              SeededAt(menu, deductions, stock, kind, s, i)
  {
    if |stock| > 0 {
      var n := |stock| - 1;
      LedgerByKind(menu, deductions, stock[..n], kind, s, i);
      SeededStep(menu, deductions, stock, kind, s, i);
      if stock[n].ingredient in menu {
        var consumed, ending := Deducted(deductions, stock[n]), EndingTarget(menu[stock[n].ingredient]);
        SumConcat(Ledger(menu, deductions, stock[..n]), SeedRows(stock[n], consumed, ending), WrittenAs(kind, s, i));
        SeedRowsByKind(stock[n], consumed, ending, kind, s, i);
      }
    }
  }

  lemma {:induction false} LedgerRows(menu: Menu, deductions: map<(int, int), int>, stock: seq<StockRow>,
                                      shelves: seq<StockRow>)
    requires forall r: StockRow :: Deducted(deductions, r) >= 0
    requires forall k :: 0 <= k < |stock| ==> Stocked(shelves, stock[k].store, stock[k].ingredient)
    ensures forall k :: 0 <= k < |Ledger(menu, deductions, stock)| ==>
              var m := Ledger(menu, deductions, stock)[k];
              && MovementChecks(m) && Stocked(shelves, m.store, m.ingredient)
              && m.order.None? && m.line.None? && m.actor.None? && m.transfer.None? && m.stockCount.None? && m.key.None?
  {
    if |stock| > 0 {
      LedgerRows(menu, deductions, stock[..|stock| - 1], shelves);
    }
  }

  // ── The seeded database ────────────────────────────────────────────────────

  lemma NoNegativeDeductions(orders: seq<int>, stock: seq<StockRow>, lines: seq<Line>, deductions: map<(int, int), int>)
    requires Tallied(deductions, lines) && forall n :: 0 <= n < |lines| ==> Delivered(orders, stock, lines[n])
    ensures forall r: StockRow :: Deducted(deductions, r) >= 0
  {
    forall r: StockRow ensures Deducted(deductions, r) >= 0 {
      SumNonneg(lines, ConsumedAt(r.store, r.ingredient));
    }
  }

  lemma {:induction false} SeedRowsOk(c: Catalog, menu: Menu, stock: seq<StockRow>, db: Db,
                                      deductions: map<(int, int), int>)
    requires UniqueShelves(stock) && forall k :: 0 <= k < |stock| ==> stock[k].onHand == 0 && stock[k].reserved == 0
    requires |db.orders| == |db.items| && forall k :: 0 <= k < |db.items| ==> db.items[k] == k
    requires (forall n :: 0 <= n < |db.lines| ==> Delivered(db.orders, stock, db.lines[n])) && UniqueLines(db.lines)
    requires db.movements == Ledger(menu, deductions, stock) && db.transfers == [] && db.counts == []
    requires forall r: StockRow :: Deducted(deductions, r) >= 0
    requires |db.stock| == |stock| && forall k :: 0 <= k < |stock| ==> db.stock[k] == Shelved(menu, stock[k])
    ensures RowsOk(c, db)
  {
    SameShelvesUnique(stock, db.stock);
    forall k | 0 <= k < |stock| ensures Stocked(db.stock, stock[k].store, stock[k].ingredient) {
      assert Shelves(db.stock[k], stock[k].store, stock[k].ingredient);
    }
    LedgerRows(menu, deductions, stock, db.stock);
    forall k | 0 <= k < |db.lines| ensures LineChecks(db.lines[k]) && LineKeys(db, db.lines[k]) {
      var l := db.lines[k];
      var j :| 0 <= j < |stock| && Shelves(stock[j], l.store, l.ingredient);
      assert Stocked(db.stock, stock[j].store, stock[j].ingredient);
    }
  }

  lemma {:induction false} SeedIsBooked(c: Catalog, menu: Menu, stock: seq<StockRow>, shelves: seq<StockRow>,
                                        orders: seq<int>, items: seq<nat>, lines: seq<Line>,
                                        deductions: map<(int, int), int>, movements: seq<Movement>)
    requires UniqueShelves(stock) && forall k :: 0 <= k < |stock| ==> stock[k].onHand == 0 && stock[k].reserved == 0
    requires |orders| == |items| && forall k :: 0 <= k < |items| ==> items[k] == k
    requires (forall n :: 0 <= n < |lines| ==> Delivered(orders, stock, lines[n])) && UniqueLines(lines)
    requires Tallied(deductions, lines)
    requires movements == Ledger(menu, deductions, stock)
    requires |shelves| == |stock| && forall k :: 0 <= k < |stock| ==> shelves[k] == Shelved(menu, stock[k])
    ensures Sound(c, Db(orders, items, shelves, lines, movements, [], []))
  {
    var db := Db(orders, items, shelves, lines, movements, [], []);
    NoNegativeDeductions(orders, stock, lines, deductions);
    SeedRowsOk(c, menu, stock, db, deductions);
    forall k | 0 <= k < |shelves|
      ensures shelves[k].onHand == Sum(movements, OnHandOf(shelves[k].store, shelves[k].ingredient))
      ensures shelves[k].reserved == Sum(lines, OutstandingOf(shelves[k].store, shelves[k].ingredient))
      ensures shelves[k].reserved == Sum(movements, ReservedOf(shelves[k].store, shelves[k].ingredient))
    {
      LedgerAddsUp(menu, deductions, stock, stock[k].store, stock[k].ingredient);
      assert Shelves(stock[k], stock[k].store, stock[k].ingredient);
      SumZero(lines, OutstandingOf(shelves[k].store, shelves[k].ingredient));
    }
  }

  /** On every shelf of the menu the ledger consumed what the orders' lines consumed, and
      opened with that and what is left. */
  lemma {:induction false} LedgerTellsTheOrders(menu: Menu, stock: seq<StockRow>, orders: seq<int>, lines: seq<Line>,
                                                deductions: map<(int, int), int>, k: nat)
    requires UniqueShelves(stock) && k < |stock| && stock[k].ingredient in menu && Tallied(deductions, lines)
    requires forall n :: 0 <= n < |lines| ==> Delivered(orders, stock, lines[n])
    ensures var s, i := stock[k].store, stock[k].ingredient;
            var consumed := Sum(lines, ConsumedAt(s, i));
            && Sum(Ledger(menu, deductions, stock), WrittenAs(Consumption, s, i)) == consumed
            && Sum(Ledger(menu, deductions, stock), WrittenAs(ReservationCreated, s, i)) == consumed
            && Sum(Ledger(menu, deductions, stock), WrittenAs(PurchaseReceipt, s, i)) ==
                 consumed + EndingTarget(menu[i])
  {
    var s, i := stock[k].store, stock[k].ingredient;
    NoNegativeDeductions(orders, stock, lines, deductions);
    assert Shelves(stock[k], s, i);
    LedgerByKind(menu, deductions, stock, Consumption, s, i);
    LedgerByKind(menu, deductions, stock, ReservationCreated, s, i);
    LedgerByKind(menu, deductions, stock, PurchaseReceipt, s, i);
  }

  method ResetStockToZero(stock: seq<StockRow>) returns (zeroed: seq<StockRow>)
    ensures |zeroed| == |stock| && forall k :: 0 <= k < |stock| ==> zeroed[k] == stock[k].(onHand := 0, reserved := 0)
  {
    zeroed := stock;
    for n := 0 to |stock|
      invariant |zeroed| == |stock|
      invariant forall k :: 0 <= k < |stock| ==> zeroed[k] == if k < n then stock[k].(onHand := 0, reserved := 0)
                  else stock[k]
    {
      zeroed := zeroed[n := zeroed[n].(onHand := 0, reserved := 0)];
    }
  }

  /** Seeding any draws onto zeroed shelves gives a database every constraint
      accepts and the reconciler finds clean: no shelf is clamped, none drifts. */
  method Seed(c: Catalog, menu: Menu, plan: seq<Draw>, stock: seq<StockRow>) returns (db: Db)
    requires UniqueShelves(stock) && Drawn(plan, stock)
    ensures Sound(c, db)
    ensures |db.stock| == |stock| && forall k :: 0 <= k < |stock| && stock[k].ingredient in menu ==>
              db.stock[k].onHand == EndingTarget(menu[stock[k].ingredient]) && db.stock[k].reserved == 0
    ensures |db.orders| == |Kept(plan)| && forall l :: l in db.lines <==> Serves(Kept(plan), menu, l)
    ensures db.transfers == [] && db.counts == []
    ensures forall k :: 0 <= k < |stock| && stock[k].ingredient in menu ==>
              var s, i := stock[k].store, stock[k].ingredient;
              var consumed := Sum(db.lines, ConsumedAt(s, i));
              && Sum(db.movements, WrittenAs(Consumption, s, i)) == consumed
              && Sum(db.movements, WrittenAs(PurchaseReceipt, s, i)) == consumed + EndingTarget(menu[i])
  {
    var zeroed := ResetStockToZero(stock);
    forall s, i | Stocked(stock, s, i) ensures Stocked(zeroed, s, i) {
      var k :| 0 <= k < |stock| && Shelves(stock[k], s, i);
      assert Shelves(zeroed[k], s, i);
    }
    SameShelvesUnique(stock, zeroed);
    var orders, items, lines, deductions := GenerateOrders(plan, menu, zeroed);
    var movements, shelves := ApplyDeductions(menu, deductions, zeroed);
    KeptAreDrawn(plan, zeroed);
    AllDelivered(Kept(plan), menu, zeroed, orders, lines);
    SeedIsBooked(c, menu, zeroed, shelves, orders, items, lines, deductions, movements);
    db := Db(orders, items, shelves, lines, movements, [], []);
    forall k | 0 <= k < |stock| && stock[k].ingredient in menu
      ensures var s, i := stock[k].store, stock[k].ingredient;
              var consumed := Sum(db.lines, ConsumedAt(s, i));
              && Sum(db.movements, WrittenAs(Consumption, s, i)) == consumed
              && Sum(db.movements, WrittenAs(PurchaseReceipt, s, i)) == consumed + EndingTarget(menu[i])
    {
      LedgerTellsTheOrders(menu, zeroed, orders, lines, deductions, k);
    }
  }
}
