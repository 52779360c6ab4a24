/** The read-only reconciler: three reports, each re-deriving one record of the
    stock from another. */
module InventoryReconciler {
  import opened Tables
  import opened Inventory
  import opened InventoryCommands
  import opened InventoryConservation
  import opened InventorySafety
  import opened InventoryRuns

  /** The --store-id and --ingredient filters; None is no filter. */
  datatype Scope = Scope(store: Option<int>, ingredient: Option<int>) {
    predicate HasStore(s: int) { store.None? || store.value == s }
    predicate HasIngredient(i: int) { ingredient.None? || ingredient.value == i }
  }

  const EVERYWHERE := Scope(None, None)

  datatype StockReport = StockReport(store: int, ingredient: int, onHand: int, ledgerOnHand: int,
                                     reserved: int, linesReserved: int)
  {
    predicate Mismatch() { onHand - ledgerOnHand != 0 || reserved - linesReserved != 0 }
  }

  datatype TransferIssue = NoMovementsAtAll | MissingOut | MissingIn | DuplicatedLegs

  datatype TransferReport = TransferReport(id: nat, outCount: int, inCount: int, issue: TransferIssue)

  datatype CountIssue = MovedByAgreeingCount | MissingAdjustment | DuplicatedMovements | WrongMovement

  datatype CountReport = CountReport(id: nat, matching: int, total: int, issue: CountIssue)

  // ── One row of each report ─────────────────────────────────────────────────

  function StockReportOf(db: Db, r: StockRow): StockReport {
    StockReport(r.store, r.ingredient, r.onHand, Sum(db.movements, OnHandOf(r.store, r.ingredient)),
                r.reserved, Sum(db.lines, OutstandingOf(r.store, r.ingredient)))
  }

  predicate StockInScope(r: StockRow, scope: Scope) { scope.HasStore(r.store) && scope.HasIngredient(r.ingredient) }

  function OutCount(db: Db, id: nat): int
    requires id < |db.transfers|
  {
    Sum(db.movements, OutLegs(id, db.transfers[id]))
  }

  function InCount(db: Db, id: nat): int
    requires id < |db.transfers|
  {
    Sum(db.movements, InLegs(id, db.transfers[id]))
  }

  function IssueOfTransfer(outCount: int, inCount: int): TransferIssue {
    if outCount == 0 && inCount == 0 then NoMovementsAtAll
    else if outCount == 0 then MissingOut
    else if inCount == 0 then MissingIn
    else DuplicatedLegs
  }

  /** Either store sees the transfer: a one-sided shipment is both branches' problem. */
  predicate TransferInScope(t: Transfer, scope: Scope) {
    (scope.HasStore(t.source) || scope.HasStore(t.destination)) && scope.HasIngredient(t.ingredient)
  }

  function TransferReportOf(db: Db, id: nat): TransferReport
    requires id < |db.transfers|
  {
    TransferReport(id, OutCount(db, id), InCount(db, id), IssueOfTransfer(OutCount(db, id), InCount(db, id)))
  }

  function MatchingCount(db: Db, id: nat): int
    requires id < |db.counts|
  {
    Sum(db.movements, Corrections(id, db.counts[id]))
  }

  function IssueOfCount(delta: int, matching: int, total: int): CountIssue {
    if delta == 0 then MovedByAgreeingCount
    else if total == 0 then MissingAdjustment
    else if total > 1 then DuplicatedMovements
    else WrongMovement
  }

  predicate CountInScope(n: StockCount, scope: Scope) { scope.HasStore(n.store) && scope.HasIngredient(n.ingredient) }

  function CountReportOf(db: Db, id: nat): CountReport
    requires id < |db.counts|
  {
    var matching, total := MatchingCount(db, id), Sum(db.movements, Citing(id));
    CountReport(id, matching, total, IssueOfCount(db.counts[id].Delta(), matching, total))
  }

  // ── The three reports ──────────────────────────────────────────────────────

  function ScopedRow(scope: Scope): StockRow -> int { (r: StockRow) => if StockInScope(r, scope) then 1 else 0 }

  /** One row per summary in scope, healthy or not. */
  method Reconcile(db: Db, scope: Scope) returns (results: seq<StockReport>)
    ensures forall r :: r in results <==>
              exists k :: 0 <= k < |db.stock| && StockInScope(db.stock[k], scope) && r == StockReportOf(db, db.stock[k])
    ensures |results| == Sum(db.stock, ScopedRow(scope))
  {
    results := [];
    for n := 0 to |db.stock|
      invariant forall r :: r in results <==>
                  exists k :: 0 <= k < n && StockInScope(db.stock[k], scope) && r == StockReportOf(db, db.stock[k])
      invariant |results| == Sum(db.stock[..n], ScopedRow(scope))
    {
      SumStep(db.stock, n, ScopedRow(scope));
      if StockInScope(db.stock[n], scope) {
        results := results + [StockReportOf(db, db.stock[n])];
      }
    }
    assert db.stock[..|db.stock|] == db.stock;
  }

  /** Exactly the broken transfers in scope, in id order, each named once. */
  method ReconcileTransfers(db: Db, scope: Scope) returns (results: seq<TransferReport>)
    ensures forall r :: r in results <==>
              exists id :: 0 <= id < |db.transfers| && TransferInScope(db.transfers[id], scope)
                           && !TransferPaired(db, id) && r == TransferReportOf(db, id)
    ensures forall j, k :: 0 <= j < k < |results| ==> results[j].id < results[k].id
  {
    results := [];
    for n := 0 to |db.transfers|
      invariant forall r :: r in results <==>
                  exists id :: 0 <= id < n && TransferInScope(db.transfers[id], scope)
                               && !TransferPaired(db, id) && r == TransferReportOf(db, id)
      invariant forall j, k :: 0 <= j < k < |results| ==> results[j].id < results[k].id
      invariant forall j :: 0 <= j < |results| ==> results[j].id < n
    {
      var outCount, inCount := OutCount(db, n), InCount(db, n);
      if TransferInScope(db.transfers[n], scope) && !(outCount == 1 && inCount == 1) {
        results := results + [TransferReport(n, outCount, inCount, IssueOfTransfer(outCount, inCount))];
      }
    }
  }

  /** Exactly the broken counts in scope, in id order, each named once. */
  method ReconcileStockCounts(db: Db, scope: Scope) returns (results: seq<CountReport>)
    ensures forall r :: r in results <==>
              exists id :: 0 <= id < |db.counts| && CountInScope(db.counts[id], scope)
                           && !CountMatched(db, id) && r == CountReportOf(db, id)
    ensures forall j, k :: 0 <= j < k < |results| ==> results[j].id < results[k].id
  {
    results := [];
    for n := 0 to |db.counts|
      invariant forall r :: r in results <==>
                  exists id :: 0 <= id < n && CountInScope(db.counts[id], scope)
                               && !CountMatched(db, id) && r == CountReportOf(db, id)
      invariant forall j, k :: 0 <= j < k < |results| ==> results[j].id < results[k].id
      invariant forall j :: 0 <= j < |results| ==> results[j].id < n
    {
      if CountInScope(db.counts[n], scope) {
        var delta, matching, total := db.counts[n].Delta(), MatchingCount(db, n), Sum(db.movements, Citing(n));
        if delta == 0 && total == 0 { continue; }
        if delta != 0 && matching == 1 && total == 1 { continue; }
        results := results + [CountReport(n, matching, total, IssueOfCount(delta, matching, total))];
      }
    }
  }

  /** What an exit code of zero certifies. */
  ghost predicate CleanIn(db: Db, scope: Scope) {
    && (forall k :: 0 <= k < |db.stock| && StockInScope(db.stock[k], scope) ==>
        !StockReportOf(db, db.stock[k]).Mismatch())
    && (forall id :: 0 <= id < |db.transfers| && TransferInScope(db.transfers[id], scope) ==> TransferPaired(db, id))
    && (forall id :: 0 <= id < |db.counts| && CountInScope(db.counts[id], scope) ==> CountMatched(db, id))
  }

  /** The exit code: 1 as soon as one of the reports has something to say. */
  method Audit(db: Db, scope: Scope) returns (code: int)
    ensures code == 0 <==> CleanIn(db, scope)
    ensures code == 0 || code == 1
  {
    var rows := Reconcile(db, scope);
    var transfers := ReconcileTransfers(db, scope);
    var counts := ReconcileStockCounts(db, scope);
    ghost var broken := exists r :: r in rows && r.Mismatch();
    code := if (exists r :: r in rows && r.Mismatch()) || transfers != [] || counts != [] then 1 else 0;
    if code == 0 {
      forall k | 0 <= k < |db.stock| && StockInScope(db.stock[k], scope)
        ensures !StockReportOf(db, db.stock[k]).Mismatch()
      {
        assert StockReportOf(db, db.stock[k]) in rows;
      }
      forall id | 0 <= id < |db.transfers| && TransferInScope(db.transfers[id], scope) ensures TransferPaired(db, id) {
        assert TransferReportOf(db, id) !in transfers;
      }
      forall id | 0 <= id < |db.counts| && CountInScope(db.counts[id], scope) ensures CountMatched(db, id) {
        assert CountReportOf(db, id) !in counts;
      }
    } else if broken {
      var r :| r in rows && r.Mismatch();
    } else if transfers != [] {
      assert transfers[0] in transfers;
    } else {
      assert counts[0] in counts;
    }
  }

  /** Each shelf is reported with its own figures beside the ledger's and the lines'. */
  lemma ShelfFiguresAre(db: Db, r: StockRow)
    ensures StockReportOf(db, r) == StockReport(
              r.store, r.ingredient, r.onHand,
              Sum(db.movements, (m: Movement) =>
                if m.store == r.store && m.ingredient == r.ingredient then m.dOnHand else 0),
              r.reserved,
              Sum(db.lines, (l: Line) =>
                if l.store == r.store && l.ingredient == r.ingredient then l.reserved - l.consumed - l.released else 0))
  {
    SumPointwise(db.movements, OnHandOf(r.store, r.ingredient), db.movements, (m: Movement) =>
      if m.store == r.store && m.ingredient == r.ingredient then m.dOnHand else 0);
    SumPointwise(db.lines, OutstandingOf(r.store, r.ingredient), db.lines, (l: Line) =>
      if l.store == r.store && l.ingredient == r.ingredient then l.reserved - l.consumed - l.released else 0);
  }

  // ── What the reports mean ──────────────────────────────────────────────────

  /** The specification of the reachable states: after any run of commands, from
      any sound state and for any filter, the reconciler finds nothing. */
  lemma {:induction false} EveryReachableStateReconciles(c: Catalog, db: Db, commands: seq<Command>, scope: Scope)
    requires Sound(c, db) && Proper(c, db, commands)
    ensures CleanIn(Run(c, db, commands), scope)
  {
    EveryReachableStateIsSound(c, db, commands);
  }

  /** Nothing hides behind a filter: the whole chain is clean exactly when every
      branch's own report is. */
  lemma CleanBranchByBranch(c: Catalog, db: Db)
    requires RowsOk(c, db)
    ensures CleanIn(db, EVERYWHERE) <==> forall store :: CleanIn(db, Scope(Some(store), None))
  {
    if forall store :: CleanIn(db, Scope(Some(store), None)) {
      forall k | 0 <= k < |db.stock| ensures !StockReportOf(db, db.stock[k]).Mismatch() {
        assert CleanIn(db, Scope(Some(db.stock[k].store), None));
      }
      forall id | 0 <= id < |db.transfers| ensures TransferPaired(db, id) {
        assert CleanIn(db, Scope(Some(db.transfers[id].source), None));
      }
      forall id | 0 <= id < |db.counts| ensures CountMatched(db, id) {
        assert CleanIn(db, Scope(Some(db.counts[id].store), None));
      }
    }
  }

  /** A test that two coexisting rows cannot both pass is passed by one row. */
  lemma {:induction false} OnlyRow(ms: seq<Movement>, k: nat, f: Movement -> int)
    requires UniqueMovements(ms) && k < |ms| && f(ms[k]) == 1
    requires forall i :: 0 <= i < |ms| ==> f(ms[i]) == 0 || f(ms[i]) == 1
    requires forall i, j :: 0 <= i < |ms| && 0 <= j < |ms| && f(ms[i]) == 1 && f(ms[j]) == 1 ==>
             !MayCoexist(ms[i], ms[j])
    ensures Sum(ms, f) == 1
  {
    forall i | 0 <= i < |ms| && i != k ensures f(ms[i]) == 0 {
      assert MayCoexist(ms[i], ms[k]) || MayCoexist(ms[k], ms[i]);
    }
    SumSingle(ms, k, f);
  }

  lemma AtMostOneOut(db: Db, id: nat, t: Transfer)
    requires UniqueMovements(db.movements)
    ensures 0 <= Sum(db.movements, OutLegs(id, t)) <= 1
  {
    SumNonneg(db.movements, OutLegs(id, t));
    if Sum(db.movements, OutLegs(id, t)) > 0 {
      var k := PositiveRow(db.movements, OutLegs(id, t));
      OnlyRow(db.movements, k, OutLegs(id, t));
    }
  }

  lemma AtMostOneIn(db: Db, id: nat, t: Transfer)
    requires UniqueMovements(db.movements)
    ensures 0 <= Sum(db.movements, InLegs(id, t)) <= 1
  {
    SumNonneg(db.movements, InLegs(id, t));
    if Sum(db.movements, InLegs(id, t)) > 0 {
      var k := PositiveRow(db.movements, InLegs(id, t));
      OnlyRow(db.movements, k, InLegs(id, t));
    }
  }

  /** Under the schema a broken transfer has lost a leg or holds a wrong one; it
      is never a duplicate: the direction index keeps each side at most once. */
  lemma BrokenTransfersAreNeverDuplicates(c: Catalog, db: Db, id: nat)
    requires RowsOk(c, db) && id < |db.transfers| && !TransferPaired(db, id)
    ensures TransferReportOf(db, id).issue != DuplicatedLegs
  {
    var t := db.transfers[id];
    AtMostOneOut(db, id, t);
    AtMostOneIn(db, id, t);
  }

  /** Likewise a broken count never has a duplicated correction. */
  lemma BrokenCountsAreNeverDuplicates(c: Catalog, db: Db, id: nat)
    requires RowsOk(c, db) && id < |db.counts| && !CountMatched(db, id)
    ensures CountReportOf(db, id).issue != DuplicatedMovements
    ensures CountReportOf(db, id).total <= 1
  {
    SumNonneg(db.movements, Citing(id));
    if Sum(db.movements, Citing(id)) > 0 {
      var k := PositiveRow(db.movements, Citing(id));
      OnlyRow(db.movements, k, Citing(id));
    }
  }

  /** A movement that is the transfer's leg in the given direction, in every column. */
  ghost predicate HasLeg(db: Db, id: nat, kind: Kind, store: int, onHand: int)
    requires id < |db.transfers|
  {
    exists k :: 0 <= k < |db.movements|
      && db.movements[k].transfer == Some(id) && db.movements[k].kind == kind && db.movements[k].store == store
      && db.movements[k].ingredient == db.transfers[id].ingredient
      && db.movements[k].quantity == db.transfers[id].quantity
      && db.movements[k].dOnHand == onHand && db.movements[k].dReserved == 0
  }

  ghost predicate LeftSource(db: Db, id: nat)
    requires id < |db.transfers|
  {
    HasLeg(db, id, TransferOut, db.transfers[id].source, -db.transfers[id].quantity)
  }

  ghost predicate ReachedDestination(db: Db, id: nat)
    requires id < |db.transfers|
  {
    HasLeg(db, id, TransferIn, db.transfers[id].destination, db.transfers[id].quantity)
  }

  lemma LegsAreCounted(db: Db, id: nat)
    requires UniqueMovements(db.movements) && id < |db.transfers|
    ensures OutCount(db, id) == if LeftSource(db, id) then 1 else 0
    ensures InCount(db, id) == if ReachedDestination(db, id) then 1 else 0
  {
    var t := db.transfers[id];
    AtMostOneOut(db, id, t);
    AtMostOneIn(db, id, t);
    SumNonneg(db.movements, OutLegs(id, t));
    SumNonneg(db.movements, InLegs(id, t));
    if OutCount(db, id) > 0 { var k := PositiveRow(db.movements, OutLegs(id, t)); }
    if InCount(db, id) > 0 { var k := PositiveRow(db.movements, InLegs(id, t)); }
    if LeftSource(db, id) {
      var k :| 0 <= k < |db.movements| && IsOutLeg(db.movements[k], id, t);
      assert OutLegs(id, t)(db.movements[k]) == 1;
    }
    if ReachedDestination(db, id) {
      var k :| 0 <= k < |db.movements| && IsInLeg(db.movements[k], id, t);
      assert InLegs(id, t)(db.movements[k]) == 1;
    }
  }

  /** The diagnosis names the side that is missing. */
  lemma TheMissingLegIsNamed(c: Catalog, db: Db, id: nat)
    requires RowsOk(c, db) && id < |db.transfers|
    ensures TransferPaired(db, id) <==> LeftSource(db, id) && ReachedDestination(db, id)
    ensures TransferReportOf(db, id).id == id
    ensures TransferReportOf(db, id).outCount == if LeftSource(db, id) then 1 else 0
    ensures TransferReportOf(db, id).inCount == if ReachedDestination(db, id) then 1 else 0
    ensures !TransferPaired(db, id) ==>
              TransferReportOf(db, id).issue ==
                if LeftSource(db, id) then MissingIn
                else if ReachedDestination(db, id) then MissingOut else NoMovementsAtAll
  {
    LegsAreCounted(db, id);
  }

  lemma CitationsAreCounted(db: Db, id: nat)
    requires UniqueMovements(db.movements)
    ensures Sum(db.movements, Citing(id)) ==
              if exists k :: 0 <= k < |db.movements| && db.movements[k].stockCount == Some(id) then 1 else 0
  {
    SumNonneg(db.movements, Citing(id));
    if k :| 0 <= k < |db.movements| && db.movements[k].stockCount == Some(id) {
      OnlyRow(db.movements, k, Citing(id));
    } else {
      SumZero(db.movements, Citing(id));
    }
  }

  /** The movement a difference demands, in every column. */
  ghost predicate Corrected(db: Db, id: nat)
    requires id < |db.counts|
  {
    var n := db.counts[id];
    var difference := n.counted - n.systemOnHand;
    exists k :: 0 <= k < |db.movements|
      && db.movements[k].stockCount == Some(id) && db.movements[k].kind == StockCountAdjustment
      && db.movements[k].store == n.store && db.movements[k].ingredient == n.ingredient
      && db.movements[k].quantity == (if difference < 0 then -difference else difference)
      && db.movements[k].dOnHand == difference && db.movements[k].dReserved == 0
  }

  lemma CorrectionsAreCounted(db: Db, id: nat)
    requires UniqueMovements(db.movements) && id < |db.counts|
    ensures MatchingCount(db, id) == if Corrected(db, id) then 1 else 0
  {
    var n := db.counts[id];
    SumNonneg(db.movements, Corrections(id, n));
    if MatchingCount(db, id) > 0 {
      var k := PositiveRow(db.movements, Corrections(id, n));
      OnlyRow(db.movements, k, Corrections(id, n));
    }
    if Corrected(db, id) {
      var k :| 0 <= k < |db.movements| && IsCorrection(db.movements[k], id, n);
      assert Corrections(id, n)(db.movements[k]) == 1;
    }
  }

  /** A broken count agreed and still moved stock, or differed and moved none, or was
      corrected by the wrong row. */
  lemma TheCountsFaultIsNamed(c: Catalog, db: Db, id: nat)
    requires RowsOk(c, db) && id < |db.counts| && !CountMatched(db, id)
    ensures CountReportOf(db, id).issue ==
              if db.counts[id].counted == db.counts[id].systemOnHand then MovedByAgreeingCount
              else if forall k :: 0 <= k < |db.movements| ==> db.movements[k].stockCount != Some(id)
                   then MissingAdjustment else WrongMovement
    ensures CountReportOf(db, id).id == id && CountReportOf(db, id).matching == if Corrected(db, id) then 1 else 0
    ensures CountReportOf(db, id).total ==
              if exists k :: 0 <= k < |db.movements| && db.movements[k].stockCount == Some(id) then 1 else 0
  {
    CorrectionsAreCounted(db, id);
    CitationsAreCounted(db, id);
  }

  /** Why the store is part of the grain: with one branch short of exactly what
      another is over, the chain's totals agree and both branches are reported. */
  lemma OppositeFaultsDoNotCancel(quantity: int)
    requires quantity > 0
    ensures var db := Db([], [], [StockRow(1, 7, 0, 0), StockRow(2, 7, 2 * quantity, 0)], [],
                         [ExampleMovement(1, PurchaseReceipt, quantity, quantity, None),
                          ExampleMovement(2, PurchaseReceipt, quantity, quantity, None)], [], []);
            && Sum(db.stock, ChainOnHand(7)) == Sum(db.movements, ChainDelta(7))
            && StockReportOf(db, db.stock[0]).Mismatch() && StockReportOf(db, db.stock[1]).Mismatch()
  {
    var s := [StockRow(1, 7, 0, 0), StockRow(2, 7, 2 * quantity, 0)];
    var ms := [ExampleMovement(1, PurchaseReceipt, quantity, quantity, None),
               ExampleMovement(2, PurchaseReceipt, quantity, quantity, None)];
    SumPair(s, 0, 1, ChainOnHand(7));
    SumPair(ms, 0, 1, ChainDelta(7));
    SumSingle(ms, 0, OnHandOf(1, 7));
    SumSingle(ms, 1, OnHandOf(2, 7));
  }
}
