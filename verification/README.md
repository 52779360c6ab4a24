# SweetOps: books that agree

SweetOps runs the back office of a chain of dessert shops. Its correctness lives in
append-only ledgers, in summaries kept beside them, in deferred triggers that look only at
what a transaction touched, and in read-only reconcilers that derive one record again from
another. This project models those parts and proves that the independent records of one
fact agree in every reachable state, and states exactly where they need not.

Quantities are integers in thousandths, money in kuruş, timestamps in one integer unit; a
row's id is its position in its table unless a file says otherwise. A transaction is one
atomic step, and a refused one changes nothing. Clocks, random draws, password comparison
and the catalogue (stores, staff, tables, ingredients) are parameters.

| files | content |
|---|---|
| `Tables`, `Text` | totals over rows (SQL's SUM), lookups, trimming |
| `Inventory`, `InventoryConservation` | the inventory schema as a commit predicate; pairing and conservation |
| `InventoryCommands`, `InventorySafety`, `OrderSafety`, `InventoryRuns` | the inventory commands, what each keeps, whole runs |
| `InventoryEffects` | what each accepted inventory command writes, when it is accepted, why it is refused |
| `InventoryService`, `InventoryReconciler`, `DemoSeed` | the same commands, the reconciler and the demo seed as imperative code |
| `LegacyMigration`, `StoreMigration`, `MigratedInventory` | the two data migrations, their composition, and runs that start from a migrated database |
| `Payments`, `PaymentCommands`, `PaymentSafety`, `IssueSafety`, `PaymentRuns` | payment ledger, refunds and order issues |
| `PaymentEffects` | the same for the till and the order issues |
| `PaymentService`, `PaymentReconciler` | the till's loops and the payment and issue reconcilers |
| `ShopFloor` | till and shelves together: placing and cancelling one order in both ledgers |
| `CashierShifts`, `ShiftSafety` | shift windows and frozen snapshots |
| `KitchenSockets`, `StaffAuth`, `AlembicHeads`, `CashierQueries` | WebSocket registry, login and sessions, migration heads, cashier screens |

## Where the code and its documentation disagree

- **Downgrade of c3b7e01f9a24.** Its comment says reservation rows are dropped. The UPDATE
  before the DELETE renames them, so the DELETE finds nothing and they return as manual
  adjustments of zero (`LegacyMigration.ReservationsSurviveDowngrade`); the next upgrade
  deletes them. The narrowing to two decimals can break the sum of deltas; the exact
  condition is `LegacyMigration.DowngradeBalancesExactlyWhen`.
- **Transfers.** The pairing triggers fire on INSERT only. An UPDATE of a transfer's quantity
  commits and leaves it unpaired, and no other edit does
  (`InventoryConservation.EditedTransferStaysPaired`, `AnEditCanBreakATransfer`).
- **Order issues.** The CHECK on `refund_id` evaluates to NULL for an open issue and so lets
  one carry any refund of its own store and order
  (`PaymentReconciler.OpenIssuesMayCarryARefund`); the reconciler reports it
  (`AnAcceptedComplaintIsReported`).
- **Upgrade of c3b7e01f9a24.** Its comment calls `note` free text nobody wrote. The column was
  unbounded and becomes VARCHAR(500), so one longer note aborts the upgrade unless the excess
  is spaces (`LegacyMigration.Database.Upgrade`).
- **Demo seed.** A comment in `_log_stock_status` (scripts/demo_seed.py:446-449) says a demo
  database is not reconciled. The code derives each opening balance from what was consumed,
  and the reconciler finds nothing (`DemoSeed.Seed`).
- **Closed shifts.** The documentation says nothing after a close can change what a shift
  reports. All its timestamps are transaction starts, so a payment that began before the close
  and committed after it does (`ShiftSafety.InFlightPaymentsBreakSnapshots`). The snapshot is
  untrue exactly when such a row exists (`ReportedExactlyWhenLate`), and never when steps are
  atomic and time does not go back (`EveryReachableDeskIsSound`).

## Model

| member | source | states |
|---|---|---|
| Text.StripCutsOnlyTheEnds | apps/api/app/services/inventory_service.py:646-656 | trimming cuts the spaces off both ends and nothing else |
| Inventory.IncrementalChecksAreGlobal | apps/api/alembic/versions/f4b8c1d90e26_inventory_transfer_workflow.py:438-524 | triggers that inspect only the transfers and counts of one transaction keep every transfer and every count matched |
| Inventory.EveryCommittedStateIsPaired | apps/api/alembic/versions/a3d7e9c14b62_physical_stock_count_workflow.py:470-579 | in any run of accepted transactions each transfer has its two legs and each count exactly the movement its delta demands |
| InventoryConservation.LegsOf | apps/api/alembic/versions/f4b8c1d90e26_inventory_transfer_workflow.py:375-414 | a paired transfer is cited by exactly two movements, one opposite and matching leg per store |
| InventoryConservation.EditedTransferStaysPaired | apps/api/alembic/versions/f4b8c1d90e26_inventory_transfer_workflow.py:508-524 | a committed UPDATE of a transfer keeps it paired if and only if the quantity is unchanged |
| InventoryConservation.AnEditCanBreakATransfer | apps/api/alembic/versions/f4b8c1d90e26_inventory_transfer_workflow.py:508-524 | a concrete edit every constraint accepts that leaves a transfer unpaired |
| InventoryConservation.LedgerCoversTheShelves | apps/api/app/models/ingredient_stock.py:528-574 | the composite key to the shelf makes the shelves' total on-hand the ledger's total delta |
| InventoryConservation.ShipmentsCancelOut | apps/api/alembic/versions/f4b8c1d90e26_inventory_transfer_workflow.py:194-201 | all transfer movements of an ingredient sum to zero over the chain |
| InventoryConservation.TransfersConserveStock | apps/api/app/services/inventory_service.py:1143-1147 | the chain's on-hand equals the deltas of the non-transfer movements alone |
| InventorySafety.ManualKeepsSound | apps/api/app/services/inventory_service.py:672-770 | receipt, adjustment and waste commit only what every constraint accepts and keep all three records of stock equal |
| InventorySafety.ShipKeepsSound | apps/api/app/services/inventory_service.py:1086-1320 | a transfer, materialised destination included, is accepted by constraints and triggers and keeps the books |
| InventorySafety.ShelfKeepsBooks | apps/api/app/services/inventory_service.py:1050-1083 | a shelf materialised at zero changes no balance, because nothing could have cited it |
| InventorySafety.CountKeepsSound | apps/api/app/services/inventory_service.py:1435-1626 | a physical count is accepted and keeps the books |
| OrderSafety.AggregateKeepsTotals | apps/api/app/services/order_service.py:221-262 | merging requirements per item and ingredient keeps every ingredient's total |
| OrderSafety.AggregateIsDistinct | apps/api/app/services/order_service.py:221-262 | the merged requirements have one entry per item and ingredient and invent none |
| OrderSafety.AcceptedOrdersAreAvailable | apps/api/app/services/inventory_service.py:278-302 | an accepted order's lines never claim more than any shelf of its store has available |
| OrderSafety.PlaceKeepsSound | apps/api/app/services/inventory_service.py:305-388 | reserving for an order satisfies every constraint and keeps on-hand, reserved and the lines in agreement |
| OrderSafety.DueIsReserved | apps/api/app/models/ingredient_stock.py:375-378 | what one order is still owed on a shelf never exceeds what the shelf has reserved |
| OrderSafety.PromiseIsKept | apps/api/app/services/inventory_service.py:391-561 | in any sound state consuming or releasing all of an order's outstanding quantity succeeds and satisfies every CHECK |
| OrderSafety.SettlingTwiceChangesNothing | apps/api/app/services/inventory_service.py:402-405 | consuming or releasing an order again after either one changes no row |
| InventoryEffects.ReceivingStocksTheShelf | apps/api/app/services/inventory_service.py:775-825 | an accepted receipt adds its quantity to its own store's shelf and writes the one row that says so; nothing else changes |
| InventoryEffects.AdjustingMovesTheDifference | apps/api/app/services/inventory_service.py:828-886 | an accepted adjustment moves its shelf by the signed difference and writes one row of its size |
| InventoryEffects.WasteEmptiesTheShelf | apps/api/app/services/inventory_service.py:889-940 | an accepted write-off takes its quantity off its shelf and writes one Waste row |
| InventoryEffects.ManualCommandsAreAcceptedExactlyWhen | apps/api/app/services/inventory_service.py:672-940 | a manual command is accepted if and only if its fields are filled in, its key is new, the ingredient is active and the promises made from the shelf stay covered |
| InventoryEffects.ReceiptRefusalsTellTheTruth | apps/api/app/services/inventory_service.py:672-825 | every error of a receipt names a cause that is there; a replay answers with the row of that key and body |
| InventoryEffects.AdjustmentRefusalsTellTheTruth | apps/api/app/services/inventory_service.py:672-886 | the same for an adjustment |
| InventoryEffects.WasteRefusalsTellTheTruth | apps/api/app/services/inventory_service.py:889-936 | the same for a write-off |
| InventoryEffects.ShippingMovesTheQuantity | apps/api/app/services/inventory_service.py:1086-1320 | an accepted transfer takes the quantity off the source shelf, puts all of it on the destination's, new if need be, and writes the transfer and both legs |
| InventoryEffects.TransfersAreAcceptedExactlyWhen | apps/api/app/services/inventory_service.py:1130-1215 | a transfer is accepted if and only if it is filled in, its key is new, both ends are known and the source has that much unpromised |
| InventoryEffects.TransferRefusalsTellTheTruth | apps/api/app/services/inventory_service.py:1130-1215 | every error of a transfer names a cause that is there |
| InventoryEffects.CountingSetsTheShelf | apps/api/app/services/inventory_service.py:1435-1626 | an accepted count keeps the two numbers it compared, sets its shelf to what was counted and writes their difference, if any |
| InventoryEffects.CountsAreAcceptedExactlyWhen | apps/api/app/services/inventory_service.py:1435-1560 | a count is accepted if and only if it is filled in, its key is new and it does not fall below what is reserved |
| InventoryEffects.CountRefusalsTellTheTruth | apps/api/app/services/inventory_service.py:1435-1560 | every error of a count names a cause that is there |
| InventoryEffects.PlacingPromisesWhatWasAsked | apps/api/app/services/order_service.py:140-281 | an accepted order gets one untouched line per item and ingredient of exactly what it asks, one ledger row per line, and its store's shelves promise as much |
| InventoryEffects.OrdersAreAcceptedExactlyWhen | apps/api/app/services/inventory_service.py:278-302 | an order is accepted if and only if its ingredients are active and its own store has unpromised stock for all it asks of each |
| InventoryEffects.OrderRefusalsTellTheTruth | apps/api/app/services/inventory_service.py:278-302 | a refused order is empty, or asks for something inactive, or for more than its store has unpromised |
| InventoryEffects.SettlingIsAllOrNothing | apps/api/app/services/inventory_service.py:391-561 | cooking consumes and cancelling releases everything the order is still promised, line, shelf and ledger row alike, or, when a shelf is missing, nothing |
| InventoryEffects.SettlingLineByLine | apps/api/app/services/inventory_service.py:391-561 | cooking consumes all of a line that was not released, cancelling releases all that was not consumed; the lines of other orders are left alone |
| InventoryEffects.RefusalsWriteNothing | apps/api/app/services/inventory_service.py:631-643 | a command that was refused or replayed changes no table |
| InventoryRuns.ExecKeepsSound | apps/api/app/services/inventory_service.py:305-1626 | every inventory command keeps the whole invariant and commits |
| InventoryRuns.EveryReachableStateIsSound | apps/api/app/models/ingredient_stock.py:396-407 | after any run each shelf's on-hand and reserved equal the ledger and the order lines |
| InventoryRuns.FromEmptyShelves | apps/api/app/models/ingredient_stock.py:238-245 | every state reachable from empty shelves satisfies the whole invariant |
| InventoryRuns.PromiseOutlivesAnyRun | apps/api/app/models/ingredient_stock.py:238-245 | whatever waste, counts, transfers and orders run in between, an order's cooking consumes exactly what its lines were owed |
| InventoryRuns.RunExtends | apps/api/alembic/versions/c3b7e01f9a24_inventory_lifecycle.py:434-477 | movements, transfers and counts only grow and no row changes its keys |
| InventoryRuns.RunConservesStock | apps/api/app/services/inventory_service.py:1108-1120 | over any run the chain's stock changes by the new non-transfer movements and nothing else |
| InventoryRuns.RetriesReplay | apps/api/app/services/inventory_service.py:631-643 | re-sending a successful keyed command after any run answers with its row and writes nothing; its key with another body is refused |
| InventoryRuns.CountSetsTheShelf | apps/api/app/services/inventory_service.py:1463-1560 | an accepted count makes its shelf hold the counted quantity, moves no other, and writes one movement exactly when there was a difference |
| InventoryService.Service.ApplyManualMovement | apps/api/app/services/inventory_service.py:672-770 | the in-place update equals the manual command's specification; success moves one shelf by the delta and writes the one row that says so, refusal changes nothing |
| InventoryService.Service.TransferStock | apps/api/app/services/inventory_service.py:1086-1320 | the in-place transfer writes both shelves, the transfer and both legs as asked, restores the shelf table on refusal and never changes the total of any ingredient |
| InventoryService.Service.RecordStockCount | apps/api/app/services/inventory_service.py:1435-1626 | assigning the counted quantity equals adding the ledger's delta; success leaves the shelf at the count, refusal changes nothing |
| InventoryService.Service.RecordPurchaseReceipt | apps/api/app/services/inventory_service.py:775-825 | the in-place receipt: its quantity on the shelf and in the ledger, or nothing |
| InventoryService.Service.RecordManualAdjustment | apps/api/app/services/inventory_service.py:828-886 | the in-place adjustment: the signed difference, or nothing |
| InventoryService.Service.RecordWaste | apps/api/app/services/inventory_service.py:889-940 | the in-place write-off: the quantity off the shelf, or nothing |
| InventoryService.Service.RequiredStock | apps/api/app/services/order_service.py:165-178 | the dictionary holds exactly the ingredients asked for, each with its total |
| InventoryService.Service.CheckAvailability | apps/api/app/services/inventory_service.py:278-302 | exactly the ingredients whose shelf of this store is missing or short are reported |
| InventoryService.Service.CreateOrder | apps/api/app/services/order_service.py:140-281 | checking, inserting and reserving in loops promises an accepted order exactly what it asks and writes nothing for a refused one |
| InventoryService.Service.ReserveForOrder | apps/api/app/services/inventory_service.py:305-388 | the loops write one line and one movement per positive requirement and raise each shelf by its total |
| InventoryService.Service.SettleOrder | apps/api/app/services/inventory_service.py:391-561 | settling line by line equals the set-wise specification; a missing shelf restores every table |
| InventoryService.Service.ConsumeOrder | apps/api/app/services/inventory_service.py:391-477 | after cooking each open line is consumed in full, its shelf holds and promises that much less, and one Consumption row tells it |
| InventoryService.Service.ReleaseOrderReservation | apps/api/app/services/inventory_service.py:480-561 | after a release each open line is released in full, its shelf promises that much less and holds as much as before, and one row tells it |
| InventoryReconciler.Reconcile | scripts/reconcile_inventory.py:126-213 | one report per shelf in scope, with stored and derived quantities |
| InventoryReconciler.ReconcileTransfers | scripts/reconcile_inventory.py:216-317 | exactly the transfers in scope that violate the pairing trigger's predicate, once each, in id order |
| InventoryReconciler.ReconcileStockCounts | scripts/reconcile_inventory.py:330-441 | exactly the counts in scope that violate the count trigger's predicate, once each, in id order |
| InventoryReconciler.Audit | scripts/reconcile_inventory.py:604-680 | the exit code is zero if and only if no shelf drifts and every transfer and count in scope is matched |
| InventoryReconciler.EveryReachableStateReconciles | scripts/reconcile_inventory.py:126-441 | the reconciler finds nothing after any run, for any filter |
| InventoryReconciler.CleanBranchByBranch | scripts/reconcile_inventory.py:216-245 | the whole chain is clean if and only if every branch's own report is |
| InventoryReconciler.BrokenTransfersAreNeverDuplicates | scripts/reconcile_inventory.py:320-327 | under the direction index a broken transfer is never a duplicated one |
| InventoryReconciler.BrokenCountsAreNeverDuplicates | scripts/reconcile_inventory.py:444-460 | under the count index a broken count never has two movements |
| InventoryReconciler.ShelfFiguresAre | scripts/reconcile_inventory.py:126-213 | a shelf is reported with its own two figures beside the sums of its ledger rows and of its lines |
| InventoryReconciler.TheMissingLegIsNamed | scripts/reconcile_inventory.py:320-327 | a transfer is paired if and only if it left its source and reached its destination, and the diagnosis names the side that is missing |
| InventoryReconciler.TheCountsFaultIsNamed | scripts/reconcile_inventory.py:444-460 | a broken count agreed and still moved stock, or differed and moved none, or was corrected by a wrong row, and is reported as that |
| InventoryReconciler.OppositeFaultsDoNotCancel | scripts/reconcile_inventory.py:79-86 | two opposite faults in two branches agree in the pooled total and are both reported |
| DemoSeed.Seed | scripts/demo_seed.py:150-212 | any draws onto zeroed shelves give a database all constraints accept and the reconciler finds clean, with a line for every drawn portion and each shelf at its target |
| DemoSeed.GenerateOrders | scripts/demo_seed.py:285-365 | the lines are exactly one per drawn ingredient with a portion, each delivered, and the deductions are what they consumed per store and ingredient |
| DemoSeed.LedgerAddsUp | scripts/demo_seed.py:368-442 | the seeded ledger of a shelf sums to its target and to no reservation |
| DemoSeed.OnlyEmptyDrawsAreSkipped | scripts/demo_seed.py:285-365 | every drawn order with an ingredient is kept, once for each time it was drawn |
| DemoSeed.LedgerTellsTheOrders | scripts/demo_seed.py:368-442 | on every shelf of the menu the ledger reserved and consumed what the orders' lines consumed, and opened with that plus what is left |
| DemoSeed.HeavyUseEndsCritical | scripts/demo_seed.py:90-147 | an ingredient ends below its reorder level if and only if it is a heavy-use one |
| LegacyMigration.UpgradeIsCorrect | apps/api/alembic/versions/c3b7e01f9a24_inventory_lifecycle.py:243-429 | from any legacy database without negative stock the backfill satisfies every constraint installed after it and the ledger sums to each shelf |
| LegacyMigration.BackfilledLines | apps/api/alembic/versions/c3b7e01f9a24_inventory_lifecycle.py:277-303 | the backfilled lines are unique per item and ingredient, satisfy the line checks and leave nothing outstanding |
| LegacyMigration.LinesConsumeWhatWasAsked | apps/api/alembic/versions/c3b7e01f9a24_inventory_lifecycle.py:282-302 | the lines' consumed total is that of the joined persisted requirements |
| LegacyMigration.OpeningsFillTheGap | apps/api/alembic/versions/c3b7e01f9a24_inventory_lifecycle.py:316-345 | the opening rows add to each shelf's ledger exactly what it was missing |
| LegacyMigration.RewritingKeepsTheTotals | apps/api/alembic/versions/c3b7e01f9a24_inventory_lifecycle.py:243-275 | the rewrite drops the rows of zero and no other, and each ingredient's ledger still adds up to its signed deltas |
| LegacyMigration.EveryRowIsRewritten | apps/api/alembic/versions/c3b7e01f9a24_inventory_lifecycle.py:243-275 | every rewritten row is a legacy row under its new type, with the size and the sign it moved, its note cut to 500 and its order if that still exists |
| LegacyMigration.LinesTellWhatWasUsed | apps/api/alembic/versions/c3b7e01f9a24_inventory_lifecycle.py:282-302 | every backfilled line reserved and consumed exactly what the persisted requirements of its item and ingredient used, and returned it if its order was cancelled |
| LegacyMigration.EveryUseHasALine | apps/api/alembic/versions/c3b7e01f9a24_inventory_lifecycle.py:282-302 | whatever was used of an ingredient for an item has a line |
| LegacyMigration.OneOpeningPerGap | apps/api/alembic/versions/c3b7e01f9a24_inventory_lifecycle.py:316-345 | a shelf gets an opening row if and only if it and its ledger disagree, and that row says which way and by how much |
| LegacyMigration.EveryRowIsReverted | apps/api/alembic/versions/c3b7e01f9a24_inventory_lifecycle.py:505-528 | the downgrade gives every row its old name, its on-hand delta rounded to two decimals and its order as a reference |
| LegacyMigration.NothingIsDeleted | apps/api/alembic/versions/c3b7e01f9a24_inventory_lifecycle.py:513-535 | the downgrade's DELETE removes no row |
| LegacyMigration.ReservationsSurviveDowngrade | apps/api/alembic/versions/c3b7e01f9a24_inventory_lifecycle.py:519-535 | each reservation row returns as a manual adjustment of zero |
| LegacyMigration.ReservationsDoNotReturn | apps/api/alembic/versions/c3b7e01f9a24_inventory_lifecycle.py:243-243 | a later upgrade deletes the zero rows the downgrade kept |
| LegacyMigration.DowngradeBalancesExactlyWhen | apps/api/alembic/versions/c3b7e01f9a24_inventory_lifecycle.py:505-528 | the sum of signed deltas equals the stock after the downgrade if and only if the rows' rounding losses add up to between -5 and 4 thousandths |
| LegacyMigration.DowngradeCanLoseStock | apps/api/alembic/versions/c3b7e01f9a24_inventory_lifecycle.py:507-508 | three receipts of 0.004 whose deltas vanish while the shelf keeps 0.01 |
| LegacyMigration.DownUndoesUp | apps/api/alembic/versions/c3b7e01f9a24_inventory_lifecycle.py:480-579 | upgrade then downgrade returns every shelf and moving row, up to unknown types, dead references and cut notes, plus openings that make deltas sum to stock |
| LegacyMigration.Database.Upgrade | apps/api/alembic/versions/c3b7e01f9a24_inventory_lifecycle.py:132-429 | the statements in order succeed if and only if no stock is negative and every note fits VARCHAR(500), and otherwise change nothing |
| LegacyMigration.Database.Downgrade | apps/api/alembic/versions/c3b7e01f9a24_inventory_lifecycle.py:505-579 | the statements in order revert every row, empty the lines and round every shelf |
| StoreMigration.ResolvingIsNoGuess | apps/api/alembic/versions/e2c9a4b16d38_store_scoped_inventory.py:121-189 | when a store is resolved, every order and every member of staff with a store belongs to it |
| StoreMigration.ResolvesExactlyWhen | apps/api/alembic/versions/e2c9a4b16d38_store_scoped_inventory.py:121-189 | it names a store if and only if something is to be placed and that store alone was ever busy, or none was and it is the only one; nothing to place resolves to none |
| StoreMigration.ScopingSucceedsExactlyWhen | apps/api/alembic/versions/e2c9a4b16d38_store_scoped_inventory.py:192-366 | unless it refuses to guess, the migration succeeds if and only if the cited orders have stores and the rows' links agree with them |
| StoreMigration.ScopedBooks | apps/api/alembic/versions/e2c9a4b16d38_store_scoped_inventory.py:207-274 | every pre-existing shelf has zero drift; a materialised one drifts by exactly minus its ledger sum |
| StoreMigration.BothMigrationsReconcile | apps/api/alembic/versions/e2c9a4b16d38_store_scoped_inventory.py:207-277 | from any legacy database without negative stock both migrations leave every earlier shelf unchanged and without drift |
| StoreMigration.UnscopeUndoesScope | apps/api/alembic/versions/e2c9a4b16d38_store_scoped_inventory.py:397-468 | with one owning store the downgrade is not refused and returns everything, plus empty shelves |
| MigratedInventory.MigratedIsSoundExactlyWhen | apps/api/alembic/versions/e2c9a4b16d38_store_scoped_inventory.py:207-277 | a database both revisions migrated, read as the running system's tables, satisfies its whole invariant if and only if every ledger that had no shelf sums to zero |
| MigratedInventory.MigratedDatabasesRunSoundly | scripts/reconcile_inventory.py:126-213 | from such a database every run of inventory commands keeps the invariant |
| MigratedInventory.TheViewKeepsTheRules | apps/api/alembic/versions/c3b7e01f9a24_inventory_lifecycle.py:383-429 | a migrated row obeys the old delta CHECK if and only if it obeys the running one, and needs an actor or a reason in the same cases |
| MigratedInventory.NumberingExists | apps/api/app/models/ingredient_stock.py:303-323 | every migrated database can be read that way: its orders and items can be put in positions |
| StoreMigration.Database.Upgrade | apps/api/alembic/versions/e2c9a4b16d38_store_scoped_inventory.py:192-366 | the statements migrate exactly under those conditions and otherwise roll back |
| StoreMigration.Database.Downgrade | apps/api/alembic/versions/e2c9a4b16d38_store_scoped_inventory.py:397-416 | it refuses if and only if two stores hold stock |
| Payments.TotalsAreGlobal | apps/api/alembic/versions/b8c4d1e6f207_payment_settlement.py:324-381 | the deferred trigger, looking only at touched settlements, keeps every settlement equal to its allocations |
| Payments.CommittedSettlementsAreClosed | apps/api/alembic/versions/b8c4d1e6f207_payment_settlement.py:324-422 | no later transaction can add an allocation to a committed settlement |
| Payments.EveryCommittedTotalMatches | apps/api/alembic/versions/b8c4d1e6f207_payment_settlement.py:324-422 | the same over any run of accepted transactions |
| Payments.GrossIsAllocated | apps/api/alembic/versions/b8c4d1e6f207_payment_settlement.py:223-381 | a store's settlement gross equals the allocations of its settlements |
| Payments.SummaryAgreesWithOrders | apps/api/app/services/payment_analytics_service.py:30-70 | settlements, allocations and order summaries report the same money, and net is the orders' paid minus refunded |
| Payments.OutstandingIsOwedExactlyWhen | apps/api/app/services/payment_analytics_service.py:30-70 | outstanding is what the live orders owe if and only if no cancelled order of the store holds money |
| PaymentSafety.RefundableAddsUp | apps/api/app/services/payment_service.py:704-713 | the refundable balances of an order's allocations add up to its paid less its refunded ledger |
| PaymentSafety.OrderRefundableIsExact | apps/api/app/services/payment_service.py:704-713 | order_refundable is exactly what the order's allocations can still give back |
| PaymentSafety.RefundsWithinPaid | scripts/reconcile_order_issues.py:150-182 | if no allocation is over-refunded, no order is refunded more than it was paid |
| PaymentSafety.PostedSound | apps/api/app/services/payment_service.py:486-524 | posting any admissible shares is accepted by checks and triggers and keeps every summary |
| PaymentSafety.FullSharesTotals | apps/api/app/services/payment_service.py:461-478 | every selected order with a balance is collected in full, once |
| PaymentSafety.CollectKeeps | apps/api/app/services/payment_service.py:409-555 | a collection, whole table or part of an order, keeps the payment books |
| PaymentSafety.RefundKeeps | apps/api/app/services/payment_service.py:567-686 | a refund keeps the payment books and no allocation gives back more than it took |
| PaymentSafety.CancelKeeps | apps/api/app/services/kitchen_service.py:595-615 | a kitchen cancellation keeps the books: a cancelled order holds no money |
| IssueSafety.SplitTakesWhatItCan | apps/api/app/services/payment_service.py:760-804 | the pieces add up to the whole amount, or to everything refundable |
| IssueSafety.SplitInClosedForm | apps/api/app/services/payment_service.py:760-804 | each allocation gives the remainder after the earlier ones, clamped to its own balance |
| IssueSafety.SplitNeverFallsShort | apps/api/app/services/payment_service.py:799-804 | an amount up to order_refundable is always split completely |
| IssueSafety.ResolveKeeps | apps/api/app/services/order_issue_service.py:300-455 | resolving an issue in any way keeps every allocation un-over-refunded, every summary and every issue's agreement with the refund ledger |
| IssueSafety.OpenKeeps | apps/api/app/services/order_issue_service.py:190-287 | recording an issue moves no money and keeps the books |
| PaymentEffects.StatusesTellInEveryRun | apps/api/app/services/payment_service.py:131-151 | after any run both statuses of every order say what its paid and refunded amounts say |
| PaymentEffects.PayingCollectsWhatWasAsked | apps/api/app/services/payment_service.py:333-393 | a payment collects the part that was tendered, or the whole balance, in one settlement of that tender allocated to that order, and never more than it owes |
| PaymentEffects.PaymentsAreAcceptedExactlyWhen | apps/api/app/services/payment_service.py:333-555 | a payment is accepted if and only if its key is new and the order is live, the store's own and owes at least what is tendered |
| PaymentEffects.SettlingPaysWhatIsOwed | apps/api/app/services/payment_service.py:409-555 | settling a table pays every selected order exactly what it owed, once, in one settlement of their total |
| PaymentEffects.SettlementsAreAcceptedExactlyWhen | apps/api/app/services/payment_service.py:409-478 | a table is settled if and only if its key is new, its orders may be paid there, something is owed and no owing order was refunded before |
| PaymentEffects.PaymentRefusalsTellTheTruth | apps/api/app/services/payment_service.py:333-478 | every error of a payment names a cause that is there |
| PaymentEffects.SettlementRefusalsTellTheTruth | apps/api/app/services/payment_service.py:281-478 | every error of a table settlement names a cause that is there |
| PaymentEffects.RefundingGivesBackWhatWasAsked | apps/api/app/services/payment_service.py:567-686 | a refund gives back the amount asked for from the allocation named, and its order gave back as much more |
| PaymentEffects.RefundsAreAcceptedExactlyWhen | apps/api/app/services/payment_service.py:567-640 | a refund is accepted if and only if it is filled in, its key is new, the allocation is the store's and has that much left |
| PaymentEffects.RefundRefusalsTellTheTruth | apps/api/app/services/payment_service.py:567-640 | every error of a refund names a cause that is there |
| PaymentEffects.CancellingMovesNoMoney | apps/api/app/services/kitchen_service.py:595-615 | a kitchen cancellation marks the order and nothing else, and is accepted if and only if the order is live and holds no money |
| PaymentEffects.ReportingRecordsTheIssue | apps/api/app/services/order_issue_service.py:190-287 | a report records one open issue and moves no money, and is accepted if and only if it is filled in and asks for no more than the order holds |
| PaymentEffects.ReportRefusalsTellTheTruth | apps/api/app/services/order_issue_service.py:190-297 | every error of a report names a cause that is there |
| PaymentEffects.ResolvingGivesWhatWasApproved | apps/api/app/services/order_issue_service.py:345-455 | a resolution gives back the approved amount for a partial refund, all that is held for a full one and nothing otherwise, in refunds of this issue from the order's own allocations; order and issue record the same sum |
| PaymentEffects.AllocationsGiveInTurn | apps/api/app/services/payment_service.py:760-804 | each allocation of the order gives what the earlier ones left to find, as far as its own balance goes, and no other gives |
| PaymentEffects.ResolutionsAreAcceptedExactlyWhen | apps/api/app/services/order_issue_service.py:300-412 | a resolution is accepted if and only if the issue is open in the staff's own store, the refund is permitted and within what is held, and a bare cancellation leaves no money behind |
| PaymentEffects.ResolutionRefusalsTellTheTruth | apps/api/app/services/order_issue_service.py:300-412 | every error of a resolution names a cause that is there, and balances never fall short |
| PaymentEffects.RefusalsWriteNothing | apps/api/app/services/payment_service.py:396-406 | a till or issue command that was refused or replayed changes no table |
| ShopFloor.ResolvingClosesTheOrder | apps/api/app/services/order_issue_service.py:300-488 | an issue resolved by cancelling its order leaves that order no money and no claim on any shelf, and the release cannot fail |
| ShopFloor.EveryReachableFloorIsSound | apps/api/app/services/kitchen_service.py:595-645 | after any run of till and shelves together both invariants hold and no cancelled order holds money or stock |
| ShopFloor.CancellingClosesTheOrder | apps/api/app/services/kitchen_service.py:595-645 | a live order that holds no money is cancelled on both sides at once |
| ShopFloor.PlacingOpensBothSides | apps/api/app/services/order_service.py:140-281 | an order enters the till's table and the shelves' promises together or not at all |
| ShopFloor.KeepingTheOrderLeavesTheShelves | apps/api/app/services/order_issue_service.py:372-412 | a resolution that does not cancel touches no shelf |
| PaymentRuns.EveryReachableStateIsSettled | scripts/reconcile_payments.py:58-110 | after any run of till and issue commands the whole payment invariant holds |
| PaymentRuns.FromEmptyBooks | scripts/reconcile_payments.py:58-110 | every state reachable from empty books satisfies the whole payment invariant |
| PaymentRuns.SummaryHoldsInEveryRun | apps/api/app/services/payment_analytics_service.py:30-70 | the owner's collected, net and outstanding figures are the settlements' and the orders' own after any run |
| PaymentRuns.ResolvedIssuesAreFrozen | apps/api/alembic/versions/e7f2a9c04d18_order_issue_refund_workflow.py:259-319 | a resolved issue never changes again |
| PaymentRuns.ResolvingIsExactlyOnce | apps/api/app/services/order_issue_service.py:491-503 | after any run the same resolve request replays, its key with another body and any other key are refused, and nothing moves |
| PaymentRuns.ReportingIsExactlyOnce | apps/api/app/services/order_issue_service.py:190-297 | an issue re-sent after any run, resolved since or not, is answered with the same issue; its key with another body is refused |
| PaymentRuns.PayingIsExactlyOnce | apps/api/app/services/payment_service.py:396-406 | a payment re-sent after any run is answered with its settlement and collected no second time |
| PaymentRuns.SettlingIsExactlyOnce | apps/api/app/services/payment_service.py:281-330 | a table settlement re-sent after any run is answered with its settlement and collected no second time; its key with another body is refused |
| PaymentRuns.RefundingIsExactlyOnce | apps/api/app/services/payment_service.py:689-699 | a refund re-sent after any run is given back no second time |
| PaymentService.Service.CheckOrders | apps/api/app/services/payment_service.py:423-455 | the isolation loops report the first refusal in order id, or none |
| PaymentService.Service.DoCollect | apps/api/app/services/payment_service.py:409-555 | the loops equal the collection's specification |
| PaymentService.Service.Post | apps/api/app/services/payment_service.py:486-524 | posting share by share in place equals the specification, and the overpayment guard in the loop never fires |
| PaymentService.Service.CreateIssueRefunds | apps/api/app/services/payment_service.py:716-804 | the loop creates exactly the split's refunds and updates the order, or nothing when the balances fall short |
| PaymentService.Service.CollectSettlement | apps/api/app/services/payment_service.py:281-330 | the in-place table settlement pays every selected order what it owed |
| PaymentService.Service.CollectOrderPayment | apps/api/app/services/payment_service.py:333-393 | the in-place payment collects the part or the balance, and no more |
| PaymentReconciler.Reconcile | scripts/reconcile_payments.py:58-110 | exactly the orders whose summary differs from the ledger, in id order |
| PaymentReconciler.ReconcileIssues | scripts/reconcile_order_issues.py:59-147 | exactly the issues with a problem, each with its problems |
| PaymentReconciler.ReconcileOrderRefunds | scripts/reconcile_order_issues.py:150-182 | exactly the orders refunded beyond what was paid |
| PaymentReconciler.Audit | scripts/reconcile_order_issues.py:185-229 | no report has anything to say, for the store asked for or for all, if and only if the exit code is zero |
| PaymentReconciler.NoProblemsExactlyWhenItTells | scripts/reconcile_order_issues.py:105-147 | under the schema an issue is unreported if and only if its record tells the refund ledger's story |
| PaymentReconciler.OrderFiguresAre | scripts/reconcile_payments.py:58-110 | an order is reported with its own figures beside the sums of its allocations and refunds |
| PaymentReconciler.IssueFiguresAre | scripts/reconcile_order_issues.py:59-147 | an issue is reported with its approved amount and the sum of the refunds linked to it |
| PaymentReconciler.EachProblemIsNamed | scripts/reconcile_order_issues.py:105-147 | each of the six problems is reported if and only if it is there |
| PaymentReconciler.EveryReachableStateReconciles | scripts/reconcile_order_issues.py:59-182 | all three reports are empty after any run, for every store and for all |
| PaymentReconciler.OpenIssuesMayCarryARefund | apps/api/alembic/versions/e7f2a9c04d18_order_issue_refund_workflow.py:205-223 | the CHECKs and keys accept a refund_id on an open issue if and only if the refund exists and is of its store and order |
| PaymentReconciler.AnAcceptedComplaintIsReported | scripts/reconcile_order_issues.py:119-131 | concrete books every constraint, trigger and total accepts, whose open issue carries a refund and is the one reported |
| PaymentReconciler.OpenIssueIsCleanExactlyWhen | scripts/reconcile_order_issues.py:119-131 | an open issue is clean if and only if it carries no refund and no refund names it |
| CashierShifts.GroupsAddUp | apps/api/app/services/cashier_shift_service.py:141-203 | the service's per-tender groups and the reconciler's queries give the same totals |
| CashierShifts.FiguresAre | apps/api/app/services/cashier_shift_service.py:141-203 | a shift's cash and card figures are the sums of the settlements and refunds of its store, cashier, window and that very tender; gross and refunds are those of every tender |
| CashierShifts.OpeningAddsOneShift | apps/api/app/services/cashier_shift_service.py:233-321 | a shift is opened if and only if its key is new and the cashier has none open; otherwise the open one is named |
| CashierShifts.ClosingFreezesTheWindow | apps/api/app/services/cashier_shift_service.py:341-474 | a close is accepted if and only if the shift is open, the store's and closed by its cashier or a supervisor; it freezes those sums, the expected cash and the discrepancy, written out |
| CashierShifts.ShiftRefusalsTellTheTruth | apps/api/app/services/cashier_shift_service.py:233-499 | every error of an opening or a close names a cause that is there |
| CashierShifts.NoDifferenceExactlyWhen | scripts/reconcile_payments.py:178-208 | a shift is unreported if and only if every snapshot figure is the ledger's own arithmetic |
| CashierShifts.EachDifferenceIsNamed | scripts/reconcile_payments.py:178-208 | each figure is named if and only if it differs |
| CashierShifts.ReconcileShifts | scripts/reconcile_payments.py:113-222 | exactly the closed shifts in scope with a differing figure, each with the list of them |
| ShiftSafety.ReportedExactlyWhenLate | apps/api/app/models/cashier_shift.py:25-39 | a closed shift is reported if and only if a row stamped inside its window was committed after its close |
| ShiftSafety.InFlightPaymentsBreakSnapshots | apps/api/app/services/cashier_shift_service.py:395-405 | a settlement begun before the close and committed after it always makes the snapshot untrue |
| ShiftSafety.CloseKeeps | apps/api/app/services/cashier_shift_service.py:341-474 | a close satisfies every snapshot CHECK and its figures are the ledger's |
| ShiftSafety.EveryReachableDeskIsSound | apps/api/alembic/versions/d5c7b3a91e40_cashier_shift_closing.py:232-299 | with atomic steps and time that never goes back every closed snapshot stays true and at most one shift is open per cashier |
| ShiftSafety.FromAnEmptyDesk | scripts/reconcile_payments.py:113-222 | every desk reachable from an empty one keeps its snapshots true |
| ShiftSafety.NoShiftIsEverReported | scripts/reconcile_payments.py:113-222 | the shift report is empty in every reachable state |
| ShiftSafety.ClosedShiftsAreFrozen | apps/api/alembic/versions/d5c7b3a91e40_cashier_shift_closing.py:242-299 | over any run a shift is unchanged or was closed once with its opening carried over |
| ShiftSafety.OpeningIsExactlyOnce | apps/api/app/services/cashier_shift_service.py:324-329 | an opening re-sent after any run, closed since or not, is answered with the same shift; its key with another body is refused |
| ShiftSafety.ClosingIsExactlyOnce | apps/api/app/services/cashier_shift_service.py:489-499 | a close re-sent after any run replays, its key with another body and any other key are refused, and nothing changes |
| ShiftSafety.WindowsAreDisjoint | apps/api/alembic/versions/d5c7b3a91e40_cashier_shift_closing.py:232-240 | two closed shifts of one cashier share no instant |
| ShiftSafety.ClosedShiftsNeverDoubleCount | apps/api/app/models/cashier_shift.py:46-52 | a cashier's closed gross totals together never exceed what that cashier collected |
| ShiftSafety.NoRunDoubleCounts | apps/api/app/models/cashier_shift.py:46-52 | the same after any run |
| KitchenSockets.RegisterAgreesExactlyWhen | apps/api/app/services/websocket_manager.py:53-63 | registering keeps both indexes in agreement if and only if the socket is new or returns to its own store |
| KitchenSockets.UnregisterAgrees | apps/api/app/services/websocket_manager.py:65-78 | disconnecting keeps both indexes in agreement and leaves no empty bucket |
| KitchenSockets.UnregisterTwice | apps/api/app/services/websocket_manager.py:65-69 | disconnecting is idempotent |
| KitchenSockets.EveryHistoryAgrees | apps/api/app/services/websocket_manager.py:29-33 | with each socket connected once, every interleaving of connects and disconnects keeps the indexes in agreement |
| KitchenSockets.Manager.Connect | apps/api/app/services/websocket_manager.py:53-63 | the two in-place dictionary writes equal one registration |
| KitchenSockets.Manager.Disconnect | apps/api/app/services/websocket_manager.py:65-78 | the in-place removals equal one unregistration |
| KitchenSockets.Manager.Broadcast | apps/api/app/services/websocket_manager.py:84-115 | whatever runs during the awaits, each socket of the snapshot is tried once, no other is, and exactly the failed ones are then removed |
| KitchenSockets.BroadcastsNeverCross | apps/api/app/services/websocket_manager.py:1-18 | every send of a store's event goes to a socket registered under that store and, in the whole history, under no other |
| StaffAuth.RunIsPaced | apps/api/app/services/auth_service.py:94-118 | the failure counter holds every comparison and each one past the threshold pushes the lock on by a whole period |
| StaffAuth.LockoutBoundsGuessing | apps/api/app/core/config.py:51-52 | without a success, enable or reset at most MAX + T / LOCKOUT wrong passwords are compared within time T |
| StaffAuth.TheBoundIsReached | apps/api/app/services/auth_service.py:99-118 | a schedule that compares MAX + k passwords in k lockout periods |
| StaffAuth.DeadForever | apps/api/app/services/auth_service.py:215-247 | a revoked, expired or idle session never resolves again in any run |
| StaffAuth.DisablingIsFinal | scripts/manage_staff_users.py:197-228 | disabling ends every session of the user for good, enabling later included |
| StaffAuth.NobodyOutlivesTheLimit | apps/api/app/core/config.py:46-46 | no session resolves after its absolute lifetime, whatever refreshed it |
| StaffAuth.SessionsLastOneLifetime | apps/api/app/services/auth_service.py:184-210 | a new session works at once for a user who may work and the limits allow, belongs to that user, and one lifetime later is over whatever ran |
| StaffAuth.EndingIsFinal | apps/api/app/services/auth_service.py:282-311 | logging out, logging out everywhere, disabling and a password reset each end a session for good |
| StaffAuth.EndingTouchesNobodyElse | apps/api/app/services/auth_service.py:290-311 | ... and change no session of anybody else |
| StaffAuth.LiftingTheLock | scripts/manage_staff_users.py:197-256 | after an enable or a reset the right password logs in at once if the account is otherwise in order; after a disable it does not |
| StaffAuth.IdleIsRefused | apps/api/app/services/auth_service.py:240-247 | a session is refused once IDLE has passed since its last successful resolve |
| StaffAuth.StaysAliveWhileInUse | apps/api/app/services/auth_service.py:259-265 | after a successful resolve it resolves again up to IDLE minus THROTTLE later unless expired, revoked or its user barred |
| StaffAuth.Service.Authenticate | apps/api/app/services/auth_service.py:130-179 | the verdict and the row updates of one login attempt: a locked account is untouched, a wrong password counts once, a login clears the lock, and no other user changes |
| StaffAuth.Service.CreateSession | apps/api/app/services/auth_service.py:184-210 | one row is appended, for that user, seen now and expiring one lifetime from now |
| StaffAuth.Service.ResolveSession | apps/api/app/services/auth_service.py:215-265 | the context or none, with idle revocation and throttled last-seen |
| StaffAuth.Service.RevokeAllSessions | apps/api/app/services/auth_service.py:295-311 | exactly the user's active sessions are revoked and counted |
| StaffAuth.Service.DisableUser | scripts/manage_staff_users.py:197-211 | the user is inactive and every active session revoked and counted |
| StaffAuth.Service.EnableUser | scripts/manage_staff_users.py:214-230 | the user is active with lock and counter cleared, and no session changes |
| StaffAuth.Service.ResetUserPassword | scripts/manage_staff_users.py:233-256 | lock and counter cleared, every active session revoked and counted |
| AlembicHeads.StringsAreMentioned | scripts/verify_release_readiness.py:380-390 | the collected strings are exactly the string constants of the tree, at any depth |
| AlembicHeads.FilesAreReadAsWritten | scripts/verify_release_readiness.py:358-393 | from a file is read the revision it last names and, in their order, the none, one or several down revisions it last names |
| AlembicHeads.NoRevisionToRead | scripts/verify_release_readiness.py:358-393 | a file that does not parse or never names its revision has none |
| AlembicHeads.OneHeadExactlyWhenOneHistory | scripts/verify_release_readiness.py:396-432 | when no revision leads to itself, merges included, a revision is the only head if and only if every revision leads to it |
| AlembicHeads.CheckSingleHead | scripts/verify_release_readiness.py:396-432 | it passes if and only if every file was read and exactly one revision has no child; a failure names exactly the unreadable files or all the heads |
| AlembicHeads.APassIsOneHistory | scripts/verify_release_readiness.py:422-432 | after a pass every revision is an ancestor of the head, or the head |
| CashierQueries.TruncatedMergeIsExact | apps/api/app/services/cashier_query_service.py:167-217 | merging the newest `limit` of each ledger and cutting at `limit` is a newest-first top `limit` of both together |
| CashierQueries.RecentTransactions | apps/api/app/services/cashier_query_service.py:167-217 | what the screen leaves out of the store's two ledgers is never newer than what it shows |
| CashierQueries.ShownAreTheStoresNewest | apps/api/app/services/cashier_query_service.py:167-217 | what is shown are rows of the store's two ledgers with their own figures, each once; a row left out means the list is full and holds nothing older |
| CashierQueries.ListOpenTables | apps/api/app/services/cashier_query_service.py:65-108 | every table with a balance once, with its open orders' figures, oldest first |
| CashierQueries.GetTableBill | apps/api/app/services/cashier_query_service.py:128-157 | none for another store's table; otherwise one line per order not cancelled, oldest first, and their totals |
| CashierQueries.ListedFiguresAre | apps/api/app/services/cashier_query_service.py:65-108 | a listed table's count, totals and age are those of its live orders that still owe something, and of no others |
| CashierQueries.ListedExactlyWhenOwing | apps/api/app/services/cashier_query_service.py:65-108 | a table is listed if and only if a live order of it still owes something |
| CashierQueries.BillFiguresAre | apps/api/app/services/cashier_query_service.py:45-157 | a bill's lines are the table's live orders with their own figures, and its totals are theirs |
| CashierQueries.ListedBalanceIsTheBill | apps/api/app/services/cashier_query_service.py:65-157 | a listed table's bucketed balance is positive and equals its bill's |
| CashierQueries.UnlistedExactlyWhenPaid | apps/api/app/services/cashier_query_service.py:65-157 | a table is off the list if and only if its bill has nothing left to pay |

## Left out

- InventoryService.Service.TransferStock: rows are values in table fields, so aliasing between two references to one ORM row is not captured.
- InventoryService.Service.CreateOrder: the names and ids listed in a refusal, prices, menu publication, table tokens and the order's own idempotency key are not modelled.
- InventoryService.Service.SettleOrder: lines are visited in id order; the row-locking query's own order is not modelled.
- InventoryReconciler.Reconcile: reports follow the table, not the query's ORDER BY store and ingredient.
- CashierQueries.SortDescending: which of two equally new rows comes first is left open.
- PaymentService.Service.CreateIssueRefunds: a direct refund whose idempotency key spells out an issue-refund key would share its hash; the model keeps the two kinds of key apart.
- KitchenSockets.Manager.Connect: registration only; accept() and the random connection id are not modelled.
- AlembicHeads.CheckSingleHead: a missing versions directory, file reading and Python's parser are outside the model; heads are listed in no particular order.
- DemoSeed.Seed: deductions are exact, not floating point; a previous demo's leftover transfers, counts and payments are not modelled.
- Two transactions interleaving inside one command: locks, the check before the lock and the retry after a unique violation become one atomic step. The exception is the shift window, where begin and commit are told apart.
- Concurrent login attempts between the lock check and the counter update; the rate bound is about atomic attempts.
- ShopFloor.EveryReachableFloorIsSound: preparation states other than cancelled and the undo window are not modelled.
- An UPDATE of an order's store or table, which no command makes and no ledger trigger watches.
- NUMERIC overflow, currencies other than the configured one, units, notes, audit rows and log lines.
- Alert thresholds, permission matrices, business-day boundaries, kitchen scoring and batching, secret and link scans: one-branch facts or text processing.
- Routers, schemas, cookies, hashing and token generation: equal hashes are taken to mean equal texts.
