# Stock reservations, orders and payments: a verified model

This project models the stock reservation engine of the shop, together with the order, batch and
payment lifecycles that drive it, and proves what the services guarantee together.

The whole database is one value (`Records.Db`): products, physical batches, commercial offers, orders,
lines, allocations (reservations), retail payment attempts, checkout sessions, pick checklist marks,
and the clock. `Storage.Database` is the same state as a mutable object. Every service is a method that works
on the database it is given and is proved to leave exactly what its specification function (`...Spec`)
describes: the new state on success, the old state and the error otherwise. Loops stay loops, dictionaries stay
accumulated dictionaries, and the in-memory models (`InventoryBatch`, `Allocation`, `Order`) stay
classes with fields. The theorems are about the specification functions, over all states, all inputs
and all runs (`Runs.Run`: any sequence of transactions and clock ticks from an empty database). The
invariant has non-trivial states: `Witnesses.AwaitingPaymentIsReached` and
`Witnesses.LostPriceIsReached` compute two runs, to a retail order awaiting payment and a placed business order.

Money is in cents, dates are days, and time is in microseconds. Batch, offer and product rows are never
deleted, so their key is their position; the other tables are maps with a key sequence.

| file | what it holds |
|---|---|
| `Common`, `Records`, `Storage` | results and errors, tables and sums over them, the mutable database |
| `Planning` | first-expired-first-out planning of picks |
| `Units`, `Drafts` | weight conversion, resolving input lines |
| `Pricing`, `Catalog`, `OfferChoices` | stock pools of offers, the business catalog, the edit form's figures |
| `InventoryModels`, `InventoryServices`, `ReservationSelectors`, `Reservations` | batches and allocations |
| `Placement`, `Orders`, `OrderEdit`, `OpsOrders` | placing, the order lifecycle, editing placed orders, checklist marks |
| `Payments`, `Retail`, `Reconciliation` | attempts, the retail payment workflow, reconciliation with the provider |
| `Invariant` | the invariant of the database and its framing lemmas |
| `StockSteps`, `OrderSteps`, `PackSteps`, `EditSteps`, `DraftSteps`, `RetailSteps` | every step keeps the invariant |
| `Runs`, `Conservation`, `Lifecycle`, `Uniqueness` | runs, what holds in every reachable state, and what no run can change |
| `Execution` | calling the services themselves is a run |
| `PlacementLaws`, `SupplyLaws`, `FefoRuns`, `DraftLaws`, `CatalogLaws`, `ServiceLaws`, `RefusalLaws`, `ReconciliationLaws` | what the services do and when they succeed, told in the columns of the tables and in numbers, without the predicates the services share |
| `Witnesses` | two concrete runs to states where a promise of the code fails |
| `ReservationFacts`, `PlacementFacts`, `EditFacts`, `CatalogFacts`, `CatalogGuarantees`, `OfferChoiceFacts`, `ReconciliationFacts` | theorems about one component each |

Where the code and its documentation differ:

- `business/offer_choices.py:30-32` says that an existing offer gets the order's own quantity added back
  because catalog availability already subtracts that reservation. That is guaranteed while the order's
  reservations still lie in their own offers' pools and those offers may still be sold.
  `OfferChoiceFacts.AddBackIdentity` gives the exact difference for every placed order,
  `OfferChoiceFacts.AddBackIsExactWhen` the rows that make the figure wrong, and
  `Witnesses.LostPriceBreaksExactness` a run after which the figure is 6 and the real stock 10.
- `payments/services.py:288-289` promises that repeated terminal notifications are idempotent when
  provider and local state agree. A transaction id with surrounding blanks is stored stripped but
  compared unstripped, so the second notification raises. `Reconciliation.ReconcilingTwice` states exactly
  when reapplying an answer is idempotent, `Witnesses.PaddedIdBreaksIdempotence` a run after which it is not.

## Model

| member | source | states |
|---|---|---|
| `Planning.PlanBatchPicks` | reservations/planning.py:36-139 | the greedy loop with its validation returns exactly `Plan`: the sorted pool consumed in order, or the error with the true total |
| `Planning.EarlierIsStrictTotal` | reservations/planning.py:88-95 | (best_before, batch_code, batch_pk) is a strict total order on batches with different keys |
| `Planning.PlanIsExact` | reservations/planning.py:97-139 | a plan is returned exactly when total free stock covers the request, sums to the request, and a refusal reports the true total and a positive shortage |
| `Planning.PlanIsSound` | reservations/planning.py:101-134 | every pick is within its batch's free stock, no batch outside the pool and no batch twice |
| `Planning.CodeLessIsLexicographic` | reservations/planning.py:88-95 | batch codes are compared lexicographically: a proper prefix, or the smaller character at the first difference |
| `Planning.EarlierStockIsTakenFirst` | reservations/planning.py:88-134 | a plan that takes anything from a batch has taken every free unit of each batch with an earlier date; at equal dates of each with a smaller code, and at equal codes of each with a smaller key |
| `Planning.PicksAreInOrder` | reservations/planning.py:88-134 | the picks are listed by expiry date, then code, then key |
| `Planning.PlanRefusesInvalidInput` | reservations/planning.py:54-86 | the invalid requests are exactly a quantity that is not positive and, for a pool with batches, two products or a negative stock or reserved quantity; an empty pool is a shortage of everything |
| `Planning.PlanFillsPrefixes` | reservations/planning.py:88-134 | from every prefix of the expiry order a plan takes min(request, free stock of the prefix) |
| `Planning.PlanIsFefoOptimal` | reservations/planning.py:88-134 | that is the most any feasible way of meeting the request takes from the prefix |
| `Planning.PlanIgnoresInputOrder` | reservations/planning.py:58-95 | the order in which the caller lists the batches does not matter |
| `Planning.PlanningComposes` | reservations/planning.py:88-139 | planning q1, reserving its picks and planning q2 takes per batch what planning q1 + q2 takes, and succeeds exactly when that does |
| `Units.GramsToUnitsIsLeastCover` | products/models.py:540-556 | grams become the least number of units that covers them |
| `Units.KgToUnitsIsLeastCover` | products/models.py:558-579 | rounding up to grams and then to units gives the one least cover of the exact weight |
| `Units.QuantityToUnitsIsExact` | products/units.py:39-72 | a quantity converts exactly when it is positive and, unless in kilograms, whole; kilograms and grams give the least cover of the weight, stock units themselves |
| `Units.UnitsToGramsIsLinear` | products/models.py:581-596 | one unit has the product's weight, and weights add up |
| `Units.UnitsRoundTrip` | products/models.py:540-596 | units to grams and back is the identity |
| `Units.MergingOversuppliesLessThanAUnitPerLine` | products/units.py:39-72 | converting n gram lines and then merging supplies at least the ordered weight and less than n units too much |
| `Drafts.ResolveOfferLines` | business/drafts.py:110-239 | the validation loop and the accumulated dictionary give `ResolveOfferLinesSpec` |
| `Drafts.ResolutionMergesByOffer` | business/drafts.py:192-239 | exactly one line per selected offer and none for others, each with the sum of its inputs' converted units, the offer's EUR price (none if it has none), storable and on a valid offer |
| `DraftLaws.ResolvingIsExact` | business/drafts.py:110-239 | input resolves exactly when each offer is on sale to businesses and each quantity is positive and, unless in kilograms, whole; otherwise the offers are reported before the quantities |
| `DraftLaws.ResolvedLinesAre` | business/drafts.py:192-239 | one line per offer, none twice, with the sum of the units that its inputs mean by weight or count, at the offer's EUR price |
| `DraftLaws.ResolvedLinesKeepInputOrder` | business/drafts.py:206-239 | lines come in the order in which the input first selects their offers |
| `Drafts.GramLinesAreCovered` | business/drafts.py:206-239 | n gram lines of one offer resolve to one line that covers the weight with less than n units to spare |
| `Pricing.PoolsAreDisjoint` | pricing/selectors.py:187-232 | pools of two different sellable offers of one channel and currency share no batch |
| `Pricing.PoolsCoverTheProduct` | pricing/selectors.py:190-232 | with a sellable standard offer, the pools of a product's sellable offers cover exactly its orderable batches |
| `Pricing.RetailPool` | retail/selectors.py:17-60 | a retail pool holds, once each, exactly the batches of the offer's pool when the offer is a retail offer with an amount in the currency, and nothing otherwise |
| `PlacementLaws.PoolsAreSellable` | pricing/selectors.py:187-232 | a batch is in an offer's pool exactly when offer and product are on, the batch is active, has units and expires after today, and it is the offer's own or, for a product-wide offer, of the product and not claimed by an enabled, priced batch offer of the channel |
| `PlacementLaws.PoolUnitsIsSum` | inventory/selectors.py:673-739 | an offer's free units are summed over those batches: units on the shelf that no RESERVED row with a deadline to come, or without one, holds |
| `InventoryModels.InventoryBatch.TransitionTo` | inventory/models.py:147-161 | exactly the allowed transitions and the repeated status succeed |
| `InventoryModels.InventoryBatch.SyncStatusFromQuantity` | inventory/models.py:163-179 | an open batch ends ACTIVE exactly when it has stock; CLOSED stays |
| `InventoryModels.InventoryBatch.AdjustQuantity` | inventory/models.py:254-265 | refused for closed batches and negative quantities; otherwise the quantity is set and the status follows |
| `InventoryModels.InventoryBatch.RemoveQuantity` | inventory/models.py:267-283 | succeeds exactly for 0 < amount <= quantity |
| `InventoryModels.InventoryBatch.Pick` | inventory/models.py:285-292 | succeeds exactly for an available batch with enough stock, and takes exactly the amount |
| `InventoryModels.InventoryBatch.Close` | inventory/models.py:294-311 | always ends CLOSED with the quantity unchanged |
| `InventoryServices.CreateBatch` | inventory/services.py:30-94 | succeeds exactly for an existing product, a positive quantity, an allowed date and a code no batch has; then exactly one ACTIVE batch is appended, codes stay distinct, and a refusal changes nothing |
| `StockSteps.CreateBatchKeepsInv` | inventory/services.py:30-94 | a new batch has no reservations and keeps the invariant |
| `InventoryServices.UpdateBatch` | inventory/services.py:97-153 | a correction below the active reservations or of a closed batch is refused |
| `ServiceLaws.CorrectionIsExact` | inventory/services.py:97-153 | succeeds exactly for an open batch and a quantity that is not negative and not below what is reserved; quantity and date are the given ones, ACTIVE exactly with units; which error otherwise |
| `InventoryServices.CloseBatch` | inventory/services.py:156-186 | only a batch without active reservations closes |
| `ServiceLaws.ClosingIsExact` | inventory/services.py:156-186 | succeeds exactly when nothing is reserved, ends CLOSED and keeps units and date; which error otherwise |
| `ReservationSelectors.ActiveReservedQuantitiesByBatchPk` | reservations/selectors.py:21-48 | the accumulated dictionary holds the active reserved sum of every requested batch that has one |
| `ReservationSelectors.ActiveReservedQuantityForBatchPk` | reservations/selectors.py:51-62 | the active reserved sum of one batch |
| `PlacementLaws.ReservedIsSum` | reservations/selectors.py:21-62 | the active reserved sum counts exactly the RESERVED rows of the batch without deadline or with one to come |
| `Reservations.Allocation.TransitionTo` | reservations/models.py:95-108 | only a RESERVED allocation changes; repeating a status does nothing |
| `Reservations.ValidatePool` | reservations/services.py:297-323 | accepts exactly the pools all of whose batches are of the line's product |
| `Reservations.ReserveOrderLineFromPool` | reservations/services.py:32-112 | validates, plans against the active reservations, and adds one RESERVED row per pick with consecutive keys |
| `Reservations.CancelReservationsForOrder` | reservations/services.py:116-133 | exactly the order's RESERVED rows become CANCELLED |
| `Reservations.CancelTemporaryReservationsForOrder` | reservations/services.py:137-158 | exactly the order's RESERVED rows with a deadline become CANCELLED |
| `Reservations.DeleteReservationsForOrder` | reservations/services.py:162-179 | exactly the order's RESERVED rows and their marks disappear |
| `Reservations.ConsumeReservationsForOrder` | reservations/services.py:183-243 | every batch loses what the order's RESERVED rows hold on it and those rows become CONSUMED, or nothing changes |
| `Reservations.MakeReservationsPermanentForOrder` | reservations/services.py:247-294 | the order's unexpired RESERVED rows lose their deadline, or an error without a change |
| `ReservationFacts.ReserveLineIsExact` | reservations/services.py:71-112 | a line is reserved exactly when its pool's free units cover the quantity; a refusal reports the pool's true free units |
| `ReservationFacts.ReservedRows` | reservations/services.py:88-112 | only RESERVED rows of this line appear, from the pool, each batch at most once |
| `ReservationFacts.ReservedTotals` | reservations/services.py:71-112 | the line's reserved total grows by exactly the quantity; batches outside the pool are untouched |
| `ReservationFacts.ReservedStockOk` | reservations/services.py:51-112 | reserving from active batches keeps every batch within its stock |
| `Placement.PrepareBusinessOrderForPlacement` | business/policies.py:16-77 | the loop reserves every line from its own offer's pool, or leaves the state unchanged and reports the first refusal |
| `Placement.LinesEffect` | business/policies.py:51-77 | reserving distinct lines adds RESERVED rows for those lines only and keeps stock safety |
| `PlacementFacts.OneLineIsExact` | business/policies.py:51-109 | on either channel, one line is reserved exactly when its offer may be sold and its pool has the units |
| `PlacementFacts.ReservingTakesTheQuantity` | business/policies.py:51-77 | reserving a line takes exactly its quantity out of its own pool |
| `PlacementFacts.LinesArePickedFefo` | reservations/services.py:51-112 | from every prefix of the expiry order of its offer's pool a line's new rows take min(quantity, free units of the prefix) |
| `PlacementLaws.LineEmptiesEarlierBatches` | reservations/services.py:51-112 | a line that takes units of a batch takes all free units of each batch its offer sells from that goes before it by date, code and key |
| `PlacementLaws.NoBatchIsSkipped` | business/policies.py:51-77 | after a list of lines is reserved, every batch that goes before a taken one of the same offer has no free unit left |
| `FefoRuns.EveryReservationIsFefo` | reservations/services.py:51-112 | whatever step adds a row, it is a RESERVED row of the step's order on an active, unexpired batch its offer may sell from, with no free unit left before it; 35 minutes for a payment start, for good otherwise |
| `PlacementLaws.MaySellExactly` | business/policies.py:80-109 | when a channel may sell a line, in the columns of offer, product and line |
| `PlacementLaws.RefusalsAreExact` | business/policies.py:61-77 | a line is refused for its offer on the business channel only, and otherwise with the quantity asked, the true free units and their difference |
| `PlacementFacts.OtherPoolsKeepUnits` | pricing/selectors.py:190-232 | reserving one offer leaves every other sellable offer's free units unchanged |
| `PlacementFacts.ReservingIsExact` | business/policies.py:51-77 | on either channel, a list of lines, sharing offers or not, is reserved exactly when each offer may be sold and each pool has the units asked of its offer in total |
| `PlacementFacts.DraftIsPlacedExactly` | business/policies.py:16-77 | any business draft is placed exactly when it has lines, its offers may be sold and each pool has the units asked of its offer in total |
| `SupplyLaws.PlacingIsExact` | business/policies.py:16-77 | a business draft is placed exactly when it has lines and each offer is on sale and has, batch by batch, the units free that the order's lines ask of it |
| `RefusalLaws.PlacingRefusals` | business/policies.py:32-77 | which error: missing, no business draft with lines, an offer off sale, or a shortage with the line's quantity, the units found and the difference |
| `PlacementFacts.DistinctOffersNeverCompete` | business/policies.py:51-77 | lines on distinct offers are all reserved exactly when each fits on its own |
| `Orders.Order.TransitionTo` | orders/models.py:366-378 | exactly the allowed transitions and the repeated status succeed |
| `ServiceLaws.TransitionsAre` | orders/models.py:62-68 | the five order transitions and the four batch transitions |
| `Orders.PlaceBusinessOrder` | business/services.py:611-622 | a draft is prepared and moves to PLACED, or nothing changes |
| `Orders.PackOrderAndClearChecklist` | ops_portal/orders/services.py:55-79 | a placed order's reservations are consumed, it moves to PACKED and loses its marks, or nothing changes |
| `ServiceLaws.PackingIsExact` | reservations/services.py:194-243 | under the invariant an order packs exactly when PLACED; each batch loses what the order's RESERVED rows held on it and is DEPLETED at zero, those rows are CONSUMED, and only the order's marks go |
| `Orders.CancelOrder` | fulfillment/services.py:28-43 | a draft or placed order releases its reservations and moves to CANCELLED |
| `ServiceLaws.CancellingIsExact` | orders/services.py:555-578 | cancelled exactly while DRAFT or PLACED: CANCELLED, its RESERVED rows CANCELLED, nothing else changed; which error otherwise |
| `Orders.DeliverOrder` | orders/services.py:582-593 | the order moves to DELIVERED when its status allows it |
| `ServiceLaws.DeliveringIsExact` | orders/services.py:582-593 | delivered exactly when PACKED or already DELIVERED, and nothing but its status changes; which error otherwise |
| `Orders.DiscardDraftOrder` | orders/services.py:349-360 | succeeds exactly for a draft without any allocation row; then nothing of it is left in orders, lines, attempts and checkouts, every other order keeps all its rows, and a refusal changes nothing |
| `RefusalLaws.PackingAndDiscardingRefusals` | orders/services.py:349-360 | packing and discarding report a missing order, and otherwise its state |
| `OrderEdit.CreateDraftOrder` | orders/services.py:152-183 | a draft with one row per valid line, or an error without a change |
| `ServiceLaws.DraftingIsExact` | orders/services.py:152-183 | a draft is created exactly from at least one line, each on a business offer of its product, with a positive quantity and no price that is not positive |
| `RefusalLaws.DraftingRefusals` | orders/services.py:152-183 | wrong offers are reported before lines the table cannot store |
| `OrderEdit.UpdatePlacedOrder` | orders/services.py:388-530 | the imperative diff (index, split, update, remove, create, reserve again) computes `UpdatePlacedSpec`; every error leaves order, lines, allocations and marks unchanged |
| `OrderEdit.IndexIncoming` | orders/services.py:408-446 | the index exists exactly when all lines are valid and no offer repeats |
| `OrderEdit.IndexExisting` | orders/services.py:448-472 | the index exists exactly when no two lines of the order share an offer |
| `EditFacts.EditRefinesReplaceAll` | orders/services.py:398-530 | as a map from offer to quantity the lines become the incoming lines; kept offers keep key, price and product, new ones get fresh lines with the incoming price, dropped ones go, other orders' lines stay |
| `EditFacts.EditGoesThroughExactly` | orders/services.py:398-530 | an edit goes through exactly when it is well formed and every offer may be sold and has the units once the order's own reservations are gone |
| `SupplyLaws.EditingIsExact` | orders/services.py:398-530 | an edit goes through exactly for a PLACED business order, with storable lines on different offers, each on sale and with the units free that other orders leave, batch by batch |
| `RefusalLaws.MalformedEditRefusals` | orders/services.py:398-472 | an edit that is missing its order, ill-formed, or not storable is refused in that order |
| `RefusalLaws.AcceptedEditRefusals` | orders/services.py:515-530 | a well-formed edit is refused only for an offer off sale or for a shortage of an incoming line |
| `OpsOrders.ToggleChecklistMark` | ops_portal/orders/checklist.py:30-67 | toggles the mark of a RESERVED allocation of the order and returns the new state |
| `OpsOrders.UpdatePlacedOrderAndPreserveChecklist` | ops_portal/orders/services.py:83-180 | resolves, edits, and marks again what was checked on unchanged lines, or changes nothing |
| `OpsOrders.PortalEditIs` | ops_portal/orders/services.py:83-180 | the portal edit is the edit with the resolved input, apart from marks |
| `OpsOrders.MarksSurviveExactly` | ops_portal/orders/services.py:108-180 | a RESERVED allocation of the edited order is marked exactly when a marked RESERVED one with the same line and batch existed and the line's quantity did not change; all other rows keep their marks |
| `OpsOrders.MarkKeyIsUnique` | ops_portal/orders/services.py:125-176 | line and batch identify at most one RESERVED allocation, so no mark is duplicated or moved |
| `Catalog.ReservedQuantitiesByProductForBatches` | inventory/selectors.py:958-984 | the accumulated dictionary holds the reserved sum per product |
| `Catalog.OrderableQuantityByProductId` | inventory/selectors.py:639-670 | physical minus reserved sum per product, not below zero |
| `Catalog.OrderableQuantityByBatchPk` | inventory/selectors.py:673-739 | for every requested batch its free units, zero when it is missing or not orderable |
| `Catalog.ListBusinessCatalogProducts` | business/selectors.py:42-291 | the loops and dictionaries compute `CatalogSpec`, or refuse when a standard offer is missing |
| `CatalogLaws.FiguresAre` | inventory/selectors.py:639-739 | the aggregate figures count, per product and per batch, the units of active, unexpired batches that no row holds; expired or empty stock adds nothing |
| `CatalogLaws.ListedOffersAre` | business/selectors.py:180-291 | the catalog lists exactly the offers on sale with free units, each with its kind, batch, EUR price and free units |
| `CatalogLaws.EntriesAre` | business/selectors.py:160-291 | one entry per product in key order: active, with its unheld stock, and its own offers, the product-wide one first and none twice |
| `CatalogLaws.RefusalIs` | business/selectors.py:141-157 | refused exactly when an active product with unheld stock has no product-wide BUSINESS offer |
| `CatalogFacts.ProductTotalIsFree` | inventory/selectors.py:639-670 | without overselling, the product total is the sum of the free units of its orderable batches |
| `CatalogFacts.BatchUnitsAreClaimed` | business/selectors.py:180-217 | batch-offer units are the free units of exactly the batches those offers sell |
| `CatalogFacts.StandardFigureIsPoolUnits` | business/selectors.py:221-247 | product total minus batch-offer units is the free units of exactly the standard offer's pool |
| `CatalogFacts.BatchFigureIsPoolUnits` | business/selectors.py:180-207 | a batch offer's figure is the free units of its own pool |
| `CatalogGuarantees.CatalogIsExact` | business/selectors.py:42-291 | an offer is listed with a figure exactly when it may be sold, has free units, and the figure is its pool's free units |
| `CatalogGuarantees.CatalogFailsExactly` | business/selectors.py:141-157 | the catalog refuses exactly when an active product with free units has no standard BUSINESS offer |
| `CatalogGuarantees.CatalogQuantitiesCanBePlaced` | business/policies.py:16-77 | a business draft with lines on distinct offers is placed exactly when every line is within the catalog's figure |
| `OfferChoices.BuildBusinessOfferChoiceContext` | business/offer_choices.py:22-118 | the loops compute `ContextSpec`: catalog figures, plus the order's own units on eligible offers |
| `OfferChoices.ExistingQuantityByOffer` | business/offer_choices.py:51-64 | the accumulated dictionary holds the order's units per offer |
| `OfferChoiceFacts.ContextFigure` | business/offer_choices.py:66-88 | an offer is selectable exactly when it may be sold and has free units or lines of the order, and its figure is both summed |
| `CatalogLaws.ChoicesAre` | business/offer_choices.py:22-118 | which offers the form shows, and their figures, with and without an order, in the columns of the tables |
| `OfferChoiceFacts.AddBackIdentity` | business/offer_choices.py:38-88 | figure plus units held in the pool equals free units after deleting the order's reservations plus its units on the offer, so the figure is exact exactly when those two agree |
| `OfferChoiceFacts.AddBackIsExactWhen` | business/offer_choices.py:38-88 | while every reservation lies in its own offer's pool, the figure is exact exactly when no reservation for another offer's line lies in the offer's pool |
| `OfferChoiceFacts.AddBackIsExact` | business/offer_choices.py:38-88 | exact while every reservation lies in its own offer's pool and those offers may still be sold |
| `OfferChoiceFacts.AddBackIsSafe` | business/offer_choices.py:38-88 | never too much while every reservation lies in its own offer's pool |
| `Witnesses.LostPriceBreaksExactness` | business/offer_choices.py:66-88 | a run of the system after which every reservation lies in its own offer's pool and the figure is still not exact |
| `OfferChoiceFacts.EditWithinFiguresSucceeds` | ops_portal/orders/forms.py:574-590 | a well-formed edit within the shown figures cannot fail for stock |
| `OfferChoiceFacts.EditWithinFiguresExactly` | ops_portal/orders/forms.py:574-590 | while the order's offers may still be sold, a well-formed edit goes through exactly when it is within the figures |
| `Payments.ComputeOrderTotal` | orders/models.py:219-237 | the loop gives the sum of unit price times quantity, None when a line is unpriced |
| `Payments.OrderTotalIsSum` | orders/models.py:219-237 | an order has a total exactly when every line has a price, and it is the sum of price times quantity |
| `Payments.CreatePaymentAttempt` | payments/services.py:27-71 | a PENDING attempt for the order's total, unless unpriced, not positive, or one is pending |
| `Payments.MarkPaymentAttemptSucceeded` | payments/services.py:107-153 | succeeds exactly for a pending attempt and an id that is absent or not all blanks; only that attempt changes, to SUCCEEDED with an id without surrounding blanks; a refusal changes nothing |
| `Payments.MarkPaymentAttemptFailed` | payments/services.py:156-182 | succeeds exactly for a pending attempt, and changes nothing but its status |
| `Payments.PersistProviderPayment` | payments/services.py:229-256 | succeeds exactly for a pending attempt without a payment id and an id no attempt has; only that id changes, and non-empty ids stay distinct |
| `Payments.StripIsTrimming` | payments/services.py:131-146 | stripping leaves a string alone exactly when it has no blank at either end, over all characters that Python strips |
| `Payments.StripIsMiddle` | payments/services.py:131-146 | stripping keeps exactly the part between the blanks at both ends |
| `ServiceLaws.BlanksAre` | payments/services.py:131-146 | the 29 characters that count as blank |
| `Payments.StripsToNothing` | payments/services.py:131-139 | stripping leaves nothing exactly of the strings that are all blanks |
| `Retail.CreatePendingRetailOrder` | retail/services.py:289-352 | a priced retail draft with its checkout window, or an error without a change |
| `Retail.StartRetailPayment` | retail/services.py:355-472 | temporary holds are replaced for every line and a pending attempt is created, or nothing changes |
| `Retail.CompleteRetailPayment` | retail/services.py:475-532 | holds become permanent, the order PLACED and the attempt SUCCEEDED, or nothing changes |
| `Retail.FailRetailPayment` | retail/services.py:535-590 | temporary holds are cancelled and the attempt FAILED, or nothing changes |
| `DraftSteps.DraftStoresTheLines` | orders/services.py:596-624 | a business draft stores one row per line, in order, with the line's offer, product, quantity and price |
| `DraftSteps.CheckoutStoresTheCart` | retail/services.py:289-352 | a checkout stores one line per cart line, in order, at the offer's current EUR price, within the limits, no price twice, and a 90 minute window; nothing else changes |
| `ServiceLaws.CheckoutIsExact` | retail/services.py:289-352 | a checkout is created exactly for a supported destination, 1 to 20 lines of 1 to 20 units, prices the shop shows, none twice, and at most 1000.00 in total |
| `DraftSteps.CheckoutIsPriced` | retail/services.py:300-352 | a checkout is stored with exactly the total that was checked against the limit, above zero |
| `RetailSteps.PaymentStartsExactly` | retail/services.py:355-472 | a retail payment starts exactly when the checkout may be paid and, without the order's earlier holds, its offers may be sold and each pool has the units asked of its offer; charging cannot fail after that |
| `SupplyLaws.StartingIsExact` | retail/services.py:355-472 | starts exactly for a retail draft with a running checkout and no pending attempt, whose offers are on sale and have the units free that other orders leave |
| `ServiceLaws.StartedPaymentIs` | retail/services.py:425-472 | one PENDING attempt over the order's total, every line held in full for 35 minutes, nothing else changed |
| `RefusalLaws.StartingRefusals` | retail/services.py:355-472 | which error: missing, not payable, or a shortage |
| `RetailSteps.FailedPaymentsReleaseAll` | retail/services.py:584-590 | a failed payment leaves its draft order holding nothing, and no other order's rows change |
| `RetailSteps.PromotionIsTotal` | reservations/services.py:253-294 | for a hold that is all or nothing, promotion covers every line for good |
| `RetailSteps.PaidOrdersWereHeldInFull` | retail/services.py:510-532 | no order is placed on an expired or partial hold |
| `RetailSteps.PaymentCompletesExactly` | retail/services.py:475-532 | a confirmed payment places its order exactly when the attempt is pending, its order is a draft held in full until a deadline that has not passed, and a given transaction id is not all blanks |
| `RefusalLaws.SettlingRefusals` | retail/services.py:475-590 | which error completing and failing a payment report |
| `ServiceLaws.CoveredIs` | reservations/services.py:253-294 | held in full means: the order has lines, its RESERVED rows share the deadline, and they add up to each line's quantity |
| `Reconciliation.ApplyReconciliation` | payments/services.py:342-410 | on success the local status agrees with the provider's; a decided attempt is never changed and accepted exactly when both sides tell the same outcome; a refusal changes nothing |
| `Reconciliation.ReconcileRetailPayment` | payments/services.py:267-339 | success means the provider answered about exactly this attempt's payment and the local status now agrees with it; every error changes nothing |
| `ReconciliationLaws.UnansweredIs` | payments/services.py:267-339 | without an answer about the attempt's payment, the first reason that applies is reported |
| `ReconciliationLaws.DecidedIs` | payments/services.py:352-407 | a decided attempt never changes, and its answer is accepted exactly when it does not contradict the decision |
| `ReconciliationLaws.SettlingIsExact` | payments/services.py:342-410 | a pending attempt is settled exactly when its order is a draft, for a success held in full until a deadline to come and under a usable id: success places the order and holds its rows for good, failure releases them; while the provider waits nothing changes |
| `Reconciliation.ReconcilingTwice` | payments/services.py:342-410 | after a first success the same answer changes nothing and raises nothing, exactly unless that success recorded an id with surrounding blanks |
| `Witnesses.PaddedIdBreaksIdempotence` | payments/services.py:131-146 | a run of the system after which the provider's answer applies once, and raises a conflict when applied again |
| `Reconciliation.TerminalAttemptsStay` | payments/services.py:352-407 | reconciling an attempt that is not pending never changes anything |
| `Reconciliation.ReconcilePendingRetailPayments` | retail/reconciliation.py:31-136 | the loop leaves `BatchSpec` of the selected ids and its eight counters |
| `ReconciliationLaws.SelectedAre` | payments/selectors.py:6-29 | the job selects exactly the pending attempts, each once |
| `ReconciliationLaws.JobSettlesEach` | retail/reconciliation.py:57-125 | the job leaves each pending attempt, its order and its rows as its own answer and order decide |
| `ReconciliationLaws.CountersAre` | retail/reconciliation.py:49-125 | each counter is the number of attempts with that verdict, errors and unresolved included, and the verdicts add up |
| `ReconciliationFacts.BatchIsAsIfAlone` | retail/reconciliation.py:57-125 | in any order and with repetitions, every pending attempt, its order and that order's allocations end as if handled alone, and everything else stays |
| `ReconciliationFacts.ReconciliationIsOrderFree` | retail/reconciliation.py:57-125 | the final state depends only on the set of attempts, not on the processing order |
| `ReconciliationFacts.BatchTwice` | retail/reconciliation.py:57-125 | reconciling the same attempts again with the same answers changes nothing |
| `ReconciliationFacts.JobTwice` | retail/reconciliation.py:44-125 | running the job again, which selects the pending attempts anew, changes nothing |
| `ReconciliationFacts.CountersAreTrue` | retail/reconciliation.py:49-125 | the counters are the numbers of attempts that are now succeeded, failed, or still pending |
| `ReconciliationFacts.JobAccountsForEveryAttempt` | payments/selectors.py:6-29 | every pending retail attempt is selected once, and checked and unresolved, then the outcomes, add up |
| `Runs.StepKeepsInv` | orders/services.py:366-593 | every transaction and clock tick keeps the invariant |
| `Execution.Execute` | orders/services.py:366-593 | calling any service on a database that satisfies the invariant leaves the state after its step, and the invariant holds again |
| `Execution.ExecuteAll` | orders/services.py:366-593 | calling services one after the other leaves the state of the run |
| `Runs.NeverOversold` | reservations/providers.py:28-42 | in every run active reservations never exceed the quantity of a batch, a closed batch has none, and status follows quantity |
| `Runs.PlacedOrdersCanBePacked` | reservations/services.py:194-243 | in every run packing any PLACED order finds allocations and every pick passes |
| `Runs.LinesAreCovered` | reservations/services.py:88-112 | in every run each line is covered exactly: RESERVED rows of its product, each batch once, no deadline while PLACED; CONSUMED rows after packing; cancelled orders and business drafts hold nothing |
| `Runs.RetailHoldsAreAllOrNothing` | retail/services.py:436-468 | in every run a retail draft holds nothing, or every line exactly until one common deadline |
| `Runs.PromotionIsAllOrNothing` | reservations/services.py:253-294 | in every run promotion makes every line permanently covered, and raises exactly when nothing is held or the deadline has passed |
| `Runs.RetailOrdersArePaidOnce` | retail/services.py:510-532 | in every run a placed retail order has exactly one SUCCEEDED attempt, a draft none, any at most one, for the order's total, above 0 and at most 1000.00 |
| `Conservation.StockIsConserved` | inventory/models.py:254-311 | in every run units on the shelf plus consumed units of a batch are units received plus signed corrections |
| `Conservation.PackUnits` | reservations/services.py:220-243 | packing turns shelf units into consumed units one for one, per batch what the order held |
| `Conservation.ConsumedForever` | orders/services.py:502-514 | no run deletes or changes a CONSUMED row |
| `Conservation.ClosedForever` | inventory/models.py:147-179 | no run changes the row of a CLOSED batch |
| `Conservation.TerminalForever` | payments/services.py:107-182 | no run changes a decided attempt, and a successful one never disappears |
| `Lifecycle.LeadsIsReachability` | orders/models.py:62-68 | one status leads to another exactly when a finite chain of allowed transitions connects them |
| `Lifecycle.OrdersOnlyMoveForward` | orders/models.py:366-378 | in every run an order keeps its channel and never moves backwards along its lifecycle, and the key of a deleted order is never used again |
| `Uniqueness.BatchCodesStayUnique` | inventory/services.py:30-94 | in every run no two batches share a code |
| `Uniqueness.PaymentIdsStayUnique` | payments/models.py:110-119 | in every run a provider payment id belongs to at most one attempt |
| `PackSteps.PackingNeverFails` | orders/services.py:536-552 | under the invariant a placed order can be packed |
| `PackSteps.PackingClearsTheChecklist` | ops_portal/orders/services.py:55-79 | packing clears the order's marks and no other |
| `PackSteps.PackKeepsInv` | orders/services.py:536-552 | packing keeps the invariant |
| `EditSteps.UpdatePlacedKeepsInv` | orders/services.py:388-530 | editing keeps the invariant and touches only this order's allocations |
| `RetailSteps.StartPaymentKeepsInv` | retail/services.py:355-472 | starting a payment keeps the invariant and covers every line until one deadline |
| `RetailSteps.CompleteKeepsInv` | retail/services.py:475-532 | completing a payment keeps the invariant |
| `RetailSteps.FailKeepsInv` | retail/services.py:535-590 | failing a payment keeps the invariant |
| `OrderSteps.CancelKeepsInv` | orders/services.py:558-578 | cancelling keeps the invariant |
| `DraftSteps.DiscardKeepsInv` | orders/services.py:349-360 | discarding keeps the invariant, so no consumed row goes with an order |
| `StockSteps.UpdateBatchKeepsInv` | inventory/services.py:97-153 | a correction keeps the invariant |
| `StockSteps.CloseBatchKeepsInv` | inventory/services.py:156-186 | closing keeps the invariant |
| `StockSteps.TickKeepsInv` | reservations/providers.py:28-42 | as time passes holds only stop being active |
| `ServiceLaws.DemandsAre` | pricing/models.py:22-79 | the services demand no more of the tables than foreign keys, a batch offer's batch being of its product, and key sequences |
| `ServiceLaws.RevisingIsExact` | pricing/models.py:69-79 | maintenance may change anything that keeps offers' identity, foreign keys and the two unique constraints |

## Left out

- SQL, row locks and lock order: every service is one atomic step, with a single `now` per transaction; nothing is claimed about deadlocks.
- Draft and cart line editing, and `resolve_business_order_lines` (the same convert-then-merge keyed by product): placement starts from any draft with storable lines, sharing offers or not.
- `Retail.CreatePendingRetailOrder`: whether the destination is supported is an input, and the buyer snapshot is not modelled.
- `Reconciliation.ReconcileRetailPayment`: the provider is a fixed table of answers by payment id; hosted-session creation and webhook parsing are not modelled, and any exception of the call is one error.
- `InventoryServices.CreateBatch`: the batch code is given and already normalised; id generation, location and audit fields are not modelled.
- `Planning.EarlierIsStrictTotal`: batch codes are compared by code point as Python does; a database collation is not modelled.
- `Reservations.ConsumeReservationsForOrder`: batches are visited in key order, and an error reports that a batch failed, not which one.
- `Catalog.ListBusinessCatalogProducts`: products and offers are listed in key order; names, translations and display order are not modelled.
- `OfferChoiceFacts.EditWithinFiguresSucceeds`: about the resolved lines that reach the service; the form's parsing of its fields is not modelled.
- `Conservation.TerminalForever`: a failed attempt can only disappear together with a discarded draft.
- Order currency is always EUR; the SEK amounts of offers only matter for being unpriced in EUR.
- `cancel_pending_payment_attempts_for_order` is not modelled; no modelled service calls it.
- The retail catalog's unit figures, customers, capabilities, views and reports.
- Maintenance of products and prices is one step that may change anything except the identity (product, batch, channel) of existing offers.
