/**
 Two concrete runs of the system, each ending in a state where a promise of the code fails: a provider
 answer that cannot be applied twice, and an edit form whose figure is not the real stock.
 */
module Witnesses {
  import opened Common
  import opened Records
  import Planning
  import opened Pricing
  import opened InventoryServices
  import opened ReservationSelectors
  import opened Reservations
  import opened ReservationFacts
  import opened Placement
  import opened PlacementFacts
  import opened Orders
  import opened OrderEdit
  import opened Payments
  import opened Retail
  import opened Reconciliation
  import opened Invariant
  import opened StockSteps
  import opened EditFacts
  import opened Catalog
  import opened CatalogFacts
  import opened CatalogGuarantees
  import opened OfferChoices
  import opened OfferChoiceFacts
  import opened Runs

  // ---------- Computing a run step by step ----------

  /** One more successful transaction. */
  lemma RunStep(steps: seq<Step>, db: Db, step: Step, db': Db)
    requires Reached(0, 0, steps) == db && OfferKeysOk(db) && LineKeysBelow(db) && Apply(db, step) == Ok(db')
    ensures Reached(0, 0, steps + [step]) == db'
  {
    hide Apply, Inv, OfferKeysOk, LineKeysBelow;
    assert (steps + [step])[..|steps|] == steps;
  }

  lemma ReachedIsSound(steps: seq<Step>)
    ensures Inv(Reached(0, 0, steps)) && OfferKeysOk(Reached(0, 0, steps)) && LineKeysBelow(Reached(0, 0, steps))
  {
    hide Inv;
    InvGivesKeys(Reached(0, 0, steps));
  }

  lemma OneBatchPlan(db: Db, b: nat, quantity: pos)
    requires b < |db.batches| && quantity <= FreeUnits(db, b)
    ensures LinePlan(db, [b], quantity) == Ok([Planning.BatchPick(b, quantity)])
  {
    hide FreeUnits, ActiveReserved;
    AvailabilityFacts(db, [b]);
    var a, reserved := Availability(db, [b]), ReservedMap(db, [b]);
    assert a == [AvailabilityOf(db, b)] && a[1..] == [];
    assert Planning.Sorted(a) == a;
    assert Planning.TotalFree(a, reserved) == FreeUnits(db, b);
    assert Planning.Greedy(a, reserved, quantity) == [Planning.BatchPick(b, quantity)];
  }

  /** A line whose pool is one batch with enough units gets one row on that batch. */
  lemma OneBatchReservation(db: Db, l: nat, channel: Channel, until: Option<int>, b: nat)
    requires OfferKeysOk(db) && l in db.lines && MaySell(db, l, channel) && b < |db.batches|
    requires db.lines[l].offer < |db.offers| && OfferOk(db, db.lines[l].offer) && Pool(db, db.lines[l].offer, EUR) == [b]
    requires db.lines[l].quantity <= FreeUnits(db, b)
    ensures ReserveLinesSpec(db, [l], channel, until)
         == Ok(db.(allocations := db.allocations[db.nextAllocation :=
                     AllocationRow(db.lines[l].order, l, b, db.lines[l].quantity, Reserved, until)],
                   nextAllocation := db.nextAllocation + 1))
  {
    hide Pool, MaySell, LinePlan, LinePool, FreeUnits, OfferKeysOk;
    SoldFromItsPool(db, l, channel);
    PoolFitsProduct(db, db.lines[l].offer, EUR, db.lines[l].product);
    OneBatchPlan(db, b, db.lines[l].quantity);
    var row := AllocationRow(db.lines[l].order, l, b, db.lines[l].quantity, Reserved, until);
    OneRowAdded(db.allocations, db.nextAllocation, row);
    assert ReserveOneSpec(db, l, channel, until)
        == Ok(db.(allocations := db.allocations[db.nextAllocation := row], nextAllocation := db.nextAllocation + 1));
    assert [l][1..] == [];
  }

  lemma OneRowAdded(t: Allocations, next: nat, row: AllocationRow)
    requires row.status.Reserved?
    ensures AddAllocations(t, next, row.order, row.line, row.reservedUntil, [Planning.BatchPick(row.batch, row.quantity)])
         == t[next := row]
  {
    var picks := [Planning.BatchPick(row.batch, row.quantity)];
    assert picks[..0] == [];
  }

  lemma NothingReserved(db: Db, b: nat)
    requires forall i :: i in db.allocations ==> !db.allocations[i].status.Reserved?
    ensures ActiveReserved(db, b) == 0
  {
    TotalZero(db.allocations, db.nextAllocation, ActiveOn(b, db.now));
  }

  // ---------- A padded transaction id ----------

  const ONE_PRODUCT: seq<ProductRow> := [ProductRow(true, 1)]
  const RETAIL_OFFERS: seq<OfferRow> := [OfferRow(0, None, Retail, true, map[EUR := 100])]
  const ONE_BATCH: seq<BatchRow> := [BatchRow("a", 0, 10, 100, BatchStatus.Active)]

  /** A product, its retail price, a batch, and a checkout for one unit. */
  function CheckedOut(): Db {
    Db(ONE_PRODUCT, ONE_BATCH, RETAIL_OFFERS, map[0 := OrderRow(Retail, Draft)], 1,
       map[0 := LineRow(0, 0, 1, Some(100), 0)], 1, map[], 0, map[], 0, map[0 := RETAIL_CHECKOUT_WINDOW], {}, 0, 0)
  }

  /** The payment has started and the provider knows it as "p". */
  function AwaitingPayment(): Db {
    CheckedOut().(
      allocations := map[0 := AllocationRow(0, 0, 0, 1, Reserved, Some(RETAIL_PAYMENT_RESERVATION_WINDOW))], nextAllocation := 1,
      attempts := map[0 := AttemptRow(0, 100, AttemptStatus.Pending, "p", "")], nextAttempt := 1)
  }

  /** The payment before the provider's id is known. */
  function StartedPayment(): Db {
    AwaitingPayment().(attempts := map[0 := AttemptRow(0, 100, AttemptStatus.Pending, "", "")])
  }

  /** A provider that reports success under an id with a blank after it. */
  function PaddingProvider(): Provider {
    map["p" := ExternalState("p", ExternalStatus.Succeeded, Some("x "))]
  }

  function StockingSteps(offers: seq<OfferRow>): seq<Step> {
    [ReviseCatalog(ONE_PRODUCT, offers)] + [CreateBatch(0, 10, 100, "a", false)]
  }

  /** A catalog of one product-wide offer, without stock. */
  function Listed(offer: OfferRow): Db {
    Db(ONE_PRODUCT, [], [offer], map[], 0, map[], 0, map[], 0, map[], 0, map[], {}, 0, 0)
  }

  lemma ListingIsReached(offer: OfferRow)
    requires offer.product == 0 && offer.batch.None?
    ensures Reached(0, 0, [ReviseCatalog(ONE_PRODUCT, [offer])]) == Listed(offer)
  {
    hide Inv;
    var empty := Initial(0, 0);
    assert OfferOk(Listed(offer), 0);
    assert ReviseSpec(empty, ONE_PRODUCT, [offer]) == Ok(Listed(offer));
    hide ReviseSpec;
    assert Reached(0, 0, []) == empty;
    hide Reached;
    RunStep([], empty, ReviseCatalog(ONE_PRODUCT, [offer]), Listed(offer));
    assert [] + [ReviseCatalog(ONE_PRODUCT, [offer])] == [ReviseCatalog(ONE_PRODUCT, [offer])];
  }

  lemma FirstBatch(offer: OfferRow)
    ensures CreateBatchSpec(Listed(offer), 0, 10, 100, "a", false) == Ok(Listed(offer).(batches := ONE_BATCH))
  {
    assert [] + ONE_BATCH == ONE_BATCH;
  }

  lemma Stocked(offer: OfferRow)
    requires offer.product == 0 && offer.batch.None?
    ensures Reached(0, 0, StockingSteps([offer])) == Listed(offer).(batches := ONE_BATCH)
  {
    hide Inv, Reached, CreateBatchSpec, OfferKeysOk, LineKeysBelow;
    ListingIsReached(offer);
    ReachedIsSound([ReviseCatalog(ONE_PRODUCT, [offer])]);
    FirstBatch(offer);
    RunStep([ReviseCatalog(ONE_PRODUCT, [offer])], Listed(offer), CreateBatch(0, 10, 100, "a", false), Listed(offer).(batches := ONE_BATCH));
  }

  function CheckoutSteps(): seq<Step> {
    StockingSteps(RETAIL_OFFERS) + [CheckOut(true, [RetailLineInput(0, 1)])]
  }

  function PaymentSteps(): seq<Step> {
    CheckoutSteps() + [StartPayment(0)] + [AttachProvider(0, "p")]
  }

  lemma CheckoutIsReached()
    ensures Reached(0, 0, CheckoutSteps()) == CheckedOut()
  {
    hide Inv, Reached;
    var db := CheckedOut().(orders := map[], nextOrder := 0, lines := map[], nextLine := 0, checkouts := map[]);
    Stocked(RETAIL_OFFERS[0]);
    assert RETAIL_OFFERS == [RETAIL_OFFERS[0]];
    ReachedIsSound(StockingSteps(RETAIL_OFFERS));
    var inputs := [RetailLineInput(0, 1)];
    assert Resolvable(db, 0);
    var lines := Resolve(db, inputs);
    assert lines == [ResolvedLine(0, 1, Some(0), Some(100))];
    assert lines[..0] == [];
    assert LinesTotalPrice(lines) == 100;
    assert AddLines(db.lines, 0, 0, lines) == map[0 := LineRow(0, 0, 1, Some(100), 0)];
    assert CreateRetailSpec(db, true, inputs) == Ok(CheckedOut());
    RunStep(StockingSteps(RETAIL_OFFERS), db, CheckOut(true, inputs), CheckedOut());
  }

  lemma CheckoutPool(db: Db)
    requires db == CheckedOut()
    ensures OfferOk(db, 0) && Pool(db, 0, EUR) == [0] && FreeUnits(db, 0) == 10
  {
    assert !ClaimedByBatchOffer(db, Retail, EUR, 0);
    assert InPool(db, 0, EUR, 0);
    assert PoolBelow(db, 0, EUR, 1) == PoolBelow(db, 0, EUR, 0) + [0];
    NothingReserved(db, 0);
  }

  lemma CheckoutIsHeld()
    ensures OfferKeysOk(CheckedOut())
    ensures HoldSpec(CheckedOut(), 0)
         == Ok(CheckedOut().(allocations := AwaitingPayment().allocations, nextAllocation := 1))
  {
    hide Pool, FreeUnits, ReserveLinesSpec;
    var db := CheckedOut();
    assert OfferOk(db, 0);
    CheckoutPool(db);
    assert WithoutTemporary(db, 0) == db;
    assert OrderLines(db, 0) == [0];
    OneBatchReservation(db, 0, Retail, Some(RETAIL_PAYMENT_RESERVATION_WINDOW), 0);
    HoldUnfolds(db, 0, db, [0], Some(RETAIL_PAYMENT_RESERVATION_WINDOW));
  }

  lemma CheckoutIsCharged(held: Db)
    requires held.lines == CheckedOut().lines && held.nextLine == 1 && held.attempts == map[] && held.nextAttempt == 0
    ensures CreateAttemptSpec(held, 0)
         == Ok(held.(attempts := map[0 := AttemptRow(0, 100, AttemptStatus.Pending, "", "")], nextAttempt := 1))
  {
    assert TotalBelow(held.lines, 0, 0) == Some(0);
    assert OrderTotal(held, 0) == Some(100);
  }

  lemma PaymentStarts()
    ensures OfferKeysOk(CheckedOut())
    ensures StartPaymentSpec(CheckedOut(), 0)
         == Ok(StartedPayment())
  {
    hide HoldSpec, CreateAttemptSpec, OfferKeysOk;
    var db := CheckedOut();
    CheckoutIsHeld();
    CheckoutIsCharged(HoldSpec(db, 0).value);
    assert OrderLines(db, 0) == [0];
  }

  lemma ProviderIsAttached()
    ensures AttachProviderSpec(StartedPayment(), 0, "p") == Ok(AwaitingPayment())
  {
    var started := StartedPayment();
    assert started.attempts[0 := started.attempts[0].(providerPaymentId := "p")] == AwaitingPayment().attempts;
  }

  lemma AwaitingPaymentIsReached()
    ensures Reached(0, 0, PaymentSteps()) == AwaitingPayment()
  {
    hide Inv, Reached, StartPaymentSpec, AttachProviderSpec, CheckedOut, AwaitingPayment, StartedPayment, CheckoutSteps, OfferKeysOk, LineKeysBelow;
    CheckoutIsReached();
    ReachedIsSound(CheckoutSteps());
    PaymentStarts();
    RunStep(CheckoutSteps(), CheckedOut(), StartPayment(0), StartedPayment());
    ReachedIsSound(CheckoutSteps() + [StartPayment(0)]);
    ProviderIsAttached();
    RunStep(CheckoutSteps() + [StartPayment(0)], StartedPayment(), AttachProvider(0, "p"), AwaitingPayment());
  }

  lemma PaddedIdIsNotTrimmed()
    ensures Strip("x ") == "x" && !Trimmed("x ")
  {
    assert "x "[..1] == "x";
    assert StripLeft("x ") == "x " && StripRight("x") == "x";
    assert Strip("x ") == StripRight("x") == "x";
  }

  /** A run after which applying the provider's answer succeeds, and applying it again raises. */
  lemma PaddedIdBreaksIdempotence()
    ensures var db, provider := Reached(0, 0, PaymentSteps()), PaddingProvider();
            && Inv(db)
            && ReconcileSpec(db, 0, provider).Ok?
            && ReconcileSpec(ReconcileSpec(db, 0, provider).value, 0, provider) == Err(PaymentReconciliationConflict)
  {
    hide Inv, Reached, Strip, Trimmed, IsBlank;
    var db, provider := AwaitingPayment(), PaddingProvider();
    AwaitingPaymentIsReached();
    ReachedIsSound(PaymentSteps());
    PaddedIdIsNotTrimmed();
    assert ActiveFor(db.allocations[0], 0, db.now);
    assert PlacePaidSpec(db, 0).Ok?;
    ReconcilingTwice(db, 0, provider, ReconcileSpec(db, 0, provider).value);
  }

  // ---------- A batch offer that lost its price ----------

  function StandardOffer(): OfferRow {
    OfferRow(0, None, Business, true, map[])
  }

  function BatchOfferPriced(amounts: map<Currency, pos>): OfferRow {
    OfferRow(0, Some(0), Business, true, amounts)
  }

  /** A business draft of four units on the priced batch offer. */
  function BusinessDraft(): Db {
    Db(ONE_PRODUCT, ONE_BATCH, [StandardOffer(), BatchOfferPriced(map[EUR := 100])],
       map[0 := OrderRow(Business, Draft)], 1, map[0 := LineRow(0, 0, 4, Some(100), 1)], 1,
       map[], 0, map[], 0, map[], {}, 0, 0)
  }

  /** The order was placed, and then the batch offer lost its EUR price: the batch is back in the
      standard offer's pool, but the order's units are added back to neither offer. */
  function LostPrice(): Db {
    BusinessDraft().(
      offers := [StandardOffer(), BatchOfferPriced(map[])],
      orders := map[0 := OrderRow(Business, Placed)],
      allocations := map[0 := AllocationRow(0, 0, 0, 4, Reserved, None)], nextAllocation := 1)
  }

  function DraftSteps(): seq<Step> {
    StockingSteps([StandardOffer()])
    + [ReviseCatalog(ONE_PRODUCT, [StandardOffer(), BatchOfferPriced(map[EUR := 100])])]
    + [CreateDraft([ResolvedLine(0, 4, Some(1), Some(100))])]
  }

  function LostPriceSteps(): seq<Step> {
    DraftSteps() + [PlaceOrder(0)] + [ReviseCatalog(ONE_PRODUCT, [StandardOffer(), BatchOfferPriced(map[])])]
  }

  lemma Repriced(db: Db, amounts: map<Currency, pos>)
    requires db.products == ONE_PRODUCT && db.batches == ONE_BATCH && 1 <= |db.offers| <= 2
    requires db.offers[0] == StandardOffer()
    requires |db.offers| == 2 ==> db.offers[1].product == 0 && db.offers[1].batch == Some(0) && db.offers[1].channel.Business?
    ensures ReviseSpec(db, ONE_PRODUCT, [StandardOffer(), BatchOfferPriced(amounts)])
         == Ok(db.(offers := [StandardOffer(), BatchOfferPriced(amounts)]))
  {
    var offers := [StandardOffer(), BatchOfferPriced(amounts)];
    var db' := db.(products := ONE_PRODUCT, offers := offers);
    assert OfferOk(db', 0) && OfferOk(db', 1);
    assert !SameScope(offers[0], offers[1]);
  }

  lemma DraftIsReached()
    ensures Reached(0, 0, DraftSteps()) == BusinessDraft()
  {
    hide Inv, Reached, ReviseSpec;
    var offers := [StandardOffer(), BatchOfferPriced(map[EUR := 100])];
    var stocked := BusinessDraft().(offers := [StandardOffer()], orders := map[], nextOrder := 0, lines := map[], nextLine := 0);
    Stocked(StandardOffer());
    ReachedIsSound(StockingSteps([StandardOffer()]));
    Repriced(stocked, map[EUR := 100]);
    var priced := stocked.(offers := offers);
    RunStep(StockingSteps([StandardOffer()]), stocked, ReviseCatalog(ONE_PRODUCT, offers), priced);
    ReachedIsSound(StockingSteps([StandardOffer()]) + [ReviseCatalog(ONE_PRODUCT, offers)]);
    var lines := [ResolvedLine(0, 4, Some(1), Some(100))];
    assert lines[..0] == [];
    assert AddLines(priced.lines, 0, 0, lines) == BusinessDraft().lines;
    assert CreateDraftSpec(priced, lines) == Ok(BusinessDraft());
    RunStep(StockingSteps([StandardOffer()]) + [ReviseCatalog(ONE_PRODUCT, offers)], priced, CreateDraft(lines), BusinessDraft());
  }

  lemma DraftPool(db: Db)
    requires db == BusinessDraft()
    ensures OfferOk(db, 0) && OfferOk(db, 1) && Pool(db, 1, EUR) == [0] && FreeUnits(db, 0) == 10
  {
    assert InPool(db, 1, EUR, 0);
    assert PoolBelow(db, 1, EUR, 1) == PoolBelow(db, 1, EUR, 0) + [0];
    NothingReserved(db, 0);
  }

  lemma DraftMaySell()
    ensures OfferKeysOk(BusinessDraft()) && MaySell(BusinessDraft(), 0, Business)
    ensures OrderLines(BusinessDraft(), 0) == [0]
  {
    var db := BusinessDraft();
    assert OfferOk(db, 0) && OfferOk(db, 1);
  }

  lemma DraftIsPrepared()
    ensures OfferKeysOk(BusinessDraft())
    ensures PrepareBusinessSpec(BusinessDraft(), 0) == Ok(BusinessDraft().(allocations := LostPrice().allocations, nextAllocation := 1))
  {
    hide Pool, FreeUnits, ReserveLinesSpec, MaySell, OfferKeysOk, OrderLines;
    var db := BusinessDraft();
    DraftPool(db);
    DraftMaySell();
    OneBatchReservation(db, 0, Business, None, 0);
    assert db.allocations[0 := AllocationRow(0, 0, 0, 4, Reserved, None)] == LostPrice().allocations;
  }

  lemma DraftIsPlaced()
    ensures OfferKeysOk(BusinessDraft())
    ensures PlaceBusinessSpec(BusinessDraft(), 0) == Ok(LostPrice().(offers := BusinessDraft().offers))
  {
    hide PrepareBusinessSpec, OfferKeysOk;
    DraftIsPrepared();
    assert BusinessDraft().orders[0 := OrderRow(Business, Placed)] == LostPrice().orders;
  }

  lemma LostPriceIsReached()
    ensures Reached(0, 0, LostPriceSteps()) == LostPrice()
  {
    hide Inv, Reached, PlaceBusinessSpec, ReviseSpec;
    DraftIsReached();
    ReachedIsSound(DraftSteps());
    DraftIsPlaced();
    var placed := LostPrice().(offers := BusinessDraft().offers);
    RunStep(DraftSteps(), BusinessDraft(), PlaceOrder(0), placed);
    ReachedIsSound(DraftSteps() + [PlaceOrder(0)]);
    Repriced(placed, map[]);
    RunStep(DraftSteps() + [PlaceOrder(0)], placed, ReviseCatalog(ONE_PRODUCT, LostPrice().offers), LostPrice());
  }

  lemma LostPriceIsSound()
    ensures Inv(LostPrice()) && OfferKeysOk(LostPrice()) && LineKeysBelow(LostPrice())
  {
    hide Inv, Reached, OfferKeysOk, LineKeysBelow;
    LostPriceIsReached();
    ReachedIsSound(LostPriceSteps());
  }

  lemma LostPricePools()
    ensures var db := LostPrice();
            && OfferOk(db, 0) && InPool(db, 0, EUR, 0) && PoolUnits(db, 0, EUR) == 6
            && OfferOk(db, 1) && InPool(db, 1, EUR, 0)
  {
    var db := LostPrice();
    var t := db.allocations;
    assert Total(t, 1, ActiveOn(0, 0)) == Total(t, 0, ActiveOn(0, 0)) + Weight(t, 0, ActiveOn(0, 0));
    assert !Claims(db.offers[0], Business, EUR, 0) && !Claims(db.offers[1], Business, EUR, 0);
    assert PoolUnitsBelow(db, 0, EUR, 1) == PoolUnitsBelow(db, 0, EUR, 0) + FreeUnits(db, 0);
  }

  lemma LostPriceHoldings()
    ensures var db := LostPrice(); OfferOk(db, 0) && HeldInPool(db, 0, 0) == 4 && LineUnits(db, 0, 0) == 0
  {
    var db := LostPrice();
    LostPricePools();
    var q := HeldWithin(0, PoolSet(db, 0, 1));
    assert 0 in PoolSet(db, 0, 1);
    assert Total(db.allocations, 1, q) == Total(db.allocations, 0, q) + Weight(db.allocations, 0, q);
    assert LineUnitsBelow(db.lines, 1, 0, 0) == LineUnitsBelow(db.lines, 0, 0, 0);
  }

  lemma LostPriceHasCatalog()
    ensures OfferKeysOk(LostPrice()) && CatalogSpec(LostPrice()).Ok?
  {
    hide CatalogSpec, SumFree, Inv;
    var db := LostPrice();
    LostPriceIsSound();
    CatalogFailsExactly(db);
    assert IsStandardOf(db, 0, 0);
  }

  /** Lying in the pool of the own line's offer is not enough for exactness: after this run every
      reservation does, the figure is 6, and the pool without the order's reservations has 10 units. */
  lemma LostPriceBreaksExactness()
    ensures var db := Reached(0, 0, LostPriceSteps());
            && Inv(db) && OfferKeysOk(db) && 0 in db.orders && |db.offers| == 2
            && InOwnPools(db, 0) && !OffersStillEligible(db, 0)
            && ContextSpec(db, Some(0)).Ok? && 0 in ContextSpec(db, Some(0)).value
            && ContextSpec(db, Some(0)).value[0] == 6
            && FreeForEdit(db, 0, 0) == 10
  {
    hide CatalogSpec, PoolUnits, HeldInPool, LineUnits, FreeForEdit, Inv, CatalogFigures, Reached;
    var db := LostPrice();
    LostPriceIsReached();
    LostPriceIsSound();
    LostPriceHasCatalog();
    LostPricePools();
    LostPriceHoldings();
    PlacedIsCovered(db, 0);
    assert Offered(db, 0);
    ContextFigure(db, 0, 0);
    AddBackIdentity(db, 0, 0);
    assert InOwnPool(db, 0);
    assert !Eligible(db, 1) && db.lines[0].offer == 1;
  }
}
