/**
 When each service succeeds and what it leaves behind, told in the columns of the tables and in the
 limits as numbers.
 */
module ServiceLaws {
  import opened Common
  import opened Records
  import opened Pricing
  import InventoryModels
  import opened InventoryServices
  import opened StockSteps
  import opened Reservations
  import opened Placement
  import opened Orders
  import opened OrderEdit
  import opened Payments
  import opened Retail
  import opened Invariant
  import opened PackSteps
  import opened RetailSteps
  import opened PlacementLaws

  // ---------- What the services demand ----------

  /** The offer's product and batch exist, and the batch is of the product. */
  ghost predicate HasItsRows(db: Db, products: seq<ProductRow>, f: OfferRow) {
    && f.product < |products|
    && match f.batch case None => true case Some(b) => b < |db.batches| && db.batches[b].product == f.product
  }

  /** The services demand no more than foreign keys and key sequences. */
  lemma DemandsAre(db: Db)
    ensures OfferKeysOk(db) <==>
              && (forall k :: 0 <= k < |db.offers| ==> HasItsRows(db, db.products, db.offers[k]))
              && (forall l :: l in db.lines ==> db.lines[l].offer < |db.offers|)
    ensures LineKeysBelow(db) <==> forall l :: l in db.lines ==> l < db.nextLine
    ensures AllocationKeysOk(db) <==> forall i :: i in db.allocations ==> i < db.nextAllocation && db.allocations[i].batch < |db.batches|
  {
    if OfferKeysOk(db) {
      forall k | 0 <= k < |db.offers| ensures HasItsRows(db, db.products, db.offers[k]) {
        assert OfferOk(db, k);
      }
    }
    if forall k :: 0 <= k < |db.offers| ==> HasItsRows(db, db.products, db.offers[k]) {
      forall k | 0 <= k < |db.offers| ensures OfferOk(db, k) {
        assert HasItsRows(db, db.products, db.offers[k]);
      }
    }
  }

  /** Products and offers may change in any way that keeps the existing offers' product, batch and
      channel, and at most one offer per channel and batch, and per channel and product for the whole. */
  lemma RevisingIsExact(db: Db, products: seq<ProductRow>, offers: seq<OfferRow>)
    ensures RevisionAllowed(db, products, offers) <==>
              && |db.products| <= |products| && |db.offers| <= |offers|
              && (forall k :: 0 <= k < |db.offers| ==>
                    (offers[k].product, offers[k].batch, offers[k].channel)
                    == (db.offers[k].product, db.offers[k].batch, db.offers[k].channel))
              && (forall k :: 0 <= k < |offers| ==> HasItsRows(db, products, offers[k]))
              && (forall j, k :: 0 <= j < k < |offers| && offers[j].channel == offers[k].channel ==>
                    if offers[j].batch == None then offers[k].batch != None || offers[j].product != offers[k].product
                    else offers[j].batch != offers[k].batch)
  {
    var db' := db.(products := products, offers := offers);
    forall k | 0 <= k < |offers| ensures OfferOk(db', k) <==> HasItsRows(db, products, offers[k]) {
    }
    if RevisionAllowed(db, products, offers) {
      forall j, k | 0 <= j < k < |offers| && offers[j].channel == offers[k].channel
        ensures if offers[j].batch == None then offers[k].batch != None || offers[j].product != offers[k].product
                else offers[j].batch != offers[k].batch
      {
        assert !SameScope(offers[j], offers[k]);
      }
    }
  }

  // ---------- Status machines ----------

  /** An order can be placed, packed and delivered, in this order, and cancelled until it is packed. A
      batch can change between active and depleted, and can be closed for good. */
  lemma TransitionsAre(from: OrderStatus, to: OrderStatus, from': BatchStatus, to': BatchStatus)
    ensures TransitionAllowed(from, to) <==>
              (from, to) in {(Draft, Placed), (Draft, OrderStatus.Cancelled), (Placed, Packed), (Placed, OrderStatus.Cancelled),
                             (Packed, Delivered)}
    ensures InventoryModels.TransitionAllowed(from', to') <==>
              (from', to') in {(Active, Depleted), (Active, Closed), (Depleted, Active), (Depleted, Closed)}
  {
  }

  // ---------- Batches ----------

  /** A correction goes through exactly when the batch is open and the new quantity is not negative and
      not below what is reserved now; then quantity and date are the given ones, and the batch is active
      exactly when it has units. */
  lemma CorrectionIsExact(db: Db, b: nat, quantity: int, bestBefore: int)
    ensures UpdateBatchSpec(db, b, quantity, bestBefore).Ok? <==>
              b < |db.batches| && db.batches[b].status != Closed && quantity >= 0 && ActiveReserved(db, b) <= quantity
    ensures UpdateBatchSpec(db, b, quantity, bestBefore).Ok? ==>
              UpdateBatchSpec(db, b, quantity, bestBefore).value
              == db.(batches := db.batches[b :=
                   BatchRow(db.batches[b].code, db.batches[b].product, quantity, bestBefore, if quantity > 0 then Active else Depleted)])
    ensures UpdateBatchSpec(db, b, quantity, bestBefore).Err? ==>
              UpdateBatchSpec(db, b, quantity, bestBefore).error == if b < |db.batches| then InvalidStockOperation else DoesNotExist
  {
  }

  /** A batch is closed exactly when nothing on it is reserved now; its units and date stay. */
  lemma ClosingIsExact(db: Db, b: nat)
    ensures CloseBatchSpec(db, b).Ok? <==> b < |db.batches| && ActiveReserved(db, b) == 0
    ensures CloseBatchSpec(db, b).Ok? ==>
              CloseBatchSpec(db, b).value
              == db.(batches := db.batches[b :=
                   BatchRow(db.batches[b].code, db.batches[b].product, db.batches[b].quantity, db.batches[b].bestBefore, Closed)])
    ensures CloseBatchSpec(db, b).Err? ==>
              CloseBatchSpec(db, b).error == if b < |db.batches| then InvalidStockOperation else DoesNotExist
  {
  }

  // ---------- Cancelling, delivering, packing ----------

  /** The allocation rows once those that the order holds have another status. */
  function HeldRowsAs(t: Allocations, o: nat, status: AllocationStatus): Allocations {
    map i | i in t :: if t[i].order == o && t[i].status == Reserved then t[i].(status := status) else t[i]
  }

  /** The marks on other orders' rows. */
  function MarksElsewhere(db: Db, o: nat): set<nat> {
    set i | i in db.marks && !(i in db.allocations && db.allocations[i].order == o)
  }

  /** An order is cancelled exactly while it is a draft or placed; then its RESERVED rows are CANCELLED
      and nothing else changes. */
  lemma CancellingIsExact(db: Db, o: nat)
    ensures CancelSpec(db, o).Ok? <==> o in db.orders && (db.orders[o].status == Draft || db.orders[o].status == Placed)
    ensures CancelSpec(db, o).Ok? ==>
              CancelSpec(db, o).value
              == db.(orders := db.orders[o := OrderRow(db.orders[o].channel, OrderStatus.Cancelled)],
                     allocations := HeldRowsAs(db.allocations, o, AllocationStatus.Cancelled))
    ensures CancelSpec(db, o).Err? ==>
              CancelSpec(db, o).error == if o in db.orders then InvalidOrderOperation else DoesNotExist
  {
  }

  /** An order is delivered exactly when it is packed; delivering it again changes nothing. */
  lemma DeliveringIsExact(db: Db, o: nat)
    ensures DeliverSpec(db, o).Ok? <==> o in db.orders && (db.orders[o].status == Packed || db.orders[o].status == Delivered)
    ensures DeliverSpec(db, o).Ok? ==>
              DeliverSpec(db, o).value == db.(orders := db.orders[o := OrderRow(db.orders[o].channel, Delivered)])
    ensures DeliverSpec(db, o).Err? ==>
              DeliverSpec(db, o).error == if o in db.orders then InvalidOrderStatusTransition else DoesNotExist
  {
  }

  /** Units that the RESERVED rows of an order hold on a batch. */
  ghost function HeldUnits(db: Db, o: nat, b: nat): int {
    Sum(db.nextAllocation, (i: nat) => if i in db.allocations && db.allocations[i].order == o && db.allocations[i].status == Reserved
                                          && db.allocations[i].batch == b
                                       then db.allocations[i].quantity else 0)
  }

  lemma HeldIsSum(db: Db, o: nat, b: nat)
    ensures Held(db, o, b) == HeldUnits(db, o, b)
  {
    TotalIsSum(db.allocations, db.nextAllocation, HeldOn(o, b),
               (i: nat) => if i in db.allocations && db.allocations[i].order == o && db.allocations[i].status == Reserved
                                          && db.allocations[i].batch == b
                           then db.allocations[i].quantity else 0);
  }

  /** The batch row after `held` of its units left. */
  function LessUnits(row: BatchRow, held: int): BatchRow {
    if 0 < held <= row.quantity
    then row.(quantity := row.quantity - held, status := if row.quantity == held then Depleted else Active)
    else row
  }

  ghost function WithoutHeldUnits(db: Db, o: nat): seq<BatchRow> {
    seq(|db.batches|, (b: nat) requires b < |db.batches| => LessUnits(db.batches[b], HeldUnits(db, o, b)))
  }

  lemma PickedRowIs(db: Db, o: nat, b: nat)
    requires b < |db.batches| && PickFor(db, o, b).Ok?
    ensures 0 <= HeldUnits(db, o, b) <= db.batches[b].quantity || HeldUnits(db, o, b) == 0
    ensures PickedBatch(db, o, b) == LessUnits(db.batches[b], HeldUnits(db, o, b))
  {
    hide HeldUnits, Held;
    HeldIsSum(db, o, b);
  }

  /** In every state that satisfies the invariant an order is packed exactly when it is placed. No batch
      has less than the order held on it; each loses exactly that, and is depleted when nothing is left.
      The held rows are CONSUMED, and the marks on the order's rows are gone. */
  lemma PackingIsExact(db: Db, o: nat)
    requires Inv(db)
    ensures PackSpec(db, o).Ok? <==> o in db.orders && db.orders[o].status == Placed
    ensures PackSpec(db, o).Ok? ==> forall b: nat :: b < |db.batches| ==> 0 <= HeldUnits(db, o, b) <= db.batches[b].quantity
    ensures PackSpec(db, o).Ok? ==>
              PackSpec(db, o).value
              == db.(orders := db.orders[o := OrderRow(db.orders[o].channel, Packed)],
                     batches := WithoutHeldUnits(db, o),
                     allocations := HeldRowsAs(db.allocations, o, Consumed), marks := MarksElsewhere(db, o))
  {
    hide Inv, HeldUnits, PackSpec, PickFor, PickedBatch, PickedBatches, LessUnits, WithoutHeldUnits, HeldRowsAs, MarksElsewhere;
    PackUnfolds(db, o);
    if o in db.orders && db.orders[o].status == Placed {
      PackingNeverFails(db, o);
      forall b: nat | b < |db.batches|
        ensures 0 <= HeldUnits(db, o, b) <= db.batches[b].quantity
        ensures PickedBatch(db, o, b) == LessUnits(db.batches[b], HeldUnits(db, o, b))
      {
        PickedRowIs(db, o, b);
      }
      PickedBatchesAre(db, o);
    }
  }

  lemma PickedBatchesAre(db: Db, o: nat)
    requires forall b: nat :: b < |db.batches| ==> PickedBatch(db, o, b) == LessUnits(db.batches[b], HeldUnits(db, o, b))
    ensures PickedBatches(db, o) == WithoutHeldUnits(db, o)
  {
    hide HeldUnits, PickedBatch, LessUnits;
  }

  lemma PackUnfolds(db: Db, o: nat)
    ensures PackSpec(db, o).Ok? ==> o in db.orders && db.orders[o].status == Placed
    ensures PackSpec(db, o).Ok? ==>
              PackSpec(db, o).value
              == db.(orders := db.orders[o := OrderRow(db.orders[o].channel, Packed)],
                     batches := PickedBatches(db, o),
                     allocations := HeldRowsAs(db.allocations, o, Consumed), marks := MarksElsewhere(db, o))
  {
    hide Held, PickFor, PickedBatches;
  }

  // ---------- Drafts and checkouts ----------

  /** What a channel hands over as a line can be stored: its offer is one of the channel and of the
      line's product, its quantity is positive, and its price, if any, is positive. */
  ghost predicate IsOrderable(db: Db, channel: Channel, line: ResolvedLine) {
    && line.offer.Some? && line.offer.value < |db.offers|
    && db.offers[line.offer.value].product == line.product && db.offers[line.offer.value].channel == channel
    && line.quantity > 0 && (line.unitPrice.Some? ==> line.unitPrice.value > 0)
  }

  /** A draft is created exactly from lines, at least one, that can be stored. */
  lemma DraftingIsExact(db: Db, lines: seq<ResolvedLine>)
    ensures CreateDraftSpec(db, lines).Ok? <==> |lines| > 0 && forall i :: 0 <= i < |lines| ==> IsOrderable(db, Business, lines[i])
  {
    if CreateDraftSpec(db, lines).Ok? {
      forall i | 0 <= i < |lines| ensures IsOrderable(db, Business, lines[i]) {
        assert CommercialOfferValid(db, Business, lines[i]) && Storable(lines[i]);
      }
    }
    if |lines| > 0 && forall i :: 0 <= i < |lines| ==> IsOrderable(db, Business, lines[i]) {
      forall i | 0 <= i < |lines| ensures CommercialOfferValid(db, Business, lines[i]) && Storable(lines[i]) {
        assert IsOrderable(db, Business, lines[i]);
      }
    }
  }

  /** A price the shop shows: an enabled, priced RETAIL offer of an active product, and, when it is about
      one batch, one that may be sold from now. */
  ghost predicate InShop(db: Db, k: nat) {
    && k < |db.offers| && db.offers[k].product < |db.products|
    && db.offers[k].channel == Retail && db.offers[k].enabled && db.products[db.offers[k].product].active
    && EUR in db.offers[k].amounts
    && (db.offers[k].batch.Some? ==> SellsFrom(db, k, db.offers[k].batch.value))
  }

  lemma ShopIsResolvable(db: Db, k: nat)
    requires OfferKeysOk(db)
    ensures Resolvable(db, k) <==> InShop(db, k)
  {
    hide SellsFrom, Pool, RetailPool;
    assert k < |db.offers| ==> OfferOk(db, k);
    if k < |db.offers| && db.offers[k].batch.Some? {
      var pool := RetailPool(db, k, EUR);
      PoolsAreSellable(db, k, db.offers[k].batch.value);
      if pool != [] {
        assert pool[0] in pool;
        PoolsAreSellable(db, k, pool[0]);
        OwnBatchOnly(db, k, pool[0]);
      }
    }
  }

  lemma OwnBatchOnly(db: Db, k: nat, b: nat)
    requires SellsFrom(db, k, b)
    ensures db.offers[k].batch.Some? ==> db.offers[k].batch == Some(b)
  {
  }

  /** Price times quantity over the cart, for offers that have a price. */
  ghost function CartTotal(db: Db, cart: seq<RetailLineInput>): int {
    Sum(|cart|, (i: nat) => if i < |cart| && cart[i].offer < |db.offers| && EUR in db.offers[cart[i].offer].amounts
                            then db.offers[cart[i].offer].amounts[EUR] * cart[i].quantity else 0)
  }

  lemma {:induction false} ResolvedTotal(db: Db, cart: seq<RetailLineInput>, n: nat, f: nat -> int)
    requires OfferKeysOk(db) && AllResolvable(db, cart) && n <= |cart|
    requires forall i: nat :: i < |cart| && cart[i].offer < |db.offers| && EUR in db.offers[cart[i].offer].amounts ==>
               f(i) == db.offers[cart[i].offer].amounts[EUR] * cart[i].quantity
    ensures LinesTotalPrice(Resolve(db, cart)[..n]) == Sum(n, f)
  {
    if n > 0 {
      ResolvedTotal(db, cart, n - 1, f);
      var lines := Resolve(db, cart)[..n];
      assert lines[..n - 1] == Resolve(db, cart)[..n - 1];
      assert Resolvable(db, cart[n - 1].offer);
    }
  }

  /** A checkout is created exactly for a supported destination, from 1 to 20 lines of 1 to 20 units, on
      prices the shop shows, none twice, and for at most 1000 euros; every refusal is the same error. */
  lemma CheckoutIsExact(db: Db, destinationSupported: bool, cart: seq<RetailLineInput>)
    requires OfferKeysOk(db)
    ensures CreateRetailSpec(db, destinationSupported, cart).Ok? <==>
              && destinationSupported && 1 <= |cart| <= 20
              && (forall i :: 0 <= i < |cart| ==> 1 <= cart[i].quantity <= 20 && InShop(db, cart[i].offer))
              && (forall i, j :: 0 <= i < j < |cart| ==> cart[i].offer != cart[j].offer)
              && CartTotal(db, cart) <= 100000
    ensures CreateRetailSpec(db, destinationSupported, cart).Err? ==>
              CreateRetailSpec(db, destinationSupported, cart).error == InvalidRetailOrder
  {
    hide Resolvable, InShop, LinesTotalPrice, CartTotal, OfferKeysOk, Resolve, WithRetailOrder;
    forall i | 0 <= i < |cart| ensures Resolvable(db, cart[i].offer) <==> InShop(db, cart[i].offer) {
      ShopIsResolvable(db, cart[i].offer);
    }
    if AllResolvable(db, cart) {
      CartTotalIs(db, cart);
    }
  }

  lemma CartTotalIs(db: Db, cart: seq<RetailLineInput>)
    requires OfferKeysOk(db) && AllResolvable(db, cart)
    ensures LinesTotalPrice(Resolve(db, cart)) == CartTotal(db, cart)
  {
    ResolvedTotal(db, cart, |cart|, (i: nat) => if i < |cart| && cart[i].offer < |db.offers| && EUR in db.offers[cart[i].offer].amounts
                                                then db.offers[cart[i].offer].amounts[EUR] * cart[i].quantity else 0);
    assert Resolve(db, cart)[..|cart|] == Resolve(db, cart);
  }

  // ---------- Payments ----------

  /** Starting a payment adds one attempt, PENDING and not yet known to a provider, over the order's
      total; apart from allocations nothing else changes, and the order's rows are held for 35 minutes. */
  lemma StartedPaymentIs(db: Db, o: nat, db': Db)
    requires Inv(db) && OfferKeysOk(db) && StartPaymentSpec(db, o) == Ok(db')
    ensures OrderTotal(db, o).Some? && OrderTotal(db, o).value > 0
    ensures db' == db.(allocations := db'.allocations, nextAllocation := db'.nextAllocation, nextAttempt := db.nextAttempt + 1,
                       attempts := db.attempts[db.nextAttempt := AttemptRow(o, OrderTotal(db, o).value, AttemptStatus.Pending, "", "")])
    ensures forall i :: i in db'.allocations && db'.allocations[i].order == o && db'.allocations[i].status == Reserved ==>
              db'.allocations[i].reservedUntil == Some(db.now + 35 * 60 * 1000000)
    ensures forall l :: l in db.lines && db.lines[l].order == o ==>
              LineHeldUnits(db', l) == db.lines[l].quantity
  {
    hide Inv, HoldSpec, Covered, OfferKeysOk, LineHeldUnits;
    HeldIsExtension(db, o);
    StartPaymentKeepsInv(db, o, db');
    var held := HoldSpec(db, o).value;
    assert OrderTotal(held, o) == OrderTotal(db, o);
    CoveredIs(db', o, Some(db.now + RETAIL_PAYMENT_RESERVATION_WINDOW));
  }

  /** Units that RESERVED rows hold for a line. */
  ghost function LineHeldUnits(db: Db, l: nat): int {
    Sum(db.nextAllocation, (i: nat) => if i in db.allocations && db.allocations[i].line == l && db.allocations[i].status == Reserved
                                       then db.allocations[i].quantity else 0)
  }

  lemma LineHeldIs(db: Db, l: nat)
    ensures Total(db.allocations, db.nextAllocation, ReservedFor(l)) == LineHeldUnits(db, l)
  {
    TotalIsSum(db.allocations, db.nextAllocation, ReservedFor(l),
               (i: nat) => if i in db.allocations && db.allocations[i].line == l && db.allocations[i].status == Reserved
                           then db.allocations[i].quantity else 0);
  }

  /** Covered, row by row: the order has lines, its RESERVED rows have the deadline, and they add up to
      each line's quantity. */
  lemma CoveredIs(db: Db, o: nat, until: Option<int>)
    ensures Covered(db, o, until) <==>
              && (exists l :: l in db.lines && db.lines[l].order == o)
              && (forall i :: i in db.allocations && db.allocations[i].order == o && db.allocations[i].status == Reserved ==>
                    db.allocations[i].reservedUntil == until)
              && (forall l :: l in db.lines && db.lines[l].order == o ==> LineHeldUnits(db, l) == db.lines[l].quantity)
  {
    hide LineHeldUnits;
    forall l | l in db.lines && db.lines[l].order == o
      ensures LineHeld(db, l) <==> LineHeldUnits(db, l) == db.lines[l].quantity
    {
      LineHeldIs(db, l);
    }
  }

  /** The characters str.strip() removes. */
  lemma BlanksAre(c: char)
    ensures IsBlank(c) <==>
              c as int in {9, 10, 11, 12, 13, 28, 29, 30, 31, 32, 133, 160, 5760, 8192, 8193, 8194, 8195, 8196, 8197, 8198,
                           8199, 8200, 8201, 8202, 8232, 8233, 8239, 8287, 12288}
  {
  }
}
