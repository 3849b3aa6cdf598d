/**
 When placing, editing and paying for an order succeed, told in the columns of the tables: what may
 be sold, what each batch has free, and what the order asks of each offer.
 */
module SupplyLaws {
  import opened Common
  import opened Records
  import opened Pricing
  import opened Reservations
  import opened ReservationFacts
  import opened Placement
  import opened Orders
  import opened OrderEdit
  import opened Retail
  import opened Invariant
  import opened OrderSteps
  import opened RetailSteps
  import opened PlacementFacts
  import opened PlacementLaws
  import opened EditFacts

  // ---------- What is free ----------

  /** Units that rows of other orders hold on a batch now. */
  ghost function HeldByOthers(db: Db, o: nat, b: nat): int {
    Sum(db.nextAllocation, (i: nat) => if HoldsNow(db, i, b) && db.allocations[i].order != o then db.allocations[i].quantity else 0)
  }

  /** Units an offer may sell when the given order holds nothing. */
  ghost function FreeFor(db: Db, o: nat, k: nat): int {
    Sum(|db.batches|, (b: nat) => if b < |db.batches| && SellsFrom(db, k, b)
                                  then Max(db.batches[b].quantity - HeldByOthers(db, o, b), 0) else 0)
  }

  lemma {:induction false} PoolBelowIsFree(db: Db, db1: Db, o: nat, k: nat, n: nat, f: nat -> int)
    requires SameStock(db, db1) && k < |db.offers| && OfferOk(db, k) && OfferOk(db1, k) && n <= |db.batches|
    requires forall b: nat :: b < |db.batches| ==> ActiveReserved(db1, b) == HeldByOthers(db, o, b)
    requires forall b: nat :: b < n ==>
               f(b) == if SellsFrom(db, k, b) then Max(db.batches[b].quantity - HeldByOthers(db, o, b), 0) else 0
    ensures PoolUnitsBelow(db1, k, EUR, n) == Sum(n, f)
  {
    hide SellsFrom, InPool, HeldByOthers, Pool, ActiveReserved;
    if n > 0 {
      PoolBelowIsFree(db, db1, o, k, n - 1, f);
      PoolsAreSellable(db1, k, n - 1);
      InPoolIs(db1, k, n - 1);
      SellsFromSame(db, db1, k, n - 1);
    }
  }

  lemma SellsFromSame(db: Db, db1: Db, k: nat, b: nat)
    requires SameStock(db, db1)
    ensures SellsFrom(db, k, b) <==> SellsFrom(db1, k, b)
  {
  }

  /** When db1 holds on each batch what other orders hold in db, its pools have what is free for o. */
  lemma PoolIsFree(db: Db, db1: Db, o: nat, k: nat)
    requires SameStock(db, db1) && k < |db.offers| && OfferOk(db, k) && OfferOk(db1, k)
    requires forall b: nat :: b < |db.batches| ==> ActiveReserved(db1, b) == HeldByOthers(db, o, b)
    ensures PoolUnits(db1, k, EUR) == FreeFor(db, o, k)
  {
    PoolBelowIsFree(db, db1, o, k, |db.batches|,
                    (b: nat) => if b < |db.batches| && SellsFrom(db, k, b)
                                then Max(db.batches[b].quantity - HeldByOthers(db, o, b), 0) else 0);
  }

  /** Whatever takes the order's active rows away and leaves the others leaves what others hold. */
  lemma HeldWithout(db: Db, db1: Db, o: nat, b: nat)
    requires db1 == db.(allocations := db1.allocations, marks := db1.marks)
    requires forall i :: i in db1.allocations ==> i in db.allocations
    requires forall i :: i in db.allocations && db.allocations[i].order != o ==>
               i in db1.allocations && db1.allocations[i] == db.allocations[i]
    requires forall i :: i in db1.allocations && db.allocations[i].order == o ==> !IsActive(db1.allocations[i], db.now)
    ensures ActiveReserved(db1, b) == HeldByOthers(db, o, b)
  {
    TotalIsSum(db1.allocations, db.nextAllocation, ActiveOn(b, db.now),
               (i: nat) => if HoldsNow(db, i, b) && db.allocations[i].order != o then db.allocations[i].quantity else 0);
  }

  // ---------- What an order asks ----------

  /** Units that the order's lines ask of one offer. */
  ghost function Asked(db: Db, o: nat, k: nat): int {
    Sum(db.nextLine, (l: nat) => if l in db.lines && db.lines[l].order == o && db.lines[l].offer == k then db.lines[l].quantity else 0)
  }

  lemma {:induction false} DemandSnoc(db: Db, ids: seq<nat>, l: nat, k: nat)
    requires AreLines(db, ids) && l in db.lines
    ensures AreLines(db, ids + [l])
    ensures Demand(db, ids + [l], k) == Demand(db, ids, k) + (if db.lines[l].offer == k then db.lines[l].quantity else 0)
  {
    if ids == [] {
      assert [] + [l] == [l];
    } else {
      assert (ids + [l])[1..] == ids[1..] + [l];
      DemandSnoc(db, ids[1..], l, k);
    }
  }

  lemma NoDemand(db: Db, k: nat)
    ensures Demand(db, [], k) == 0
  {
  }

  lemma {:induction false} DemandBelow(db: Db, o: nat, k: nat, n: nat, f: nat -> int)
    requires forall l: nat :: l < n ==>
               f(l) == if l in db.lines && db.lines[l].order == o && db.lines[l].offer == k then db.lines[l].quantity else 0
    ensures AreLines(db, LinesOf(db.lines, n, o))
    ensures Demand(db, LinesOf(db.lines, n, o), k) == Sum(n, f)
  {
    hide Demand;
    if n == 0 {
      NoDemand(db, k);
    } else {
      DemandBelow(db, o, k, n - 1, f);
      var ids := LinesOf(db.lines, n - 1, o);
      if n - 1 in db.lines && db.lines[n - 1].order == o {
        DemandSnoc(db, ids, n - 1, k);
      } else {
        assert ids + [] == ids;
      }
    }
  }

  lemma DemandIsAsked(db: Db, o: nat, k: nat)
    ensures AreLines(db, OrderLines(db, o))
    ensures Demand(db, OrderLines(db, o), k) == Asked(db, o, k)
  {
    DemandBelow(db, o, k, db.nextLine,
                (l: nat) => if l in db.lines && db.lines[l].order == o && db.lines[l].offer == k then db.lines[l].quantity else 0);
  }

  // ---------- When an order can be supplied ----------

  /** The channel may sell this product from this offer: offer and product are on, and there is an EUR
      price where one is needed. */
  ghost predicate OnSale(db: Db, channel: Channel, k: nat, product: nat) {
    && k < |db.offers| && product < |db.products| && db.offers[k].product == product && db.offers[k].channel == channel
    && db.offers[k].enabled && db.products[product].active
    && (channel == Retail || db.offers[k].batch != None ==> EUR in db.offers[k].amounts)
  }

  /** The order has lines, and each line's offer may be sold and has free, when the order itself holds
      nothing, the units that all the order's lines ask of it. */
  ghost predicate CanBeSupplied(db: Db, o: nat, channel: Channel) {
    && (exists l :: l in db.lines && db.lines[l].order == o)
    && forall l :: l in db.lines && db.lines[l].order == o ==>
         OnSale(db, channel, db.lines[l].offer, db.lines[l].product)
         && Asked(db, o, db.lines[l].offer) <= FreeFor(db, o, db.lines[l].offer)
  }

  /** In a state that differs only in what the order holds, all its lines fit together exactly when it
      can be supplied. */
  lemma FittingIsSupply(db: Db, db1: Db, o: nat, channel: Channel)
    requires LinesOk(db) && OfferKeysOk(db) && OfferKeysOk(db1) && SameStock(db, db1) && db1.lines == db.lines && db1.nextLine == db.nextLine
    requires forall b: nat :: b < |db.batches| ==> ActiveReserved(db1, b) == HeldByOthers(db, o, b)
    ensures AreLines(db1, OrderLines(db, o))
    ensures (OrderLines(db, o) != [] && AllFitTogether(db1, OrderLines(db, o), channel)) <==> CanBeSupplied(db, o, channel)
  {
    hide LinesOk, OfferKeysOk, OnSale, MaySell, PoolUnits, Demand, HeldByOthers, FreeFor, Asked, ActiveReserved, OrderLines;
    var ids := OrderLines(db, o);
    LineIdsFacts(db, o);
    forall l | l in ids
      ensures FitsTogether(db1, ids, l, channel) <==>
                OnSale(db, channel, db.lines[l].offer, db.lines[l].product)
                && Asked(db, o, db.lines[l].offer) <= FreeFor(db, o, db.lines[l].offer)
    {
      OneFits(db, db1, o, channel, l);
    }
    if AllFitTogether(db1, ids, channel) {
      forall l | l in ids ensures FitsTogether(db1, ids, l, channel) {
        var i :| 0 <= i < |ids| && ids[i] == l;
      }
    }
  }

  lemma OneFits(db: Db, db1: Db, o: nat, channel: Channel, l: nat)
    requires OfferKeysOk(db) && OfferKeysOk(db1) && SameStock(db, db1) && db1.lines == db.lines && db1.nextLine == db.nextLine
    requires forall b: nat :: b < |db.batches| ==> ActiveReserved(db1, b) == HeldByOthers(db, o, b)
    requires AreLines(db1, OrderLines(db, o)) && l in db.lines
    ensures FitsTogether(db1, OrderLines(db, o), l, channel) <==>
              OnSale(db, channel, db.lines[l].offer, db.lines[l].product)
              && Asked(db, o, db.lines[l].offer) <= FreeFor(db, o, db.lines[l].offer)
  {
    hide PoolUnits, Demand, HeldByOthers, FreeFor, Asked, ActiveReserved, OrderLines;
    var k := db.lines[l].offer;
    assert OfferOk(db, k) && OfferOk(db1, k);
    PoolIsFree(db, db1, o, k);
    DemandIsAsked(db, o, k);
    DemandFrame(db, db1, OrderLines(db, o), k);
  }

  // ---------- Placing, paying, editing ----------

  /** A business draft is placed exactly when it can be supplied. */
  lemma PlacingIsExact(db: Db, o: nat)
    requires Inv(db) && OfferKeysOk(db)
    ensures PlaceBusinessSpec(db, o).Ok? <==>
              && o in db.orders && db.orders[o].channel == Business && db.orders[o].status == Draft
              && CanBeSupplied(db, o, Business)
    ensures PlaceBusinessSpec(db, o).Ok? ==>
              var db' := PlaceBusinessSpec(db, o).value;
              && db' == db.(orders := db.orders[o := OrderRow(Business, Placed)],
                            allocations := db'.allocations, nextAllocation := db'.nextAllocation)
  {
    hide StockOk, OneRowPerLineAndBatch, PaymentsOk, OffersOk, KeysOk, CanBeSupplied, AllFitTogether, ReserveLinesSpec, OfferKeysOk;
    if o in db.orders && db.orders[o].channel == Business && db.orders[o].status == Draft {
      assert OrderOk(db, o);
      LineIdsFacts(db, o);
      DraftIsPlacedExactly(db, o);
      forall b: nat | b < |db.batches| ensures ActiveReserved(db, b) == HeldByOthers(db, o, b) {
        HeldWithout(db, db, o, b);
      }
      FittingIsSupply(db, db, o, Business);
    }
  }

  /** A retail payment starts exactly when the checkout session runs, its order is a draft without a
      pending attempt, and the order can be supplied. */
  lemma StartingIsExact(db: Db, o: nat)
    requires Inv(db) && OfferKeysOk(db)
    ensures StartPaymentSpec(db, o).Ok? <==>
              && o in db.orders && db.orders[o].channel == Retail && db.orders[o].status == Draft
              && o in db.checkouts && db.now < db.checkouts[o]
              && (forall a :: a in db.attempts && db.attempts[a].order == o ==> db.attempts[a].status != AttemptStatus.Pending)
              && CanBeSupplied(db, o, Retail)
  {
    hide Inv, CanBeSupplied, AllFitTogether, StartPaymentSpec, OfferKeysOk, OrderLines, WithoutTemporary;
    PaymentStartsExactly(db, o);
    if o in db.orders && db.orders[o].channel == Retail && db.orders[o].status == Draft {
      SupplyOfCheckout(db, o);
    }
  }

  lemma SupplyOfCheckout(db: Db, o: nat)
    requires Inv(db) && OfferKeysOk(db) && o in db.orders && db.orders[o].channel == Retail && db.orders[o].status == Draft
    ensures var cleared := WithoutTemporary(db, o);
            && OfferKeysOk(cleared) && AreLines(cleared, OrderLines(db, o))
            && (HasLine(db.lines, o) && AllFitTogether(cleared, OrderLines(db, o), Retail) <==> CanBeSupplied(db, o, Retail))
  {
    hide StockOk, OneRowPerLineAndBatch, PaymentsOk, OffersOk, AllocationsOk, KeysOk, CanBeSupplied, AllFitTogether, OrderLines,
         AllOrNothing, CancelMatching, HeldByOthers, ActiveReserved;
    var cleared := WithoutTemporary(db, o);
    assert OrderOk(db, o);
    OfferKeysFrame(db, cleared);
    LineIdsFacts(db, o);
    forall b: nat | b < |db.batches| ensures ActiveReserved(cleared, b) == HeldByOthers(db, o, b) {
      ClearedHold(db, o, b);
    }
    FittingIsSupply(db, cleared, o, Retail);
  }

  lemma ClearedHold(db: Db, o: nat, b: nat)
    requires AllOrNothing(db, o)
    ensures ActiveReserved(WithoutTemporary(db, o), b) == HeldByOthers(db, o, b)
  {
    hide ActiveReserved, HeldByOthers, AllOrNothing;
    var cleared := WithoutTemporary(db, o);
    TemporaryIsAll(db, o);
    forall i | i in cleared.allocations && db.allocations[i].order == o ensures !IsActive(cleared.allocations[i], db.now) {
      assert !Matches(cleared.allocations[i], ReservedBy(o));
    }
    HeldWithout(db, cleared, o, b);
  }

  /** The edit's lines can be stored in place of the order's own: offers of the business channel and of
      the line's product, none twice, positive quantities, and positive prices for offers that are new. */
  ghost predicate ReplacesLines(db: Db, o: nat, incoming: seq<ResolvedLine>) {
    && |incoming| > 0
    && (forall i :: 0 <= i < |incoming| ==>
          && incoming[i].offer.Some? && incoming[i].quantity > 0
          && (incoming[i].unitPrice.Some? && incoming[i].unitPrice.value <= 0 ==>
                exists l :: l in db.lines && db.lines[l].order == o && db.lines[l].offer == incoming[i].offer.value))
    && (forall i, j :: 0 <= i < j < |incoming| ==> incoming[i].offer != incoming[j].offer)
    && (forall l, m :: l in db.lines && m in db.lines && l != m && db.lines[l].order == o && db.lines[m].order == o ==>
          db.lines[l].offer != db.lines[m].offer)
  }

  /** The offer may be sold and has the line's units free when the edited order holds nothing. */
  ghost predicate IsSupplied(db: Db, o: nat, line: ResolvedLine) {
    && line.offer.Some? && OnSale(db, Business, line.offer.value, line.product)
    && line.quantity <= FreeFor(db, o, line.offer.value)
  }

  /** An edit goes through exactly for a placed business order, with lines that can replace its own and
      that are all supplied. */
  lemma EditingIsExact(db: Db, o: nat, incoming: seq<ResolvedLine>)
    requires Inv(db) && OfferKeysOk(db) && LineKeysBelow(db)
    ensures UpdatePlacedSpec(db, o, incoming).Ok? <==>
              && o in db.orders && db.orders[o].channel == Business && db.orders[o].status == Placed
              && ReplacesLines(db, o, incoming)
              && forall i :: 0 <= i < |incoming| ==> IsSupplied(db, o, incoming[i])
  {
    hide UpdatePlacedSpec, Inv, OfferKeysOk, LineKeysBelow, EditAccepted, ReplacesLines, IsSupplied, IncomingFits;
    EditGoesThroughExactly(db, o, incoming);
    AcceptedIs(db, o, incoming);
    forall i | 0 <= i < |incoming| && incoming[i].offer.Some?
      ensures IsSupplied(db, o, incoming[i]) <==> IncomingFits(db, o, incoming[i]) && CommercialOfferValid(db, Business, incoming[i])
    {
      IncomingFitsIs(db, o, incoming[i]);
    }
    SuppliedParts(db, o, incoming);
  }

  lemma SuppliedParts(db: Db, o: nat, incoming: seq<ResolvedLine>)
    ensures forall i :: 0 <= i < |incoming| && IsSupplied(db, o, incoming[i]) ==> incoming[i].offer.Some?
    ensures forall i :: 0 <= i < |incoming| && CommercialOfferValid(db, Business, incoming[i]) ==> incoming[i].offer.Some?
  {
  }

  lemma AcceptedIs(db: Db, o: nat, incoming: seq<ResolvedLine>)
    ensures EditAccepted(db, o, incoming) <==>
              && o in db.orders && db.orders[o].channel == Business && db.orders[o].status == Placed
              && ReplacesLines(db, o, incoming)
              && forall i :: 0 <= i < |incoming| ==> CommercialOfferValid(db, Business, incoming[i])
  {
  }

  lemma IncomingFitsIs(db: Db, o: nat, line: ResolvedLine)
    requires Inv(db) && OfferKeysOk(db) && line.offer.Some?
    ensures IsSupplied(db, o, line) <==> IncomingFits(db, o, line) && CommercialOfferValid(db, Business, line)
  {
    hide Inv, FreeFor, PoolUnits, DeleteReservationsSpec, SellsFrom;
    var k := line.offer.value;
    if k < |db.offers| {
      assert OfferOk(db, k);
      FreeForEditIs(db, o, k);
    }
  }

  lemma FreeForEditIs(db: Db, o: nat, k: nat)
    requires OfferKeysOk(db) && k < |db.offers|
    ensures FreeForEdit(db, o, k) == FreeFor(db, o, k)
  {
    hide FreeFor, PoolUnits, HeldByOthers, ActiveReserved;
    var cleared := DeleteReservationsSpec(db, o);
    assert OfferOk(db, k) && OfferOk(cleared, k);
    forall b: nat | b < |db.batches| ensures ActiveReserved(cleared, b) == HeldByOthers(db, o, b) {
      HeldWithout(db, cleared, o, b);
    }
    PoolIsFree(db, cleared, o, k);
  }
}
