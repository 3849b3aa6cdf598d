/** Which error each service reports when it refuses. */
module RefusalLaws {
  import opened Common
  import opened Records
  import opened Pricing
  import opened Reservations
  import opened ReservationFacts
  import opened Placement
  import opened Orders
  import opened OrderEdit
  import opened Payments
  import opened Retail
  import opened Invariant
  import opened OrderSteps
  import opened PackSteps
  import opened RetailSteps
  import opened EditSteps
  import opened PlacementFacts
  import opened PlacementLaws
  import opened SupplyLaws
  import opened EditFacts
  import opened ReconciliationLaws

  // ---------- Shortages ----------

  /** A shortage reports a line's quantity, the units found for it, and the positive difference. */
  ghost predicate IsShortage(e: Error, quantity: int) {
    e.InsufficientStock? && e.requested == quantity && 0 <= e.available < quantity && e.missing == quantity - e.available
  }

  ghost predicate LinesMatchOffers(db: Db, ids: seq<nat>)
    requires OfferKeysOk(db) && AreLines(db, ids)
  {
    forall i :: 0 <= i < |ids| ==> db.offers[db.lines[ids[i]].offer].product == db.lines[ids[i]].product
  }

  lemma OneLineRefusal(db: Db, l: nat, channel: Channel, until: Option<int>)
    requires OfferKeysOk(db) && l in db.lines && ReserveOneSpec(db, l, channel, until).Err?
    requires db.offers[db.lines[l].offer].product == db.lines[l].product
    ensures var e := ReserveOneSpec(db, l, channel, until).error;
            || (e == InvalidOrderOperation && channel == Business && !MaySell(db, l, channel))
            || IsShortage(e, db.lines[l].quantity)
  {
    hide ReserveOneSpec, MaySell, PoolUnits;
    RefusalsAreExact(db, l, channel, until);
    OneLineIsExact(db, l, channel, until);
  }

  lemma {:induction false} ReservingRefusal(db: Db, ids: seq<nat>, channel: Channel, until: Option<int>)
    requires OfferKeysOk(db) && AllocationKeysOk(db) && AreLines(db, ids) && LinesMatchOffers(db, ids)
    requires ReserveLinesSpec(db, ids, channel, until).Err?
    ensures var e := ReserveLinesSpec(db, ids, channel, until).error;
            || (e == InvalidOrderOperation && channel == Business && exists i :: 0 <= i < |ids| && !MaySell(db, ids[i], channel))
            || (exists i :: 0 <= i < |ids| && IsShortage(e, db.lines[ids[i]].quantity))
    decreases |ids|
  {
    hide ReserveOneSpec, AllocationKeysOk, OfferKeysOk, MaySell, IsShortage;
    if ReserveOneSpec(db, ids[0], channel, until).Err? {
      OneLineRefusal(db, ids[0], channel, until);
    } else {
      var rest := ids[1..];
      var db1 := ReserveOneSpec(db, ids[0], channel, until).value;
      OneLineLiesOnSellable(db, ids[0], channel, until, db1);
      ExtendsKeysOk(db, db1, [ids[0]], until);
      assert forall i :: 0 <= i < |rest| ==> rest[i] == ids[i + 1];
      ReservingRefusal(db1, rest, channel, until);
      var e := ReserveLinesSpec(db1, rest, channel, until).error;
      if i :| 0 <= i < |rest| && !MaySell(db1, rest[i], channel) {
        SameValidity(db, db1, rest[i], channel);
        assert !MaySell(db, ids[i + 1], channel);
      }
      if i :| 0 <= i < |rest| && IsShortage(e, db1.lines[rest[i]].quantity) {
        assert IsShortage(e, db.lines[ids[i + 1]].quantity);
      }
    }
  }

  ghost predicate HasLineShort(db: Db, o: nat, e: Error) {
    exists l :: l in db.lines && db.lines[l].order == o && IsShortage(e, db.lines[l].quantity)
  }

  ghost predicate HasLineOffSale(db: Db, o: nat) {
    exists l :: l in db.lines && db.lines[l].order == o && !OnSale(db, Business, db.lines[l].offer, db.lines[l].product)
  }

  lemma OrderRefusal(db: Db, o: nat, channel: Channel, until: Option<int>)
    requires LinesOk(db) && OfferKeysOk(db) && AllocationKeysOk(db) && AreLines(db, OrderLines(db, o))
    requires ReserveLinesSpec(db, OrderLines(db, o), channel, until).Err?
    ensures var e := ReserveLinesSpec(db, OrderLines(db, o), channel, until).error;
            (e == InvalidOrderOperation && channel == Business && HasLineOffSale(db, o)) || HasLineShort(db, o, e)
  {
    hide OfferKeysOk, AllocationKeysOk, OrderLines, ReserveLinesSpec, MaySell, OnSale, IsShortage;
    var ids := OrderLines(db, o);
    LineIdsFacts(db, o);
    forall i | 0 <= i < |ids|
      ensures db.lines[ids[i]].offer < |db.offers| && db.offers[db.lines[ids[i]].offer].product == db.lines[ids[i]].product
      ensures ids[i] in db.lines && db.lines[ids[i]].order == o
    {
      assert ids[i] in ids;
      assert LineOk(db, ids[i]);
    }
    ReservingRefusal(db, ids, channel, until);
    if i :| 0 <= i < |ids| && !MaySell(db, ids[i], channel) && channel == Business {
      SoldIsOnSale(db, ids[i]);
    }
  }

  lemma SoldIsOnSale(db: Db, l: nat)
    requires OfferKeysOk(db) && l in db.lines
    ensures MaySell(db, l, Business) <==> OnSale(db, Business, db.lines[l].offer, db.lines[l].product)
  {
    assert OfferOk(db, db.lines[l].offer);
  }

  // ---------- Orders ----------

  /** Placing is refused for a missing order, for one that is no business draft with lines, for a line
      whose offer is not on sale, or for a shortage. */
  lemma PlacingRefusals(db: Db, o: nat)
    requires Inv(db) && OfferKeysOk(db) && PlaceBusinessSpec(db, o).Err?
    ensures var e := PlaceBusinessSpec(db, o).error;
            if o !in db.orders then e == DoesNotExist
            else if db.orders[o] != OrderRow(Business, Draft) || !HasLine(db.lines, o) then e == InvalidOrderOperation
            else (e == InvalidOrderOperation && HasLineOffSale(db, o)) || HasLineShort(db, o, e)
  {
    hide StockOk, OneRowPerLineAndBatch, PaymentsOk, OrdersOk, OffersOk, KeysOk, ReserveLinesSpec, OfferKeysOk, OrderLines,
         HasLineOffSale, HasLineShort;
    LineIdsFacts(db, o);
    AllocationKeys(db);
    if o in db.orders && db.orders[o] == OrderRow(Business, Draft) && HasLine(db.lines, o) {
      OrderRefusal(db, o, Business, None);
    }
  }

  /** A payment start is refused for a missing checkout, for one that cannot be paid, or for a shortage. */
  lemma StartingRefusals(db: Db, o: nat)
    requires Inv(db) && OfferKeysOk(db) && StartPaymentSpec(db, o).Err?
    ensures var e := StartPaymentSpec(db, o).error;
            if o !in db.orders || o !in db.checkouts then e == DoesNotExist
            else if !MayStart(db, o) then e == InvalidRetailOrder
            else HasLineShort(db, o, e)
  {
    hide HoldSpec, StockOk, OneRowPerLineAndBatch, OffersOk, KeysOk, PaymentsOk, OrdersOk, AllocationsOk, OfferKeysOk, CreateAttemptSpec,
         OrderLines, HasLineShort;
    LineIdsFacts(db, o);
    if MayStart(db, o) {
      if HoldSpec(db, o).Ok? {
        HeldIsExtension(db, o);
        ChargingSucceeds(db, o, HoldSpec(db, o).value);
        assert false;
      } else {
        HoldRefusal(db, o);
      }
    }
  }

  lemma HoldRefusal(db: Db, o: nat)
    requires Inv(db) && OfferKeysOk(db) && HoldSpec(db, o).Err?
    ensures HasLineShort(db, o, HoldSpec(db, o).error)
  {
    hide StockOk, OneRowPerLineAndBatch, OffersOk, KeysOk, PaymentsOk, OrdersOk, OfferKeysOk, ReserveLinesSpec, OrderLines;
    var until := Some(db.now + RETAIL_PAYMENT_RESERVATION_WINDOW);
    var cleared := WithoutTemporary(db, o);
    CancelEffect(db, o, TemporaryBy(o), cleared);
    AllocationKeys(cleared);
    LineIdsFacts(cleared, o);
    OfferKeysFrame(db, cleared);
    assert OrderLines(cleared, o) == OrderLines(db, o) by { SameOrderLines(db, cleared, o); }
    HoldUnfolds(db, o, cleared, OrderLines(db, o), until);
    OrderRefusal(cleared, o, Retail, until);
  }

  lemma SameOrderLines(db: Db, db1: Db, o: nat)
    requires db1.lines == db.lines && db1.nextLine == db.nextLine
    ensures OrderLines(db1, o) == OrderLines(db, o)
  {
  }

  /** A draft is refused for having no lines or a line on a wrong offer, and then for a line that the
      table cannot store. */
  lemma DraftingRefusals(db: Db, lines: seq<ResolvedLine>)
    requires CreateDraftSpec(db, lines).Err?
    ensures CreateDraftSpec(db, lines).error
         == if |lines| > 0 && forall i :: 0 <= i < |lines| ==>
                 && lines[i].offer.Some? && lines[i].offer.value < |db.offers|
                 && db.offers[lines[i].offer.value].product == lines[i].product
                 && db.offers[lines[i].offer.value].channel == Business
            then IntegrityError else InvalidOrderOperation
  {
    hide Storable;
    if exists i :: 0 <= i < |lines| && !CommercialOfferValid(db, Business, lines[i]) {
      var i :| 0 <= i < |lines| && !CommercialOfferValid(db, Business, lines[i]);
    } else {
      assert forall i :: 0 <= i < |lines| ==> CommercialOfferValid(db, Business, lines[i]);
    }
  }

  /** Packing and discarding are refused for a missing order and otherwise for its state. */
  lemma PackingAndDiscardingRefusals(db: Db, o: nat)
    requires Inv(db)
    ensures PackSpec(db, o).Err? ==> PackSpec(db, o).error == if o in db.orders then InvalidOrderOperation else DoesNotExist
    ensures DiscardSpec(db, o).Err? ==> DiscardSpec(db, o).error == if o in db.orders then InvalidOrderOperation else DoesNotExist
  {
    hide Inv, ConsumeSpec;
    if o in db.orders && db.orders[o].status.Placed? {
      PackingNeverFails(db, o);
    }
  }

  /** An edit of lines that may replace the order's own is refused for an incoming line whose offer is not
      on sale, or for a shortage. */
  lemma AcceptedEditRefusals(db: Db, o: nat, incoming: seq<ResolvedLine>)
    requires Inv(db) && OfferKeysOk(db) && LineKeysBelow(db) && EditAccepted(db, o, incoming)
    requires UpdatePlacedSpec(db, o, incoming).Err?
    ensures var e := UpdatePlacedSpec(db, o, incoming).error;
            || (e == InvalidOrderOperation
                && exists i :: 0 <= i < |incoming| && incoming[i].offer.Some?
                               && !OnSale(db, Business, incoming[i].offer.value, incoming[i].product))
            || (exists i :: 0 <= i < |incoming| && IsShortage(e, incoming[i].quantity))
  {
    hide Inv, UpdatePlacedSpec, MidEditState, StockOk, OneRowPerLineAndBatch, EditAccepted, OffersOk, OfferKeysOk, OnSale, IsShortage,
         OrderLines, ReserveLinesSpec, LineKeysBelow, Covered, KeysOk;
    EditUnfolds(db, o, incoming);
    AcceptedShape(db, o, incoming);
    MidStateIsSound(db, o, incoming);
    var mid := MidEditState(db, o, incoming);
    LineIdsFacts(mid, o);
    AllocationKeys(mid);
    assert Provided(mid.lines, o, incoming, 0);
    OrderRefusal(mid, o, Business, None);
    var e := ReserveLinesSpec(mid, OrderLines(mid, o), Business, None).error;
    if l :| l in mid.lines && mid.lines[l].order == o && IsShortage(e, mid.lines[l].quantity) {
      assert IsLineOf(mid.lines, l, o);
      var i: nat :| Wants(incoming, i, mid.lines[l]);
      assert IsShortage(e, incoming[i].quantity);
    } else {
      var l :| l in mid.lines && mid.lines[l].order == o && !OnSale(mid, Business, mid.lines[l].offer, mid.lines[l].product);
      assert IsLineOf(mid.lines, l, o);
      var i: nat :| Wants(incoming, i, mid.lines[l]);
      WantedProduct(db, o, incoming, mid, l, i);
    }
  }

  lemma WantedProduct(db: Db, o: nat, incoming: seq<ResolvedLine>, mid: Db, l: nat, i: nat)
    requires EditAccepted(db, o, incoming) && LinesOk(mid) && MidEdit(db, mid, o) && l in mid.lines && Wants(incoming, i, mid.lines[l])
    ensures incoming[i].offer.Some? && incoming[i].product == mid.lines[l].product
    ensures OnSale(mid, Business, mid.lines[l].offer, mid.lines[l].product)
       <==> OnSale(db, Business, incoming[i].offer.value, incoming[i].product)
  {
    assert LineOk(mid, l);
    assert CommercialOfferValid(db, Business, incoming[i]);
  }

  /** A placed order, a list of lines on its channel's offers, none twice, and no two of the order's own
      lines on one offer. */
  ghost predicate IsEdit(db: Db, o: nat, incoming: seq<ResolvedLine>)
    requires o in db.orders
  {
    && db.orders[o].status == Placed && |incoming| > 0
    && (forall i :: 0 <= i < |incoming| ==>
          && incoming[i].offer.Some? && incoming[i].offer.value < |db.offers|
          && db.offers[incoming[i].offer.value].product == incoming[i].product
          && db.offers[incoming[i].offer.value].channel == db.orders[o].channel)
    && (forall i, j :: 0 <= i < j < |incoming| ==> incoming[i].offer != incoming[j].offer)
    && (forall l, m :: l in db.lines && m in db.lines && l != m && db.lines[l].order == o && db.lines[m].order == o ==>
          db.lines[l].offer != db.lines[m].offer)
  }

  /** The line table cannot take the line: its quantity is not positive, or it is new to the order and
      its price is not. */
  ghost predicate CannotBeStored(db: Db, o: nat, line: ResolvedLine) {
    || line.quantity <= 0
    || (&& line.unitPrice.Some? && line.unitPrice.value <= 0 && line.offer.Some?
        && forall l :: l in db.lines && db.lines[l].order == o ==> db.lines[l].offer != line.offer.value)
  }

  lemma StorableIs(db: Db, o: nat, incoming: seq<ResolvedLine>)
    requires AllOffered(incoming)
    ensures EditStorable(incoming, OffersOf(db.lines, o)) <==>
              forall i :: 0 <= i < |incoming| ==> !CannotBeStored(db, o, incoming[i])
  {
    if EditStorable(incoming, OffersOf(db.lines, o)) {
      forall i | 0 <= i < |incoming| ensures !CannotBeStored(db, o, incoming[i]) {
        assert incoming[i].offer.value !in OffersOf(db.lines, o) ==> Storable(incoming[i]);
      }
    }
  }

  /** Other edits are refused before any stock is looked at: for a missing order, for an ill-formed edit,
      and then for a line the table cannot store; an order of another channel is refused last. */
  lemma MalformedEditRefusals(db: Db, o: nat, incoming: seq<ResolvedLine>)
    requires Inv(db) && OfferKeysOk(db) && LineKeysBelow(db) && !EditAccepted(db, o, incoming)
    ensures UpdatePlacedSpec(db, o, incoming)
         == Err(if o !in db.orders then DoesNotExist
                else if IsEdit(db, o, incoming) && exists i :: 0 <= i < |incoming| && CannotBeStored(db, o, incoming[i])
                then IntegrityError else InvalidOrderOperation)
  {
    hide Inv, ReserveLinesSpec, EditLines, DeleteReservationsSpec, EditStorable, CannotBeStored, OffersOf;
    if AllOffered(incoming) {
      StorableIs(db, o, incoming);
    }
    if o in db.orders && UpdatePlacedSpec(db, o, incoming).Ok? {
      EditUnfolds(db, o, incoming);
    }
    if AllOffered(incoming) && EditStorable(incoming, OffersOf(db.lines, o)) {
      MidEditOrders(db, o, incoming);
    }
  }

  // ---------- Payments ----------

  /** Completing a payment is refused for a missing attempt, a decided one, an order that is no draft
      held in full, and last for a transaction id of blanks; failing one is refused for a missing
      attempt, a decided one, and an order that is no draft. */
  lemma SettlingRefusals(db: Db, a: nat, transactionId: Option<string>)
    requires Inv(db)
    ensures CompleteSpec(db, a, transactionId).Err? ==>
              CompleteSpec(db, a, transactionId).error
              == if a !in db.attempts then DoesNotExist
                 else if db.attempts[a].status != AttemptStatus.Pending then InvalidPaymentAttempt
                 else if !(IsDraft(db, db.attempts[a].order) && HeldUntilLater(db, db.attempts[a].order)) then InvalidOrderOperation
                 else InvalidPaymentAttempt
    ensures FailSpec(db, a).Err? ==>
              FailSpec(db, a).error
              == if a !in db.attempts then DoesNotExist
                 else if db.attempts[a].status != AttemptStatus.Pending then InvalidPaymentAttempt
                 else InvalidRetailOrder
  {
    hide Tables, StockOk, OneRowPerLineAndBatch, OrdersOk, PlacePaidSpec, HeldInFull, HeldUntilLater, Strip;
    if a in db.attempts {
      assert AttemptOk(db, a);
      HeldUntilLaterIs(db, db.attempts[a].order);
      PaidPlacementIsExact(db, db.attempts[a].order);
      PlacePaidKeepsAttempts(db, db.attempts[a].order);
      PaidPlacementRefusal(db, db.attempts[a].order);
    }
  }

  lemma PaidPlacementRefusal(db: Db, o: nat)
    requires Inv(db) && o in db.orders && db.orders[o].channel.Retail?
    ensures PlacePaidSpec(db, o).Err? ==> PlacePaidSpec(db, o).error == InvalidOrderOperation
  {
    hide Tables, StockOk, OneRowPerLineAndBatch, PaymentsOk, LineHeld;
    assert OrderOk(db, o);
  }
}
