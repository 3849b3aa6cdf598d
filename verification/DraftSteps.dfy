/** New drafts, new retail checkouts and discarded drafts keep the invariant. */
module DraftSteps {
  import opened Common
  import opened Records
  import opened Pricing
  import opened Reservations
  import opened ReservationFacts
  import opened Placement
  import opened Orders
  import opened OrderEdit
  import opened Payments
  import opened Retail
  import opened Invariant

  // ---------- A new draft ----------

  /** A new DRAFT order with fresh keys and freshly created lines. */
  function WithDraft(db: Db, channel: Channel, lines: seq<ResolvedLine>, checkouts: map<nat, int>): Db
    requires forall i :: 0 <= i < |lines| ==> StorableNew(lines[i])
  {
    db.(orders := db.orders[db.nextOrder := OrderRow(channel, Draft)],
        nextOrder := db.nextOrder + 1,
        lines := AddLines(db.lines, db.nextLine, db.nextOrder, lines),
        nextLine := db.nextLine + |lines|,
        checkouts := checkouts)
  }

  lemma NewOrderIsFresh(db: Db)
    requires Tables(db)
    ensures db.nextOrder !in db.orders
    ensures forall l :: l in db.lines ==> db.lines[l].order != db.nextOrder
    ensures forall i :: i in db.allocations ==> db.allocations[i].order != db.nextOrder
  {
    forall l | l in db.lines ensures db.lines[l].order != db.nextOrder {
      assert LineOk(db, l);
    }
    forall i | i in db.allocations ensures db.allocations[i].order != db.nextOrder {
      assert AllocationOk(db, i);
    }
  }

  lemma DraftLineOk(db: Db, channel: Channel, lines: seq<ResolvedLine>, checkouts: map<nat, int>, l: nat)
    requires LinesOk(db) && AllStorableNew(lines) && AllValid(db, channel, lines)
    requires l in WithDraft(db, channel, lines, checkouts).lines
    requires forall l :: l in db.lines ==> db.lines[l].order != db.nextOrder
    ensures LineOk(WithDraft(db, channel, lines, checkouts), l)
  {
    hide AddLines;
    assert forall l :: l in db.lines ==> LineOk(db, l);
    AddedLines(db.lines, db.nextLine, db.nextOrder, lines);
    if l !in db.lines {
      assert CommercialOfferValid(db, channel, lines[l - db.nextLine]);
    }
  }

  lemma DraftLinesElsewhere(db: Db, lines: seq<ResolvedLine>)
    requires LinesOk(db) && AllStorableNew(lines)
    ensures var t := AddLines(db.lines, db.nextLine, db.nextOrder, lines);
            && (forall p :: p != db.nextOrder ==> SameLinesFor(db.lines, t, p))
            && (forall l :: l in db.lines ==> l in t && t[l] == db.lines[l])
  {
    hide AddLines;
    assert forall l :: l in db.lines ==> LineOk(db, l);
    AddedLines(db.lines, db.nextLine, db.nextOrder, lines);
  }

  lemma DraftTables(db: Db, channel: Channel, lines: seq<ResolvedLine>, checkouts: map<nat, int>)
    requires Tables(db) && AllStorableNew(lines) && AllValid(db, channel, lines)
    ensures Tables(WithDraft(db, channel, lines, checkouts))
    ensures forall p :: p != db.nextOrder ==> SameLinesFor(db.lines, WithDraft(db, channel, lines, checkouts).lines, p)
  {
    hide AddLines, SameLinesFor;
    var db' := WithDraft(db, channel, lines, checkouts);
    NewOrderIsFresh(db);
    DraftLinesElsewhere(db, lines);
    assert db'.lines == AddLines(db.lines, db.nextLine, db.nextOrder, lines);
    forall l | l in db'.lines ensures LineOk(db', l) {
      DraftLineOk(db, channel, lines, checkouts, l);
    }
    forall k | 0 <= k < |db'.offers| ensures OfferOk(db', k) {
      assert OfferOk(db, k);
    }
    forall i | i in db'.allocations ensures AllocationOk(db', i) {
      assert AllocationOk(db, i);
    }
  }

  lemma DraftOrders(db: Db, channel: Channel, lines: seq<ResolvedLine>, checkouts: map<nat, int>)
    requires Inv(db) && AllStorableNew(lines) && AllValid(db, channel, lines)
    ensures Tables(WithDraft(db, channel, lines, checkouts)) && OrdersOk(WithDraft(db, channel, lines, checkouts))
    ensures StockOk(WithDraft(db, channel, lines, checkouts))
  {
    hide AddLines, OffersOk, LinesOk, KeysOk, PaymentsOk, OneRowPerLineAndBatch;
    var db' := WithDraft(db, channel, lines, checkouts);
    DraftTables(db, channel, lines, checkouts);
    NewOrderIsFresh(db);
    assert OrderOk(db', db.nextOrder);
    OrdersFrame(db, db', db.nextOrder);
    forall b | 0 <= b < |db'.batches| ensures BatchOk(db', b) {
      assert BatchOk(db, b);
    }
  }

  lemma DraftKeepsInv(db: Db, channel: Channel, lines: seq<ResolvedLine>, checkouts: map<nat, int>)
    requires Inv(db) && AllStorableNew(lines) && AllValid(db, channel, lines)
    requires channel.Retail? ==> PricedOk(WithDraft(db, channel, lines, checkouts), db.nextOrder)
    ensures Inv(WithDraft(db, channel, lines, checkouts))
  {
    hide AddLines, OffersOk, LinesOk, AllocationsOk, StockOk, OrdersOk, OneRowPerLineAndBatch;
    var db' := WithDraft(db, channel, lines, checkouts);
    DraftOrders(db, channel, lines, checkouts);
    DraftTables(db, channel, lines, checkouts);
    NewOrderIsFresh(db);
    TablesGiveKeys(db);
    TablesGiveKeys(db');
    PaymentsFrame(db, db');
  }

  lemma CreateDraftKeepsInv(db: Db, lines: seq<ResolvedLine>, db': Db)
    requires Inv(db) && CreateDraftSpec(db, lines) == Ok(db')
    ensures Inv(db')
  {
    hide Inv;
    DraftKeepsInv(db, Business, lines, db.checkouts);
    assert db' == WithDraft(db, Business, lines, db.checkouts);
  }

  /** A new business draft stores its lines: one row per line, in order, with the line's offer, product,
      quantity and price. */
  lemma DraftStoresTheLines(db: Db, lines: seq<ResolvedLine>, db': Db)
    requires LineKeysBelow(db) && CreateDraftSpec(db, lines) == Ok(db')
    ensures db'.orders == db.orders[db.nextOrder := OrderRow(Business, Draft)] && db'.nextOrder == db.nextOrder + 1
    ensures forall l :: l in db'.lines <==> l in db.lines || db.nextLine <= l < db.nextLine + |lines|
    ensures forall l :: l in db.lines ==> db'.lines[l] == db.lines[l]
    ensures forall i: nat :: i < |lines| ==>
              var row := db'.lines[db.nextLine + i];
              && row.order == db.nextOrder && lines[i].offer == Some(row.offer)
              && row.product == lines[i].product == db.offers[row.offer].product
              && row.quantity == lines[i].quantity
              && (row.unitPrice.Some? <==> lines[i].unitPrice.Some?)
              && (row.unitPrice.Some? ==> row.unitPrice.value == lines[i].unitPrice.value)
  {
    hide AddLines;
    AddedLines(db.lines, db.nextLine, db.nextOrder, lines);
    forall i: nat | i < |lines| ensures db'.lines[db.nextLine + i] == NewLine(db.nextOrder, lines[i]) {
      assert db'.lines[db.nextLine + i] == NewLine(db.nextOrder, lines[db.nextLine + i - db.nextLine]);
    }
  }

  // ---------- A new retail checkout ----------

  ghost predicate AllPriced(lines: seq<ResolvedLine>) {
    forall i :: 0 <= i < |lines| ==> lines[i].unitPrice.Some?
  }

  /** The stored lines of a priced order total what was calculated before storing them. */
  lemma {:induction false} StoredTotal(t: Lines, next: nat, o: nat, lines: seq<ResolvedLine>)
    requires AllStorableNew(lines) && AllPriced(lines)
    requires forall l :: l in t ==> l < next && t[l].order != o
    ensures LinesTotalPrice(lines) >= 0
    ensures TotalBelow(AddLines(t, next, o, lines), next + |lines|, o) == Some(LinesTotalPrice(lines))
  {
    if lines == [] {
      NoLinesNoTotal(t, next, o);
    } else {
      var n := |lines| - 1;
      var before := AddLines(t, next, o, lines[..n]);
      var after := AddLines(t, next, o, lines);
      StoredTotal(t, next, o, lines[..n]);
      SameTotal(before, after, next + n, o);
      assert StorableNew(lines[n]);
      assert lines[n].unitPrice.value * lines[n].quantity > 0;
      assert after[next + n] == NewLine(o, lines[n]);
      assert TotalBelow(after, next + |lines|, o) == TotalBelow(after, next + n + 1, o);
    }
  }

  lemma {:induction false} NoLinesNoTotal(t: Lines, n: nat, o: nat)
    requires forall l :: l in t ==> t[l].order != o
    ensures TotalBelow(t, n, o) == Some(0)
  {
    if n > 0 {
      NoLinesNoTotal(t, n - 1, o);
    }
  }

  lemma {:induction false} PricedTotalIsPositive(lines: seq<ResolvedLine>)
    requires AllStorableNew(lines) && AllPriced(lines)
    ensures LinesTotalPrice(lines) >= 0
    ensures lines != [] ==> LinesTotalPrice(lines) > 0
  {
    if lines != [] {
      var n := |lines| - 1;
      PricedTotalIsPositive(lines[..n]);
      assert StorableNew(lines[n]);
      assert lines[n].unitPrice.value * lines[n].quantity > 0;
    }
  }

  lemma ResolvedLinesFacts(db: Db, inputs: seq<RetailLineInput>)
    requires OfferKeysOk(db) && AllResolvable(db, inputs) && LinesAcceptable(inputs)
    ensures AllStorableNew(Resolve(db, inputs)) && AllValid(db, Retail, Resolve(db, inputs)) && AllPriced(Resolve(db, inputs))
    ensures Resolve(db, inputs) != []
  {
    forall i | 0 <= i < |inputs| ensures StorableNew(Resolve(db, inputs)[i]) && CommercialOfferValid(db, Retail, Resolve(db, inputs)[i]) {
      assert Resolvable(db, inputs[i].offer);
    }
  }

  /** A checkout is stored with exactly the total that was checked against the limit. */
  lemma CheckoutIsPriced(db: Db, lines: seq<ResolvedLine>, checkouts: map<nat, int>)
    requires Tables(db) && AllStorableNew(lines) && AllPriced(lines) && lines != []
    requires LinesTotalPrice(lines) <= MAX_RETAIL_ORDER_TOTAL
    ensures PricedOk(WithDraft(db, Retail, lines, checkouts), db.nextOrder)
    ensures OrderTotal(WithDraft(db, Retail, lines, checkouts), db.nextOrder) == Some(LinesTotalPrice(lines))
  {
    TablesGiveKeys(db);
    NewOrderIsFresh(db);
    StoredTotal(db.lines, db.nextLine, db.nextOrder, lines);
    PricedTotalIsPositive(lines);
  }

  /** What a line of the cart becomes. */
  function CartLine(db: Db, o: nat, input: RetailLineInput): LineRow
    requires input.offer < |db.offers| && EUR in db.offers[input.offer].amounts && input.quantity > 0
  {
    LineRow(o, db.offers[input.offer].product, input.quantity, Some(db.offers[input.offer].amounts[EUR]), input.offer)
  }

  /** A checkout stores the cart: one new retail draft with one line per input, in order, at the offer's
      current EUR price, within the limits, no price twice, and the checkout window. */
  lemma CheckoutStoresTheCart(db: Db, destinationSupported: bool, inputs: seq<RetailLineInput>, db': Db)
    requires OfferKeysOk(db) && LineKeysBelow(db) && CreateRetailSpec(db, destinationSupported, inputs) == Ok(db')
    ensures destinationSupported && 1 <= |inputs| <= 20 && !RepeatsAPrice(inputs)
    ensures db' == db.(orders := db.orders[db.nextOrder := OrderRow(Retail, Draft)], nextOrder := db.nextOrder + 1,
                       lines := db'.lines, nextLine := db.nextLine + |inputs|,
                       checkouts := db.checkouts[db.nextOrder := db.now + 90 * 60 * 1000000])
    ensures forall l :: l in db'.lines <==> l in db.lines || db.nextLine <= l < db.nextLine + |inputs|
    ensures forall l :: l in db.lines ==> db'.lines[l] == db.lines[l]
    ensures forall i: nat :: i < |inputs| ==>
              && 1 <= inputs[i].quantity <= 20 && Resolvable(db, inputs[i].offer)
              && db'.lines[db.nextLine + i] == CartLine(db, db.nextOrder, inputs[i])
  {
    hide AddLines, LinesTotalPrice, Resolvable, RepeatsAPrice, Resolve, OfferKeysOk;
    var lines := Resolve(db, inputs);
    ResolvedLinesFacts(db, inputs);
    AddedLines(db.lines, db.nextLine, db.nextOrder, lines);
    ResolvedCount(db, inputs);
    assert db'.lines == AddLines(db.lines, db.nextLine, db.nextOrder, lines);
    forall i: nat | i < |inputs|
      ensures inputs[i].offer < |db.offers| && EUR in db.offers[inputs[i].offer].amounts
      ensures Resolvable(db, inputs[i].offer) && db'.lines[db.nextLine + i] == CartLine(db, db.nextOrder, inputs[i])
    {
      assert Resolvable(db, inputs[i].offer);
      ResolvedCartLine(db, db.nextOrder, inputs, i);
      assert db.nextLine + i in db'.lines;
      assert db'.lines[db.nextLine + i] == NewLine(db.nextOrder, lines[db.nextLine + i - db.nextLine]);
    }
  }

  lemma ResolvedCount(db: Db, inputs: seq<RetailLineInput>)
    requires OfferKeysOk(db) && AllResolvable(db, inputs)
    ensures |Resolve(db, inputs)| == |inputs|
  {
  }

  lemma ResolvedCartLine(db: Db, o: nat, inputs: seq<RetailLineInput>, i: nat)
    requires OfferKeysOk(db) && AllResolvable(db, inputs) && i < |inputs| && inputs[i].quantity > 0
    ensures inputs[i].offer < |db.offers| && EUR in db.offers[inputs[i].offer].amounts
    ensures StorableNew(Resolve(db, inputs)[i]) && NewLine(o, Resolve(db, inputs)[i]) == CartLine(db, o, inputs[i])
  {
    assert Resolvable(db, inputs[i].offer);
  }

  lemma CreateRetailKeepsInv(db: Db, destinationSupported: bool, inputs: seq<RetailLineInput>, db': Db)
    requires Inv(db) && OfferKeysOk(db) && CreateRetailSpec(db, destinationSupported, inputs) == Ok(db')
    ensures Inv(db')
  {
    hide Resolvable, AddLines, OffersOk, LinesOk, AllocationsOk, StockOk, OrdersOk, OneRowPerLineAndBatch, PaymentsOk;
    var lines := Resolve(db, inputs);
    var checkouts := db.checkouts[db.nextOrder := db.now + RETAIL_CHECKOUT_WINDOW];
    ResolvedLinesFacts(db, inputs);
    CheckoutIsPriced(db, lines, checkouts);
    DraftKeepsInv(db, Retail, lines, checkouts);
    assert db' == WithDraft(db, Retail, lines, checkouts);
  }

  // ---------- Discarding ----------

  lemma DiscardTables(db: Db, o: nat, db': Db)
    requires Tables(db) && DiscardSpec(db, o) == Ok(db')
    ensures Tables(db')
    ensures forall p :: p != o ==> SameLinesFor(db.lines, db'.lines, p)
  {
    forall k | 0 <= k < |db'.offers| ensures OfferOk(db', k) {
      assert OfferOk(db, k);
    }
    forall l | l in db'.lines ensures LineOk(db', l) {
      assert LineOk(db, l);
    }
    forall i | i in db'.allocations ensures AllocationOk(db', i) {
      assert AllocationOk(db, i);
    }
  }

  lemma DiscardPayments(db: Db, o: nat, db': Db)
    requires Tables(db) && Tables(db') && PaymentsOk(db) && DiscardSpec(db, o) == Ok(db')
    requires forall p :: p != o ==> SameLinesFor(db.lines, db'.lines, p)
    ensures PaymentsOk(db')
  {
    TablesGiveKeys(db);
    TablesGiveKeys(db');
    forall a | a in db'.attempts ensures AttemptOk(db', a) {
      assert AttemptOk(db, a);
      OrderTotalFrame(db, db', db.attempts[a].order);
    }
    forall p | p in db'.orders ensures PaidOk(db', p) {
      assert PaidOk(db, p);
      OrderTotalFrame(db, db', p);
      if a :| a in db.attempts && db.attempts[a].order == p && db.attempts[a].status.Succeeded? {
        assert a in db'.attempts;
      }
    }
  }

  /** Only drafts without any allocation go, so no consumed row is ever deleted with an order. */
  lemma DiscardKeepsInv(db: Db, o: nat, db': Db)
    requires Inv(db) && DiscardSpec(db, o) == Ok(db')
    ensures Inv(db')
  {
    DiscardTables(db, o, db');
    forall p | p in db'.orders ensures OrderOk(db', p) {
      OrderFrame(db, db', p);
    }
    forall b | 0 <= b < |db'.batches| ensures BatchOk(db', b) {
      assert BatchOk(db, b);
    }
    DiscardPayments(db, o, db');
  }
}
