/**
 The diff-based edit refines "replace all lines": the resulting lines are the incoming ones, while
 kept offers keep their line and its price; and exactly when an edit goes through.
 */
module EditFacts {
  import opened Common
  import opened Records
  import opened Pricing
  import opened Reservations
  import opened ReservationFacts
  import opened Placement
  import opened Orders
  import opened OrderEdit
  import opened Drafts
  import opened Invariant
  import opened OrderSteps
  import opened EditSteps
  import opened PlacementFacts

  ghost predicate Wants(incoming: seq<ResolvedLine>, i: nat, row: LineRow) {
    i < |incoming| && incoming[i].offer == Some(row.offer) && incoming[i].quantity == row.quantity
  }

  ghost predicate IsLineOf(lines: Lines, l: nat, o: nat) {
    l in lines && lines[l].order == o
  }

  /** Incoming line i has its line in the order. */
  ghost predicate Provided(lines: Lines, o: nat, incoming: seq<ResolvedLine>, i: nat) {
    exists l: nat :: IsLineOf(lines, l, o) && Wants(incoming, i, lines[l])
  }

  /** The order's lines, as a map from offer to quantity, are the incoming lines. */
  ghost predicate LinesAre(lines: Lines, o: nat, incoming: seq<ResolvedLine>) {
    && !TwoLinesShareAnOffer(lines, o)
    && (forall l: nat :: IsLineOf(lines, l, o) ==> exists i: nat :: Wants(incoming, i, lines[l]))
    && (forall i: nat :: i < |incoming| ==> Provided(lines, o, incoming, i))
  }

  // ---------- The new line table ----------

  lemma {:induction false} NewLinesDistinct(incoming: seq<ResolvedLine>, existing: set<nat>)
    requires AllOffered(incoming) && !RepeatsAnOffer(incoming)
    ensures !RepeatsAnOffer(NewLines(incoming, existing))
  {
    if incoming != [] {
      var n := |incoming| - 1;
      NewLinesDistinct(incoming[..n], existing);
      var shorter := NewLines(incoming[..n], existing);
      forall j | 0 <= j < |shorter| ensures shorter[j].offer != incoming[n].offer {
        assert shorter[j] in incoming[..n];
        var i :| 0 <= i < n && incoming[i] == shorter[j];
        assert incoming[i].offer != incoming[n].offer;
      }
    }
  }

  lemma SameOfferSameLine(incoming: seq<ResolvedLine>, i: nat, k: nat)
    requires AllOffered(incoming) && !RepeatsAnOffer(incoming) && i < |incoming| && incoming[i].offer == Some(k)
    ensures k in ByOffer(incoming) && ByOffer(incoming)[k] == incoming[i]
  {
    ByOfferHasAll(incoming, i);
    var j :| 0 <= j < |incoming| && incoming[j] == ByOffer(incoming)[k];
    assert incoming[j].offer == incoming[i].offer;
    assert i == j;
  }

  /** What EditedRows says about the line with key l. */
  lemma EditedRow(lines: Lines, next: nat, o: nat, m: map<nat, ResolvedLine>, news: seq<ResolvedLine>, r: Lines, l: nat)
    requires PositiveQuantities(m) && AllStorableNew(news) && EditedRows(lines, next, o, m, news, r)
    requires IsLineOf(r, l, o)
    ensures l < next ==> IsLineOf(lines, l, o) && lines[l].offer in m && r[l] == lines[l].(quantity := m[lines[l].offer].quantity)
    ensures l >= next ==> l - next < |news| && r[l] == NewLine(o, news[l - next])
  {
    if l >= next {
      assert r[next + (l - next)] == NewLine(o, news[l - next]);
    }
  }

  lemma EveryLineIsWanted(lines: Lines, next: nat, o: nat, incoming: seq<ResolvedLine>, r: Lines, l: nat)
    requires AllOffered(incoming) && EditStorable(incoming, OffersOf(lines, o))
    requires PositiveQuantities(ByOffer(incoming)) && AllStorableNew(NewLines(incoming, OffersOf(lines, o)))
    requires EditedRows(lines, next, o, ByOffer(incoming), NewLines(incoming, OffersOf(lines, o)), r)
    requires IsLineOf(r, l, o)
    ensures exists i: nat :: Wants(incoming, i, r[l])
  {
    hide EditedRows, NewLines, ByOffer;
    var m, news := ByOffer(incoming), NewLines(incoming, OffersOf(lines, o));
    EditedRow(lines, next, o, m, news, r, l);
    var wanted := if l < next then m[r[l].offer] else news[l - next];
    assert wanted in incoming;
    var i: nat :| i < |incoming| && incoming[i] == wanted;
    assert Wants(incoming, i, r[l]);
  }

  lemma EveryWantedLineIsThere(lines: Lines, next: nat, o: nat, incoming: seq<ResolvedLine>, r: Lines, i: nat)
    requires AllOffered(incoming) && EditStorable(incoming, OffersOf(lines, o)) && !RepeatsAnOffer(incoming)
    requires PositiveQuantities(ByOffer(incoming)) && AllStorableNew(NewLines(incoming, OffersOf(lines, o)))
    requires EditedRows(lines, next, o, ByOffer(incoming), NewLines(incoming, OffersOf(lines, o)), r)
    requires i < |incoming|
    ensures Provided(r, o, incoming, i)
  {
    hide NewLines, ByOffer;
    var m, news := ByOffer(incoming), NewLines(incoming, OffersOf(lines, o));
    var k := incoming[i].offer.value;
    SameOfferSameLine(incoming, i, k);
    if k in OffersOf(lines, o) {
      var l :| l in lines && lines[l].order == o && lines[l].offer == k;
      assert IsLineOf(r, l, o) && Wants(incoming, i, r[l]);
    } else {
      assert incoming[i] in incoming;
      assert incoming[i] in news;
      var j :| 0 <= j < |news| && news[j] == incoming[i];
      assert r[next + j] == NewLine(o, news[j]);
      assert IsLineOf(r, next + j, o) && Wants(incoming, i, r[next + j]);
    }
  }

  lemma EditedOffersDistinct(lines: Lines, next: nat, o: nat, incoming: seq<ResolvedLine>, r: Lines)
    requires AllOffered(incoming) && EditStorable(incoming, OffersOf(lines, o)) && !RepeatsAnOffer(incoming)
    requires PositiveQuantities(ByOffer(incoming)) && AllStorableNew(NewLines(incoming, OffersOf(lines, o)))
    requires EditedRows(lines, next, o, ByOffer(incoming), NewLines(incoming, OffersOf(lines, o)), r)
    requires !TwoLinesShareAnOffer(lines, o)
    ensures !TwoLinesShareAnOffer(r, o)
  {
    hide EditedRows, NewLines, ByOffer;
    var existing := OffersOf(lines, o);
    var m, news := ByOffer(incoming), NewLines(incoming, existing);
    NewLinesDistinct(incoming, existing);
    forall a: nat, b: nat | IsLineOf(r, a, o) && IsLineOf(r, b, o) && a < b ensures r[a].offer != r[b].offer {
      EditedRow(lines, next, o, m, news, r, a);
      EditedRow(lines, next, o, m, news, r, b);
      if a < next <= b {
        assert news[b - next] in news;
        assert r[a].offer in existing;
      } else if a >= next {
        assert news[a - next].offer != news[b - next].offer;
      }
    }
    forall a, b | a in r && b in r && a != b && r[a].order == o && r[b].order == o ensures r[a].offer != r[b].offer {
      assert IsLineOf(r, a, o) && IsLineOf(r, b, o);
    }
  }

  lemma EditedLinesAreIncoming(db: Db, o: nat, incoming: seq<ResolvedLine>)
    requires LineKeysBelow(db) && AllOffered(incoming) && EditStorable(incoming, OffersOf(db.lines, o))
    requires !RepeatsAnOffer(incoming) && !TwoLinesShareAnOffer(db.lines, o)
    ensures LinesAre(EditLines(db, o, incoming).lines, o, incoming)
  {
    hide EditedRows, NewLines, ByOffer, KeptLines, AddLines, TwoLinesShareAnOffer, RepeatsAnOffer, Wants, PositiveQuantities, AllStorableNew;
    EditLinesRows(db, o, incoming);
    var r := EditLines(db, o, incoming).lines;
    EditedOffersDistinct(db.lines, db.nextLine, o, incoming, r);
    forall l: nat | IsLineOf(r, l, o) ensures exists i: nat :: Wants(incoming, i, r[l]) {
      EveryLineIsWanted(db.lines, db.nextLine, o, incoming, r, l);
    }
    forall i: nat | i < |incoming| ensures Provided(r, o, incoming, i) {
      EveryWantedLineIsThere(db.lines, db.nextLine, o, incoming, r, i);
    }
  }

  // ---------- The edit as a whole ----------

  /** The checks of the edit that do not depend on stock or on the offers' current settings. */
  ghost predicate EditAccepted(db: Db, o: nat, incoming: seq<ResolvedLine>) {
    && o in db.orders && db.orders[o].status.Placed? && db.orders[o].channel.Business?
    && incoming != []
    && AllValid(db, Business, incoming)
    && !RepeatsAnOffer(incoming)
    && !TwoLinesShareAnOffer(db.lines, o)
    && EditStorable(incoming, OffersOf(db.lines, o))
  }

  function MidEditState(db: Db, o: nat, incoming: seq<ResolvedLine>): Db
    requires AllOffered(incoming) && EditStorable(incoming, OffersOf(db.lines, o))
  {
    EditLines(DeleteReservationsSpec(db, o), o, incoming)
  }

  lemma EditUnfolds(db: Db, o: nat, incoming: seq<ResolvedLine>)
    requires OfferKeysOk(db) && LineKeysBelow(db)
    ensures UpdatePlacedSpec(db, o, incoming).Ok? ==> EditAccepted(db, o, incoming)
    ensures EditAccepted(db, o, incoming) ==>
              OfferKeysOk(MidEditState(db, o, incoming))
              && UpdatePlacedSpec(db, o, incoming) == PrepareBusinessSpec(MidEditState(db, o, incoming), o)
  {
    hide EditLines, ReserveLinesSpec, TwoLinesShareAnOffer, RepeatsAnOffer, EditStorable, OffersOf, DeleteReservationsSpec;
    if UpdatePlacedSpec(db, o, incoming).Ok? {
      assert AllValid(DeleteReservationsSpec(db, o), db.orders[o].channel, incoming) by { ClearedValid(db, o, incoming); }
      MidEditOrders(db, o, incoming);
    }
    if EditAccepted(db, o, incoming) {
      MidEditKeys(db, o, incoming);
    }
  }

  lemma ClearedValid(db: Db, o: nat, incoming: seq<ResolvedLine>)
    requires o in db.orders && AllValid(db, db.orders[o].channel, incoming)
    ensures AllValid(DeleteReservationsSpec(db, o), db.orders[o].channel, incoming)
  {
  }

  lemma MidEditOrders(db: Db, o: nat, incoming: seq<ResolvedLine>)
    requires AllOffered(incoming) && EditStorable(incoming, OffersOf(db.lines, o))
    ensures MidEditState(db, o, incoming).orders == db.orders
  {
    hide AddLines, KeptLines;
  }

  lemma MidEditKeys(db: Db, o: nat, incoming: seq<ResolvedLine>)
    requires OfferKeysOk(db) && LineKeysBelow(db) && EditAccepted(db, o, incoming)
    ensures OfferKeysOk(MidEditState(db, o, incoming))
    ensures MidEditState(db, o, incoming).orders == db.orders
  {
    var cleared := DeleteReservationsSpec(db, o);
    assert AllValid(cleared, db.orders[o].channel, incoming);
    OfferKeysFrame(db, cleared);
    EditLinesKeepsOfferKeys(cleared, o, incoming);
  }

  /** A successful edit only adds reservations to the diffed lines. */
  lemma EditedLinesKnown(db: Db, o: nat, incoming: seq<ResolvedLine>, db': Db)
    requires OfferKeysOk(db) && LineKeysBelow(db) && UpdatePlacedSpec(db, o, incoming) == Ok(db')
    ensures EditAccepted(db, o, incoming)
    ensures db'.lines == EditLines(DeleteReservationsSpec(db, o), o, incoming).lines
  {
    hide EditLines, ReserveLinesSpec, TwoLinesShareAnOffer, RepeatsAnOffer, EditStorable, OffersOf, DeleteReservationsSpec;
    EditUnfolds(db, o, incoming);
  }

  /** A line of the order that is there before and after. */
  ghost predicate KeptAs(lines: Lines, lines': Lines, l: nat) {
    l in lines && l in lines' && lines'[l] == lines[l].(quantity := lines'[l].quantity)
  }

  /** The line's price is the incoming price of the same offer. */
  ghost predicate PricedAs(incoming: seq<ResolvedLine>, row: LineRow) {
    exists i: nat :: Wants(incoming, i, row)
      && (match incoming[i].unitPrice
          case None => row.unitPrice.None?
          case Some(p) => row.unitPrice.Some? && row.unitPrice.value == p)
  }

  ghost predicate Selected(incoming: seq<ResolvedLine>, k: nat) {
    exists i :: 0 <= i < |incoming| && incoming[i].offer == Some(k)
  }

  lemma DiffedLines(db: Db, o: nat, incoming: seq<ResolvedLine>)
    requires LineKeysBelow(db) && AllOffered(incoming) && EditStorable(incoming, OffersOf(db.lines, o))
    ensures var t := EditLines(db, o, incoming).lines;
            && (forall l: nat :: IsLineOf(db.lines, l, o) ==>
                  if Selected(incoming, db.lines[l].offer) then KeptAs(db.lines, t, l) else l !in t)
            && (forall l: nat :: IsLineOf(t, l, o) && l !in db.lines ==>
                  l >= db.nextLine && t[l].offer !in OffersOf(db.lines, o) && PricedAs(incoming, t[l]))
            && (forall l :: l in db.lines && db.lines[l].order != o ==> l in t && t[l] == db.lines[l])
  {
    hide NewLines, ByOffer, KeptLines, AddLines, EditStorable;
    EditLinesRows(db, o, incoming);
    var t := EditLines(db, o, incoming).lines;
    var m, news := ByOffer(incoming), NewLines(incoming, OffersOf(db.lines, o));
    forall l: nat | IsLineOf(db.lines, l, o)
      ensures if Selected(incoming, db.lines[l].offer) then KeptAs(db.lines, t, l) else l !in t
    {
      ByOfferKeys(incoming, db.lines[l].offer);
    }
    forall l: nat | IsLineOf(t, l, o) && l !in db.lines
      ensures l >= db.nextLine && t[l].offer !in OffersOf(db.lines, o) && PricedAs(incoming, t[l])
    {
      EditedRow(db.lines, db.nextLine, o, m, news, t, l);
      FreshLine(o, incoming, OffersOf(db.lines, o), l - db.nextLine);
    }
  }

  /** On success the order's lines are the incoming lines. A kept offer keeps its line with key, price
      snapshot and product; a new offer gets a fresh line with the incoming price; a dropped offer is
      gone; other orders' lines are untouched. */
  lemma EditRefinesReplaceAll(db: Db, o: nat, incoming: seq<ResolvedLine>, db': Db)
    requires OfferKeysOk(db) && LineKeysBelow(db) && UpdatePlacedSpec(db, o, incoming) == Ok(db')
    ensures o in db.orders && db.orders[o].channel.Business?
    ensures LinesAre(db'.lines, o, incoming)
    ensures forall l: nat :: IsLineOf(db.lines, l, o) ==>
              if Selected(incoming, db.lines[l].offer) then KeptAs(db.lines, db'.lines, l) else l !in db'.lines
    ensures forall l: nat :: IsLineOf(db'.lines, l, o) && l !in db.lines ==>
              l >= db.nextLine && db'.lines[l].offer !in OffersOf(db.lines, o) && PricedAs(incoming, db'.lines[l])
    ensures forall l :: l in db.lines && db.lines[l].order != o ==> l in db'.lines && db'.lines[l] == db.lines[l]
  {
    hide EditLines, TwoLinesShareAnOffer, RepeatsAnOffer, LinesAre, UpdatePlacedSpec, EditStorable, KeptAs, PricedAs, Selected;
    EditedLinesKnown(db, o, incoming, db');
    EditedLinesAreIncoming(DeleteReservationsSpec(db, o), o, incoming);
    DiffedLines(DeleteReservationsSpec(db, o), o, incoming);
  }

  lemma FreshLine(o: nat, incoming: seq<ResolvedLine>, existing: set<nat>, j: nat)
    requires AllOffered(incoming) && AllStorableNew(NewLines(incoming, existing)) && j < |NewLines(incoming, existing)|
    ensures var row := NewLine(o, NewLines(incoming, existing)[j]);
            row.offer !in existing && PricedAs(incoming, row)
  {
    hide NewLines;
    var news := NewLines(incoming, existing);
    assert news[j] in news && news[j] in incoming;
    var i: nat :| i < |incoming| && incoming[i] == news[j];
    assert Wants(incoming, i, NewLine(o, news[j]));
  }

  // ---------- When an edit goes through ----------

  /** A pool's free units measured after deleting the order's own reservations. */
  function FreeForEdit(db: Db, o: nat, k: nat): nat
    requires OfferKeysOk(db) && k < |db.offers|
  {
    assert OfferOk(db, k);
    PoolUnits(DeleteReservationsSpec(db, o), k, EUR)
  }

  /** The incoming line's offer may be sold, and without the order's own reservations its pool has
      the units. */
  ghost predicate IncomingFits(db: Db, o: nat, line: ResolvedLine)
    requires OfferKeysOk(db)
  {
    line.offer.Some? && OfferResolvable(db, line.offer.value) && line.quantity <= FreeForEdit(db, o, line.offer.value)
  }

  /** Removing lines only deletes rows that no longer reserve anything. */
  lemma RemovedRowsWereIdle(cleared: Db, o: nat, incoming: seq<ResolvedLine>, b: nat)
    requires AllocationsOk(cleared) && HoldsNothing(cleared.allocations, o)
    requires AllOffered(incoming) && EditStorable(incoming, OffersOf(cleared.lines, o))
    ensures ActiveReserved(EditLines(cleared, o, incoming), b) == ActiveReserved(cleared, b)
  {
    hide AddLines, KeptLines, NewLines, ByOffer;
    var mid := EditLines(cleared, o, incoming);
    forall i | 0 <= i < cleared.nextAllocation
      ensures Weight(mid.allocations, i, ActiveOn(b, mid.now)) == Weight(cleared.allocations, i, ActiveOn(b, cleared.now))
    {
      if i in cleared.allocations {
        assert AllocationOk(cleared, i);
        assert !Matches(cleared.allocations[i], ReservedBy(o));
      }
    }
    TotalSame(mid.allocations, cleared.nextAllocation, ActiveOn(b, mid.now), cleared.allocations, ActiveOn(b, cleared.now));
  }

  lemma MidPoolUnits(db: Db, o: nat, incoming: seq<ResolvedLine>, k: nat)
    requires OfferKeysOk(db) && AllocationsOk(DeleteReservationsSpec(db, o)) && k < |db.offers|
    requires AllOffered(incoming) && EditStorable(incoming, OffersOf(db.lines, o))
    ensures var mid := MidEditState(db, o, incoming);
            k < |mid.offers| && OfferOk(mid, k) && PoolUnits(mid, k, EUR) == FreeForEdit(db, o, k)
  {
    hide EditStorable, AllocationsOk;
    assert OfferOk(db, k);
    var cleared := DeleteReservationsSpec(db, o);
    var mid := MidEditState(db, o, incoming);
    MidKeepsStock(db, o, incoming);
    forall b | 0 <= b < |cleared.batches| && InPool(cleared, k, EUR, b) ensures ActiveReserved(cleared, b) == ActiveReserved(mid, b) {
      RemovedRowsWereIdle(cleared, o, incoming, b);
    }
    assert OfferOk(cleared, k) && OfferOk(mid, k);
    PoolUnitsFrame(cleared, mid, k, EUR, |cleared.batches|);
  }

  lemma MidKeepsStock(db: Db, o: nat, incoming: seq<ResolvedLine>)
    requires AllOffered(incoming) && EditStorable(incoming, OffersOf(db.lines, o))
    ensures SameStock(db, MidEditState(db, o, incoming)) && SameStock(DeleteReservationsSpec(db, o), MidEditState(db, o, incoming))
  {
    hide AddLines, KeptLines, NewLines, ByOffer;
  }

  lemma LineFitsWhenIncomingFits(db: Db, o: nat, incoming: seq<ResolvedLine>, mid: Db, l: nat, i: nat)
    requires OfferKeysOk(db) && OfferKeysOk(mid) && AllocationsOk(DeleteReservationsSpec(db, o)) && LinesOk(mid)
    requires AllOffered(incoming) && EditStorable(incoming, OffersOf(db.lines, o)) && mid == MidEditState(db, o, incoming)
    requires o in mid.orders && mid.orders[o].channel.Business?
    requires IsLineOf(mid.lines, l, o) && Wants(incoming, i, mid.lines[l])
    ensures LineFits(mid, l, Business) <==> IncomingFits(db, o, incoming[i])
  {
    hide EditLines, PoolUnits, AllocationsOk, EditStorable;
    assert LineOk(mid, l);
    MidKeepsStock(db, o, incoming);
    MidPoolUnits(db, o, incoming, mid.lines[l].offer);
    assert OfferOk(db, mid.lines[l].offer);
  }

  lemma MidStateIsSound(db: Db, o: nat, incoming: seq<ResolvedLine>)
    requires Inv(db) && OfferKeysOk(db) && LineKeysBelow(db) && EditAccepted(db, o, incoming)
    ensures MidEdit(db, MidEditState(db, o, incoming), o) && OfferKeysOk(MidEditState(db, o, incoming))
    ensures Tables(DeleteReservationsSpec(db, o))
    ensures MidEditState(db, o, incoming).orders == db.orders
    ensures LinesAre(MidEditState(db, o, incoming).lines, o, incoming)
  {
    hide StockOk, OneRowPerLineAndBatch, EditLines, PaymentsOk, LinesAre, RepeatsAnOffer, TwoLinesShareAnOffer, EditStorable;
    assert OrderOk(db, o);
    ClearedIsMidEdit(db, o);
    EditedIsMidEdit(db, DeleteReservationsSpec(db, o), o, incoming);
    MidEditKeys(db, o, incoming);
    EditedLinesAreIncoming(DeleteReservationsSpec(db, o), o, incoming);
  }

  lemma AllFitWhenIncomingFits(db: Db, o: nat, incoming: seq<ResolvedLine>, mid: Db)
    requires OfferKeysOk(db) && EditAccepted(db, o, incoming) && mid == MidEditState(db, o, incoming)
    requires Tables(DeleteReservationsSpec(db, o)) && Tables(mid) && OfferKeysOk(mid) && mid.orders == db.orders
    requires LinesAre(mid.lines, o, incoming) && AreLines(mid, OrderLines(mid, o))
    ensures AllFit(mid, OrderLines(mid, o)) <==> forall i: nat :: i < |incoming| ==> IncomingFits(db, o, incoming[i])
  {
    hide LineFits, IncomingFits, EditLines, Wants, OffersOk, KeysOk, EditStorable, RepeatsAnOffer, TwoLinesShareAnOffer, OfferKeysOk, AllocationsOk, LinesOk;
    LineIdsFacts(mid, o);
    var ids := OrderLines(mid, o);
    if forall i: nat :: i < |incoming| ==> IncomingFits(db, o, incoming[i]) {
      forall j | 0 <= j < |ids| ensures LineFits(mid, ids[j], Business) {
        assert ids[j] in ids;
        assert IsLineOf(mid.lines, ids[j], o);
        var i: nat :| Wants(incoming, i, mid.lines[ids[j]]);
        WantedInRange(incoming, i, mid.lines[ids[j]]);
        LineFitsWhenIncomingFits(db, o, incoming, mid, ids[j], i);
      }
    }
    if AllFit(mid, ids) {
      forall i: nat | i < |incoming| ensures IncomingFits(db, o, incoming[i]) {
        assert Provided(mid.lines, o, incoming, i);
        var l: nat :| IsLineOf(mid.lines, l, o) && Wants(incoming, i, mid.lines[l]);
        assert l in ids;
        LineFitsWhenIncomingFits(db, o, incoming, mid, l, i);
      }
    }
  }

  lemma WantedInRange(incoming: seq<ResolvedLine>, i: nat, row: LineRow)
    requires Wants(incoming, i, row)
    ensures i < |incoming|
  {
  }

  /** An edit goes through exactly when it is well formed and every incoming line's offer may be sold
      and has the units in its pool once the order's own reservations are gone. */
  lemma EditGoesThroughExactly(db: Db, o: nat, incoming: seq<ResolvedLine>)
    requires Inv(db) && OfferKeysOk(db) && LineKeysBelow(db)
    ensures UpdatePlacedSpec(db, o, incoming).Ok? <==>
              EditAccepted(db, o, incoming) && forall i: nat :: i < |incoming| ==> IncomingFits(db, o, incoming[i])
  {
    hide UpdatePlacedSpec, EditAccepted, IncomingFits, AllFit, Inv, LinesAre, OfferKeysOk;
    EditUnfolds(db, o, incoming);
    if EditAccepted(db, o, incoming) {
      AcceptedShape(db, o, incoming);
      MidStateIsSound(db, o, incoming);
      var mid := MidEditState(db, o, incoming);
      PreparedExactly(mid, o, incoming);
      AllFitWhenIncomingFits(db, o, incoming, mid);
    }
  }

  lemma AcceptedShape(db: Db, o: nat, incoming: seq<ResolvedLine>)
    requires EditAccepted(db, o, incoming)
    ensures o in db.orders && db.orders[o].channel.Business? && incoming != []
    ensures AllOffered(incoming) && EditStorable(incoming, OffersOf(db.lines, o))
  {
  }

  lemma PreparedExactly(mid: Db, o: nat, incoming: seq<ResolvedLine>)
    requires Tables(mid) && StockOk(mid) && OfferKeysOk(mid)
    requires o in mid.orders && mid.orders[o].channel.Business? && incoming != [] && LinesAre(mid.lines, o, incoming)
    ensures AreLines(mid, OrderLines(mid, o))
    ensures PrepareBusinessSpec(mid, o).Ok? <==> AllFit(mid, OrderLines(mid, o))
  {
    hide ReserveLinesSpec, AllFit, TwoLinesShareAnOffer, OfferKeysOk, StockOk, OffersOk;
    LineIdsFacts(mid, o);
    AllocationKeys(mid);
    DistinctOrderLines(mid, o);
    DistinctOffersNeverCompete(mid, OrderLines(mid, o));
    assert Provided(mid.lines, o, incoming, 0);
  }
}
