/** Creating drafts, discarding them and editing placed orders keep the invariant. */
module EditSteps {
  import opened Common
  import opened Records
  import opened Pricing
  import opened Reservations
  import opened ReservationFacts
  import opened Placement
  import opened Orders
  import opened OrderEdit
  import opened Invariant
  import opened OrderSteps

  // ---------- Deleting allocations ----------

  lemma DeletedStock(db: Db, doomed: set<nat>)
    requires StockOk(db)
    ensures StockOk(DeleteAllocations(db, doomed))
  {
    var db' := DeleteAllocations(db, doomed);
    forall b | 0 <= b < |db'.batches| ensures BatchOk(db', b) {
      assert BatchOk(db, b);
      TotalLe(db'.allocations, db'.nextAllocation, ActiveOn(b, db.now), db.allocations, ActiveOn(b, db.now));
    }
  }

  lemma DeletedTables(db: Db, doomed: set<nat>)
    requires Tables(db)
    ensures Tables(DeleteAllocations(db, doomed))
    ensures OneRowPerLineAndBatch(db.allocations) ==> OneRowPerLineAndBatch(DeleteAllocations(db, doomed).allocations)
  {
    var db' := DeleteAllocations(db, doomed);
    forall k | 0 <= k < |db'.offers| ensures OfferOk(db', k) {
      assert OfferOk(db, k);
    }
    forall l | l in db'.lines ensures LineOk(db', l) {
      assert LineOk(db, l);
    }
    forall i | i in db'.allocations ensures AllocationOk(db', i) {
      assert AllocationOk(db, i);
    }
  }

  /** Deleting rows of one order only. */
  lemma DeletedElsewhere(db: Db, doomed: set<nat>, o: nat)
    requires forall i :: i in doomed && i in db.allocations ==> db.allocations[i].order == o
    ensures forall p :: p != o ==> SameAllocationsFor(db.allocations, DeleteAllocations(db, doomed).allocations, p)
    ensures NothingConsumed(db.allocations, o) ==> NothingConsumed(DeleteAllocations(db, doomed).allocations, o)
    ensures HoldsNothing(db.allocations, o) ==> HoldsNothing(DeleteAllocations(db, doomed).allocations, o)
  {
  }

  lemma ClearedHoldsNothing(db: Db, o: nat)
    ensures HoldsNothing(DeleteReservationsSpec(db, o).allocations, o)
  {
  }

  // ---------- The line diff ----------

  /** Only lines of order o change, and the surviving ones keep order, product and offer. */
  ghost predicate LinesChanged(lines: Lines, lines': Lines, next: nat, o: nat) {
    && (forall p :: p != o ==> SameLinesFor(lines, lines', p))
    && (forall l :: l in lines && l in lines' ==>
          lines'[l].order == lines[l].order && lines'[l].product == lines[l].product && lines'[l].offer == lines[l].offer)
    && (forall l :: l in lines' && l !in lines ==> l >= next && lines'[l].order == o)
  }

  lemma EditedLinesChange(lines: Lines, next: nat, o: nat, m: map<nat, ResolvedLine>, news: seq<ResolvedLine>, r: Lines)
    requires forall l :: l in lines ==> l < next
    requires PositiveQuantities(m) && AllStorableNew(news) && EditedRows(lines, next, o, m, news, r)
    ensures LinesChanged(lines, r, next, o)
    ensures forall l :: l in r && l !in lines ==> l < next + |news| && r[l] == NewLine(o, news[l - next])
    ensures forall l :: l in lines && l !in r ==> lines[l].order == o && lines[l].offer !in m
  {
    forall l | l in r && l !in lines ensures next <= l < next + |news| && r[l] == NewLine(o, news[l - next]) {
      assert r[next + (l - next)] == NewLine(o, news[l - next]);
    }
  }

  lemma KeptLineOk(db: Db, db': Db, l: nat)
    requires l in db.lines && LineOk(db, l) && l in db'.lines
    requires db'.orders == db.orders && db'.offers == db.offers && db.nextLine <= db'.nextLine
    requires db'.lines[l].order == db.lines[l].order && db'.lines[l].product == db.lines[l].product && db'.lines[l].offer == db.lines[l].offer
    ensures LineOk(db', l)
  {
  }

  lemma FreshLineOk(db: Db, o: nat, line: ResolvedLine, db': Db, l: nat)
    requires o in db.orders && CommercialOfferValid(db, db.orders[o].channel, line) && StorableNew(line)
    requires db'.orders == db.orders && db'.offers == db.offers
    requires l in db'.lines && l < db'.nextLine && db'.lines[l] == NewLine(o, line)
    ensures LineOk(db', l)
  {
  }

  lemma EditedLineOk(db: Db, o: nat, incoming: seq<ResolvedLine>, l: nat)
    requires LinesOk(db) && o in db.orders && LineKeysBelow(db)
    requires AllValid(db, db.orders[o].channel, incoming) && EditStorable(incoming, OffersOf(db.lines, o))
    requires l in EditLines(db, o, incoming).lines
    ensures LineOk(EditLines(db, o, incoming), l)
  {
    hide KeptLines, AddLines, ByOffer, NewLines, EditStorable, EditedRows, LineOk, NewLine;
    var db' := EditLines(db, o, incoming);
    var news := NewLines(incoming, OffersOf(db.lines, o));
    EditLinesRows(db, o, incoming);
    EditedLinesChange(db.lines, db.nextLine, o, ByOffer(incoming), news, db'.lines);
    if l in db.lines {
      KeptLineOk(db, db', l);
    } else {
      NewLinesValid(db, db.orders[o].channel, incoming, OffersOf(db.lines, o));
      FreshLineOk(db, o, news[l - db.nextLine], db', l);
    }
  }

  lemma EditedLinesAre(db: Db, o: nat, incoming: seq<ResolvedLine>)
    requires LineKeysBelow(db) && AllOffered(incoming) && EditStorable(incoming, OffersOf(db.lines, o))
    ensures LinesChanged(db.lines, EditLines(db, o, incoming).lines, db.nextLine, o)
    ensures forall l :: l in db.lines && l !in EditLines(db, o, incoming).lines ==> l in RemovedLines(db.lines, o, ByOffer(incoming))
  {
    hide KeptLines, AddLines, ByOffer, NewLines;
    EditLinesRows(db, o, incoming);
    EditedLinesChange(db.lines, db.nextLine, o, ByOffer(incoming), NewLines(incoming, OffersOf(db.lines, o)),
                      EditLines(db, o, incoming).lines);
  }

  /** The diff keeps referential integrity: the rows of removed lines go with them. */
  lemma EditLinesTables(db: Db, o: nat, incoming: seq<ResolvedLine>)
    requires Tables(db) && o in db.orders && LineKeysBelow(db)
    requires AllValid(db, db.orders[o].channel, incoming) && EditStorable(incoming, OffersOf(db.lines, o))
    ensures Tables(EditLines(db, o, incoming))
  {
    hide KeptLines, AddLines, ByOffer, NewLines;
    var db' := EditLines(db, o, incoming);
    forall l | l in db'.lines ensures LineOk(db', l) {
      EditedLineOk(db, o, incoming, l);
    }
    EditedLinesAre(db, o, incoming);
    forall k | 0 <= k < |db'.offers| ensures OfferOk(db', k) {
      assert OfferOk(db, k);
    }
    forall i | i in db'.allocations ensures AllocationOk(db', i) {
      assert AllocationOk(db, i);
    }
  }

  lemma EditedStock(db: Db, o: nat, incoming: seq<ResolvedLine>)
    requires StockOk(db) && AllOffered(incoming) && EditStorable(incoming, OffersOf(db.lines, o))
    ensures StockOk(EditLines(db, o, incoming))
  {
    hide AddLines;
    var deleted := DeleteAllocations(db, AllocationsOfLines(db.allocations, RemovedLines(db.lines, o, ByOffer(incoming))));
    DeletedStock(db, AllocationsOfLines(db.allocations, RemovedLines(db.lines, o, ByOffer(incoming))));
    forall b | 0 <= b < |db.batches| ensures BatchOk(EditLines(db, o, incoming), b) {
      assert BatchOk(deleted, b);
    }
  }

  /** Between clearing and reserving again, only order o differs from the original state. */
  ghost predicate MidEdit(db: Db, mid: Db, o: nat) {
    && mid == db.(lines := mid.lines, nextLine := mid.nextLine, allocations := mid.allocations, marks := mid.marks)
    && Tables(mid) && StockOk(mid) && OneRowPerLineAndBatch(mid.allocations)
    && HoldsNothing(mid.allocations, o) && NothingConsumed(mid.allocations, o)
    && db.nextLine <= mid.nextLine
    && (forall p :: p != o ==> SameLinesFor(db.lines, mid.lines, p) && SameAllocationsFor(db.allocations, mid.allocations, p))
  }

  lemma ClearedIsMidEdit(db: Db, o: nat)
    requires Tables(db) && StockOk(db) && OneRowPerLineAndBatch(db.allocations) && NothingConsumed(db.allocations, o)
    ensures MidEdit(db, DeleteReservationsSpec(db, o), o)
  {
    hide StockOk, OneRowPerLineAndBatch, Tables;
    var doomed := ReservedKeys(db.allocations, o);
    DeletedStock(db, doomed);
    DeletedTables(db, doomed);
    DeletedElsewhere(db, doomed, o);
    ClearedHoldsNothing(db, o);
  }

  lemma EditedIsMidEdit(db: Db, cleared: Db, o: nat, incoming: seq<ResolvedLine>)
    requires MidEdit(db, cleared, o) && cleared.lines == db.lines && cleared.nextLine == db.nextLine
    requires o in db.orders && LineKeysBelow(cleared)
    requires AllValid(cleared, db.orders[o].channel, incoming) && EditStorable(incoming, OffersOf(cleared.lines, o))
    ensures MidEdit(db, EditLines(cleared, o, incoming), o)
  {
    hide StockOk, OneRowPerLineAndBatch, OffersOk, LinesOk, KeysOk, ByOffer, NewLines, AddLines, KeptLines;
    var removed := RemovedLines(cleared.lines, o, ByOffer(incoming));
    var doomed := AllocationsOfLines(cleared.allocations, removed);
    forall i | i in doomed && i in cleared.allocations ensures cleared.allocations[i].order == o {
      assert AllocationOk(cleared, i);
    }
    EditLinesTables(cleared, o, incoming);
    EditedStock(cleared, o, incoming);
    DeletedTables(cleared, doomed);
    DeletedElsewhere(cleared, doomed, o);
    EditedLinesAre(cleared, o, incoming);
    var mid := EditLines(cleared, o, incoming);
    assert mid.allocations == DeleteAllocations(cleared, doomed).allocations;
    forall p | p != o ensures SameLinesFor(db.lines, mid.lines, p) && SameAllocationsFor(db.allocations, mid.allocations, p) {
      SameAllocationsTransitive(db.allocations, cleared.allocations, mid.allocations, p);
    }
  }

  lemma SameAllocationsTransitive(a: Allocations, b: Allocations, c: Allocations, p: nat)
    requires SameAllocationsFor(a, b, p) && SameAllocationsFor(b, c, p)
    ensures SameAllocationsFor(a, c, p)
  {
  }

  lemma UpdatePlacedKeepsInv(db: Db, o: nat, incoming: seq<ResolvedLine>, db': Db)
    requires Inv(db) && OfferKeysOk(db) && LineKeysBelow(db)
    requires UpdatePlacedSpec(db, o, incoming) == Ok(db')
    ensures Inv(db') && o in db.orders && db.orders[o].channel.Business?
    ensures forall p :: p != o ==> SameAllocationsFor(db.allocations, db'.allocations, p)
  {
    hide StockOk, OneRowPerLineAndBatch, EditLines, ReserveLinesSpec, PaymentsOk;
    var cleared := DeleteReservationsSpec(db, o);
    var mid := EditLines(cleared, o, incoming);
    assert OrderOk(db, o);
    ClearedIsMidEdit(db, o);
    EditedIsMidEdit(db, cleared, o, incoming);
    FinishEdit(db, mid, o, db');
  }

  lemma FinishEdit(db: Db, mid: Db, o: nat, db': Db)
    requires Inv(db) && MidEdit(db, mid, o) && OfferKeysOk(mid)
    requires o in db.orders && db.orders[o].status.Placed?
    requires PrepareBusinessSpec(mid, o) == Ok(db')
    ensures Inv(db') && db.orders[o].channel.Business?
    ensures forall p :: p != o ==> SameAllocationsFor(db.allocations, db'.allocations, p)
  {
    hide StockOk, OneRowPerLineAndBatch, ReserveLinesSpec, PaymentsOk, OffersOk, LinesOk, KeysOk, Covered, Deadline, SameLinesFor, SameAllocationsFor;
    LineIdsFacts(mid, o);
    ReserveOrderEffect(mid, o, Business, None, db');
    forall p | p != o
      ensures SameLinesFor(db.lines, db'.lines, p) && SameAllocationsFor(db.allocations, db'.allocations, p)
    {
      SameAllocationsTransitive(db.allocations, mid.allocations, db'.allocations, p);
    }
    OrdersFrame(db, db', o);
    TablesGiveKeys(db);
    TablesGiveKeys(db');
    PaymentsFrame(db, db');
  }
}
