/** The pick checklist of the operations portal (ops_portal/orders/services.py, ops_portal/orders/checklist.py). */
module OpsOrders {
  import opened Common
  import opened Records
  import opened Storage
  import opened Pricing
  import opened Reservations
  import opened ReservationFacts
  import opened Placement
  import opened OrderEdit
  import opened Drafts
  import opened Invariant
  import opened OrderSteps
  import opened EditSteps
  import opened EditFacts

  // ---------- toggle_checklist_mark ----------

  function ToggleSpec(db: Db, o: nat, i: nat): Result<Db> {
    if !(i in db.allocations && Matches(db.allocations[i], ReservedBy(o))) then Err(DoesNotExist)
    else Ok(db.(marks := if i in db.marks then db.marks - {i} else db.marks + {i}))
  }

  method ToggleChecklistMark(store: Database, o: nat, i: nat) returns (r: Result<bool>)
    modifies store`marks
    ensures r.Ok? <==> i in store.allocations && store.allocations[i].order == o && store.allocations[i].status == Reserved
    ensures r.Ok? ==> (r.value <==> i in store.marks) && (r.value <==> i !in old(store.marks))
    ensures forall j :: j != i || r.Err? ==> (j in store.marks <==> j in old(store.marks))
    ensures r.Err? ==> r.error == DoesNotExist
    ensures store.Contents() == Committed(old(store.Contents()), ToggleSpec(old(store.Contents()), o, i))
  {
    if !(i in store.allocations && Matches(store.allocations[i], ReservedBy(o))) {
      return Err(DoesNotExist);
    }
    if i in store.marks {
      store.marks := store.marks - {i};
      return Ok(false);
    }
    store.marks := store.marks + {i};
    return Ok(true);
  }

  // ---------- update_placed_order_and_preserve_checklist ----------

  /** The order's lines that keep their offer and their quantity. */
  function UnchangedLines(lines: Lines, o: nat, incoming: map<nat, ResolvedLine>): set<nat> {
    set l | l in lines && lines[l].order == o
            && lines[l].offer in incoming && incoming[lines[l].offer].quantity == lines[l].quantity
  }

  /** (order line, batch) of the marked RESERVED allocations of unchanged lines. */
  function CheckedKeys(db: Db, o: nat, unchangedLines: set<nat>): set<(nat, nat)> {
    set i | i in db.allocations && Matches(db.allocations[i], ReservedBy(o)) && i in db.marks
            && db.allocations[i].line in unchangedLines
          :: (db.allocations[i].line, db.allocations[i].batch)
  }

  /** The rebuilt RESERVED allocations whose (line, batch) was checked before. */
  function CarriedMarks(db: Db, o: nat, checked: set<(nat, nat)>): set<nat> {
    set i | i in db.allocations && Matches(db.allocations[i], ReservedBy(o))
            && (db.allocations[i].line, db.allocations[i].batch) in checked
  }

  function Remarked(updated: Db, o: nat, checked: set<(nat, nat)>): Db {
    updated.(marks := updated.marks + CarriedMarks(updated, o, checked))
  }

  function KeepMarksSpec(db: Db, o: nat, lines: seq<ResolvedLine>): Result<Db>
    requires OfferKeysOk(db) && LineKeysBelow(db) && AllOffered(lines)
  {
    var updated :- UpdatePlacedSpec(db, o, lines);
    Ok(Remarked(updated, o, CheckedKeys(db, o, UnchangedLines(db.lines, o, ByOffer(lines)))))
  }

  function OpsEditSpec(db: Db, o: nat, inputs: seq<OfferLineInput>): Result<Db>
    requires OfferKeysOk(db) && LineKeysBelow(db)
  {
    var lines :- ResolveOfferLinesSpec(db, inputs);
    KeepMarksSpec(db, o, lines)
  }

  method QuantityByOffer(lines: seq<ResolvedLine>) returns (m: map<nat, ResolvedLine>)
    requires AllOffered(lines)
    ensures m == ByOffer(lines)
  {
    m := map[];
    for i := 0 to |lines|
      invariant m == ByOffer(lines[..i])
    {
      assert lines[..i + 1][..i] == lines[..i];
      m := m[lines[i].offer.value := lines[i]];
    }
    assert lines[..|lines|] == lines;
  }

  method UpdatePlacedOrderAndPreserveChecklist(store: Database, o: nat, inputs: seq<OfferLineInput>) returns (r: Result<()>)
    requires OfferKeysOk(store.Contents()) && LineKeysBelow(store.Contents())
    modifies store
    ensures r == Reply(OpsEditSpec(old(store.Contents()), o, inputs))
    ensures store.Contents() == Committed(old(store.Contents()), OpsEditSpec(old(store.Contents()), o, inputs))
  {
    hide UpdatePlacedSpec, ResolveOfferLinesSpec, ByOffer, UnchangedLines, CheckedKeys;
    var resolved := ResolveOfferLines(store, inputs);
    if resolved.Err? {
      return Err(resolved.error);
    }
    var incoming := QuantityByOffer(resolved.value);
    var checked := CheckedKeys(store.Contents(), o, UnchangedLines(store.lines, o, incoming));
    r := UpdatePlacedOrder(store, o, resolved.value);
    if r.Err? {
      return;
    }
    if checked != {} {
      store.marks := store.marks + CarriedMarks(store.Contents(), o, checked);
    } else {
      assert CarriedMarks(store.Contents(), o, checked) == {};
    }
  }

  /** A portal edit is the edit with the resolved lines, apart from marks. */
  lemma PortalEditIs(db: Db, o: nat, inputs: seq<OfferLineInput>)
    requires OfferKeysOk(db) && LineKeysBelow(db)
    ensures OpsEditSpec(db, o, inputs).Ok? <==>
              ResolveOfferLinesSpec(db, inputs).Ok? && UpdatePlacedSpec(db, o, ResolveOfferLinesSpec(db, inputs).value).Ok?
    ensures OpsEditSpec(db, o, inputs).Ok? ==>
              var db' := OpsEditSpec(db, o, inputs).value;
              db' == UpdatePlacedSpec(db, o, ResolveOfferLinesSpec(db, inputs).value).value.(marks := db'.marks)
  {
    hide ResolveOfferLinesSpec, UpdatePlacedSpec, CheckedKeys, CarriedMarks, UnchangedLines, ByOffer;
  }

  // ---------- Which marks survive ----------

  lemma MarksKeepInv(db: Db, db': Db)
    requires Inv(db) && db' == db.(marks := db'.marks)
    requires forall i :: i in db'.marks ==> i in db'.allocations
    ensures Inv(db')
  {
    forall k | 0 <= k < |db'.offers| ensures OfferOk(db', k) {
      assert OfferOk(db, k);
    }
    forall l | l in db'.lines ensures LineOk(db', l) {
      assert LineOk(db, l);
    }
    forall i | i in db'.allocations ensures AllocationOk(db', i) {
      assert AllocationOk(db, i);
    }
    forall b | 0 <= b < |db'.batches| ensures BatchOk(db', b) {
      assert BatchOk(db, b);
    }
    forall o | o in db'.orders ensures OrderOk(db', o) {
      OrderFrame(db, db', o);
    }
    TablesGiveKeys(db);
    TablesGiveKeys(db');
    PaymentsFrame(db, db');
  }

  lemma KeepMarksKeepsInv(db: Db, o: nat, lines: seq<ResolvedLine>, db': Db)
    requires Inv(db) && OfferKeysOk(db) && LineKeysBelow(db) && AllOffered(lines)
    requires KeepMarksSpec(db, o, lines) == Ok(db')
    ensures Inv(db')
  {
    hide UpdatePlacedSpec, StockOk, OrdersOk, PaymentsOk, OneRowPerLineAndBatch, OffersOk, LinesOk, AllocationsOk;
    var updated := UpdatePlacedSpec(db, o, lines).value;
    UpdatePlacedKeepsInv(db, o, lines, updated);
    assert Tables(updated);
    MarksKeepInv(updated, db');
  }

  lemma ToggleKeepsInv(db: Db, o: nat, i: nat, db': Db)
    requires Inv(db) && ToggleSpec(db, o, i) == Ok(db')
    ensures Inv(db')
  {
    assert Tables(db) && KeysOk(db);
    MarksKeepInv(db, db');
  }

  /** Every RESERVED row of an edited order is new, so an edit leaves no stale mark on it. */
  lemma EditRebuildsRows(db: Db, o: nat, lines: seq<ResolvedLine>, updated: Db, i: nat)
    requires Inv(db) && OfferKeysOk(db) && LineKeysBelow(db) && UpdatePlacedSpec(db, o, lines) == Ok(updated)
    requires i in updated.allocations && Matches(updated.allocations[i], ReservedBy(o))
    ensures i >= db.nextAllocation && i !in updated.marks
  {
    hide StockOk, OneRowPerLineAndBatch, EditLines, ReserveLinesSpec, PaymentsOk, OffersOk, Covered,
         SameLinesFor, SameAllocationsFor;
    var cleared := DeleteReservationsSpec(db, o);
    var mid := EditLines(cleared, o, lines);
    assert OrderOk(db, o);
    ClearedIsMidEdit(db, o);
    EditedIsMidEdit(db, cleared, o, lines);
    LineIdsFacts(mid, o);
    AllocationKeys(mid);
    TablesGiveKeys(mid);
    LinesEffect(mid, OrderLines(mid, o), Business, None, updated);
    EditKeepsNextAllocation(cleared, o, lines);
    assert i !in mid.allocations;
    assert KeysOk(mid);
  }

  lemma EditKeepsNextAllocation(db: Db, o: nat, lines: seq<ResolvedLine>)
    requires AllOffered(lines) && EditStorable(lines, OffersOf(db.lines, o))
    ensures EditLines(db, o, lines).nextAllocation == db.nextAllocation
  {
  }

  /** Row j of the order was RESERVED and marked before the edit, for the line and batch of row i after
      it, and the line's quantity is still the one that was picked. */
  ghost predicate Vouches(db: Db, o: nat, j: nat, db': Db, i: nat) {
    && j in db.allocations && db.allocations[j].order == o && db.allocations[j].status == Reserved && j in db.marks
    && i in db'.allocations && db'.allocations[i].batch == db.allocations[j].batch
    && (var l := db.allocations[j].line;
        && db'.allocations[i].line == l
        && l in db.lines && l in db'.lines && db'.lines[l].quantity == db.lines[l].quantity)
  }

  /** A line that the edit keeps is unchanged exactly when its quantity is. */
  lemma UnchangedIs(db: Db, o: nat, lines: seq<ResolvedLine>, updated: Db, l: nat)
    requires OfferKeysOk(db) && LineKeysBelow(db) && AllOffered(lines) && UpdatePlacedSpec(db, o, lines) == Ok(updated)
    requires IsLineOf(db.lines, l, o) && IsLineOf(updated.lines, l, o)
    ensures l in UnchangedLines(db.lines, o, ByOffer(lines)) <==> updated.lines[l].quantity == db.lines[l].quantity
  {
    hide UpdatePlacedSpec, OfferKeysOk, LineKeysBelow, ByOffer;
    EditRefinesReplaceAll(db, o, lines, updated);
    EditUnfolds(db, o, lines);
    assert Selected(lines, db.lines[l].offer) && KeptAs(db.lines, updated.lines, l);
    var n: nat :| Wants(lines, n, updated.lines[l]);
    SameOfferSameLine(lines, n, db.lines[l].offer);
  }

  /** After an edit, a RESERVED row of the order carries a mark exactly when a marked RESERVED row with
      the same line and batch existed before and the line's quantity did not change; all other rows keep
      their marks. */
  lemma MarksSurviveExactly(db: Db, o: nat, lines: seq<ResolvedLine>, db': Db, i: nat)
    requires Inv(db) && OfferKeysOk(db) && LineKeysBelow(db) && AllOffered(lines)
    requires KeepMarksSpec(db, o, lines) == Ok(db')
    requires i in db'.allocations
    ensures db'.allocations[i].order == o && db'.allocations[i].status == Reserved ==>
              (i in db'.marks <==> exists j :: Vouches(db, o, j, db', i))
    ensures !(db'.allocations[i].order == o && db'.allocations[i].status == Reserved) ==> (i in db'.marks <==> i in db.marks)
  {
    hide UpdatePlacedSpec, Inv, OfferKeysOk, LineKeysBelow, UnchangedLines, ByOffer;
    var updated := UpdatePlacedSpec(db, o, lines).value;
    if Matches(updated.allocations[i], ReservedBy(o)) {
      EditRebuildsRows(db, o, lines, updated, i);
      RowsHaveLines(db, o, lines, updated, i);
      if i in db'.marks {
        var j :| j in db.allocations && Matches(db.allocations[j], ReservedBy(o)) && j in db.marks
                 && db.allocations[j].line in UnchangedLines(db.lines, o, ByOffer(lines))
                 && db.allocations[j].line == db'.allocations[i].line && db.allocations[j].batch == db'.allocations[i].batch;
        RowHasLine(db, j);
        UnchangedIs(db, o, lines, updated, db.allocations[j].line);
        assert Vouches(db, o, j, db', i);
      }
      if j :| Vouches(db, o, j, db', i) {
        RowHasLine(db, j);
        UnchangedIs(db, o, lines, updated, db.allocations[j].line);
        assert (db.allocations[j].line, db.allocations[j].batch) in CheckedKeys(db, o, UnchangedLines(db.lines, o, ByOffer(lines)));
      }
    } else {
      OtherMarksStay(db, o, lines, updated, i);
    }
  }

  lemma RowHasLine(db: Db, j: nat)
    requires Inv(db) && j in db.allocations
    ensures IsLineOf(db.lines, db.allocations[j].line, db.allocations[j].order)
  {
    assert AllocationOk(db, j);
  }

  lemma RowsHaveLines(db: Db, o: nat, lines: seq<ResolvedLine>, updated: Db, i: nat)
    requires Inv(db) && OfferKeysOk(db) && LineKeysBelow(db) && UpdatePlacedSpec(db, o, lines) == Ok(updated)
    requires i in updated.allocations
    ensures IsLineOf(updated.lines, updated.allocations[i].line, updated.allocations[i].order)
  {
    hide UpdatePlacedSpec, Inv;
    UpdatePlacedKeepsInv(db, o, lines, updated);
    RowHasLine(updated, i);
  }

  /** Rows that the edit does not rebuild keep their marks. */
  lemma OtherMarksStay(db: Db, o: nat, lines: seq<ResolvedLine>, updated: Db, i: nat)
    requires Inv(db) && OfferKeysOk(db) && LineKeysBelow(db) && UpdatePlacedSpec(db, o, lines) == Ok(updated)
    requires i in updated.allocations && !Matches(updated.allocations[i], ReservedBy(o))
    ensures i in updated.marks <==> i in db.marks
  {
    hide Inv, UpdatePlacedSpec, EditAccepted, LinesAre, OfferKeysOk, LineKeysBelow, Tables, StockOk, ReserveLinesSpec, OrderLines,
         OneRowPerLineAndBatch, MidEditState;
    EditUnfolds(db, o, lines);
    AcceptedShape(db, o, lines);
    MidStateIsSound(db, o, lines);
    MidMarks(db, o, lines, i);
    NewRowsAreReserved(MidEditState(db, o, lines), o, updated, i);
  }

  lemma MidMarks(db: Db, o: nat, lines: seq<ResolvedLine>, i: nat)
    requires AllOffered(lines) && EditStorable(lines, OffersOf(db.lines, o))
    ensures var mid := MidEditState(db, o, lines); i in mid.allocations ==> (i in mid.marks <==> i in db.marks)
  {
    hide AddLines, KeptLines, NewLines, ByOffer;
  }

  lemma NewRowsAreReserved(mid: Db, o: nat, updated: Db, i: nat)
    requires Tables(mid) && StockOk(mid) && OfferKeysOk(mid) && o in mid.orders && PrepareBusinessSpec(mid, o) == Ok(updated)
    requires i in updated.allocations && !Matches(updated.allocations[i], ReservedBy(o))
    ensures i in mid.allocations && updated.marks == mid.marks
  {
    hide ReserveLinesSpec, OffersOk, KeysOk, StockOk, OfferKeysOk;
    LineIdsFacts(mid, o);
    AllocationKeys(mid);
    LinesEffect(mid, OrderLines(mid, o), Business, None, updated);
    assert i in mid.allocations || NewRowOk(mid, updated.allocations[i], OrderLines(mid, o), None);
  }

  /** Line and batch identify at most one RESERVED allocation, so no mark is duplicated or moved. */
  lemma MarkKeyIsUnique(db: Db, o: nat, i: nat, j: nat)
    requires Inv(db) && i in db.allocations && j in db.allocations
    requires Matches(db.allocations[i], ReservedBy(o)) && Matches(db.allocations[j], ReservedBy(o))
    requires db.allocations[i].line == db.allocations[j].line && db.allocations[i].batch == db.allocations[j].batch
    ensures i == j
  {
    assert OneRowPerLineAndBatch(db.allocations);
  }
}
