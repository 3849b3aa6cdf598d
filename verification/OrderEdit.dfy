/**
 Persisting resolved lines: draft creation, and the diff-by-offer edit of a placed order
 (orders/services.py, with the business policies of business/services.py).
 */
module OrderEdit {
  import opened Common
  import opened Records
  import opened Storage
  import opened Reservations
  import opened Placement
  import opened Orders

  /** A line resolved by the sales channel; `offer` is None when it is missing or not persisted. */
  datatype ResolvedLine = ResolvedLine(product: nat, quantity: int, offer: Option<nat>, unitPrice: Option<int>)

  /** _validate_commercial_offer */
  predicate CommercialOfferValid(db: Db, channel: Channel, line: ResolvedLine) {
    && line.offer.Some?
    && line.offer.value < |db.offers|
    && db.offers[line.offer.value].product == line.product
    && db.offers[line.offer.value].channel == channel
  }

  ghost predicate AllValid(db: Db, channel: Channel, lines: seq<ResolvedLine>) {
    forall i :: 0 <= i < |lines| ==> CommercialOfferValid(db, channel, lines[i])
  }

  ghost predicate AllOffered(lines: seq<ResolvedLine>) {
    forall i :: 0 <= i < |lines| ==> lines[i].offer.Some?
  }

  /** The check constraints of the line table. */
  predicate Storable(line: ResolvedLine) {
    line.quantity > 0 && (line.unitPrice.Some? ==> line.unitPrice.value > 0)
  }

  predicate StorableNew(line: ResolvedLine) {
    line.offer.Some? && Storable(line)
  }

  function NewLine(o: nat, line: ResolvedLine): LineRow
    requires StorableNew(line)
  {
    LineRow(o, line.product, line.quantity,
            match line.unitPrice case None => None case Some(p) => Some(p as pos),
            line.offer.value)
  }

  /** bulk_create: one row per resolved line, with consecutive keys. */
  function AddLines(t: Lines, next: nat, o: nat, lines: seq<ResolvedLine>): Lines
    requires forall i :: 0 <= i < |lines| ==> StorableNew(lines[i])
  {
    if lines == [] then t
    else
      var n := |lines| - 1;
      AddLines(t, next, o, lines[..n])[next + n := NewLine(o, lines[n])]
  }

  method CreateOrderLines(store: Database, o: nat, lines: seq<ResolvedLine>)
    requires forall i :: 0 <= i < |lines| ==> StorableNew(lines[i])
    modifies store`lines, store`nextLine
    ensures store.nextLine == old(store.nextLine) + |lines|
    ensures store.lines == AddLines(old(store.lines), old(store.nextLine), o, lines)
  {
    for i := 0 to |lines|
      invariant store.nextLine == old(store.nextLine) + i
      invariant store.lines == AddLines(old(store.lines), old(store.nextLine), o, lines[..i])
    {
      store.lines := store.lines[store.nextLine := NewLine(o, lines[i])];
      store.nextLine := store.nextLine + 1;
      assert lines[..i + 1][..i] == lines[..i];
    }
    assert lines[..|lines|] == lines;
  }

  // ---------- create_draft_order for the business channel ----------

  function CreateDraftSpec(db: Db, lines: seq<ResolvedLine>): Result<Db> {
    if lines == [] then Err(InvalidOrderOperation)
    else if exists i :: 0 <= i < |lines| && !CommercialOfferValid(db, Business, lines[i]) then Err(InvalidOrderOperation)
    else if exists i :: 0 <= i < |lines| && !Storable(lines[i]) then Err(IntegrityError)
    else Ok(db.(orders := db.orders[db.nextOrder := OrderRow(Business, Draft)],
                nextOrder := db.nextOrder + 1,
                lines := AddLines(db.lines, db.nextLine, db.nextOrder, lines),
                nextLine := db.nextLine + |lines|))
  }

  method CreateDraftOrder(store: Database, lines: seq<ResolvedLine>) returns (r: Result<()>)
    modifies store`orders, store`nextOrder, store`lines, store`nextLine
    ensures r == Reply(CreateDraftSpec(old(store.Contents()), lines))
    ensures store.Contents() == Committed(old(store.Contents()), CreateDraftSpec(old(store.Contents()), lines))
  {
    if lines == [] {
      return Err(InvalidOrderOperation);
    }
    for i := 0 to |lines|
      invariant forall k :: 0 <= k < i ==> CommercialOfferValid(store.Contents(), Business, lines[k])
    {
      if !CommercialOfferValid(store.Contents(), Business, lines[i]) {
        return Err(InvalidOrderOperation);
      }
    }
    if exists i :: 0 <= i < |lines| && !Storable(lines[i]) {
      return Err(IntegrityError);
    }
    var order := store.nextOrder;
    store.orders := store.orders[order := OrderRow(Business, Draft)];
    store.nextOrder := order + 1;
    CreateOrderLines(store, order, lines);
    return Ok(());
  }

  // ---------- update_placed_order ----------

  function OffersOf(lines: Lines, o: nat): set<nat> {
    set l | l in lines && lines[l].order == o :: lines[l].offer
  }

  predicate TwoLinesShareAnOffer(lines: Lines, o: nat) {
    exists l, m :: l in lines && m in lines && l != m && lines[l].order == o && lines[m].order == o
      && lines[l].offer == lines[m].offer
  }

  predicate RepeatsAnOffer(incoming: seq<ResolvedLine>) {
    exists i, j :: 0 <= i < j < |incoming| && incoming[i].offer == incoming[j].offer
  }

  /** The dictionary from offer to incoming line. */
  function ByOffer(incoming: seq<ResolvedLine>): (m: map<nat, ResolvedLine>)
    requires AllOffered(incoming)
    ensures forall k :: k in m ==> m[k] in incoming && m[k].offer == Some(k)
  {
    if incoming == [] then map[]
    else
      var n := |incoming| - 1;
      ByOffer(incoming[..n])[incoming[n].offer.value := incoming[n]]
  }

  lemma {:induction false} ByOfferHasAll(incoming: seq<ResolvedLine>, i: nat)
    requires AllOffered(incoming) && i < |incoming|
    ensures incoming[i].offer.value in ByOffer(incoming)
  {
    if i < |incoming| - 1 {
      ByOfferHasAll(incoming[..|incoming| - 1], i);
    }
  }

  lemma {:induction false} ByOfferKeys(incoming: seq<ResolvedLine>, k: nat)
    requires AllOffered(incoming)
    ensures k in ByOffer(incoming) <==> exists i :: 0 <= i < |incoming| && incoming[i].offer == Some(k)
  {
    if incoming != [] {
      ByOfferKeys(incoming[..|incoming| - 1], k);
    }
  }

  function NewLines(incoming: seq<ResolvedLine>, existing: set<nat>): (news: seq<ResolvedLine>)
    requires AllOffered(incoming)
    ensures forall line :: line in news <==> line in incoming && line.offer.value !in existing
    ensures forall i :: 0 <= i < |news| ==> news[i] in incoming && news[i].offer.Some?
  {
    if incoming == [] then []
    else
      var n := |incoming| - 1;
      assert incoming == incoming[..n] + [incoming[n]];
      NewLines(incoming[..n], existing) + (if incoming[n].offer.value in existing then [] else [incoming[n]])
  }

  predicate EditStorable(incoming: seq<ResolvedLine>, existing: set<nat>)
    requires AllOffered(incoming)
  {
    forall i :: 0 <= i < |incoming| ==>
      incoming[i].quantity > 0 && (incoming[i].offer.value !in existing ==> Storable(incoming[i]))
  }

  /** Lines whose offer stays keep everything but their quantity; the others of the order go. */
  function KeptLines(lines: Lines, o: nat, incoming: map<nat, ResolvedLine>): Lines
    requires forall k :: k in incoming ==> incoming[k].quantity > 0
  {
    map l | l in lines && (lines[l].order == o ==> lines[l].offer in incoming) ::
      if lines[l].order == o then lines[l].(quantity := incoming[lines[l].offer].quantity) else lines[l]
  }

  function RemovedLines(lines: Lines, o: nat, incoming: map<nat, ResolvedLine>): set<nat> {
    set l | l in lines && lines[l].order == o && lines[l].offer !in incoming
  }

  function AllocationsOfLines(t: Allocations, lines: set<nat>): set<nat> {
    set i | i in t && t[i].line in lines
  }

  /** The line table after the diff, with the cascade of removed lines to their allocations. */
  function EditLines(db: Db, o: nat, incoming: seq<ResolvedLine>): Db
    requires AllOffered(incoming) && EditStorable(incoming, OffersOf(db.lines, o))
  {
    var news := NewLines(incoming, OffersOf(db.lines, o));
    var m := ByOffer(incoming);
    DeleteAllocations(db, AllocationsOfLines(db.allocations, RemovedLines(db.lines, o, m))).(
      lines := AddLines(KeptLines(db.lines, o, m), db.nextLine, o, news),
      nextLine := db.nextLine + |news|)
  }

  lemma {:induction false} AddedLines(t: Lines, next: nat, o: nat, lines: seq<ResolvedLine>)
    requires forall i :: 0 <= i < |lines| ==> StorableNew(lines[i])
    requires forall l :: l in t ==> l < next
    ensures var r := AddLines(t, next, o, lines);
            && (forall l :: l in r <==> l in t || next <= l < next + |lines|)
            && (forall l :: l in t ==> r[l] == t[l])
            && (forall l :: next <= l < next + |lines| ==> r[l] == NewLine(o, lines[l - next]))
  {
    if lines != [] {
      AddedLines(t, next, o, lines[..|lines| - 1]);
    }
  }

  ghost predicate LineKeysBelow(db: Db) {
    forall l :: l in db.lines ==> l < db.nextLine
  }

  ghost predicate PositiveQuantities(m: map<nat, ResolvedLine>) {
    forall k :: k in m ==> m[k].quantity > 0
  }

  ghost predicate AllStorableNew(news: seq<ResolvedLine>) {
    forall i :: 0 <= i < |news| ==> StorableNew(news[i])
  }

  /** The edited line table, row by row. */
  ghost predicate EditedRows(lines: Lines, next: nat, o: nat, m: map<nat, ResolvedLine>, news: seq<ResolvedLine>, r: Lines)
    requires PositiveQuantities(m) && AllStorableNew(news)
  {
    && (forall l :: l in r && l < next ==> l in lines && (lines[l].order == o ==> lines[l].offer in m))
    && (forall l :: l in r ==> l < next + |news|)
    && (forall l :: l in lines && (lines[l].order == o ==> lines[l].offer in m) ==> l in r)
    && (forall l :: l in lines && l in r && (lines[l].order == o ==> lines[l].offer in m) ==>
          r[l] == if lines[l].order == o then lines[l].(quantity := m[lines[l].offer].quantity) else lines[l])
    && (forall i :: 0 <= i < |news| ==> next + i in r && r[next + i] == NewLine(o, news[i]))
  }

  lemma {:induction false} EditedTable(lines: Lines, next: nat, o: nat, m: map<nat, ResolvedLine>, news: seq<ResolvedLine>)
    requires forall l :: l in lines ==> l < next
    requires PositiveQuantities(m) && AllStorableNew(news)
    ensures EditedRows(lines, next, o, m, news, AddLines(KeptLines(lines, o, m), next, o, news))
  {
    var kept := KeptLines(lines, o, m);
    var r := AddLines(kept, next, o, news);
    AddedLines(kept, next, o, news);
    forall i | 0 <= i < |news| ensures next + i in r && r[next + i] == NewLine(o, news[i]) {
      var l := next + i;
      assert l in r && r[l] == NewLine(o, news[l - next]);
    }
  }

  lemma StorableParts(incoming: seq<ResolvedLine>, existing: set<nat>)
    requires AllOffered(incoming) && EditStorable(incoming, existing)
    ensures PositiveQuantities(ByOffer(incoming)) && AllStorableNew(NewLines(incoming, existing))
  {
    forall i | 0 <= i < |NewLines(incoming, existing)| ensures StorableNew(NewLines(incoming, existing)[i]) {
      var line := NewLines(incoming, existing)[i];
      assert line in NewLines(incoming, existing);
    }
  }

  lemma EditLinesRows(db: Db, o: nat, incoming: seq<ResolvedLine>)
    requires LineKeysBelow(db) && AllOffered(incoming) && EditStorable(incoming, OffersOf(db.lines, o))
    ensures PositiveQuantities(ByOffer(incoming)) && AllStorableNew(NewLines(incoming, OffersOf(db.lines, o)))
    ensures EditedRows(db.lines, db.nextLine, o, ByOffer(incoming), NewLines(incoming, OffersOf(db.lines, o)),
                       EditLines(db, o, incoming).lines)
  {
    StorableParts(incoming, OffersOf(db.lines, o));
    EditedTable(db.lines, db.nextLine, o, ByOffer(incoming), NewLines(incoming, OffersOf(db.lines, o)));
  }

  lemma EditedOffers(db: Db, o: nat, channel: Channel, m: map<nat, ResolvedLine>, news: seq<ResolvedLine>, r: Lines)
    requires OfferKeysOk(db) && LineKeysBelow(db) && PositiveQuantities(m) && AllStorableNew(news)
    requires EditedRows(db.lines, db.nextLine, o, m, news, r)
    requires AllValid(db, channel, news)
    ensures forall l :: l in r ==> r[l].offer < |db.offers| && l < db.nextLine + |news|
  {
    forall l | l in r ensures r[l].offer < |db.offers| {
      if l >= db.nextLine {
        assert r[db.nextLine + (l - db.nextLine)] == NewLine(o, news[l - db.nextLine]);
        assert CommercialOfferValid(db, channel, news[l - db.nextLine]);
      }
    }
  }

  lemma NewLinesValid(db: Db, channel: Channel, incoming: seq<ResolvedLine>, existing: set<nat>)
    requires AllValid(db, channel, incoming)
    ensures AllValid(db, channel, NewLines(incoming, existing))
  {
    var news := NewLines(incoming, existing);
    forall i | 0 <= i < |news| ensures CommercialOfferValid(db, channel, news[i]) {
      assert news[i] in incoming;
    }
  }

  lemma EditLinesKeepsOfferKeys(db: Db, o: nat, incoming: seq<ResolvedLine>)
    requires OfferKeysOk(db) && LineKeysBelow(db) && o in db.orders
    requires AllValid(db, db.orders[o].channel, incoming) && EditStorable(incoming, OffersOf(db.lines, o))
    ensures OfferKeysOk(EditLines(db, o, incoming)) && LineKeysBelow(EditLines(db, o, incoming))
  {
    var db' := EditLines(db, o, incoming);
    var news := NewLines(incoming, OffersOf(db.lines, o));
    EditLinesRows(db, o, incoming);
    NewLinesValid(db, db.orders[o].channel, incoming, OffersOf(db.lines, o));
    EditedOffers(db, o, db.orders[o].channel, ByOffer(incoming), news, db'.lines);
    OfferKeysFrame(db, db');
  }

  function UpdatePlacedSpec(db: Db, o: nat, incoming: seq<ResolvedLine>): Result<Db>
    requires OfferKeysOk(db) && LineKeysBelow(db)
  {
    if o !in db.orders then Err(DoesNotExist)
    else if !db.orders[o].status.Placed? then Err(InvalidOrderOperation)
    else if incoming == [] then Err(InvalidOrderOperation)
    else if exists i :: 0 <= i < |incoming| && !CommercialOfferValid(db, db.orders[o].channel, incoming[i])
    then Err(InvalidOrderOperation)
    else if RepeatsAnOffer(incoming) then Err(InvalidOrderOperation)
    else if TwoLinesShareAnOffer(db.lines, o) then Err(InvalidOrderOperation)
    else if !EditStorable(incoming, OffersOf(db.lines, o)) then Err(IntegrityError)
    else
      var cleared := DeleteReservationsSpec(db, o);
      assert AllValid(cleared, db.orders[o].channel, incoming);
      OfferKeysFrame(db, cleared);
      EditLinesKeepsOfferKeys(cleared, o, incoming);
      PrepareBusinessSpec(EditLines(cleared, o, incoming), o)
  }

  // ---------- The imperative diff ----------

  /** First loop: validate every incoming line and index it by offer. */
  method IndexIncoming(store: Database, channel: Channel, incoming: seq<ResolvedLine>)
    returns (r: Result<map<nat, ResolvedLine>>)
    ensures r.Ok? <==> AllValid(store.Contents(), channel, incoming) && !RepeatsAnOffer(incoming)
    ensures r.Ok? ==> r.value == ByOffer(incoming)
    ensures r.Err? ==> r.error == InvalidOrderOperation
  {
    hide CommercialOfferValid, ByOffer;
    var incomingByOfferId: map<nat, ResolvedLine> := map[];
    NothingByOffer(incoming);
    for i := 0 to |incoming|
      invariant AllValid(store.Contents(), channel, incoming[..i]) && AllOffered(incoming[..i])
      invariant !RepeatsAnOffer(incoming[..i])
      invariant incomingByOfferId == ByOffer(incoming[..i])
    {
      if !CommercialOfferValid(store.Contents(), channel, incoming[i]) {
        return Err(InvalidOrderOperation);
      }
      ByOfferStep(store.Contents(), channel, incoming, i);
      if incoming[i].offer.value in incomingByOfferId {
        return Err(InvalidOrderOperation);
      }
      incomingByOfferId := incomingByOfferId[incoming[i].offer.value := incoming[i]];
    }
    assert incoming[..|incoming|] == incoming;
    return Ok(incomingByOfferId);
  }

  lemma NothingByOffer(incoming: seq<ResolvedLine>)
    ensures ByOffer(incoming[..0]) == map[]
  {
  }

  /** One more valid line: it repeats an offer exactly when the dictionary already has the offer. */
  lemma ByOfferStep(db: Db, channel: Channel, incoming: seq<ResolvedLine>, i: nat)
    requires i < |incoming| && CommercialOfferValid(db, channel, incoming[i])
    requires AllValid(db, channel, incoming[..i]) && AllOffered(incoming[..i]) && !RepeatsAnOffer(incoming[..i])
    ensures AllValid(db, channel, incoming[..i + 1]) && AllOffered(incoming[..i + 1])
    ensures ByOffer(incoming[..i + 1]) == ByOffer(incoming[..i])[incoming[i].offer.value := incoming[i]]
    ensures incoming[i].offer.value in ByOffer(incoming[..i]) ==> RepeatsAnOffer(incoming)
    ensures incoming[i].offer.value !in ByOffer(incoming[..i]) ==> !RepeatsAnOffer(incoming[..i + 1])
  {
    var shorter, longer, k := incoming[..i], incoming[..i + 1], incoming[i].offer.value;
    assert longer == shorter + [incoming[i]];
    assert longer[..i] == shorter;
    if k in ByOffer(shorter) {
      ByOfferKeys(shorter, k);
      hide CommercialOfferValid, ByOffer;
      var j :| 0 <= j < |shorter| && shorter[j].offer == Some(k);
      assert incoming[j].offer == incoming[i].offer;
    } else {
      RepeatStep(shorter, incoming[i]);
    }
  }

  lemma RepeatStep(shorter: seq<ResolvedLine>, line: ResolvedLine)
    requires AllOffered(shorter) && line.offer.Some? && !RepeatsAnOffer(shorter)
    requires line.offer.value !in ByOffer(shorter)
    ensures !RepeatsAnOffer(shorter + [line])
  {
    ByOfferKeys(shorter, line.offer.value);
    var longer := shorter + [line];
    forall i, j | 0 <= i < j < |longer| ensures longer[i].offer != longer[j].offer {
      if j < |shorter| {
        assert shorter[i].offer != shorter[j].offer;
      } else {
        assert shorter[i].offer != Some(line.offer.value);
      }
    }
  }

  /** A correct index of the order's lines by offer. */
  ghost predicate IndexesLines(existing: map<nat, nat>, lines: Lines, o: nat) {
    && existing.Keys == OffersOf(lines, o)
    && (forall k :: k in existing ==> existing[k] in lines && lines[existing[k]].order == o && lines[existing[k]].offer == k)
  }

  /** The retained lines with their new quantities. */
  ghost predicate RetainsLines(retained: map<nat, int>, existing: map<nat, nat>, m: map<nat, ResolvedLine>) {
    && (forall k :: k in existing ==> (existing[k] in retained <==> k in m))
    && (forall k :: k in existing && k in m ==> retained[existing[k]] == m[k].quantity)
    && retained.Keys <= existing.Values
  }

  /** Second loop: index the existing lines by offer. */
  method IndexExisting(store: Database, o: nat) returns (r: Result<map<nat, nat>>)
    requires LineKeysBelow(store.Contents())
    ensures r.Ok? <==> !TwoLinesShareAnOffer(store.lines, o)
    ensures r.Ok? ==> IndexesLines(r.value, store.lines, o)
    ensures r.Err? ==> r.error == InvalidOrderOperation
  {
    hide IndexesPrefix, IndexesLines, TwoLinesShareAnOffer;
    var ids := LinesOf(store.lines, store.nextLine, o);
    var existingByOfferId: map<nat, nat> := map[];
    NothingIndexed(store.lines, ids, o);
    for i := 0 to |ids|
      invariant IndexesPrefix(existingByOfferId, store.lines, ids, i)
    {
      assert ids[i] in ids;
      var offer := store.lines[ids[i]].offer;
      if offer in existingByOfferId {
        IndexedTwice(existingByOfferId, store.lines, ids, i, o);
        return Err(InvalidOrderOperation);
      }
      IndexStep(existingByOfferId, store.lines, ids, i);
      existingByOfferId := existingByOfferId[offer := ids[i]];
    }
    PrefixIsIndex(existingByOfferId, store.lines, store.nextLine, o);
    return Ok(existingByOfferId);
  }

  ghost predicate IndexesPrefix(existing: map<nat, nat>, lines: Lines, ids: seq<nat>, i: nat)
    requires i <= |ids|
  {
    && (forall j :: 0 <= j < |ids| ==> ids[j] in lines)
    && (forall j :: 0 <= j < i ==> lines[ids[j]].offer in existing && existing[lines[ids[j]].offer] == ids[j])
    && (forall k :: k in existing ==> exists j :: 0 <= j < i && existing[k] == ids[j] && lines[ids[j]].offer == k)
  }

  lemma NothingIndexed(lines: Lines, ids: seq<nat>, o: nat)
    requires forall l :: l in ids ==> l in lines
    ensures IndexesPrefix(map[], lines, ids, 0)
  {
    assert forall j :: 0 <= j < |ids| ==> ids[j] in ids;
  }

  lemma IndexStep(existing: map<nat, nat>, lines: Lines, ids: seq<nat>, i: nat)
    requires i < |ids| && IndexesPrefix(existing, lines, ids, i) && lines[ids[i]].offer !in existing
    ensures IndexesPrefix(existing[lines[ids[i]].offer := ids[i]], lines, ids, i + 1)
  {
    var longer := existing[lines[ids[i]].offer := ids[i]];
    forall k | k in longer ensures exists j :: 0 <= j < i + 1 && longer[k] == ids[j] && lines[ids[j]].offer == k {
      if k in existing {
        var j :| 0 <= j < i && existing[k] == ids[j] && lines[ids[j]].offer == k;
        assert longer[k] == ids[j];
      } else {
        assert longer[k] == ids[i];
      }
    }
  }

  lemma IndexedTwice(existing: map<nat, nat>, lines: Lines, ids: seq<nat>, i: nat, o: nat)
    requires i < |ids| && IndexesPrefix(existing, lines, ids, i) && lines[ids[i]].offer in existing
    requires forall l :: l in ids ==> l in lines && lines[l].order == o
    requires forall j, k :: 0 <= j < k < |ids| ==> ids[j] < ids[k]
    ensures TwoLinesShareAnOffer(lines, o)
  {
    var j :| 0 <= j < i && existing[lines[ids[i]].offer] == ids[j] && lines[ids[j]].offer == lines[ids[i]].offer;
    assert ids[j] in ids && ids[i] in ids && ids[j] < ids[i];
  }

  lemma PrefixIsIndex(existing: map<nat, nat>, lines: Lines, next: nat, o: nat)
    requires forall l :: l in lines ==> l < next
    requires IndexesPrefix(existing, lines, LinesOf(lines, next, o), |LinesOf(lines, next, o)|)
    ensures IndexesLines(existing, lines, o) && !TwoLinesShareAnOffer(lines, o)
  {
    var ids := LinesOf(lines, next, o);
    forall l | l in lines && lines[l].order == o ensures lines[l].offer in existing && existing[lines[l].offer] == l {
      assert l in ids;
      var j :| 0 <= j < |ids| && ids[j] == l;
    }
    forall k | k in existing ensures existing[k] in lines && lines[existing[k]].order == o && lines[existing[k]].offer == k {
      var j :| 0 <= j < |ids| && existing[k] == ids[j] && lines[ids[j]].offer == k;
      assert ids[j] in ids;
    }
  }

  /** Third loop: divide the incoming lines into changed quantities of retained lines and new lines. */
  method SplitIncoming(existing: map<nat, nat>, incoming: seq<ResolvedLine>) returns (retained: map<nat, int>, news: seq<ResolvedLine>)
    requires AllOffered(incoming)
    requires forall j, k :: j in existing && k in existing && j != k ==> existing[j] != existing[k]
    ensures news == NewLines(incoming, existing.Keys)
    ensures RetainsLines(retained, existing, ByOffer(incoming))
  {
    retained, news := map[], [];
    for i := 0 to |incoming|
      invariant news == NewLines(incoming[..i], existing.Keys)
      invariant RetainsLines(retained, existing, ByOffer(incoming[..i]))
    {
      var offer := incoming[i].offer.value;
      assert incoming[..i + 1][..i] == incoming[..i];
      if offer in existing {
        retained := retained[existing[offer] := incoming[i].quantity];
      } else {
        news := news + [incoming[i]];
      }
    }
    assert incoming[..|incoming|] == incoming;
  }

  /** bulk_update of the retained lines, deletion of the removed ones with its cascade, bulk_create. */
  method ApplyDiff(store: Database, o: nat, existing: map<nat, nat>, incoming: seq<ResolvedLine>)
    requires LineKeysBelow(store.Contents()) && AllOffered(incoming)
    requires EditStorable(incoming, OffersOf(store.lines, o)) && !TwoLinesShareAnOffer(store.lines, o)
    requires IndexesLines(existing, store.lines, o)
    modifies store`lines, store`nextLine, store`allocations, store`marks
    ensures store.Contents() == EditLines(old(store.Contents()), o, incoming)
  {
    StorableParts(incoming, OffersOf(store.lines, o));
    var retained, news := SplitIncoming(existing, incoming);
    UpdateAndRemove(store, o, existing, ByOffer(incoming), retained);
    CreateOrderLines(store, o, news);
  }

  method UpdateAndRemove(store: Database, o: nat, existing: map<nat, nat>, ghost m: map<nat, ResolvedLine>, retained: map<nat, int>)
    requires IndexesLines(existing, store.lines, o) && PositiveQuantities(m) && RetainsLines(retained, existing, m)
    requires !TwoLinesShareAnOffer(store.lines, o)
    modifies store`lines, store`allocations, store`marks
    ensures store.lines == KeptLines(old(store.lines), o, m)
    ensures var doomed := AllocationsOfLines(old(store.allocations), RemovedLines(old(store.lines), o, m));
            store.allocations == old(store.allocations) - doomed && store.marks == old(store.marks) - doomed
  {
    var removed := set k | k in existing && existing[k] !in retained :: existing[k];
    RemovedIsRemoved(store.lines, o, existing, m, retained);
    KeptIsKept(store.lines, o, existing, m, retained);
    var doomed := AllocationsOfLines(store.allocations, removed);
    store.allocations := store.allocations - doomed;
    store.marks := store.marks - doomed;
    store.lines := map l | l in store.lines && l !in removed ::
      if l in retained && retained[l] > 0 then store.lines[l].(quantity := retained[l]) else store.lines[l];
  }

  lemma IndexFinds(lines: Lines, o: nat, existing: map<nat, nat>, l: nat)
    requires IndexesLines(existing, lines, o) && !TwoLinesShareAnOffer(lines, o)
    requires l in lines && lines[l].order == o
    ensures lines[l].offer in existing && existing[lines[l].offer] == l
  {
    assert lines[l].offer in OffersOf(lines, o);
  }

  lemma RemovedIsRemoved(lines: Lines, o: nat, existing: map<nat, nat>, m: map<nat, ResolvedLine>, retained: map<nat, int>)
    requires IndexesLines(existing, lines, o) && !TwoLinesShareAnOffer(lines, o) && RetainsLines(retained, existing, m)
    ensures (set k | k in existing && existing[k] !in retained :: existing[k]) == RemovedLines(lines, o, m)
  {
    var removed := set k | k in existing && existing[k] !in retained :: existing[k];
    forall l | l in RemovedLines(lines, o, m) ensures l in removed {
      IndexFinds(lines, o, existing, l);
    }
  }

  lemma KeptIsKept(lines: Lines, o: nat, existing: map<nat, nat>, m: map<nat, ResolvedLine>, retained: map<nat, int>)
    requires IndexesLines(existing, lines, o) && !TwoLinesShareAnOffer(lines, o) && RetainsLines(retained, existing, m)
    requires PositiveQuantities(m)
    ensures KeptLines(lines, o, m)
         == map l | l in lines && l !in RemovedLines(lines, o, m) ::
              if l in retained && retained[l] > 0 then lines[l].(quantity := retained[l]) else lines[l]
  {
    forall l | l in lines && lines[l].order == o && lines[l].offer in m
      ensures l in retained && retained[l] == m[lines[l].offer].quantity
    {
      IndexFinds(lines, o, existing, l);
    }
    forall l | l in lines && lines[l].order != o ensures l !in retained {
      assert l !in existing.Values;
    }
  }

  method UpdatePlacedOrder(store: Database, o: nat, incoming: seq<ResolvedLine>) returns (r: Result<()>)
    requires OfferKeysOk(store.Contents()) && LineKeysBelow(store.Contents())
    modifies store
    ensures r == Reply(UpdatePlacedSpec(old(store.Contents()), o, incoming))
    ensures store.Contents() == Committed(old(store.Contents()), UpdatePlacedSpec(old(store.Contents()), o, incoming))
  {
    if o !in store.orders {
      return Err(DoesNotExist);
    }
    if !store.orders[o].status.Placed? {
      return Err(InvalidOrderOperation);
    }
    if incoming == [] {
      return Err(InvalidOrderOperation);
    }
    var indexed := IndexIncoming(store, store.orders[o].channel, incoming);
    if indexed.Err? {
      return Err(InvalidOrderOperation);
    }
    var existing := IndexExisting(store, o);
    if existing.Err? {
      return Err(InvalidOrderOperation);
    }
    if !EditStorable(incoming, existing.value.Keys) {
      return Err(IntegrityError);
    }
    var savepoint := store.Contents();
    DeleteReservationsForOrder(store, o);
    OfferKeysFrame(old(store.Contents()), store.Contents());
    assert AllValid(store.Contents(), store.orders[o].channel, incoming);
    EditLinesKeepsOfferKeys(store.Contents(), o, incoming);
    ApplyDiff(store, o, existing.value, incoming);
    r := PrepareBusinessOrderForPlacement(store, o);
    if r.Err? {
      store.Restore(savepoint);
    }
  }
}
