/**
 Reserving all lines of an order, each from the pool of its own offer: the loop of
 business/policies.py and of start_retail_payment in retail/services.py.
 */
module Placement {
  import opened Common
  import opened Records
  import opened Storage
  import opened Pricing
  import opened Reservations
  import opened ReservationFacts

  /** Every offer row is consistent, and every line names one. */
  ghost predicate OfferKeysOk(db: Db) {
    && (forall k :: 0 <= k < |db.offers| ==> OfferOk(db, k))
    && (forall l :: l in db.lines ==> db.lines[l].offer < |db.offers|)
  }

  ghost predicate AreLines(db: Db, ids: seq<nat>) {
    forall i :: 0 <= i < |ids| ==> ids[i] in db.lines
  }

  /** Offer rows stay consistent while products, batches and offers stay. */
  lemma OfferKeysFrame(db: Db, db': Db)
    requires db'.products == db.products && db'.batches == db.batches && db'.offers == db.offers
    requires OfferKeysOk(db)
    requires forall l :: l in db'.lines ==> db'.lines[l].offer < |db'.offers|
    ensures OfferKeysOk(db')
  {
    forall k | 0 <= k < |db'.offers| ensures OfferOk(db', k) {
      assert OfferOk(db, k);
    }
  }

  /** _validate_business_offer */
  predicate BusinessOfferValid(db: Db, line: nat)
    requires OfferKeysOk(db) && line in db.lines
  {
    var row := db.lines[line];
    var f := db.offers[row.offer];
    assert OfferOk(db, row.offer);
    && f.product == row.product
    && f.channel.Business?
    && db.products[f.product].active && f.enabled
    && (f.batch.Some? ==> EUR in f.amounts)
  }

  /** The pool a line draws from, or the refusal of its channel's policy. */
  function LinePool(db: Db, line: nat, channel: Channel): (r: Result<seq<nat>>)
    requires OfferKeysOk(db) && line in db.lines
    ensures r.Ok? ==> DistinctPool(r.value) && ActivePool(db, r.value)
  {
    assert OfferOk(db, db.lines[line].offer);
    match channel
    case Business =>
      if !BusinessOfferValid(db, line) then Err(InvalidOrderOperation)
      else
        PoolIsActive(db, db.lines[line].offer, EUR);
        Ok(Pool(db, db.lines[line].offer, EUR))
    case Retail =>
      PoolIsActive(db, db.lines[line].offer, EUR);
      Ok(RetailPool(db, db.lines[line].offer, EUR))
  }

  lemma PoolIsActive(db: Db, k: nat, currency: Currency)
    requires k < |db.offers| && OfferOk(db, k)
    ensures ActivePool(db, Pool(db, k, currency)) && DistinctPool(Pool(db, k, currency))
  {
    var pool := Pool(db, k, currency);
    forall i | 0 <= i < |pool| ensures pool[i] < |db.batches| && db.batches[pool[i]].status.Active? {
      assert pool[i] in pool;
    }
  }

  /** The channels report a shortage as InsufficientStockError. */
  function Translated(r: Result<Db>): Result<Db> {
    match r
    case Err(InsufficientReservationCapacity(q, a, m)) => Err(InsufficientStock(q, a, m))
    case _ => r
  }

  function ReserveOneSpec(db: Db, line: nat, channel: Channel, until: Option<int>): (r: Result<Db>)
    requires OfferKeysOk(db) && line in db.lines
    ensures r.Ok? ==> r.value == db.(allocations := r.value.allocations, nextAllocation := r.value.nextAllocation)
  {
    var pool :- LinePool(db, line, channel);
    Translated(ReserveLineSpec(db, line, pool, db.lines[line].quantity, until))
  }

  function ReserveLinesSpec(db: Db, ids: seq<nat>, channel: Channel, until: Option<int>): (r: Result<Db>)
    requires OfferKeysOk(db) && AreLines(db, ids)
    ensures r.Ok? ==> r.value == db.(allocations := r.value.allocations, nextAllocation := r.value.nextAllocation)
    decreases |ids|
  {
    if ids == [] then Ok(db)
    else
      var db1 :- ReserveOneSpec(db, ids[0], channel, until);
      assert forall k :: 0 <= k < |db.offers| ==> OfferOk(db, k) ==> OfferOk(db1, k);
      ReserveLinesSpec(db1, ids[1..], channel, until)
  }

  /** prepare_business_order_for_placement */
  function PrepareBusinessSpec(db: Db, o: nat): (r: Result<Db>)
    requires OfferKeysOk(db) && o in db.orders
    ensures r.Ok? ==> r.value == db.(allocations := r.value.allocations, nextAllocation := r.value.nextAllocation)
  {
    if !db.orders[o].channel.Business? then Err(InvalidOrderOperation)
    else if OrderLines(db, o) == [] then Err(InvalidOrderOperation)
    else ReserveLinesSpec(db, OrderLines(db, o), Business, None)
  }

  // ---------- The loops ----------

  /** One pass of the loop body: policy, pool, reservation, and the translation of a shortage. */
  method ReserveOne(store: Database, line: nat, channel: Channel, until: Option<int>) returns (r: Result<()>)
    requires OfferKeysOk(store.Contents()) && line in store.lines
    modifies store`allocations, store`nextAllocation
    ensures r == Reply(ReserveOneSpec(old(store.Contents()), line, channel, until))
    ensures store.Contents() == Committed(old(store.Contents()), ReserveOneSpec(old(store.Contents()), line, channel, until))
  {
    var pool := LinePool(store.Contents(), line, channel);
    if pool.Err? {
      return Err(pool.error);
    }
    r := ReserveOrderLineFromPool(store, line, pool.value, store.lines[line].quantity, until);
    match r
    case Err(InsufficientReservationCapacity(q, a, m)) => return Err(InsufficientStock(q, a, m));
    case _ =>
  }

  method ReserveLines(store: Database, ids: seq<nat>, channel: Channel, until: Option<int>) returns (r: Result<()>)
    requires OfferKeysOk(store.Contents()) && AreLines(store.Contents(), ids)
    modifies store`allocations, store`nextAllocation
    ensures r == Reply(ReserveLinesSpec(old(store.Contents()), ids, channel, until))
    ensures store.Contents() == Committed(old(store.Contents()), ReserveLinesSpec(old(store.Contents()), ids, channel, until))
  {
    ghost var before := store.Contents();
    var savedAllocations, savedNext := store.allocations, store.nextAllocation;
    for i := 0 to |ids|
      invariant store.Contents()
             == before.(allocations := store.allocations, nextAllocation := store.nextAllocation)
      invariant OfferKeysOk(store.Contents()) && AreLines(store.Contents(), ids)
      invariant ReserveLinesSpec(before, ids, channel, until)
             == ReserveLinesSpec(store.Contents(), ids[i..], channel, until)
    {
      ghost var here := store.Contents();
      assert ids[i..][0] == ids[i] && ids[i..][1..] == ids[i + 1..];
      var one := ReserveOne(store, ids[i], channel, until);
      if one.Err? {
        store.allocations, store.nextAllocation := savedAllocations, savedNext;
        return Err(one.error);
      }
      assert ReserveOneSpec(here, ids[i], channel, until) == Ok(store.Contents());
      assert forall k :: 0 <= k < |here.offers| ==> OfferOk(here, k) ==> OfferOk(store.Contents(), k);
    }
    return Ok(());
  }

  method PrepareBusinessOrderForPlacement(store: Database, order: nat) returns (r: Result<()>)
    requires OfferKeysOk(store.Contents()) && order in store.orders
    modifies store`allocations, store`nextAllocation
    ensures r == Reply(PrepareBusinessSpec(old(store.Contents()), order))
    ensures store.Contents() == Committed(old(store.Contents()), PrepareBusinessSpec(old(store.Contents()), order))
  {
    if !store.orders[order].channel.Business? {
      return Err(InvalidOrderOperation);
    }
    var lines := LinesOf(store.lines, store.nextLine, order);
    if lines == [] {
      return Err(InvalidOrderOperation);
    }
    r := ReserveLines(store, lines, Business, None);
  }

  // ---------- What reserving a list of lines does ----------

  ghost predicate DistinctLines(ids: seq<nat>) {
    forall i, j :: 0 <= i < j < |ids| ==> ids[i] != ids[j]
  }

  lemma OneLineEffect(db: Db, line: nat, channel: Channel, until: Option<int>, db': Db)
    requires OfferKeysOk(db) && line in db.lines && StockOk(db) && AllocationKeysOk(db)
    requires until.None? || until.value > db.now
    requires ReserveOneSpec(db, line, channel, until) == Ok(db')
    ensures Extends(db, db', [line], until) && StockOk(db')
  {
    var pool := LinePool(db, line, channel).value;
    ReservedRows(db, line, pool, db.lines[line].quantity, until, db');
    ReservedStockOk(db, line, pool, db.lines[line].quantity, until, db');
  }

  lemma OneLineTotal(db: Db, line: nat, channel: Channel, until: Option<int>, db': Db, l: nat)
    requires OfferKeysOk(db) && line in db.lines && AllocationKeysOk(db)
    requires until.None? || until.value > db.now
    requires ReserveOneSpec(db, line, channel, until) == Ok(db')
    ensures Total(db'.allocations, db'.nextAllocation, ReservedFor(l))
         == Total(db.allocations, db.nextAllocation, ReservedFor(l)) + (if l == line then db.lines[line].quantity else 0)
  {
    var pool := LinePool(db, line, channel).value;
    ReservedTotals(db, line, pool, db.lines[line].quantity, until, db', 0, l);
  }

  lemma ExtendsKeysOk(db: Db, db': Db, lines: seq<nat>, until: Option<int>)
    requires AllocationKeysOk(db) && Extends(db, db', lines, until)
    ensures AllocationKeysOk(db')
    ensures OfferKeysOk(db) ==> OfferKeysOk(db')
  {
    forall i | i in db'.allocations ensures i < db'.nextAllocation && db'.allocations[i].batch < |db'.batches| {
      if i !in db.allocations {
        assert NewRowOk(db, db'.allocations[i], lines, until);
      }
    }
    assert forall k :: 0 <= k < |db.offers| ==> OfferOk(db, k) ==> OfferOk(db', k);
  }

  lemma ExtendsIsTransitive(a: Db, b: Db, c: Db, line: nat, rest: seq<nat>, until: Option<int>)
    requires Extends(a, b, [line], until) && Extends(b, c, rest, until) && line !in rest
    requires AllocationKeysOk(a)
    ensures Extends(a, c, [line] + rest, until)
  {
    var all := [line] + rest;
    forall i | i in c.allocations && i !in a.allocations
      ensures a.nextAllocation <= i < c.nextAllocation && NewRowOk(a, c.allocations[i], all, until)
    {
      if i in b.allocations {
        assert NewRowOk(a, b.allocations[i], [line], until);
      } else {
        assert NewRowOk(b, c.allocations[i], rest, until);
      }
    }
    forall i, j | i in c.allocations && j in c.allocations && i !in a.allocations && j !in a.allocations && i != j
      && c.allocations[i].line == c.allocations[j].line
      ensures c.allocations[i].batch != c.allocations[j].batch
    {
      assert i in b.allocations ==> NewRowOk(a, b.allocations[i], [line], until);
      assert j in b.allocations ==> NewRowOk(a, b.allocations[j], [line], until);
      assert i !in b.allocations ==> NewRowOk(b, c.allocations[i], rest, until);
      assert j !in b.allocations ==> NewRowOk(b, c.allocations[j], rest, until);
    }
  }

  /** Reserving distinct lines adds RESERVED rows for those lines only and keeps stock safety. */
  lemma {:induction false} LinesEffect(db: Db, ids: seq<nat>, channel: Channel, until: Option<int>, db': Db)
    requires OfferKeysOk(db) && AreLines(db, ids) && DistinctLines(ids) && StockOk(db) && AllocationKeysOk(db)
    requires until.None? || until.value > db.now
    requires ReserveLinesSpec(db, ids, channel, until) == Ok(db')
    ensures Extends(db, db', ids, until) && StockOk(db')
    decreases |ids|
  {
    hide StockOk, ReserveOneSpec, AllocationKeysOk, OfferKeysOk;
    if ids != [] {
      var db1 := ReserveOneSpec(db, ids[0], channel, until).value;
      OneLineEffect(db, ids[0], channel, until, db1);
      ExtendsKeysOk(db, db1, [ids[0]], until);
      LinesEffect(db1, ids[1..], channel, until, db');
      ExtendsIsTransitive(db, db1, db', ids[0], ids[1..], until);
      assert ids == [ids[0]] + ids[1..];
    }
  }

  /** Each reserved line's own total grows by exactly its quantity. */
  lemma {:induction false} LinesTotal(db: Db, ids: seq<nat>, channel: Channel, until: Option<int>, db': Db, l: nat)
    requires OfferKeysOk(db) && AreLines(db, ids) && DistinctLines(ids) && StockOk(db) && AllocationKeysOk(db)
    requires until.None? || until.value > db.now
    requires ReserveLinesSpec(db, ids, channel, until) == Ok(db')
    ensures Total(db'.allocations, db'.nextAllocation, ReservedFor(l))
         == Total(db.allocations, db.nextAllocation, ReservedFor(l)) + (if l in ids then db.lines[l].quantity else 0)
    decreases |ids|
  {
    hide StockOk, ReserveOneSpec, AllocationKeysOk, OfferKeysOk, Extends, Total;
    if ids != [] {
      var db1 := ReserveOneSpec(db, ids[0], channel, until).value;
      OneLineEffect(db, ids[0], channel, until, db1);
      ExtendsKeysOk(db, db1, [ids[0]], until);
      OneLineTotal(db, ids[0], channel, until, db1, l);
      LinesTotal(db1, ids[1..], channel, until, db', l);
      assert ids == [ids[0]] + ids[1..];
    }
  }
}
