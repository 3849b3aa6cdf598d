/**
 What reserving one order line does to the allocation table: which rows appear, what they add to
 every total, and when the reservation succeeds.
 */
module ReservationFacts {
  import opened Common
  import opened Records
  import opened Planning
  import opened InventoryModels
  import opened ReservationSelectors
  import opened Reservations

  // ---------- Rows added by bulk_create ----------

  lemma {:induction false} AddedRows(t: Allocations, next: nat, o: nat, l: nat, until: Option<int>, picks: seq<BatchPick>)
    requires forall i :: i in t ==> i < next
    ensures var r := AddAllocations(t, next, o, l, until, picks);
            && (forall i :: i in r <==> i in t || next <= i < next + |picks|)
            && (forall i :: i in t ==> r[i] == t[i])
            && (forall i :: next <= i < next + |picks| ==> r[i] == PickedRowFor(o, l, until, picks[i - next]))
  {
    if picks != [] {
      AddedRows(t, next, o, l, until, picks[..|picks| - 1]);
    }
  }

  /** What the new rows add to a query. */
  function PickWeight(o: nat, l: nat, until: Option<int>, picks: seq<BatchPick>, q: Query): nat {
    if picks == [] then 0
    else
      var last := picks[|picks| - 1];
      PickWeight(o, l, until, picks[..|picks| - 1], q)
      + (if Matches(PickedRowFor(o, l, until, last), q) then last.quantity else 0)
  }

  lemma {:induction false} AddedTotal(t: Allocations, next: nat, o: nat, l: nat, until: Option<int>, picks: seq<BatchPick>, q: Query)
    requires forall i :: i in t ==> i < next
    ensures Total(AddAllocations(t, next, o, l, until, picks), next + |picks|, q)
         == Total(t, next, q) + PickWeight(o, l, until, picks, q)
  {
    hide Matches;
    if picks != [] {
      var n := |picks| - 1;
      var before := AddAllocations(t, next, o, l, until, picks[..n]);
      var after := AddAllocations(t, next, o, l, until, picks);
      AddedTotal(t, next, o, l, until, picks[..n], q);
      TotalSame(before, next + n, q, after, q);
      assert Total(after, next + |picks|, q) == Total(after, next + n, q) + Weight(after, next + n, q);
    }
  }

  lemma {:induction false} TakenSnoc(picks: seq<BatchPick>, last: BatchPick, b: nat)
    ensures Taken(picks + [last], b) == Taken(picks, b) + (if last.batchPk == b then last.quantity else 0)
    ensures PickTotal(picks + [last]) == PickTotal(picks) + last.quantity
  {
    if picks == [] {
      assert [] + [last] == [last];
    } else {
      assert (picks + [last])[1..] == picks[1..] + [last];
      TakenSnoc(picks[1..], last, b);
    }
  }

  lemma {:induction false} PickWeightOnBatch(o: nat, l: nat, until: Option<int>, picks: seq<BatchPick>, b: nat, now: int)
    requires until.None? || until.value > now
    ensures PickWeight(o, l, until, picks, ActiveOn(b, now)) == Taken(picks, b)
    ensures PickWeight(o, l, until, picks, HeldForOn(l, b)) == Taken(picks, b)
  {
    if picks != [] {
      var n := |picks| - 1;
      PickWeightOnBatch(o, l, until, picks[..n], b, now);
      TakenSnoc(picks[..n], picks[n], b);
      assert picks == picks[..n] + [picks[n]];
    }
  }

  lemma {:induction false} PickWeightForLine(o: nat, l: nat, until: Option<int>, picks: seq<BatchPick>, l': nat)
    ensures PickWeight(o, l, until, picks, ReservedFor(l')) == if l == l' then PickTotal(picks) else 0
  {
    if picks != [] {
      var n := |picks| - 1;
      PickWeightForLine(o, l, until, picks[..n], l');
      TakenSnoc(picks[..n], picks[n], 0);
      assert picks == picks[..n] + [picks[n]];
    }
  }

  // ---------- One reserved line ----------

  /** Stock safety: no batch has more active reservations than units, a closed batch has none, and
      batch statuses follow quantities. */
  ghost predicate StockOk(db: Db) {
    forall b :: 0 <= b < |db.batches| ==> BatchOk(db, b)
  }

  ghost predicate BatchOk(db: Db, b: nat)
    requires b < |db.batches|
  {
    && ActiveReserved(db, b) <= db.batches[b].quantity
    && (db.batches[b].status.Closed? ==> ActiveReserved(db, b) == 0)
    && StatusFollowsQuantity(db.batches[b])
  }

  ghost predicate DistinctPool(pool: seq<nat>) {
    forall i, j :: 0 <= i < j < |pool| ==> pool[i] != pool[j]
  }

  ghost predicate ActivePool(db: Db, pool: seq<nat>) {
    forall i :: 0 <= i < |pool| ==> pool[i] < |db.batches| && db.batches[pool[i]].status.Active?
  }

  /** A row a reservation may add for one of the given lines. */
  ghost predicate NewRowOk(db: Db, a: AllocationRow, lines: seq<nat>, until: Option<int>) {
    && a.line in lines && a.line in db.lines
    && a.order == db.lines[a.line].order
    && a.batch < |db.batches|
    && db.batches[a.batch].product == db.lines[a.line].product
    && a.status.Reserved? && a.reservedUntil == until
  }

  /** db' is db plus RESERVED rows for the given lines, at most one per line and batch. */
  ghost predicate Extends(db: Db, db': Db, lines: seq<nat>, until: Option<int>) {
    && db' == db.(allocations := db'.allocations, nextAllocation := db'.nextAllocation)
    && db.nextAllocation <= db'.nextAllocation
    && (forall i :: i in db.allocations ==> i in db'.allocations && db'.allocations[i] == db.allocations[i])
    && (forall i :: i in db'.allocations && i !in db.allocations ==>
          db.nextAllocation <= i < db'.nextAllocation && NewRowOk(db, db'.allocations[i], lines, until))
    && (forall i, j ::
          (&& i in db'.allocations && j in db'.allocations && i !in db.allocations && j !in db.allocations && i != j
           && db'.allocations[i].line == db'.allocations[j].line)
          ==> db'.allocations[i].batch != db'.allocations[j].batch)
  }

  lemma AvailabilityFacts(db: Db, pool: seq<nat>)
    requires InRange(db, pool) && DistinctPool(pool)
    ensures DistinctBatches(Availability(db, pool))
    ensures !HasNegativeStock(Availability(db, pool))
    ensures !HasNegative(ReservedMap(db, pool))
    ensures forall i :: 0 <= i < |pool| ==> Free(Availability(db, pool)[i], ReservedMap(db, pool)) == FreeUnits(db, pool[i])
    ensures forall b :: HasBatch(Availability(db, pool), b) <==> b in pool
  {
    var a := Availability(db, pool);
    forall i | 0 <= i < |pool| ensures Free(a[i], ReservedMap(db, pool)) == FreeUnits(db, pool[i]) {
      assert pool[i] in pool;
    }
    forall b | b in pool ensures HasBatch(a, b) {
      var i :| 0 <= i < |pool| && pool[i] == b;
      assert a[i].batchPk == b;
    }
  }

  /** Picks that respect the free units of a pool. */
  ghost predicate PicksWithinFree(db: Db, pool: seq<nat>, picks: seq<BatchPick>)
    requires InRange(db, pool)
  {
    && (forall i :: 0 <= i < |pool| ==> Taken(picks, pool[i]) <= FreeUnits(db, pool[i]))
    && (forall b: nat :: b !in pool ==> Taken(picks, b) == 0)
  }

  /** Picks that name batches of a pool, each at most once. */
  ghost predicate PicksFrom(pool: seq<nat>, picks: seq<BatchPick>) {
    && (forall i :: 0 <= i < |picks| ==> picks[i].batchPk in pool)
    && (forall i, j :: 0 <= i < j < |picks| ==> picks[i].batchPk != picks[j].batchPk)
  }

  lemma LinePlanOk(db: Db, pool: seq<nat>, quantity: int)
    requires InRange(db, pool) && DistinctPool(pool) && LinePlan(db, pool, quantity).Ok?
    ensures PicksWithinFree(db, pool, LinePlan(db, pool, quantity).value)
    ensures PicksFrom(pool, LinePlan(db, pool, quantity).value)
    ensures PickTotal(LinePlan(db, pool, quantity).value) == quantity
  {
    var a := Availability(db, pool);
    var picks := LinePlan(db, pool, quantity).value;
    AvailabilityFacts(db, pool);
    PlanIsSound(a, quantity, ReservedMap(db, pool));
    PlanIsExact(a, quantity, ReservedMap(db, pool));
    forall i | 0 <= i < |pool| ensures Taken(picks, pool[i]) <= FreeUnits(db, pool[i]) {
      assert a[i].batchPk == pool[i];
    }
    forall b: nat | b !in pool ensures Taken(picks, b) == 0 {
      assert !HasBatch(a, b);
    }
    forall i | 0 <= i < |picks| ensures picks[i].batchPk in pool {
      assert HasBatch(a, picks[i].batchPk);
    }
  }

  lemma AddedRowsOk(db: Db, line: nat, pool: seq<nat>, until: Option<int>, picks: seq<BatchPick>)
    requires line in db.lines && InRange(db, pool) && PoolFits(db, db.lines[line].product, pool)
    requires forall i :: i in db.allocations ==> i < db.nextAllocation
    requires PicksFrom(pool, picks)
    ensures Extends(db, WithRows(db, line, until, picks), [line], until)
    ensures var db' := WithRows(db, line, until, picks);
            forall i :: i in db'.allocations && i !in db.allocations ==> db'.allocations[i].batch in pool
  {
    hide AddAllocations, NewRowOk, PoolFits, InRange;
    var db' := WithRows(db, line, until, picks);
    AddedRows(db.allocations, db.nextAllocation, db.lines[line].order, line, until, picks);
    forall i | i in db'.allocations && i !in db.allocations
      ensures db.nextAllocation <= i < db'.nextAllocation
      ensures NewRowOk(db, db'.allocations[i], [line], until) && db'.allocations[i].batch in pool
    {
      PickedRowOk(db, line, pool, until, picks, i - db.nextAllocation);
    }
    forall i, j | i in db'.allocations && j in db'.allocations && i !in db.allocations && j !in db.allocations && i < j
      ensures db'.allocations[i].batch != db'.allocations[j].batch
    {
      assert picks[i - db.nextAllocation].batchPk != picks[j - db.nextAllocation].batchPk;
    }
  }

  lemma PickedRowOk(db: Db, line: nat, pool: seq<nat>, until: Option<int>, picks: seq<BatchPick>, k: nat)
    requires line in db.lines && InRange(db, pool) && PoolFits(db, db.lines[line].product, pool)
    requires PicksFrom(pool, picks) && k < |picks|
    ensures NewRowOk(db, PickedRowFor(db.lines[line].order, line, until, picks[k]), [line], until)
    ensures picks[k].batchPk in pool
  {
    var b := picks[k].batchPk;
    var i :| 0 <= i < |pool| && pool[i] == b;
  }

  lemma AddedRowsTotals(db: Db, line: nat, pool: seq<nat>, until: Option<int>, picks: seq<BatchPick>, b: nat, l: nat)
    requires line in db.lines && InRange(db, pool)
    requires forall i :: i in db.allocations ==> i < db.nextAllocation
    requires until.None? || until.value > db.now
    ensures var db' := WithRows(db, line, until, picks);
            && ActiveReserved(db', b) == ActiveReserved(db, b) + Taken(picks, b)
            && Total(db'.allocations, db'.nextAllocation, ReservedFor(l))
               == Total(db.allocations, db.nextAllocation, ReservedFor(l)) + (if l == line then PickTotal(picks) else 0)
  {
    var o := db.lines[line].order;
    AddedTotal(db.allocations, db.nextAllocation, o, line, until, picks, ReservedFor(l));
    PickWeightForLine(o, line, until, picks, l);
    AddedTotal(db.allocations, db.nextAllocation, o, line, until, picks, ActiveOn(b, db.now));
    PickWeightOnBatch(o, line, until, picks, b, db.now);
  }

  /** Only RESERVED rows for this line appear, all from the pool and each batch at most once. */
  lemma ReservedRows(db: Db, line: nat, pool: seq<nat>, quantity: int, until: Option<int>, db': Db)
    requires line in db.lines && InRange(db, pool) && DistinctPool(pool)
    requires forall i :: i in db.allocations ==> i < db.nextAllocation
    requires ReserveLineSpec(db, line, pool, quantity, until) == Ok(db')
    ensures Extends(db, db', [line], until)
    ensures forall i :: i in db'.allocations && i !in db.allocations ==> db'.allocations[i].batch in pool
  {
    LinePlanOk(db, pool, quantity);
    AddedRowsOk(db, line, pool, until, LinePlan(db, pool, quantity).value);
  }

  /** Exactly the line's own total grows, by the whole quantity. A batch outside the pool is not
      touched, and a batch of the pool gives at most its free units. */
  lemma ReservedTotals(db: Db, line: nat, pool: seq<nat>, quantity: int, until: Option<int>, db': Db, b: nat, l: nat)
    requires line in db.lines && InRange(db, pool) && DistinctPool(pool)
    requires forall i :: i in db.allocations ==> i < db.nextAllocation
    requires until.None? || until.value > db.now
    requires ReserveLineSpec(db, line, pool, quantity, until) == Ok(db')
    ensures Total(db'.allocations, db'.nextAllocation, ReservedFor(l))
         == Total(db.allocations, db.nextAllocation, ReservedFor(l)) + (if l == line then quantity else 0)
    ensures b !in pool ==> ActiveReserved(db', b) == ActiveReserved(db, b)
    ensures b in pool ==>
              b < |db.batches| && ActiveReserved(db, b) <= ActiveReserved(db', b) <= ActiveReserved(db, b) + FreeUnits(db, b)
  {
    LinePlanOk(db, pool, quantity);
    var picks := LinePlan(db, pool, quantity).value;
    AddedRowsTotals(db, line, pool, until, picks, b, l);
    if b in pool {
      var i :| 0 <= i < |pool| && pool[i] == b;
      assert Taken(picks, pool[i]) <= FreeUnits(db, pool[i]);
    }
  }

  /** Reserving from a pool of active batches keeps stock safety. */
  lemma ReservedStockOk(db: Db, line: nat, pool: seq<nat>, quantity: int, until: Option<int>, db': Db)
    requires line in db.lines && InRange(db, pool) && DistinctPool(pool) && ActivePool(db, pool)
    requires forall i :: i in db.allocations ==> i < db.nextAllocation
    requires until.None? || until.value > db.now
    requires ReserveLineSpec(db, line, pool, quantity, until) == Ok(db')
    requires StockOk(db)
    ensures StockOk(db')
  {
    forall b | 0 <= b < |db'.batches| ensures BatchOk(db', b) {
      ReservedTotals(db, line, pool, quantity, until, db', b, line);
      assert BatchOk(db, b);
      if b in pool {
        var i :| 0 <= i < |pool| && pool[i] == b;
      }
    }
  }

  // ---------- When reserving succeeds ----------

  function UnitsIn(db: Db, pool: seq<nat>): nat
    requires InRange(db, pool)
  {
    if pool == [] then 0 else UnitsIn(db, pool[..|pool| - 1]) + FreeUnits(db, pool[|pool| - 1])
  }

  lemma {:induction false} UnitsInIsTotalFree(db: Db, pool: seq<nat>, n: nat)
    requires InRange(db, pool) && DistinctPool(pool) && n <= |pool|
    ensures TotalFree(Availability(db, pool)[..n], ReservedMap(db, pool)) == UnitsIn(db, pool[..n])
  {
    if n > 0 {
      AvailabilityFacts(db, pool);
      UnitsInIsTotalFree(db, pool, n - 1);
      TotalFreePrefixStep(Availability(db, pool), ReservedMap(db, pool), n - 1);
      assert pool[..n][..n - 1] == pool[..n - 1];
      assert Availability(db, pool)[..n - 1 + 1] == Availability(db, pool)[..n];
    }
  }

  lemma PoolTotalFree(db: Db, pool: seq<nat>)
    requires InRange(db, pool) && DistinctPool(pool)
    ensures TotalFree(Availability(db, pool), ReservedMap(db, pool)) == UnitsIn(db, pool)
  {
    UnitsInIsTotalFree(db, pool, |pool|);
    assert Availability(db, pool)[..|pool|] == Availability(db, pool) && pool[..|pool|] == pool;
  }

  /** A line is reserved exactly when its pool, all of its product, has enough free units; a refusal
      for stock reports the pool's true free units. */
  lemma ReserveLineIsExact(db: Db, line: nat, pool: seq<nat>, quantity: pos, until: Option<int>)
    requires line in db.lines && InRange(db, pool) && DistinctPool(pool)
    requires PoolFits(db, db.lines[line].product, pool)
    ensures ReserveLineSpec(db, line, pool, quantity, until).Ok? <==> UnitsIn(db, pool) >= quantity
    ensures ReserveLineSpec(db, line, pool, quantity, until).Err? ==>
              ReserveLineSpec(db, line, pool, quantity, until).error
              == InsufficientReservationCapacity(quantity, UnitsIn(db, pool), quantity - UnitsIn(db, pool))
  {
    LinePlanIsExact(db, pool, db.lines[line].product, quantity);
  }

  lemma LinePlanIsExact(db: Db, pool: seq<nat>, product: nat, quantity: pos)
    requires InRange(db, pool) && DistinctPool(pool) && PoolFits(db, product, pool)
    ensures LinePlan(db, pool, quantity).Ok? <==> UnitsIn(db, pool) >= quantity
    ensures LinePlan(db, pool, quantity).Err? ==>
              LinePlan(db, pool, quantity).error
              == InsufficientReservationCapacity(quantity, UnitsIn(db, pool), quantity - UnitsIn(db, pool))
  {
    hide Plan, TotalFree, ReservedMap, UnitsIn, HasNegative, HasNegativeStock, DistinctBatches;
    var a := Availability(db, pool);
    AvailabilityFacts(db, pool);
    PoolTotalFree(db, pool);
    assert forall i :: 0 <= i < |a| ==> a[i].productId == db.batches[pool[i]].product == product;
    PlanIsExact(a, quantity, ReservedMap(db, pool));
  }

  // ---------- First expired, first out ----------

  /** The batches of a pool in the order (best before, code, key). */
  function FefoOrder(db: Db, pool: seq<nat>): (order: seq<nat>)
    requires InRange(db, pool)
    ensures |order| == |pool|
  {
    var sorted := Sorted(Availability(db, pool));
    seq(|sorted|, i requires 0 <= i < |sorted| => sorted[i].batchPk)
  }

  lemma SortedAreAvailabilities(db: Db, pool: seq<nat>)
    requires InRange(db, pool)
    ensures InRange(db, FefoOrder(db, pool))
    ensures forall i :: 0 <= i < |pool| ==>
              FefoOrder(db, pool)[i] in pool && Sorted(Availability(db, pool))[i] == AvailabilityOf(db, FefoOrder(db, pool)[i])
  {
    var a, s := Availability(db, pool), Sorted(Availability(db, pool));
    SameElements(a, s);
    forall i | 0 <= i < |pool|
      ensures FefoOrder(db, pool)[i] in pool && s[i] == AvailabilityOf(db, FefoOrder(db, pool)[i])
    {
      assert s[i] in a;
      var j :| 0 <= j < |a| && a[j] == s[i];
    }
  }

  lemma FefoOrderHasAll(db: Db, pool: seq<nat>, i: nat)
    requires InRange(db, pool) && i < |pool|
    ensures pool[i] in FefoOrder(db, pool)
  {
    var a, s := Availability(db, pool), Sorted(Availability(db, pool));
    SameElements(a, s);
    assert a[i] in a && a[i] in s;
    var j :| 0 <= j < |s| && s[j] == a[i];
    assert FefoOrder(db, pool)[j] == pool[i];
  }

  lemma FefoOrderIsSorted(db: Db, pool: seq<nat>, i: nat, j: nat)
    requires InRange(db, pool) && DistinctPool(pool) && i < j < |pool|
    ensures Earlier(Sorted(Availability(db, pool))[i], Sorted(Availability(db, pool))[j])
    ensures FefoOrder(db, pool)[i] != FefoOrder(db, pool)[j]
  {
    hide AvailabilityOf, Earlier;
    var a, s := Availability(db, pool), Sorted(Availability(db, pool));
    AvailabilityFacts(db, pool);
    SortedIsInFefoOrder(a);
    SortedKeepsDistinct(a);
    assert s[i].batchPk != s[j].batchPk;
    EarlierIsStrictTotal(s[i], s[j], s[i]);
  }

  /** The FEFO order lists exactly the pool, each batch once, every batch before those that expire later. */
  lemma FefoOrderIsFefo(db: Db, pool: seq<nat>)
    requires InRange(db, pool) && DistinctPool(pool)
    ensures InRange(db, FefoOrder(db, pool)) && DistinctPool(FefoOrder(db, pool))
    ensures forall b :: b in FefoOrder(db, pool) <==> b in pool
    ensures forall i, j :: 0 <= i < j < |pool| ==>
              Earlier(AvailabilityOf(db, FefoOrder(db, pool)[i]), AvailabilityOf(db, FefoOrder(db, pool)[j]))
  {
    hide FefoOrder, Sorted, Availability, AvailabilityOf, Earlier;
    var order := FefoOrder(db, pool);
    SortedAreAvailabilities(db, pool);
    forall b | b in pool ensures b in order {
      var i :| 0 <= i < |pool| && pool[i] == b;
      FefoOrderHasAll(db, pool, i);
    }
    forall i, j | 0 <= i < j < |pool| ensures Earlier(AvailabilityOf(db, order[i]), AvailabilityOf(db, order[j])) && order[i] != order[j] {
      FefoOrderIsSorted(db, pool, i, j);
    }
  }

  /** Units that RESERVED rows hold for a line on a batch. */
  function HeldForLine(db: Db, line: nat, b: nat): nat {
    Total(db.allocations, db.nextAllocation, HeldForOn(line, b))
  }

  /** Units the new rows of a line take from the given batches. */
  function NewlyHeld(db: Db, db': Db, line: nat, pks: seq<nat>): int {
    if pks == [] then 0
    else
      var b := pks[|pks| - 1];
      NewlyHeld(db, db', line, pks[..|pks| - 1]) + HeldForLine(db', line, b) - HeldForLine(db, line, b)
  }

  lemma NewRowsHold(db: Db, line: nat, until: Option<int>, picks: seq<BatchPick>, b: nat)
    requires line in db.lines && forall i :: i in db.allocations ==> i < db.nextAllocation
    ensures HeldForLine(WithRows(db, line, until, picks), line, b) == HeldForLine(db, line, b) + Taken(picks, b)
  {
    var o := db.lines[line].order;
    AddedTotal(db.allocations, db.nextAllocation, o, line, until, picks, HeldForOn(line, b));
    PickWeightOnBatch(o, line, until, picks, b, if until.Some? then until.value - 1 else 0);
  }

  lemma {:induction false} PrefixHeld(db: Db, line: nat, until: Option<int>, picks: seq<BatchPick>, s: seq<BatchAvailability>,
                                      pks: seq<nat>, k: nat)
    requires line in db.lines && forall i :: i in db.allocations ==> i < db.nextAllocation
    requires |pks| == |s| && k <= |s| && forall i :: 0 <= i < |s| ==> pks[i] == s[i].batchPk
    ensures NewlyHeld(db, WithRows(db, line, until, picks), line, pks[..k]) == TakenFromPrefix(picks, s, k)
  {
    hide WithRows, HeldForLine;
    if k > 0 {
      PrefixHeld(db, line, until, picks, s, pks, k - 1);
      NewRowsHold(db, line, until, picks, pks[k - 1]);
      assert pks[..k][..k - 1] == pks[..k - 1];
    }
  }

  lemma {:induction false} PrefixFree(db: Db, pool: seq<nat>, k: nat)
    requires InRange(db, pool) && DistinctPool(pool) && k <= |pool|
    ensures InRange(db, FefoOrder(db, pool))
    ensures TotalFree(Sorted(Availability(db, pool))[..k], ReservedMap(db, pool)) == UnitsIn(db, FefoOrder(db, pool)[..k])
  {
    hide ReservedMap, Sorted, FefoOrder, FreeUnits;
    SortedAreAvailabilities(db, pool);
    var s, order := Sorted(Availability(db, pool)), FefoOrder(db, pool);
    if k > 0 {
      PrefixFree(db, pool, k - 1);
      TotalFreePrefixStep(s, ReservedMap(db, pool), k - 1);
      assert s[..k - 1 + 1] == s[..k];
      assert order[..k][..k - 1] == order[..k - 1];
      AvailabilityFacts(db, pool);
      var i :| 0 <= i < |pool| && pool[i] == order[k - 1];
      assert Availability(db, pool)[i] == s[k - 1];
    }
  }

  /** First expired, first out: from every prefix of the expiry order of the pool the line's new rows
      take min(quantity, free units of the prefix). */
  lemma ReservationIsFefo(db: Db, line: nat, pool: seq<nat>, quantity: int, until: Option<int>, db': Db, k: nat)
    requires line in db.lines && InRange(db, pool) && DistinctPool(pool) && k <= |pool|
    requires forall i :: i in db.allocations ==> i < db.nextAllocation
    requires ReserveLineSpec(db, line, pool, quantity, until) == Ok(db')
    ensures InRange(db, FefoOrder(db, pool))
    ensures NewlyHeld(db, db', line, FefoOrder(db, pool)[..k]) == Min(quantity, UnitsIn(db, FefoOrder(db, pool)[..k]))
  {
    hide Plan, ReservedMap, Sorted, WithRows, NewlyHeld, UnitsIn, TotalFree, TakenFromPrefix;
    var a := Availability(db, pool);
    var picks := LinePlan(db, pool, quantity).value;
    AvailabilityFacts(db, pool);
    SortedAreAvailabilities(db, pool);
    PlanFillsPrefixes(a, quantity, ReservedMap(db, pool), k);
    PrefixHeld(db, line, until, picks, Sorted(a), FefoOrder(db, pool), k);
    PrefixFree(db, pool, k);
  }
}
