/**
 Reserving, releasing, deleting, consuming and promoting allocations (reservations/models.py,
 reservations/services.py). Each service is a loop over rows; the function of the same name with
 "Spec" says what the transaction leaves behind.
 */
module Reservations {
  import opened Common
  import opened Records
  import opened Storage
  import opened Planning
  import opened InventoryModels
  import opened ReservationSelectors

  /** An in-memory allocation and its status machine. */
  class Allocation {
    const row: AllocationRow
    var status: AllocationStatus

    function Row(): AllocationRow
      reads this
    {
      row.(status := status)
    }

    constructor (row: AllocationRow)
      ensures Row() == row
    {
      this.row := row;
      status := row.status;
    }

    /** Only a RESERVED allocation can change; repeating a transition does nothing. */
    method TransitionTo(target: AllocationStatus) returns (r: Result<()>)
      modifies this`status
      ensures r.Ok? <==> old(status) == target || old(status).Reserved?
      ensures Row() == if r.Ok? then old(Row()).(status := target) else old(Row())
      ensures r.Err? ==> r.error == InvalidAllocationStatusTransition
    {
      if status == target {
        return Ok(());
      }
      if !status.Reserved? {
        return Err(InvalidAllocationStatusTransition);
      }
      status := target;
      return Ok(());
    }

    method Consume() returns (r: Result<()>)
      modifies this`status
      ensures r.Ok? <==> !old(status).Cancelled?
      ensures Row() == if r.Ok? then old(Row()).(status := Consumed) else old(Row())
    {
      r := TransitionTo(Consumed);
    }

    method Cancel() returns (r: Result<()>)
      modifies this`status
      ensures r.Ok? <==> !old(status).Consumed?
      ensures Row() == if r.Ok? then old(Row()).(status := AllocationStatus.Cancelled) else old(Row())
    {
      r := TransitionTo(AllocationStatus.Cancelled);
    }
  }

  // ---------- reserve_order_line_from_pool ----------

  /** _validate_pool */
  predicate PoolFits(db: Db, product: nat, pool: seq<nat>)
    requires InRange(db, pool)
  {
    forall i :: 0 <= i < |pool| ==> db.batches[pool[i]].product == product
  }

  predicate InRange(db: Db, pool: seq<nat>) {
    forall i :: 0 <= i < |pool| ==> pool[i] < |db.batches|
  }

  function AvailabilityOf(db: Db, b: nat): BatchAvailability
    requires b < |db.batches|
  {
    var row := db.batches[b];
    BatchAvailability(b, row.code, row.product, row.quantity, row.bestBefore)
  }

  function Availability(db: Db, pool: seq<nat>): seq<BatchAvailability>
    requires InRange(db, pool)
  {
    seq(|pool|, i requires 0 <= i < |pool| => AvailabilityOf(db, pool[i]))
  }

  function PickedRowFor(order: nat, line: nat, until: Option<int>, pick: BatchPick): AllocationRow {
    AllocationRow(order, line, pick.batchPk, pick.quantity, Reserved, until)
  }

  /** bulk_create: one row per pick, with consecutive keys. */
  function AddAllocations(t: Allocations, next: nat, order: nat, line: nat, until: Option<int>, picks: seq<BatchPick>): Allocations {
    if picks == [] then t
    else
      var n := |picks| - 1;
      AddAllocations(t, next, order, line, until, picks[..n])[next + n := PickedRowFor(order, line, until, picks[n])]
  }

  function LinePlan(db: Db, pool: seq<nat>, quantity: int): Result<seq<BatchPick>>
    requires InRange(db, pool)
  {
    Plan(Availability(db, pool), quantity, ReservedMap(db, pool))
  }

  function ReserveLineSpec(db: Db, line: nat, pool: seq<nat>, quantity: int, until: Option<int>): Result<Db>
    requires line in db.lines && InRange(db, pool)
  {
    if !PoolFits(db, db.lines[line].product, pool) then Err(InvalidReservationPool)
    else
      var picks :- LinePlan(db, pool, quantity);
      Ok(WithRows(db, line, until, picks))
  }

  function WithRows(db: Db, line: nat, until: Option<int>, picks: seq<BatchPick>): Db
    requires line in db.lines
  {
    db.(allocations := AddAllocations(db.allocations, db.nextAllocation, db.lines[line].order, line, until, picks),
        nextAllocation := db.nextAllocation + |picks|)
  }

  /** Both checks of _validate_pool: one product, and the line's product. */
  method ValidatePool(store: Database, line: nat, pool: seq<nat>) returns (r: Result<()>)
    requires line in store.lines && InRange(store.Contents(), pool)
    ensures r == if PoolFits(store.Contents(), store.lines[line].product, pool) then Ok(()) else Err(InvalidReservationPool)
  {
    var product := store.lines[line].product;
    var productIds: set<nat> := {};
    for i := 0 to |pool|
      invariant forall p :: p in productIds ==> exists k :: 0 <= k < i && store.batches[pool[k]].product == p
      invariant forall k :: 0 <= k < i ==> store.batches[pool[k]].product in productIds
    {
      productIds := productIds + {store.batches[pool[i]].product};
    }
    if pool == [] {
      return Ok(());
    }
    assert store.batches[pool[0]].product in productIds;
    if |productIds| > 1 {
      assert productIds != {product};
      var p :| p in productIds && p != product;
      return Err(InvalidReservationPool);
    }
    if productIds != {product} {
      assert productIds <= {product} ==> productIds == {product};
      var p :| p in productIds && p != product;
      return Err(InvalidReservationPool);
    }
    return Ok(());
  }

  method BulkCreateAllocations(store: Database, order: nat, line: nat, until: Option<int>, picks: seq<BatchPick>)
    modifies store`allocations, store`nextAllocation
    ensures store.nextAllocation == old(store.nextAllocation) + |picks|
    ensures store.allocations
         == AddAllocations(old(store.allocations), old(store.nextAllocation), order, line, until, picks)
  {
    for i := 0 to |picks|
      invariant store.nextAllocation == old(store.nextAllocation) + i
      invariant store.allocations
             == AddAllocations(old(store.allocations), old(store.nextAllocation), order, line, until, picks[..i])
    {
      store.allocations := store.allocations[store.nextAllocation := PickedRowFor(order, line, until, picks[i])];
      store.nextAllocation := store.nextAllocation + 1;
      assert picks[..i + 1][..i] == picks[..i];
    }
    assert picks[..|picks|] == picks;
  }

  method ReserveOrderLineFromPool(store: Database, line: nat, pool: seq<nat>, quantity: int, until: Option<int>)
    returns (r: Result<()>)
    requires line in store.lines && InRange(store.Contents(), pool)
    modifies store`allocations, store`nextAllocation
    ensures r == Reply(ReserveLineSpec(old(store.Contents()), line, pool, quantity, until))
    ensures store.Contents()
         == Committed(old(store.Contents()), ReserveLineSpec(old(store.Contents()), line, pool, quantity, until))
  {
    hide Plan, AddAllocations, ReservedMap, Availability;
    var valid := ValidatePool(store, line, pool);
    if valid.Err? {
      return Err(InvalidReservationPool);
    }
    var reservedQuantityByBatchPk := ActiveReservedQuantitiesByBatchPk(store, pool);
    var planned := PlanBatchPicks(Availability(store.Contents(), pool), quantity, reservedQuantityByBatchPk);
    if planned.Err? {
      return Err(planned.error);
    }
    BulkCreateAllocations(store, store.lines[line].order, line, until, planned.value);
    return Ok(());
  }

  // ---------- Releasing and deleting ----------

  function CancelMatching(t: Allocations, q: Query): Allocations {
    map i | i in t :: if Matches(t[i], q) then t[i].(status := AllocationStatus.Cancelled) else t[i]
  }

  /** The rows with the given keys in a new status. */
  function WithStatus(t: Allocations, keys: seq<nat>, status: AllocationStatus): Allocations {
    map i | i in t :: if i in keys then t[i].(status := status) else t[i]
  }

  lemma WithStatusStep(t: Allocations, ids: seq<nat>, k: nat, status: AllocationStatus)
    requires k < |ids| && ids[k] in t
    ensures WithStatus(t, ids[..k + 1], status) == WithStatus(t, ids[..k], status)[ids[k] := t[ids[k]].(status := status)]
  {
    assert ids[..k + 1] == ids[..k] + [ids[k]];
  }

  lemma WithStatusAt(t: Allocations, ids: seq<nat>, k: nat, status: AllocationStatus)
    requires k < |ids| && ids[k] in t && forall j :: 0 <= j < k ==> ids[j] != ids[k]
    ensures ids[k] in WithStatus(t, ids[..k], status) && WithStatus(t, ids[..k], status)[ids[k]] == t[ids[k]]
  {
    assert ids[k] !in ids[..k];
  }

  /** The loop shared by both cancelling services; q selects only RESERVED rows. */
  method CancelSelected(store: Database, q: Query)
    requires q.ReservedBy? || q.TemporaryBy?
    requires forall i :: i in store.allocations ==> i < store.nextAllocation
    modifies store`allocations
    ensures store.allocations == CancelMatching(old(store.allocations), q)
  {
    hide WithStatus, Select;
    ghost var t := store.allocations;
    var ids := Select(store.allocations, store.nextAllocation, q);
    SelectedWithStatus(t, store.nextAllocation, q, ids);
    for k := 0 to |ids|
      invariant store.allocations == WithStatus(t, ids[..k], AllocationStatus.Cancelled)
    {
      assert ids[k] in ids;
      WithStatusAt(t, ids, k, AllocationStatus.Cancelled);
      var allocation := new Allocation(store.allocations[ids[k]]);
      var r := allocation.Cancel();
      store.allocations := store.allocations[ids[k] := allocation.Row()];
      WithStatusStep(t, ids, k, AllocationStatus.Cancelled);
    }
    assert ids[..|ids|] == ids;
  }

  /** Setting the status of no row, and of exactly the rows that a query selects. */
  lemma SelectedWithStatus(t: Allocations, n: nat, q: Query, ids: seq<nat>)
    requires ids == Select(t, n, q) && forall i :: i in t ==> i < n
    ensures forall status :: WithStatus(t, ids[..0], status) == t
    ensures WithStatus(t, ids, AllocationStatus.Cancelled) == CancelMatching(t, q)
    ensures forall o :: q == ReservedBy(o) ==> WithStatus(t, ids, Consumed) == ConsumeMatching(t, o)
  {
    forall i ensures i in ids <==> i in t && Matches(t[i], q) {
    }
    hide Select, Matches;
    assert ids[..0] == [];
  }

  method CancelReservationsForOrder(store: Database, order: nat)
    requires forall i :: i in store.allocations ==> i < store.nextAllocation
    modifies store`allocations
    ensures store.allocations == CancelMatching(old(store.allocations), ReservedBy(order))
    ensures store.allocations.Keys == old(store.allocations).Keys
    ensures forall i :: i in old(store.allocations) ==>
              var row := old(store.allocations)[i];
              store.allocations[i] == if row.order == order && row.status == Reserved then row.(status := AllocationStatus.Cancelled) else row
  {
    CancelSelected(store, ReservedBy(order));
  }

  method CancelTemporaryReservationsForOrder(store: Database, order: nat)
    requires forall i :: i in store.allocations ==> i < store.nextAllocation
    modifies store`allocations
    ensures store.allocations == CancelMatching(old(store.allocations), TemporaryBy(order))
    ensures store.allocations.Keys == old(store.allocations).Keys
    ensures forall i :: i in old(store.allocations) ==>
              var row := old(store.allocations)[i];
              store.allocations[i]
              == if row.order == order && row.status == Reserved && row.reservedUntil != None
                 then row.(status := AllocationStatus.Cancelled) else row
  {
    CancelSelected(store, TemporaryBy(order));
  }

  function ReservedKeys(t: Allocations, o: nat): set<nat> {
    set i | i in t && Matches(t[i], ReservedBy(o))
  }

  function DeleteReservationsSpec(db: Db, o: nat): Db {
    DeleteAllocations(db, ReservedKeys(db.allocations, o))
  }

  method DeleteReservationsForOrder(store: Database, order: nat)
    modifies store`allocations, store`marks
    ensures store.Contents() == DeleteReservationsSpec(old(store.Contents()), order)
    ensures store.allocations
         == map i | i in old(store.allocations)
                    && !(old(store.allocations)[i].order == order && old(store.allocations)[i].status == Reserved)
                  :: old(store.allocations)[i]
    ensures forall i :: i in store.marks <==>
              i in old(store.marks) && (i in store.allocations || i !in old(store.allocations))
  {
    var doomed := ReservedKeys(store.allocations, order);
    store.allocations := store.allocations - doomed;
    store.marks := store.marks - doomed;
  }

  // ---------- consume_reservations_for_order ----------

  predicate HoldsNothing(t: Allocations, o: nat) {
    forall i :: i in t ==> !Matches(t[i], ReservedBy(o))
  }

  function Held(db: Db, o: nat, b: nat): nat {
    Total(db.allocations, db.nextAllocation, HeldOn(o, b))
  }

  /** Picking a batch for one order; a batch the order holds nothing on is not touched. */
  function PickFor(db: Db, o: nat, b: nat): Result<BatchRow>
    requires b < |db.batches|
  {
    if Held(db, o, b) == 0 then Ok(db.batches[b]) else PickRow(db.batches[b], Held(db, o, b))
  }

  function PickedBatch(db: Db, o: nat, b: nat): BatchRow
    requires b < |db.batches|
  {
    if PickFor(db, o, b).Ok? then PickFor(db, o, b).value else db.batches[b]
  }

  function PickedBatches(db: Db, o: nat): seq<BatchRow> {
    seq(|db.batches|, b requires 0 <= b < |db.batches| => PickedBatch(db, o, b))
  }

  function ConsumeMatching(t: Allocations, o: nat): Allocations {
    map i | i in t :: if Matches(t[i], ReservedBy(o)) then t[i].(status := Consumed) else t[i]
  }

  function ConsumeSpec(db: Db, o: nat): Result<Db> {
    if HoldsNothing(db.allocations, o) then Err(MissingReservations)
    else if exists b :: 0 <= b < |db.batches| && PickFor(db, o, b).Err? then Err(InvalidStockOperation)
    else Ok(db.(batches := PickedBatches(db, o),
                allocations := ConsumeMatching(db.allocations, o)))
  }

  /** Foreign keys of the allocation table, and its key sequence. */
  ghost predicate AllocationKeysOk(db: Db) {
    && (forall i :: i in db.allocations ==> i < db.nextAllocation)
    && (forall i :: i in db.allocations ==> db.allocations[i].batch < |db.batches|)
  }

  /** The dictionary of held quantities after the rows with key below n. */
  function HeldBelow(t: Allocations, n: nat, order: nat, batches: nat): map<nat, nat> {
    map b | 0 <= b < batches && Total(t, n, HeldOn(order, b)) > 0 :: Total(t, n, HeldOn(order, b))
  }

  /** One more row adds its quantity to its batch when the order holds it. */
  lemma HeldStep(t: Allocations, n: nat, order: nat, batches: nat)
    requires n in t ==> t[n].batch < batches
    ensures HeldBelow(t, n + 1, order, batches)
         == if n in t && Matches(t[n], ReservedBy(order))
            then HeldBelow(t, n, order, batches)[t[n].batch :=
                   (if t[n].batch in HeldBelow(t, n, order, batches) then HeldBelow(t, n, order, batches)[t[n].batch] else 0) + t[n].quantity]
            else HeldBelow(t, n, order, batches)
  {
    forall b: nat
      ensures Total(t, n + 1, HeldOn(order, b))
           == Total(t, n, HeldOn(order, b)) + (if n in t && t[n].batch == b && Matches(t[n], ReservedBy(order)) then t[n].quantity else 0)
    {
    }
    hide Total;
  }

  method QuantityByBatchPk(store: Database, order: nat) returns (quantityByBatchPk: map<nat, nat>)
    requires AllocationKeysOk(store.Contents())
    ensures quantityByBatchPk
         == map b | 0 <= b < |store.batches| && Held(store.Contents(), order, b) > 0 :: Held(store.Contents(), order, b)
  {
    quantityByBatchPk := map[];
    for i := 0 to store.nextAllocation
      invariant quantityByBatchPk == HeldBelow(store.allocations, i, order, |store.batches|)
    {
      hide HeldBelow, Matches;
      HeldStep(store.allocations, i, order, |store.batches|);
      if i in store.allocations && Matches(store.allocations[i], ReservedBy(order)) {
        var row := store.allocations[i];
        var soFar := if row.batch in quantityByBatchPk then quantityByBatchPk[row.batch] else 0;
        quantityByBatchPk := quantityByBatchPk[row.batch := soFar + row.quantity];
      }
    }
  }

  /** Picks every batch of the dictionary, or stops at the first batch that cannot be picked. */
  method PickBatches(store: Database, order: nat, quantityByBatchPk: map<nat, nat>) returns (r: Result<()>)
    requires quantityByBatchPk
          == map b | 0 <= b < |store.batches| && Held(store.Contents(), order, b) > 0 :: Held(store.Contents(), order, b)
    modifies store`batches
    ensures r.Ok? <==> forall b :: 0 <= b < |old(store.batches)| ==> PickFor(old(store.Contents()), order, b).Ok?
    ensures r.Ok? ==> store.batches == PickedBatches(old(store.Contents()), order)
    ensures r.Err? ==> r.error == InvalidStockOperation && store.batches == old(store.batches)
  {
    ghost var before := store.Contents();
    var savepoint := store.batches;
    for b := 0 to |store.batches|
      invariant |store.batches| == |savepoint|
      invariant forall k :: 0 <= k < b ==> PickFor(before, order, k) == Ok(store.batches[k])
      invariant forall k :: b <= k < |savepoint| ==> store.batches[k] == savepoint[k]
    {
      if b in quantityByBatchPk {
        var batch := new InventoryBatch(store.batches[b]);
        var picked := batch.Pick(quantityByBatchPk[b]);
        if picked.Err? {
          store.batches := savepoint;
          assert PickFor(before, order, b).Err?;
          return Err(InvalidStockOperation);
        }
        store.batches := store.batches[b := batch.Row()];
      }
    }
    return Ok(());
  }

  method ConsumeReservationsForOrder(store: Database, order: nat) returns (r: Result<()>)
    requires AllocationKeysOk(store.Contents())
    modifies store`batches, store`allocations
    ensures r == Reply(ConsumeSpec(old(store.Contents()), order))
    ensures store.Contents() == Committed(old(store.Contents()), ConsumeSpec(old(store.Contents()), order))
    ensures r.Ok? ==> store.allocations.Keys == old(store.allocations).Keys
    ensures r.Ok? ==> forall i :: i in old(store.allocations) ==>
              var row := old(store.allocations)[i];
              store.allocations[i] == if row.order == order && row.status == Reserved then row.(status := Consumed) else row
    ensures r.Err? ==> store.Contents() == old(store.Contents())
    ensures r == Err(MissingReservations) <==>
              forall i :: i in old(store.allocations) && old(store.allocations)[i].order == order ==>
                old(store.allocations)[i].status != Reserved
  {
    hide PickFor, ConsumeMatching, PickedBatches;
    ConsumedRows(store.allocations, order);
    var ids := Select(store.allocations, store.nextAllocation, ReservedBy(order));
    if ids == [] {
      assert HoldsNothing(store.allocations, order) by {
        forall i | i in store.allocations ensures !Matches(store.allocations[i], ReservedBy(order)) {
          assert i !in ids;
        }
      }
      return Err(MissingReservations);
    }
    assert ids[0] in ids;
    var quantityByBatchPk := QuantityByBatchPk(store, order);
    var picked := PickBatches(store, order, quantityByBatchPk);
    if picked.Err? {
      return Err(InvalidStockOperation);
    }
    ConsumeAllocations(store, order, ids);
    return Ok(());
  }

  lemma ConsumedRows(t: Allocations, o: nat)
    ensures HoldsNothing(t, o) <==> forall i :: i in t && t[i].order == o ==> t[i].status != Reserved
    ensures ConsumeMatching(t, o).Keys == t.Keys
    ensures forall i :: i in t ==>
              ConsumeMatching(t, o)[i] == if t[i].order == o && t[i].status == Reserved then t[i].(status := Consumed) else t[i]
  {
  }

  method ConsumeAllocations(store: Database, order: nat, ids: seq<nat>)
    requires forall i :: i in store.allocations ==> i < store.nextAllocation
    requires ids == Select(store.allocations, store.nextAllocation, ReservedBy(order))
    modifies store`allocations
    ensures store.allocations == ConsumeMatching(old(store.allocations), order)
  {
    hide WithStatus, Select;
    ghost var t := store.allocations;
    SelectedWithStatus(t, store.nextAllocation, ReservedBy(order), ids);
    for k := 0 to |ids|
      invariant store.allocations == WithStatus(t, ids[..k], Consumed)
    {
      assert ids[k] in ids;
      WithStatusAt(t, ids, k, Consumed);
      var allocation := new Allocation(store.allocations[ids[k]]);
      var r := allocation.Consume();
      store.allocations := store.allocations[ids[k] := allocation.Row()];
      WithStatusStep(t, ids, k, Consumed);
    }
    assert ids[..|ids|] == ids;
  }

  // ---------- make_reservations_permanent_for_order ----------

  predicate ActiveFor(a: AllocationRow, o: nat, now: int) {
    a.order == o && IsActive(a, now)
  }

  function PromoteActive(t: Allocations, o: nat, now: int): Allocations {
    map i | i in t :: if ActiveFor(t[i], o, now) then t[i].(reservedUntil := None) else t[i]
  }

  function MakePermanentSpec(db: Db, o: nat): Result<Db> {
    if forall i :: i in db.allocations ==> !ActiveFor(db.allocations[i], o, db.now) then Err(MissingReservations)
    else if exists i :: i in db.allocations && ActiveFor(db.allocations[i], o, db.now) && db.allocations[i].reservedUntil.None?
    then Err(InvalidReservationPool)
    else Ok(db.(allocations := PromoteActive(db.allocations, o, db.now)))
  }

  /** A RESERVED row of the order whose deadline, if any, is still to come. */
  ghost predicate Unexpired(a: AllocationRow, o: nat, now: int) {
    a.order == o && a.status == Reserved && match a.reservedUntil case None => true case Some(deadline) => now < deadline
  }

  lemma ActiveIsUnexpired(o: nat, now: int)
    ensures forall a: AllocationRow :: ActiveFor(a, o, now) <==> Unexpired(a, o, now)
  {
  }

  /** The reservations that have not expired. */
  method ActiveAmong(store: Database, order: nat, reservations: seq<nat>) returns (active: seq<nat>)
    requires forall i :: i in reservations <==> i in store.allocations && Matches(store.allocations[i], ReservedBy(order))
    ensures forall i :: i in active ==> i in store.allocations && ActiveFor(store.allocations[i], order, store.now)
    ensures forall i :: i in store.allocations && ActiveFor(store.allocations[i], order, store.now) ==> i in active
  {
    active := [];
    for k := 0 to |reservations|
      invariant forall i :: i in active ==> i in store.allocations && ActiveFor(store.allocations[i], order, store.now)
      invariant forall i :: i in reservations[..k] && IsActive(store.allocations[i], store.now) ==> i in active
    {
      assert reservations[k] in reservations;
      assert reservations[..k + 1] == reservations[..k] + [reservations[k]];
      if IsActive(store.allocations[reservations[k]], store.now) {
        active := active + [reservations[k]];
      }
    }
    assert reservations[..|reservations|] == reservations;
  }

  method MakeReservationsPermanentForOrder(store: Database, order: nat) returns (r: Result<()>)
    requires forall i :: i in store.allocations ==> i < store.nextAllocation
    modifies store`allocations
    ensures r == Reply(MakePermanentSpec(old(store.Contents()), order))
    ensures store.Contents() == Committed(old(store.Contents()), MakePermanentSpec(old(store.Contents()), order))
    ensures r.Ok? <==>
              && (exists i :: i in old(store.allocations) && Unexpired(old(store.allocations)[i], order, store.now))
              && (forall i :: i in old(store.allocations) && Unexpired(old(store.allocations)[i], order, store.now) ==>
                    old(store.allocations)[i].reservedUntil != None)
    ensures r.Ok? ==> store.allocations.Keys == old(store.allocations).Keys
    ensures r.Ok? ==> forall i :: i in old(store.allocations) ==>
              var row := old(store.allocations)[i];
              store.allocations[i] == if Unexpired(row, order, store.now) then row.(reservedUntil := None) else row
    ensures r.Err? ==> store.allocations == old(store.allocations)
  {
    ActiveIsUnexpired(order, store.now);
    hide ActiveFor, Unexpired, Matches, Select;
    var reservations := Select(store.allocations, store.nextAllocation, ReservedBy(order));
    var activeReservations := ActiveAmong(store, order, reservations);
    if activeReservations == [] {
      return Err(MissingReservations);
    }
    assert activeReservations[0] in activeReservations;
    if exists i :: i in activeReservations && store.allocations[i].reservedUntil.None? {
      return Err(InvalidReservationPool);
    }
    store.allocations := map i | i in store.allocations ::
      if i in activeReservations then store.allocations[i].(reservedUntil := None) else store.allocations[i];
    assert store.allocations == PromoteActive(old(store.allocations), order, store.now);
    return Ok(());
  }
}
