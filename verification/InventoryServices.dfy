/** Creating, correcting and closing batches (inventory/services.py). */
module InventoryServices {
  import opened Common
  import opened Records
  import opened Storage
  import opened InventoryModels
  import opened ReservationSelectors

  predicate CodeTaken(batches: seq<BatchRow>, code: string) {
    exists b :: 0 <= b < |batches| && batches[b].code == code
  }

  /** unique batch codes */
  ghost predicate CodesDistinct(batches: seq<BatchRow>) {
    forall i, j :: 0 <= i < j < |batches| ==> batches[i].code != batches[j].code
  }

  /** create_batch with an explicit batch id, already normalised. */
  function CreateBatchSpec(db: Db, product: nat, quantity: int, bestBefore: int, code: string, allowNonFuture: bool): Result<Db> {
    if product >= |db.products| then Err(DoesNotExist)
    else if quantity <= 0 then Err(InvalidStockOperation)
    else if bestBefore <= db.today && !allowNonFuture then Err(InvalidStockOperation)
    else if code == "" || CodeTaken(db.batches, code) then Err(InvalidStockOperation)
    else Ok(db.(batches := db.batches + [BatchRow(code, product, quantity, bestBefore, Active)]))
  }

  function UpdateBatchSpec(db: Db, b: nat, quantity: int, bestBefore: int): Result<Db> {
    if b >= |db.batches| then Err(DoesNotExist)
    else if db.batches[b].status.Closed? then Err(InvalidStockOperation)
    else if quantity < ActiveReserved(db, b) then Err(InvalidStockOperation)
    else
      var row :- AdjustRow(db.batches[b], quantity);
      Ok(db.(batches := db.batches[b := row.(bestBefore := bestBefore)]))
  }

  function CloseBatchSpec(db: Db, b: nat): Result<Db> {
    if b >= |db.batches| then Err(DoesNotExist)
    else if ActiveReserved(db, b) > 0 then Err(InvalidStockOperation)
    else Ok(db.(batches := db.batches[b := CloseRow(db.batches[b])]))
  }

  method CreateBatch(store: Database, product: nat, quantity: int, bestBefore: int, code: string, allowNonFuture: bool)
    returns (r: Result<()>)
    modifies store`batches
    ensures r == Reply(CreateBatchSpec(old(store.Contents()), product, quantity, bestBefore, code, allowNonFuture))
    ensures store.Contents()
         == Committed(old(store.Contents()),
                      CreateBatchSpec(old(store.Contents()), product, quantity, bestBefore, code, allowNonFuture))
    ensures r.Ok? <==>
              && product < |store.products| && quantity > 0 && (bestBefore > store.today || allowNonFuture)
              && code != "" && forall b :: 0 <= b < |old(store.batches)| ==> old(store.batches)[b].code != code
    ensures r.Ok? ==> |store.batches| == |old(store.batches)| + 1 && old(store.batches) <= store.batches
    ensures r.Ok? ==> store.batches[|old(store.batches)|] == BatchRow(code, product, quantity, bestBefore, Active)
                      && StatusFollowsQuantity(store.batches[|old(store.batches)|])
    ensures r.Err? ==> store.Contents() == old(store.Contents())
                       && r.error == if product < |store.products| then InvalidStockOperation else DoesNotExist
    ensures CodesDistinct(old(store.batches)) ==> CodesDistinct(store.batches)
  {
    if product >= |store.products| {
      return Err(DoesNotExist);
    }
    if quantity <= 0 {
      return Err(InvalidStockOperation);
    }
    if bestBefore <= store.today && !allowNonFuture {
      return Err(InvalidStockOperation);
    }
    if code == "" || CodeTaken(store.batches, code) {
      return Err(InvalidStockOperation);
    }
    store.batches := store.batches + [BatchRow(code, product, quantity, bestBefore, Active)];
    return Ok(());
  }

  method UpdateBatch(store: Database, b: nat, quantity: int, bestBefore: int) returns (r: Result<()>)
    modifies store`batches
    ensures r == Reply(UpdateBatchSpec(old(store.Contents()), b, quantity, bestBefore))
    ensures store.Contents() == Committed(old(store.Contents()), UpdateBatchSpec(old(store.Contents()), b, quantity, bestBefore))
  {
    if b >= |store.batches| {
      return Err(DoesNotExist);
    }
    var batch := new InventoryBatch(store.batches[b]);
    if batch.status.Closed? {
      return Err(InvalidStockOperation);
    }
    var reservedQuantity := ActiveReservedQuantityForBatchPk(store, b);
    if quantity < reservedQuantity {
      return Err(InvalidStockOperation);
    }
    r := batch.AdjustQuantity(quantity);
    if r.Err? {
      return Err(InvalidStockOperation);
    }
    assert AdjustRow(old(store.batches[b]), quantity) == Ok(batch.Row());
    batch.bestBefore := bestBefore;
    store.batches := store.batches[b := batch.Row()];
    return Ok(());
  }

  method CloseBatch(store: Database, b: nat) returns (r: Result<()>)
    modifies store`batches
    ensures r == Reply(CloseBatchSpec(old(store.Contents()), b))
    ensures store.Contents() == Committed(old(store.Contents()), CloseBatchSpec(old(store.Contents()), b))
  {
    if b >= |store.batches| {
      return Err(DoesNotExist);
    }
    var batch := new InventoryBatch(store.batches[b]);
    var reservedQuantity := ActiveReservedQuantityForBatchPk(store, b);
    if reservedQuantity > 0 {
      return Err(InvalidStockOperation);
    }
    batch.Close();
    store.batches := store.batches[b := batch.Row()];
    return Ok(());
  }
}
