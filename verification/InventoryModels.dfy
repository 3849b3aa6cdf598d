/** The physical batch and its status machine (inventory/models.py). */
module InventoryModels {
  import opened Common
  import opened Records

  /** ACTIVE exactly while an open batch has stock. */
  predicate StatusFollowsQuantity(row: BatchRow) {
    row.status.Closed? || (row.status.Active? <==> row.quantity > 0)
  }

  function Synced(row: BatchRow): BatchRow {
    if row.status.Closed? then row else row.(status := if row.quantity > 0 then Active else Depleted)
  }

  function AdjustRow(row: BatchRow, quantity: int): Result<BatchRow> {
    if row.status.Closed? || quantity < 0 then Err(InvalidStockOperation)
    else Ok(Synced(row.(quantity := quantity)))
  }

  function PickRow(row: BatchRow, quantity: int): Result<BatchRow> {
    if !(row.status.Active? && row.quantity > 0) || quantity <= 0 || quantity > row.quantity
    then Err(InvalidStockOperation)
    else Ok(Synced(row.(quantity := row.quantity - quantity)))
  }

  function CloseRow(row: BatchRow): BatchRow {
    row.(status := Closed)
  }

  predicate TransitionAllowed(from: BatchStatus, to: BatchStatus) {
    match from
    case Active => to.Depleted? || to.Closed?
    case Depleted => to.Active? || to.Closed?
    case Closed => false
  }

  /** An in-memory model instance loaded from a row. */
  class InventoryBatch {
    var code: string
    var product: nat
    var quantity: nat
    var bestBefore: int
    var status: BatchStatus

    function Row(): BatchRow
      reads this
    {
      BatchRow(code, product, quantity, bestBefore, status)
    }

    constructor (row: BatchRow)
      ensures Row() == row
    {
      code, product, quantity, bestBefore, status :=
        row.code, row.product, row.quantity, row.bestBefore, row.status;
    }

    function IsAvailable(): bool
      reads this
    {
      status.Active? && quantity > 0
    }

    method TransitionTo(newStatus: BatchStatus) returns (r: Result<()>)
      modifies this`status
      ensures r.Ok? <==> old(status) == newStatus || TransitionAllowed(old(status), newStatus)
      ensures status == if r.Ok? then newStatus else old(status)
      ensures r.Err? ==> r.error == InvalidBatchStatusTransition
    {
      if status == newStatus {
        return Ok(());
      }
      if !TransitionAllowed(status, newStatus) {
        return Err(InvalidBatchStatusTransition);
      }
      status := newStatus;
      return Ok(());
    }

    method SyncStatusFromQuantity()
      modifies this`status
      ensures Row() == Synced(old(Row()))
      ensures StatusFollowsQuantity(Row())
    {
      if status.Closed? {
        return;
      }
      var nextStatus := if quantity > 0 then Active else Depleted;
      var r := TransitionTo(nextStatus);
    }

    method AdjustQuantity(newQuantity: int) returns (r: Result<()>)
      modifies this`quantity, this`status
      ensures r.Ok? <==> !old(status).Closed? && newQuantity >= 0
      ensures r.Ok? ==> quantity == newQuantity && StatusFollowsQuantity(Row())
      ensures AdjustRow(old(Row()), newQuantity) == if r.Ok? then Ok(Row()) else Err(r.error)
      ensures r.Err? ==> Row() == old(Row())
    {
      if status.Closed? {
        return Err(InvalidStockOperation);
      }
      if newQuantity < 0 {
        return Err(InvalidStockOperation);
      }
      quantity := newQuantity;
      SyncStatusFromQuantity();
      return Ok(());
    }

    method RemoveQuantity(amount: int) returns (r: Result<()>)
      modifies this`quantity, this`status
      ensures r.Ok? <==> 0 < amount <= old(quantity)
      ensures r.Ok? ==> Row() == Synced(old(Row()).(quantity := old(quantity) - amount))
      ensures r.Err? ==> r.error == InvalidStockOperation && Row() == old(Row())
    {
      if amount <= 0 {
        return Err(InvalidStockOperation);
      }
      if amount > quantity {
        return Err(InvalidStockOperation);
      }
      quantity := quantity - amount;
      SyncStatusFromQuantity();
      return Ok(());
    }

    method Pick(amount: int) returns (r: Result<()>)
      modifies this`quantity, this`status
      ensures r.Ok? <==> old(IsAvailable()) && 0 < amount <= old(quantity)
      ensures r.Ok? ==> quantity == old(quantity) - amount && StatusFollowsQuantity(Row())
      ensures PickRow(old(Row()), amount) == if r.Ok? then Ok(Row()) else Err(r.error)
      ensures r.Err? ==> Row() == old(Row())
    {
      if !IsAvailable() {
        return Err(InvalidStockOperation);
      }
      r := RemoveQuantity(amount);
    }

    /** Closing never fails and never changes the physical quantity. */
    method Close()
      modifies this`status
      ensures Row() == CloseRow(old(Row()))
      ensures status.Closed? && quantity == old(quantity)
    {
      var r := TransitionTo(Closed);
    }
  }
}
