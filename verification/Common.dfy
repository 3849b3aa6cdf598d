/** Result types shared by every service, and the errors the services raise. */
module Common {

  datatype Option<+T> = None | Some(value: T)

  datatype Result<+T> = Ok(value: T) | Err(error: Error)
  {
    predicate IsFailure() {
      Err?
    }

    function PropagateFailure<U>(): Result<U>
      requires Err?
    {
      Err(error)
    }

    function Extract(): T
      requires Ok?
    {
      value
    }
  }

  /** One constructor per exception class of the services. */
  datatype Error =
    | DoesNotExist
    | IntegrityError
    | CatalogInvariantViolated
    | InvalidProductData
    | InvalidStockOperation
    | InvalidBatchStatusTransition
    | InvalidAllocationStatusTransition
    | InvalidOrderStatusTransition
    | InvalidOrderOperation
    | InvalidReservationPlan
    | InvalidReservationPool
    | MissingReservations
    | InsufficientReservationCapacity(requested: int, available: int, missing: int)
    | InsufficientStock(requested: int, available: int, missing: int)
    | InvalidRetailOrder
    | InvalidPaymentAttempt
    | PaymentReconciliationConflict
    | ProviderFailure

  /** Columns with a "greater than zero" check constraint. */
  type pos = x: int | 0 < x witness 1

  function Min(a: int, b: int): (r: int)
    ensures r <= a && r <= b && (r == a || r == b)
  {
    if a <= b then a else b
  }

  function Max(a: int, b: int): (r: int)
    ensures r >= a && r >= b && (r == a || r == b)
  {
    if a >= b then a else b
  }

  /** dict.get(key, 0) */
  function GetOrZero(m: map<nat, int>, k: nat): int {
    if k in m then m[k] else 0
  }
}
