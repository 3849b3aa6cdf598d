/**
 The tables: one datatype per row type, and `Db`, the contents of the whole database together with
 the clock. Products, batches and offers are never deleted, so their primary key is their position.
 The other tables are maps from primary key to row, with the next key of each sequence.

 Money is in cents, dates are days, and time is in microseconds, Python's datetime resolution.
 */
module Records {
  import opened Common

  datatype Channel = Business | Retail
  datatype Currency = EUR | SEK

  datatype ProductRow = ProductRow(active: bool, weightPerUnit: pos)

  datatype BatchStatus = Active | Depleted | Closed
  datatype BatchRow = BatchRow(
    code: string, product: nat, quantity: nat, bestBefore: int, status: BatchStatus)

  /** CommercialPrice with its amounts; `batch` is None for a product-wide (standard) offer. */
  datatype OfferRow = OfferRow(
    product: nat, batch: Option<nat>, channel: Channel, enabled: bool, amounts: map<Currency, pos>)

  datatype OrderStatus = Draft | Placed | Packed | Delivered | Cancelled
  datatype OrderRow = OrderRow(channel: Channel, status: OrderStatus)
  datatype LineRow = LineRow(
    order: nat, product: nat, quantity: pos, unitPrice: Option<pos>, offer: nat)

  datatype AllocationStatus = Reserved | Consumed | Cancelled
  datatype AllocationRow = AllocationRow(
    order: nat, line: nat, batch: nat, quantity: pos, status: AllocationStatus, reservedUntil: Option<int>)

  datatype AttemptStatus = Pending | Succeeded | Failed | Cancelled
  datatype AttemptRow = AttemptRow(
    order: nat, amount: pos, status: AttemptStatus, providerPaymentId: string, providerTransactionId: string)

  type Allocations = map<nat, AllocationRow>
  type Lines = map<nat, LineRow>

  datatype Db = Db(
    products: seq<ProductRow>,
    batches: seq<BatchRow>,
    offers: seq<OfferRow>,
    orders: map<nat, OrderRow>,
    nextOrder: nat,
    lines: Lines,
    nextLine: nat,
    allocations: Allocations,
    nextAllocation: nat,
    attempts: map<nat, AttemptRow>,
    nextAttempt: nat,
    checkouts: map<nat, int>,     // retail order -> expiry of its checkout session
    marks: set<nat>,              // allocations with a pick checklist mark
    now: int,
    today: int)

  // ---------- Queries on the allocation table ----------

  /** An active reservation: RESERVED, without deadline or with a deadline in the future. */
  predicate IsActive(a: AllocationRow, now: int) {
    a.status.Reserved? && (a.reservedUntil.None? || a.reservedUntil.value > now)
  }

  datatype Query =
    | ActiveOn(batch: nat, now: int)
    | ReservedFor(line: nat)
    | ConsumedFor(line: nat)
    | ConsumedOn(batch: nat)
    | HeldOn(order: nat, batch: nat)
    | HeldForOn(line: nat, batch: nat)
    | ReservedBy(order: nat)
    | TemporaryBy(order: nat)
    | HeldWithin(order: nat, batches: set<nat>)
    | HeldFor(order: nat, lines: set<nat>)

  predicate Matches(a: AllocationRow, q: Query) {
    match q
    case ActiveOn(b, now) => a.batch == b && IsActive(a, now)
    case ReservedFor(l) => a.line == l && a.status.Reserved?
    case ConsumedFor(l) => a.line == l && a.status.Consumed?
    case ConsumedOn(b) => a.batch == b && a.status.Consumed?
    case HeldOn(o, b) => a.order == o && a.batch == b && a.status.Reserved?
    case HeldForOn(l, b) => a.line == l && a.batch == b && a.status.Reserved?
    case ReservedBy(o) => a.order == o && a.status.Reserved?
    case TemporaryBy(o) => a.order == o && a.status.Reserved? && a.reservedUntil.Some?
    case HeldWithin(o, batches) => a.order == o && a.batch in batches && a.status.Reserved?
    case HeldFor(o, lines) => a.order == o && a.line in lines && a.status.Reserved?
  }

  function Weight(t: Allocations, i: nat, q: Query): nat {
    if i in t && Matches(t[i], q) then t[i].quantity else 0
  }

  /** Sum("quantity") over the rows with key below n that match the query. */
  function Total(t: Allocations, n: nat, q: Query): nat {
    if n == 0 then 0 else Total(t, n - 1, q) + Weight(t, n - 1, q)
  }

  /** The keys below n of the matching rows, ordered by key. */
  function Select(t: Allocations, n: nat, q: Query): (ids: seq<nat>)
    ensures forall i :: i in ids <==> i < n && i in t && Matches(t[i], q)
    ensures forall j :: 0 <= j < |ids| ==> ids[j] < n
    ensures forall j, k :: 0 <= j < k < |ids| ==> ids[j] < ids[k]
  {
    if n == 0 then []
    else Select(t, n - 1, q) + (if n - 1 in t && Matches(t[n - 1], q) then [n - 1] else [])
  }

  lemma {:induction false} TotalLe(t: Allocations, n: nat, q: Query, t': Allocations, q': Query)
    requires forall i :: 0 <= i < n ==> Weight(t, i, q) <= Weight(t', i, q')
    ensures Total(t, n, q) <= Total(t', n, q')
  {
    if n > 0 {
      TotalLe(t, n - 1, q, t', q');
    }
  }

  lemma {:induction false} TotalLess(t: Allocations, n: nat, q: Query, t': Allocations, q': Query, k: nat)
    requires forall i :: 0 <= i < n ==> Weight(t, i, q) <= Weight(t', i, q')
    requires k < n && Weight(t, k, q) < Weight(t', k, q')
    ensures Total(t, n, q) < Total(t', n, q')
  {
    if k < n - 1 {
      TotalLess(t, n - 1, q, t', q', k);
    } else {
      TotalLe(t, n - 1, q, t', q');
    }
  }

  lemma {:induction false} TotalSame(t: Allocations, n: nat, q: Query, t': Allocations, q': Query)
    requires forall i :: 0 <= i < n ==> Weight(t, i, q) == Weight(t', i, q')
    ensures Total(t, n, q) == Total(t', n, q')
  {
    if n > 0 {
      TotalSame(t, n - 1, q, t', q');
    }
  }

  /** A sum of sums: the weights for q split into those for q1 and q2. */
  lemma {:induction false} TotalSplits(t: Allocations, n: nat, q: Query, t1: Allocations, q1: Query, t2: Allocations, q2: Query)
    requires forall i :: 0 <= i < n ==> Weight(t, i, q) == Weight(t1, i, q1) + Weight(t2, i, q2)
    ensures Total(t, n, q) == Total(t1, n, q1) + Total(t2, n, q2)
  {
    if n > 0 {
      TotalSplits(t, n - 1, q, t1, q1, t2, q2);
    }
  }

  lemma {:induction false} TotalZero(t: Allocations, n: nat, q: Query)
    requires forall i :: 0 <= i < n ==> Weight(t, i, q) == 0
    ensures Total(t, n, q) == 0
  {
    if n > 0 {
      TotalZero(t, n - 1, q);
    }
  }

  /** A positive total comes from some row. */
  lemma {:induction false} TotalWitness(t: Allocations, n: nat, q: Query) returns (i: nat)
    requires Total(t, n, q) > 0
    ensures i < n && i in t && Matches(t[i], q)
  {
    if Weight(t, n - 1, q) > 0 {
      i := n - 1;
    } else {
      i := TotalWitness(t, n - 1, q);
    }
  }

  /** Keys beyond the table's rows add nothing. */
  lemma {:induction false} TotalBeyond(t: Allocations, n: nat, m: nat, q: Query)
    requires n <= m
    requires forall i :: i in t ==> i < n
    ensures Total(t, m, q) == Total(t, n, q)
  {
    if n < m {
      TotalBeyond(t, n, m - 1, q);
    }
  }

  // ---------- Sums ----------

  /** f(0) + ... + f(n - 1) */
  ghost function Sum(n: nat, f: nat -> int): int {
    if n == 0 then 0 else Sum(n - 1, f) + f(n - 1)
  }

  lemma {:induction false} TotalIsSum(t: Allocations, n: nat, q: Query, f: nat -> int)
    requires forall i: nat :: i < n ==> f(i) == Weight(t, i, q)
    ensures Total(t, n, q) == Sum(n, f)
  {
    if n > 0 {
      TotalIsSum(t, n - 1, q, f);
    }
  }

  // ---------- Queries on the line table ----------

  /** order.lines.order_by("id"), as keys. */
  function LinesOf(lines: Lines, n: nat, o: nat): (ids: seq<nat>)
    ensures forall l :: l in ids <==> l < n && l in lines && lines[l].order == o
    ensures forall j :: 0 <= j < |ids| ==> ids[j] < n
    ensures forall j, k :: 0 <= j < k < |ids| ==> ids[j] < ids[k]
  {
    if n == 0 then []
    else LinesOf(lines, n - 1, o) + (if n - 1 in lines && lines[n - 1].order == o then [n - 1] else [])
  }

  // ---------- Convenient views of a database ----------

  function ActiveReserved(db: Db, b: nat): nat {
    Total(db.allocations, db.nextAllocation, ActiveOn(b, db.now))
  }

  /** Physical units of a batch that no active reservation claims. */
  function FreeUnits(db: Db, b: nat): nat
    requires b < |db.batches|
  {
    Max(db.batches[b].quantity - ActiveReserved(db, b), 0)
  }

  function OrderLines(db: Db, o: nat): seq<nat> {
    LinesOf(db.lines, db.nextLine, o)
  }

  /** Deleting rows of the allocation table cascades to their checklist marks. */
  function DeleteAllocations(db: Db, doomed: set<nat>): Db {
    db.(allocations := db.allocations - doomed, marks := db.marks - doomed)
  }
}
