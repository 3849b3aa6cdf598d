/**
 The database the services run against. Every service is one transaction: it either leaves the
 contents some specification function describes, or rolls back.
 */
module Storage {
  import opened Common
  import opened Records

  class Database {
    var products: seq<ProductRow>
    var batches: seq<BatchRow>
    var offers: seq<OfferRow>
    var orders: map<nat, OrderRow>
    var nextOrder: nat
    var lines: Lines
    var nextLine: nat
    var allocations: Allocations
    var nextAllocation: nat
    var attempts: map<nat, AttemptRow>
    var nextAttempt: nat
    var checkouts: map<nat, int>
    var marks: set<nat>
    var now: int
    var today: int

    function Contents(): Db
      reads this
    {
      Db(products, batches, offers, orders, nextOrder, lines, nextLine, allocations, nextAllocation,
         attempts, nextAttempt, checkouts, marks, now, today)
    }

    constructor (db: Db)
      ensures Contents() == db
    {
      products := db.products;
      batches := db.batches;
      offers := db.offers;
      orders := db.orders;
      nextOrder := db.nextOrder;
      lines := db.lines;
      nextLine := db.nextLine;
      allocations := db.allocations;
      nextAllocation := db.nextAllocation;
      attempts := db.attempts;
      nextAttempt := db.nextAttempt;
      checkouts := db.checkouts;
      marks := db.marks;
      now := db.now;
      today := db.today;
    }

    /** Roll back to a savepoint. */
    method Restore(savepoint: Db)
      modifies this
      ensures Contents() == savepoint
    {
      RestoreStock(savepoint);
      RestoreOrders(savepoint);
      RestoreClaims(savepoint);
    }

    method RestoreStock(savepoint: Db)
      modifies this`products, this`batches, this`offers, this`now, this`today
      ensures products == savepoint.products
      ensures batches == savepoint.batches
      ensures offers == savepoint.offers
      ensures now == savepoint.now
      ensures today == savepoint.today
    {
      products := savepoint.products;
      batches := savepoint.batches;
      offers := savepoint.offers;
      now := savepoint.now;
      today := savepoint.today;
    }

    method RestoreOrders(savepoint: Db)
      modifies this`orders, this`nextOrder, this`lines, this`nextLine, this`checkouts
      ensures orders == savepoint.orders
      ensures nextOrder == savepoint.nextOrder
      ensures lines == savepoint.lines
      ensures nextLine == savepoint.nextLine
      ensures checkouts == savepoint.checkouts
    {
      orders := savepoint.orders;
      nextOrder := savepoint.nextOrder;
      lines := savepoint.lines;
      nextLine := savepoint.nextLine;
      checkouts := savepoint.checkouts;
    }

    method RestoreClaims(savepoint: Db)
      modifies this`allocations, this`nextAllocation, this`marks, this`attempts, this`nextAttempt
      ensures allocations == savepoint.allocations
      ensures nextAllocation == savepoint.nextAllocation
      ensures marks == savepoint.marks
      ensures attempts == savepoint.attempts
      ensures nextAttempt == savepoint.nextAttempt
    {
      allocations := savepoint.allocations;
      nextAllocation := savepoint.nextAllocation;
      marks := savepoint.marks;
      attempts := savepoint.attempts;
      nextAttempt := savepoint.nextAttempt;
    }
  }

  /** What a transaction leaves behind when `r` says what it computes. */
  function Committed(before: Db, r: Result<Db>): Db {
    if r.Ok? then r.value else before
  }

  /** What the caller of the transaction sees. */
  function Reply(r: Result<Db>): Result<()> {
    if r.Ok? then Ok(()) else Err(r.error)
  }
}
