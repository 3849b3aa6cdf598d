/** Batch corrections, catalog changes and the clock keep the invariant. */
module StockSteps {
  import opened Common
  import opened Records
  import opened Pricing
  import opened InventoryServices
  import opened ReservationFacts
  import opened Invariant

  /** Same orders, lines, allocations and attempts: nothing about orders or payments changes. */
  ghost predicate OnlyStockChanged(db: Db, db': Db) {
    && db'.orders == db.orders && db'.nextOrder == db.nextOrder
    && db'.lines == db.lines && db'.nextLine == db.nextLine
    && db'.allocations == db.allocations && db'.nextAllocation == db.nextAllocation
    && db'.attempts == db.attempts && db'.nextAttempt == db.nextAttempt
    && db'.marks == db.marks
  }

  /** Existing batches and offers keep what other rows rely on. */
  ghost predicate IdentitiesKept(db: Db, db': Db) {
    && |db.products| <= |db'.products|
    && |db.batches| <= |db'.batches|
    && (forall b :: 0 <= b < |db.batches| ==> db'.batches[b].product == db.batches[b].product)
    && |db.offers| <= |db'.offers|
    && (forall k :: 0 <= k < |db.offers| ==>
          db'.offers[k].product == db.offers[k].product && db'.offers[k].batch == db.offers[k].batch
          && db'.offers[k].channel == db.offers[k].channel)
  }

  lemma TablesFrame(db: Db, db': Db)
    requires Tables(db) && OnlyStockChanged(db, db') && IdentitiesKept(db, db') && OffersOk(db')
    ensures Tables(db')
  {
    forall l | l in db'.lines ensures LineOk(db', l) {
      assert LineOk(db, l);
    }
    forall i | i in db'.allocations ensures AllocationOk(db', i) {
      assert AllocationOk(db, i);
    }
  }

  lemma OrdersAndPaymentsFrame(db: Db, db': Db)
    requires Tables(db) && Tables(db') && OrdersOk(db) && PaymentsOk(db) && OnlyStockChanged(db, db')
    ensures OrdersOk(db') && PaymentsOk(db')
  {
    TablesGiveKeys(db);
    TablesGiveKeys(db');
    forall o | o in db'.orders ensures OrderOk(db', o) {
      OrderFrame(db, db', o);
    }
    PaymentsFrame(db, db');
  }

  lemma StockChangeKeepsInv(db: Db, db': Db)
    requires Inv(db) && OnlyStockChanged(db, db') && IdentitiesKept(db, db') && OffersOk(db') && StockOk(db')
    ensures Inv(db')
  {
    TablesFrame(db, db');
    OrdersAndPaymentsFrame(db, db');
  }

  lemma OffersFrame(db: Db, db': Db)
    requires OffersOk(db) && db'.offers == db.offers && db'.products == db.products && IdentitiesKept(db, db')
    requires forall b :: |db.batches| <= b < |db'.batches| ==> db'.batches[b].product < |db'.products|
    ensures OffersOk(db')
  {
    forall k | 0 <= k < |db'.offers| ensures OfferOk(db', k) {
      assert OfferOk(db, k);
    }
    forall b | 0 <= b < |db'.batches| ensures db'.batches[b].product < |db'.products| {
      if b < |db.batches| {
        assert db.batches[b].product < |db.products|;
      }
    }
  }

  /** A new batch has no reservations yet. */
  lemma CreateBatchKeepsInv(db: Db, product: nat, quantity: int, bestBefore: int, code: string, allowNonFuture: bool, db': Db)
    requires Inv(db) && CreateBatchSpec(db, product, quantity, bestBefore, code, allowNonFuture) == Ok(db')
    ensures Inv(db')
  {
    OffersFrame(db, db');
    forall b | 0 <= b < |db'.batches| ensures BatchOk(db', b) {
      if b < |db.batches| {
        assert BatchOk(db, b);
      } else {
        forall i | 0 <= i < db.nextAllocation ensures Weight(db.allocations, i, ActiveOn(b, db.now)) == 0 {
          if i in db.allocations {
            assert AllocationOk(db, i);
          }
        }
        TotalZero(db.allocations, db.nextAllocation, ActiveOn(b, db.now));
      }
    }
    StockChangeKeepsInv(db, db');
  }

  /** A correction never goes below what is actively reserved. */
  lemma UpdateBatchKeepsInv(db: Db, b: nat, quantity: int, bestBefore: int, db': Db)
    requires Inv(db) && UpdateBatchSpec(db, b, quantity, bestBefore) == Ok(db')
    ensures Inv(db')
  {
    OffersFrame(db, db');
    forall c | 0 <= c < |db'.batches| ensures BatchOk(db', c) {
      assert BatchOk(db, c);
    }
    StockChangeKeepsInv(db, db');
  }

  /** Only a batch without active reservations closes. */
  lemma CloseBatchKeepsInv(db: Db, b: nat, db': Db)
    requires Inv(db) && CloseBatchSpec(db, b) == Ok(db')
    ensures Inv(db')
  {
    OffersFrame(db, db');
    forall c | 0 <= c < |db'.batches| ensures BatchOk(db', c) {
      assert BatchOk(db, c);
    }
    StockChangeKeepsInv(db, db');
  }

  // ---------- The clock ----------

  /** Time only moves forward. */
  function TickSpec(db: Db, now: int, today: int): Result<Db> {
    Ok(db.(now := Max(db.now, now), today := Max(db.today, today)))
  }

  /** Holds can only stop being active as time passes. */
  lemma TickKeepsInv(db: Db, now: int, today: int, db': Db)
    requires Inv(db) && TickSpec(db, now, today) == Ok(db')
    ensures Inv(db')
  {
    OffersFrame(db, db');
    forall b | 0 <= b < |db'.batches| ensures BatchOk(db', b) {
      assert BatchOk(db, b);
      TotalLe(db'.allocations, db'.nextAllocation, ActiveOn(b, db'.now), db.allocations, ActiveOn(b, db.now));
    }
    StockChangeKeepsInv(db, db');
  }

  // ---------- Product and price maintenance ----------

  /** Any change of product and offer settings, or new products and offers, that keeps the identity
      (product, batch, channel) of existing offers and the unique constraints. */
  predicate RevisionAllowed(db: Db, products: seq<ProductRow>, offers: seq<OfferRow>) {
    && |db.products| <= |products|
    && |db.offers| <= |offers|
    && (forall k :: 0 <= k < |db.offers| ==>
          offers[k].product == db.offers[k].product && offers[k].batch == db.offers[k].batch
          && offers[k].channel == db.offers[k].channel)
    && (forall k :: 0 <= k < |offers| ==> OfferOk(db.(products := products, offers := offers), k))
    && (forall j, k :: 0 <= j < k < |offers| ==> !SameScope(offers[j], offers[k]))
  }

  function ReviseSpec(db: Db, products: seq<ProductRow>, offers: seq<OfferRow>): Result<Db> {
    if RevisionAllowed(db, products, offers) then Ok(db.(products := products, offers := offers))
    else Err(IntegrityError)
  }

  lemma ReviseKeepsInv(db: Db, products: seq<ProductRow>, offers: seq<OfferRow>, db': Db)
    requires Inv(db) && ReviseSpec(db, products, offers) == Ok(db')
    ensures Inv(db')
  {
    assert OffersOk(db') by {
      assert OffersOk(db);
    }
    forall b | 0 <= b < |db'.batches| ensures BatchOk(db', b) {
      assert BatchOk(db, b);
    }
    StockChangeKeepsInv(db, db');
  }
}
