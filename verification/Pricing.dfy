/**
 Which physical batches back a commercial offer (pricing/selectors.py, retail/selectors.py,
 inventory/selectors.py), and how the pools of one channel divide the stock.
 */
module Pricing {
  import opened Common
  import opened Records

  const ORDERABLE_BEFORE_EXPIRY_DAYS := 0

  /** A batch that normal order reservation may use. */
  predicate Orderable(db: Db, b: nat)
    requires b < |db.batches|
  {
    var row := db.batches[b];
    row.status.Active? && row.quantity > 0 && row.bestBefore > db.today + ORDERABLE_BEFORE_EXPIRY_DAYS
  }

  /** Referential integrity and the unique constraints of the offer table. */
  ghost predicate OffersOk(db: Db) {
    && (forall b :: 0 <= b < |db.batches| ==> db.batches[b].product < |db.products|)
    && (forall k :: 0 <= k < |db.offers| ==> OfferOk(db, k))
    && (forall j, k :: 0 <= j < k < |db.offers| ==> !SameScope(db.offers[j], db.offers[k]))
  }

  predicate OfferOk(db: Db, k: nat)
    requires k < |db.offers|
  {
    var f := db.offers[k];
    && f.product < |db.products|
    && (f.batch.Some? ==> f.batch.value < |db.batches| && db.batches[f.batch.value].product == f.product)
  }

  /** unique_product_price_per_channel and unique_batch_price_per_channel */
  predicate SameScope(f: OfferRow, g: OfferRow) {
    f.channel == g.channel && f.batch == g.batch && (f.batch.None? ==> f.product == g.product)
  }

  /** Offer j sells batch b on its own, so the product-wide offer must not. */
  predicate Claims(f: OfferRow, channel: Channel, currency: Currency, b: nat) {
    f.channel == channel && f.enabled && f.batch == Some(b) && currency in f.amounts
  }

  predicate ClaimedByBatchOffer(db: Db, channel: Channel, currency: Currency, b: nat) {
    exists j :: 0 <= j < |db.offers| && Claims(db.offers[j], channel, currency, b)
  }

  /** list_orderable_batches_for_offer: does batch b belong to the pool of offer k? */
  predicate InPool(db: Db, k: nat, currency: Currency, b: nat)
    requires k < |db.offers| && b < |db.batches| && OfferOk(db, k)
  {
    var f := db.offers[k];
    && f.enabled
    && db.products[f.product].active
    && Orderable(db, b)
    && (match f.batch
        case Some(own) => b == own
        case None => db.batches[b].product == f.product && !ClaimedByBatchOffer(db, f.channel, currency, b))
  }

  function PoolBelow(db: Db, k: nat, currency: Currency, n: nat): seq<nat>
    requires k < |db.offers| && n <= |db.batches| && OfferOk(db, k)
  {
    if n == 0 then []
    else PoolBelow(db, k, currency, n - 1) + (if InPool(db, k, currency, n - 1) then [n - 1] else [])
  }

  lemma {:induction false} PoolBelowLists(db: Db, k: nat, currency: Currency, n: nat)
    requires k < |db.offers| && n <= |db.batches| && OfferOk(db, k)
    ensures forall b: nat :: b in PoolBelow(db, k, currency, n) <==> b < n && InPool(db, k, currency, b)
    ensures forall i :: 0 <= i < |PoolBelow(db, k, currency, n)| ==> PoolBelow(db, k, currency, n)[i] < n
    ensures forall i, j :: 0 <= i < j < |PoolBelow(db, k, currency, n)| ==>
              PoolBelow(db, k, currency, n)[i] < PoolBelow(db, k, currency, n)[j]
  {
    hide InPool;
    if n > 0 {
      PoolBelowLists(db, k, currency, n - 1);
    }
  }

  /** The stock pool an offer draws from, as batch keys. */
  function Pool(db: Db, k: nat, currency: Currency): (pool: seq<nat>)
    requires k < |db.offers| && OfferOk(db, k)
    ensures forall b: nat :: b in pool <==> b < |db.batches| && InPool(db, k, currency, b)
    ensures forall i :: 0 <= i < |pool| ==> pool[i] < |db.batches|
    ensures forall i, j :: 0 <= i < j < |pool| ==> pool[i] < pool[j]
  {
    PoolBelowLists(db, k, currency, |db.batches|);
    PoolBelow(db, k, currency, |db.batches|)
  }

  /** list_batches_for_retail_price: retail additionally requires an amount in the currency. */
  function RetailPool(db: Db, k: nat, currency: Currency): (pool: seq<nat>)
    requires k < |db.offers| && OfferOk(db, k)
    ensures forall b: nat :: b in pool <==>
              b < |db.batches| && InPool(db, k, currency, b) && db.offers[k].channel.Retail? && currency in db.offers[k].amounts
    ensures forall i, j :: 0 <= i < j < |pool| ==> pool[i] < pool[j]
  {
    if db.offers[k].channel.Retail? && currency in db.offers[k].amounts then Pool(db, k, currency) else []
  }

  /** An offer a channel can sell: enabled, active product, and priced when it is about one batch. */
  predicate Sellable(db: Db, k: nat, currency: Currency)
    requires k < |db.offers| && OfferOk(db, k)
  {
    var f := db.offers[k];
    f.enabled && db.products[f.product].active && (f.batch.Some? ==> currency in f.amounts)
  }

  /** Pools of two different sellable offers of one channel have no batch in common. */
  lemma PoolsAreDisjoint(db: Db, j: nat, k: nat, currency: Currency, b: nat)
    requires OffersOk(db) && j < |db.offers| && k < |db.offers| && j != k && b < |db.batches|
    requires db.offers[j].channel == db.offers[k].channel
    requires Sellable(db, j, currency) && Sellable(db, k, currency)
    ensures !(b in Pool(db, j, currency) && b in Pool(db, k, currency))
  {
    var lo, hi := if j < k then j else k, if j < k then k else j;
    assert !SameScope(db.offers[lo], db.offers[hi]);
    var f, g := db.offers[j], db.offers[k];
    if f.batch == Some(b) {
      assert Claims(f, f.channel, currency, b);
    }
    if g.batch == Some(b) {
      assert Claims(g, g.channel, currency, b);
    }
  }

  /** When a product's standard offer is sellable, the pools of its sellable offers cover exactly the
      product's orderable batches. */
  lemma PoolsCoverTheProduct(db: Db, std: nat, currency: Currency, b: nat)
    requires OffersOk(db) && std < |db.offers| && b < |db.batches|
    requires db.offers[std].batch.None? && Sellable(db, std, currency)
    ensures (Orderable(db, b) && db.batches[b].product == db.offers[std].product)
       <==> exists k :: 0 <= k < |db.offers| && BacksProductFrom(db, std, k, currency, b)
  {
    var f := db.offers[std];
    if Orderable(db, b) && db.batches[b].product == f.product {
      if ClaimedByBatchOffer(db, f.channel, currency, b) {
        var j :| 0 <= j < |db.offers| && Claims(db.offers[j], f.channel, currency, b);
        assert OfferOk(db, j);
        assert BacksProductFrom(db, std, j, currency, b);
      } else {
        assert BacksProductFrom(db, std, std, currency, b);
      }
    }
  }

  /** Offer k is a sellable offer for the standard offer's product and channel whose pool holds b. */
  ghost predicate BacksProductFrom(db: Db, std: nat, k: nat, currency: Currency, b: nat)
    requires OffersOk(db) && std < |db.offers| && k < |db.offers| && b < |db.batches|
  {
    && OfferOk(db, k)
    && db.offers[k].channel == db.offers[std].channel
    && db.offers[k].product == db.offers[std].product
    && Sellable(db, k, currency)
    && b in Pool(db, k, currency)
  }

  // ---------- Free units of a pool ----------

  function PoolUnitsBelow(db: Db, k: nat, currency: Currency, n: nat): nat
    requires k < |db.offers| && n <= |db.batches| && OfferOk(db, k)
  {
    if n == 0 then 0
    else PoolUnitsBelow(db, k, currency, n - 1) + (if InPool(db, k, currency, n - 1) then FreeUnits(db, n - 1) else 0)
  }

  /** Physical minus actively reserved units, summed over the batches of the pool. */
  function PoolUnits(db: Db, k: nat, currency: Currency): nat
    requires k < |db.offers| && OfferOk(db, k)
  {
    PoolUnitsBelow(db, k, currency, |db.batches|)
  }

  /** Two databases that differ only in reservations: the pools agree. */
  ghost predicate SameStock(db: Db, db': Db) {
    db.products == db'.products && db.batches == db'.batches && db.offers == db'.offers && db.today == db'.today
    && db.now == db'.now
  }

  lemma {:induction false} PoolUnitsFrame(db: Db, db': Db, k: nat, currency: Currency, n: nat)
    requires SameStock(db, db') && k < |db.offers| && n <= |db.batches| && OfferOk(db, k)
    requires forall b :: 0 <= b < n && InPool(db, k, currency, b) ==> ActiveReserved(db, b) == ActiveReserved(db', b)
    ensures PoolUnitsBelow(db, k, currency, n) == PoolUnitsBelow(db', k, currency, n)
  {
    if n > 0 {
      PoolUnitsFrame(db, db', k, currency, n - 1);
      assert InPool(db, k, currency, n - 1) == InPool(db', k, currency, n - 1);
    }
  }
}
