/**
 The business catalog (business/selectors.py) and the aggregate stock figures it is built from
 (inventory/selectors.py): product totals minus batch-offer units, accumulated in dictionaries.
 */
module Catalog {
  import opened Common
  import opened Records
  import opened Storage
  import opened Pricing
  import opened ReservationSelectors

  // ---------- orderable_quantity_by_product_id ----------

  /** (batch, product) of the orderable batches with key below n. */
  function OrderableRows(db: Db, n: nat): (rows: seq<(nat, nat)>)
    requires n <= |db.batches|
    ensures forall i :: 0 <= i < |rows| ==>
              rows[i].0 < n && Orderable(db, rows[i].0) && db.batches[rows[i].0].product == rows[i].1
  {
    if n == 0 then []
    else OrderableRows(db, n - 1) + (if Orderable(db, n - 1) then [(n - 1, db.batches[n - 1].product)] else [])
  }

  predicate RowsInRange(db: Db, rows: seq<(nat, nat)>) {
    forall i :: 0 <= i < |rows| ==> rows[i].0 < |db.batches|
  }

  /** Sum("quantity") of the rows of one product. */
  function PhysicalOver(db: Db, rows: seq<(nat, nat)>, p: nat): nat
    requires RowsInRange(db, rows)
  {
    if rows == [] then 0
    else
      var last := rows[|rows| - 1];
      PhysicalOver(db, rows[..|rows| - 1], p) + (if last.1 == p then db.batches[last.0].quantity else 0)
  }

  function ReservedOver(db: Db, rows: seq<(nat, nat)>, p: nat): nat {
    if rows == [] then 0
    else
      var last := rows[|rows| - 1];
      ReservedOver(db, rows[..|rows| - 1], p) + (if last.1 == p then ActiveReserved(db, last.0) else 0)
  }

  function ProductsOf(rows: seq<(nat, nat)>): set<nat> {
    set i | 0 <= i < |rows| :: rows[i].1
  }

  function QuantityByProduct(db: Db): map<nat, int> {
    var rows := OrderableRows(db, |db.batches|);
    map p | p in ProductsOf(rows) :: Max(PhysicalOver(db, rows, p) - ReservedOver(db, rows, p), 0)
  }

  /** _reserved_quantities_by_product_for_batches */
  method ReservedQuantitiesByProductForBatches(store: Database, batches: seq<(nat, nat)>) returns (totals: map<nat, int>)
    ensures forall p: nat :: GetOrZero(totals, p) == ReservedOver(store.Contents(), batches, p)
  {
    totals := map[];
    if batches == [] {
      return;
    }
    var pks := seq(|batches|, i requires 0 <= i < |batches| => batches[i].0);
    var reservedByBatchPk := ActiveReservedQuantitiesByBatchPk(store, pks);
    for i := 0 to |batches|
      invariant forall p: nat :: GetOrZero(totals, p) == ReservedOver(store.Contents(), batches[..i], p)
    {
      assert batches[..i + 1][..i] == batches[..i];
      var (pk, product) := batches[i];
      assert pks[i] == pk && pk in pks;
      totals := totals[product := GetOrZero(totals, product) + GetOrZero(reservedByBatchPk, pk)];
    }
    assert batches[..|batches|] == batches;
  }

  method OrderableQuantityByProductId(store: Database) returns (quantities: map<nat, int>)
    ensures quantities == QuantityByProduct(store.Contents())
  {
    hide PhysicalOver, ReservedOver;
    var rows := OrderableRows(store.Contents(), |store.batches|);
    var physical := map p | p in ProductsOf(rows) :: PhysicalOver(store.Contents(), rows, p);
    var reserved := ReservedQuantitiesByProductForBatches(store, rows);
    quantities := map p | p in physical :: Max(physical[p] - GetOrZero(reserved, p), 0);
  }

  // ---------- orderable_quantity_by_batch_pk ----------

  function OrderableUnits(db: Db, b: nat): nat {
    if b < |db.batches| && Orderable(db, b) then FreeUnits(db, b) else 0
  }

  method OrderableQuantityByBatchPk(store: Database, batchPks: seq<nat>) returns (quantities: map<nat, int>)
    ensures quantities == map b | b in batchPks :: OrderableUnits(store.Contents(), b)
  {
    var db := store.Contents();
    var physical := map b | b in batchPks && b < |db.batches| && Orderable(db, b) :: db.batches[b].quantity;
    var reserved := ActiveReservedQuantitiesByBatchPk(store, batchPks);
    quantities := map b | b in batchPks ::
      Max((if b in physical then physical[b] else 0) - (if b in physical then GetOrZero(reserved, b) else 0), 0);
  }

  // ---------- list_business_catalog_products ----------

  datatype OfferKind = Standard | Batch
  datatype CatalogOffer = CatalogOffer(
    kind: OfferKind, offer: nat, batch: Option<nat>, price: Option<pos>, availableUnits: int)
  datatype CatalogProduct = CatalogProduct(product: nat, availableUnits: int, offers: seq<CatalogOffer>)

  /** _find_amount for EUR */
  function EurPrice(row: OfferRow): Option<pos> {
    if EUR in row.amounts then Some(row.amounts[EUR]) else None
  }

  predicate AreOffers(db: Db, ks: seq<nat>) {
    forall i :: 0 <= i < |ks| ==> ks[i] < |db.offers|
  }

  /** BUSINESS offers with key below n for the candidate products. */
  function BusinessPrices(db: Db, candidates: set<nat>, n: nat): (ks: seq<nat>)
    requires n <= |db.offers|
    ensures forall k: nat :: k in ks <==> k < n && db.offers[k].channel.Business? && db.offers[k].product in candidates
    ensures AreOffers(db, ks)
  {
    if n == 0 then []
    else BusinessPrices(db, candidates, n - 1)
         + (if db.offers[n - 1].channel.Business? && db.offers[n - 1].product in candidates then [n - 1] else [])
  }

  /** product -> its standard offer */
  function StandardOffers(db: Db, prices: seq<nat>): (m: map<nat, nat>)
    requires AreOffers(db, prices)
    ensures forall p :: p in m ==> m[p] in prices && m[p] < |db.offers| && db.offers[m[p]].batch.None? && db.offers[m[p]].product == p
  {
    if prices == [] then map[]
    else
      var n := |prices| - 1;
      var m := StandardOffers(db, prices[..n]);
      if db.offers[prices[n]].batch.None? then m[db.offers[prices[n]].product := prices[n]] else m
  }

  predicate IsBatchCandidate(row: OfferRow) {
    row.batch.Some? && row.enabled && EUR in row.amounts
  }

  function BatchCandidates(db: Db, prices: seq<nat>): (ks: seq<nat>)
    requires AreOffers(db, prices)
    ensures AreOffers(db, ks)
    ensures forall i :: 0 <= i < |ks| ==> ks[i] in prices && IsBatchCandidate(db.offers[ks[i]])
  {
    if prices == [] then []
    else
      var n := |prices| - 1;
      BatchCandidates(db, prices[..n]) + (if IsBatchCandidate(db.offers[prices[n]]) then [prices[n]] else [])
  }

  ghost predicate AreBatchOffers(db: Db, ks: seq<nat>) {
    forall i :: 0 <= i < |ks| ==> ks[i] < |db.offers| && db.offers[ks[i]].batch.Some?
  }

  function UnitsOfBatchOffer(db: Db, k: nat): nat
    requires k < |db.offers| && db.offers[k].batch.Some?
  {
    OrderableUnits(db, db.offers[k].batch.value)
  }

  function BatchOffer(db: Db, k: nat): CatalogOffer
    requires k < |db.offers| && db.offers[k].batch.Some?
  {
    CatalogOffer(Batch, k, db.offers[k].batch, EurPrice(db.offers[k]), UnitsOfBatchOffer(db, k))
  }

  /** The batch offers of one product that have units. */
  function BatchOffersOf(db: Db, ks: seq<nat>, p: nat): seq<CatalogOffer>
    requires AreBatchOffers(db, ks)
  {
    if ks == [] then []
    else
      var n := |ks| - 1;
      BatchOffersOf(db, ks[..n], p)
      + (if db.offers[ks[n]].product == p && UnitsOfBatchOffer(db, ks[n]) > 0 then [BatchOffer(db, ks[n])] else [])
  }

  function BatchUnitsOf(db: Db, ks: seq<nat>, p: nat): nat
    requires AreBatchOffers(db, ks)
  {
    if ks == [] then 0
    else
      var n := |ks| - 1;
      BatchUnitsOf(db, ks[..n], p) + (if db.offers[ks[n]].product == p then UnitsOfBatchOffer(db, ks[n]) else 0)
  }

  /** "Product total minus batch-offer units". */
  function StandardUnits(total: int, batchUnits: int): int {
    Max(total - batchUnits, 0)
  }

  function StandardOffer(db: Db, std: nat, units: int): CatalogOffer
    requires std < |db.offers|
  {
    CatalogOffer(Standard, std, None, EurPrice(db.offers[std]), units)
  }

  function OffersFor(db: Db, std: nat, total: int, batchUnits: int, batchOffers: seq<CatalogOffer>): seq<CatalogOffer>
    requires std < |db.offers|
  {
    (if StandardUnits(total, batchUnits) > 0 && db.offers[std].enabled
     then [StandardOffer(db, std, StandardUnits(total, batchUnits))] else [])
    + batchOffers
  }

  /** The active candidate products with key below n. */
  function ListedProducts(db: Db, candidates: set<nat>, n: nat): (ps: seq<nat>)
    requires n <= |db.products|
    ensures forall p: nat :: p in ps <==> p < n && db.products[p].active && p in candidates
    ensures forall i, j :: 0 <= i < j < |ps| ==> ps[i] < ps[j]
    ensures forall i :: 0 <= i < |ps| ==> ps[i] < n
    ensures candidates == {} ==> ps == []
  {
    if n == 0 then []
    else ListedProducts(db, candidates, n - 1) + (if db.products[n - 1].active && n - 1 in candidates then [n - 1] else [])
  }

  function Entries(db: Db, quantities: map<nat, int>, standards: map<nat, nat>, ks: seq<nat>, ps: seq<nat>): seq<CatalogProduct>
    requires AreBatchOffers(db, ks)
    requires forall i :: 0 <= i < |ps| ==> ps[i] in standards && standards[ps[i]] < |db.offers|
  {
    if ps == [] then []
    else
      var n := |ps| - 1;
      var offers := OffersFor(db, standards[ps[n]], GetOrZero(quantities, ps[n]), BatchUnitsOf(db, ks, ps[n]), BatchOffersOf(db, ks, ps[n]));
      Entries(db, quantities, standards, ks, ps[..n])
      + (if offers == [] then [] else [CatalogProduct(ps[n], GetOrZero(quantities, ps[n]), offers)])
  }

  function Candidates(quantities: map<nat, int>): set<nat> {
    set p | p in quantities && quantities[p] > 0
  }

  /** An active product with orderable units that has no standard BUSINESS offer. */
  predicate MissesStandardOffer(ps: seq<nat>, standards: map<nat, nat>) {
    exists i :: 0 <= i < |ps| && ps[i] !in standards
  }

  function CatalogSpec(db: Db): Result<seq<CatalogProduct>> {
    var quantities := QuantityByProduct(db);
    var ps := ListedProducts(db, Candidates(quantities), |db.products|);
    var prices := BusinessPrices(db, Candidates(quantities), |db.offers|);
    if MissesStandardOffer(ps, StandardOffers(db, prices)) then Err(CatalogInvariantViolated)
    else Ok(Entries(db, quantities, StandardOffers(db, prices), BatchCandidates(db, prices), ps))
  }

  // ---------- The loops of list_business_catalog_products ----------

  method SplitPrices(store: Database, prices: seq<nat>) returns (standards: map<nat, nat>, candidates: seq<nat>)
    requires AreOffers(store.Contents(), prices)
    ensures standards == StandardOffers(store.Contents(), prices)
    ensures candidates == BatchCandidates(store.Contents(), prices)
  {
    standards, candidates := map[], [];
    for i := 0 to |prices|
      invariant standards == StandardOffers(store.Contents(), prices[..i])
      invariant candidates == BatchCandidates(store.Contents(), prices[..i])
    {
      assert prices[..i + 1][..i] == prices[..i];
      var row := store.offers[prices[i]];
      if row.batch.None? {
        standards := standards[row.product := prices[i]];
      } else if row.enabled && EUR in row.amounts {
        candidates := candidates + [prices[i]];
      }
    }
    assert prices[..|prices|] == prices;
  }

  function BatchesOf(db: Db, ks: seq<nat>): (pks: seq<nat>)
    requires AreBatchOffers(db, ks)
    ensures |pks| == |ks| && forall i :: 0 <= i < |ks| ==> pks[i] == db.offers[ks[i]].batch.value && pks[i] in pks
  {
    seq(|ks|, i requires 0 <= i < |ks| => db.offers[ks[i]].batch.value)
  }

  /** The figures of the batch offers, accumulated per product. */
  method CollectBatchOffers(store: Database, candidates: seq<nat>)
    returns (offersByProduct: map<nat, seq<CatalogOffer>>, unitsByProduct: map<nat, int>)
    requires AreBatchOffers(store.Contents(), candidates)
    ensures forall p: nat :: OffersOrNone(offersByProduct, p) == BatchOffersOf(store.Contents(), candidates, p)
    ensures forall p: nat :: GetOrZero(unitsByProduct, p) == BatchUnitsOf(store.Contents(), candidates, p)
  {
    hide OrderableUnits;
    var batchPks := BatchesOf(store.Contents(), candidates);
    var availableByBatch := OrderableQuantityByBatchPk(store, batchPks);
    offersByProduct, unitsByProduct := map[], map[];
    for i := 0 to |candidates|
      invariant forall p: nat :: OffersOrNone(offersByProduct, p) == BatchOffersOf(store.Contents(), candidates[..i], p)
      invariant forall p: nat :: GetOrZero(unitsByProduct, p) == BatchUnitsOf(store.Contents(), candidates[..i], p)
    {
      assert candidates[..i + 1][..i] == candidates[..i];
      var row := store.offers[candidates[i]];
      assert batchPks[i] == row.batch.value;
      var availableUnits := GetOrZero(availableByBatch, row.batch.value);
      if availableUnits > 0 {
        var offer := CatalogOffer(Batch, candidates[i], row.batch, EurPrice(row), availableUnits);
        offersByProduct := offersByProduct[row.product := OffersOrNone(offersByProduct, row.product) + [offer]];
        unitsByProduct := unitsByProduct[row.product := GetOrZero(unitsByProduct, row.product) + availableUnits];
      }
    }
    assert candidates[..|candidates|] == candidates;
  }

  function OffersOrNone(m: map<nat, seq<CatalogOffer>>, p: nat): seq<CatalogOffer> {
    if p in m then m[p] else []
  }

  method BuildEntries(store: Database, quantities: map<nat, int>, standards: map<nat, nat>, candidates: seq<nat>, ps: seq<nat>)
    returns (entries: seq<CatalogProduct>)
    requires AreBatchOffers(store.Contents(), candidates)
    requires forall i :: 0 <= i < |ps| ==> ps[i] in standards && standards[ps[i]] < |store.offers|
    ensures entries == Entries(store.Contents(), quantities, standards, candidates, ps)
  {
    hide BatchOffersOf, BatchUnitsOf;
    var offersByProduct, unitsByProduct := CollectBatchOffers(store, candidates);
    entries := [];
    for i := 0 to |ps|
      invariant entries == Entries(store.Contents(), quantities, standards, candidates, ps[..i])
    {
      assert ps[..i + 1][..i] == ps[..i];
      var total := GetOrZero(quantities, ps[i]);
      var standardUnits := Max(total - GetOrZero(unitsByProduct, ps[i]), 0);
      var offers: seq<CatalogOffer> := [];
      if standardUnits > 0 && store.offers[standards[ps[i]]].enabled {
        offers := offers + [StandardOffer(store.Contents(), standards[ps[i]], standardUnits)];
      }
      offers := offers + OffersOrNone(offersByProduct, ps[i]);
      assert offers == OffersFor(store.Contents(), standards[ps[i]], total, GetOrZero(unitsByProduct, ps[i]),
                                 OffersOrNone(offersByProduct, ps[i]));
      if offers != [] {
        entries := entries + [CatalogProduct(ps[i], total, offers)];
      }
    }
    assert ps[..|ps|] == ps;
  }

  method ListBusinessCatalogProducts(store: Database) returns (r: Result<seq<CatalogProduct>>)
    ensures r == CatalogSpec(store.Contents())
  {
    hide QuantityByProduct, StandardOffers, BatchCandidates;
    var quantities := OrderableQuantityByProductId(store);
    var candidates := Candidates(quantities);
    if candidates == {} {
      assert ListedProducts(store.Contents(), candidates, |store.products|) == [];
      return Ok([]);
    }
    var ps := ListedProducts(store.Contents(), candidates, |store.products|);
    if ps == [] {
      return Ok([]);
    }
    var prices := BusinessPrices(store.Contents(), candidates, |store.offers|);
    var standards, batchCandidates := SplitPrices(store, prices);
    if MissesStandardOffer(ps, standards) {
      return Err(CatalogInvariantViolated);
    }
    var entries := BuildEntries(store, quantities, standards, batchCandidates, ps);
    return Ok(entries);
  }
}
