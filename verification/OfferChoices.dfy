/** The offers an order form may select, with order-adjusted availability (business/offer_choices.py). */
module OfferChoices {
  import opened Common
  import opened Records
  import opened Storage
  import opened Pricing
  import opened Placement
  import opened Orders
  import opened OrderEdit
  import opened Catalog

  // ---------- Figures of the catalog ----------

  function AddOffers(m: map<nat, int>, offers: seq<CatalogOffer>): map<nat, int> {
    if offers == [] then m
    else
      var n := |offers| - 1;
      AddOffers(m, offers[..n])[offers[n].offer := offers[n].availableUnits]
  }

  function CatalogFigures(cat: seq<CatalogProduct>): map<nat, int> {
    if cat == [] then map[]
    else
      var n := |cat| - 1;
      AddOffers(CatalogFigures(cat[..n]), cat[n].offers)
  }

  method CollectFigures(cat: seq<CatalogProduct>) returns (available: map<nat, int>)
    ensures available == CatalogFigures(cat)
  {
    available := map[];
    for i := 0 to |cat|
      invariant available == CatalogFigures(cat[..i])
    {
      assert cat[..i + 1][..i] == cat[..i];
      var offers := cat[i].offers;
      for j := 0 to |offers|
        invariant available == AddOffers(CatalogFigures(cat[..i]), offers[..j])
      {
        assert offers[..j + 1][..j] == offers[..j];
        available := available[offers[j].offer := offers[j].availableUnits];
      }
      assert offers[..|offers|] == offers;
    }
    assert cat[..|cat|] == cat;
  }

  // ---------- The order's own lines ----------

  /** Units of the order's lines with key below n on one offer. */
  function LineUnitsBelow(lines: Lines, n: nat, o: nat, k: nat): nat {
    if n == 0 then 0
    else LineUnitsBelow(lines, n - 1, o, k)
         + (if n - 1 in lines && lines[n - 1].order == o && lines[n - 1].offer == k then lines[n - 1].quantity else 0)
  }

  function LineUnits(db: Db, o: nat, k: nat): nat {
    LineUnitsBelow(db.lines, db.nextLine, o, k)
  }

  method ExistingQuantityByOffer(store: Database, o: nat) returns (existing: map<nat, int>)
    requires LineKeysBelow(store.Contents())
    ensures existing.Keys == OffersOf(store.lines, o)
    ensures forall k: nat :: GetOrZero(existing, k) == LineUnits(store.Contents(), o, k)
  {
    existing := map[];
    for l := 0 to store.nextLine
      invariant forall k :: k in existing <==> exists m :: 0 <= m < l && m in store.lines && store.lines[m].order == o && store.lines[m].offer == k
      invariant forall k: nat :: GetOrZero(existing, k) == LineUnitsBelow(store.lines, l, o, k)
    {
      if l in store.lines && store.lines[l].order == o {
        var row := store.lines[l];
        existing := existing[row.offer := GetOrZero(existing, row.offer) + row.quantity];
      }
    }
    OffersWithLines(store.Contents(), o, existing.Keys);
  }

  lemma OffersWithLines(db: Db, o: nat, keys: set<nat>)
    requires LineKeysBelow(db)
    requires forall k :: k in keys <==> exists m :: 0 <= m < db.nextLine && m in db.lines && db.lines[m].order == o && db.lines[m].offer == k
    ensures keys == OffersOf(db.lines, o)
  {
    forall k | k in OffersOf(db.lines, o) ensures k in keys {
      var m :| m in db.lines && db.lines[m].order == o && db.lines[m].offer == k;
      assert 0 <= m < db.nextLine;
    }
  }

  /** _commercially_eligible_business_offer_ids, for one offer. */
  predicate Eligible(db: Db, k: nat)
    requires OfferKeysOk(db)
  {
    && k < |db.offers|
    && (assert OfferOk(db, k);
        db.offers[k].channel.Business? && Sellable(db, k, EUR))
  }

  // ---------- build_business_offer_choice_context ----------

  function EligibleExisting(db: Db, o: nat): set<nat>
    requires OfferKeysOk(db)
  {
    set k | k in OffersOf(db.lines, o) && Eligible(db, k)
  }

  function WithAddBack(db: Db, o: nat, figures: map<nat, int>): map<nat, int>
    requires OfferKeysOk(db)
  {
    map k | k in figures.Keys + EligibleExisting(db, o) ::
      GetOrZero(figures, k) + (if k in EligibleExisting(db, o) then LineUnits(db, o, k) else 0)
  }

  /** The selectable offers and their available units; an order that is not a draft gets its own
      quantities added back. */
  function ContextSpec(db: Db, order: Option<nat>): Result<map<nat, int>>
    requires OfferKeysOk(db)
    requires order.Some? ==> order.value in db.orders
  {
    var cat :- CatalogSpec(db);
    Ok(if order.Some? && !db.orders[order.value].status.Draft? then WithAddBack(db, order.value, CatalogFigures(cat))
       else CatalogFigures(cat))
  }

  method BuildBusinessOfferChoiceContext(store: Database, order: Option<nat>) returns (r: Result<map<nat, int>>)
    requires OfferKeysOk(store.Contents()) && LineKeysBelow(store.Contents())
    requires order.Some? ==> order.value in store.orders
    ensures r == ContextSpec(store.Contents(), order)
  {
    hide CatalogSpec, CatalogFigures, Eligible, LineUnits, OfferKeysOk, LineKeysBelow, WithAddBack, AddedBack;
    var cat := ListBusinessCatalogProducts(store);
    if cat.Err? {
      return Err(cat.error);
    }
    var available := CollectFigures(cat.value);
    if order.None? || store.orders[order.value].status.Draft? {
      return Ok(available);
    }
    var existing := ExistingQuantityByOffer(store, order.value);
    var eligible := set k | k in existing && Eligible(store.Contents(), k);
    assert eligible == EligibleExisting(store.Contents(), order.value);
    AddedBackIsSpec(store.Contents(), order.value, available, existing);
    available := AddBack(available, existing, eligible);
    return Ok(available);
  }

  /** The figures after the offers in `done` got their existing quantity added. */
  function AddedBack(available: map<nat, int>, existing: map<nat, int>, done: set<nat>): map<nat, int> {
    map k | k in available.Keys + done :: GetOrZero(available, k) + (if k in done then GetOrZero(existing, k) else 0)
  }

  lemma AddedBackStep(available: map<nat, int>, existing: map<nat, int>, done: set<nat>, k: nat)
    requires k !in done
    ensures AddedBack(available, existing, done + {k})
         == AddedBack(available, existing, done)[k := GetOrZero(AddedBack(available, existing, done), k) + GetOrZero(existing, k)]
  {
  }

  lemma NothingAddedBack(available: map<nat, int>, existing: map<nat, int>)
    ensures AddedBack(available, existing, {}) == available
  {
  }

  lemma AddedBackIsSpec(db: Db, o: nat, available: map<nat, int>, existing: map<nat, int>)
    requires OfferKeysOk(db)
    requires forall k: nat :: GetOrZero(existing, k) == LineUnits(db, o, k)
    ensures AddedBack(available, existing, EligibleExisting(db, o)) == WithAddBack(db, o, available)
  {
    hide LineUnits, EligibleExisting;
  }

  /** The loop over the eligible existing offers, in any order. */
  method AddBack(available: map<nat, int>, existing: map<nat, int>, eligible: set<nat>) returns (r: map<nat, int>)
    ensures r == AddedBack(available, existing, eligible)
  {
    hide AddedBack;
    r := available;
    var left := eligible;
    ghost var done: set<nat> := {};
    NothingAddedBack(available, existing);
    while left != {}
      invariant left !! done && left + done == eligible
      invariant r == AddedBack(available, existing, done)
      decreases |left|
    {
      var k :| k in left;
      AddedBackStep(available, existing, done, k);
      r := r[k := GetOrZero(r, k) + GetOrZero(existing, k)];
      left := left - {k};
      done := done + {k};
    }
    assert done == eligible;
  }
}
