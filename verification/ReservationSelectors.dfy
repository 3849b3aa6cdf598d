/** Active reserved quantities per batch (reservations/providers.py, reservations/selectors.py). */
module ReservationSelectors {
  import opened Common
  import opened Records
  import opened Storage

  /** The dictionary of active reserved quantities: only batches with a reservation have a key. */
  function ReservedMap(db: Db, pks: seq<nat>): (m: map<nat, int>)
    ensures forall b :: b in pks ==> GetOrZero(m, b) == ActiveReserved(db, b)
    ensures forall b :: b in m ==> m[b] > 0
  {
    map b | b in pks && ActiveReserved(db, b) > 0 :: ActiveReserved(db, b)
  }

  /** The dictionary after the rows with key below n. */
  function ReservedBelow(t: Allocations, n: nat, pks: seq<nat>, now: int): map<nat, int> {
    map b | b in pks && Total(t, n, ActiveOn(b, now)) > 0 :: Total(t, n, ActiveOn(b, now))
  }

  /** One more row adds its quantity to its batch when it is an active reservation of a requested batch. */
  lemma ReservedStep(t: Allocations, n: nat, pks: seq<nat>, now: int)
    ensures ReservedBelow(t, n + 1, pks, now)
         == if n in t && t[n].batch in pks && IsActive(t[n], now)
            then ReservedBelow(t, n, pks, now)[t[n].batch := GetOrZero(ReservedBelow(t, n, pks, now), t[n].batch) + t[n].quantity]
            else ReservedBelow(t, n, pks, now)
  {
    hide IsActive;
    forall b: nat
      ensures Total(t, n + 1, ActiveOn(b, now))
           == Total(t, n, ActiveOn(b, now)) + (if n in t && t[n].batch == b && IsActive(t[n], now) then t[n].quantity else 0)
    {
    }
    hide Total;
  }

  method ActiveReservedQuantitiesByBatchPk(store: Database, pks: seq<nat>) returns (totals: map<nat, int>)
    ensures totals == ReservedMap(store.Contents(), pks)
  {
    totals := map[];
    if pks == [] {
      return;
    }
    for i := 0 to store.nextAllocation
      invariant totals == ReservedBelow(store.allocations, i, pks, store.now)
    {
      hide ReservedBelow;
      ReservedStep(store.allocations, i, pks, store.now);
      if i in store.allocations {
        var row := store.allocations[i];
        if row.batch in pks && IsActive(row, store.now) {
          totals := totals[row.batch := GetOrZero(totals, row.batch) + row.quantity];
        }
      }
    }
  }

  method ActiveReservedQuantityForBatchPk(store: Database, pk: nat) returns (quantity: nat)
    ensures quantity == ActiveReserved(store.Contents(), pk)
  {
    var totals := ActiveReservedQuantitiesByBatchPk(store, [pk]);
    assert pk in [pk];
    quantity := GetOrZero(totals, pk);
  }

  /** has_reservations_for_order: any allocation row at all. */
  predicate HasAllocations(t: Allocations, o: nat) {
    exists i :: i in t && t[i].order == o
  }
}
