/** Resolving business input into order lines: convert every input, then merge by offer (business/drafts.py). */
module Drafts {
  import opened Common
  import opened Records
  import opened Storage
  import opened Units
  import opened Pricing
  import opened Placement
  import opened OrderEdit

  datatype OfferLineInput = OfferLineInput(offer: nat, quantity: real, unit: OrderUnit)

  /** The dictionary quantity_by_offer_id, in insertion order. */
  type Quantities = seq<(nat, int)>

  /** d[k] += q on an insertion-ordered dictionary. */
  function AddTo(d: Quantities, k: nat, q: int): (r: Quantities)
  {
    if d == [] then [(k, q)]
    else if d[0].0 == k then [(k, d[0].1 + q)] + d[1..]
    else [d[0]] + AddTo(d[1..], k, q)
  }

  /** d.get(k, 0) */
  function QuantityOf(d: Quantities, k: nat): int {
    if d == [] then 0 else if d[0].0 == k then d[0].1 else QuantityOf(d[1..], k)
  }

  ghost predicate UniqueKeys(d: Quantities) {
    forall i, j :: 0 <= i < j < |d| ==> d[i].0 != d[j].0
  }

  function Keys(d: Quantities): set<nat> {
    set i | 0 <= i < |d| :: d[i].0
  }

  lemma {:induction false} AddToQuantity(d: Quantities, k: nat, q: int, k': nat)
    ensures QuantityOf(AddTo(d, k, q), k') == QuantityOf(d, k') + (if k == k' then q else 0)
  {
    if d != [] && d[0].0 != k {
      AddToQuantity(d[1..], k, q, k');
      assert AddTo(d, k, q)[1..] == AddTo(d[1..], k, q);
    }
  }

  lemma {:induction false} AddToKeys(d: Quantities, k: nat, q: int)
    ensures Keys(AddTo(d, k, q)) == Keys(d) + {k}
  {
    hide Keys;
    KeysSplit(AddTo(d, k, q));
    NoKeys();
    if d == [] {
      assert AddTo(d, k, q)[1..] == [];
    } else {
      KeysSplit(d);
      if d[0].0 == k {
        assert AddTo(d, k, q)[1..] == d[1..];
      } else {
        AddToKeys(d[1..], k, q);
        assert AddTo(d, k, q)[1..] == AddTo(d[1..], k, q);
      }
    }
  }

  lemma NoKeys()
    ensures Keys([]) == {}
  {
  }

  /** Keys stay unique exactly when the first one does not recur and the others are. */
  lemma UniqueSplit(d: Quantities)
    requires d != []
    ensures UniqueKeys(d) <==> d[0].0 !in Keys(d[1..]) && UniqueKeys(d[1..])
  {
    if UniqueKeys(d) {
      forall i | 0 <= i < |d[1..]| ensures d[1..][i].0 != d[0].0 {
        assert d[1..][i] == d[i + 1];
      }
    }
    if d[0].0 !in Keys(d[1..]) && UniqueKeys(d[1..]) {
      forall i, j | 0 <= i < j < |d| ensures d[i].0 != d[j].0 {
        assert d[1..][j - 1] == d[j] && d[j].0 in Keys(d[1..]);
        assert i > 0 ==> d[1..][i - 1] == d[i];
      }
    }
  }

  lemma {:induction false} AddToUnique(d: Quantities, k: nat, q: int)
    requires UniqueKeys(d)
    ensures UniqueKeys(AddTo(d, k, q))
  {
    if d != [] {
      hide Keys, UniqueKeys;
      UniqueSplit(d);
      UniqueSplit(AddTo(d, k, q));
      if d[0].0 == k {
        assert AddTo(d, k, q)[1..] == d[1..];
      } else {
        AddToUnique(d[1..], k, q);
        AddToKeys(d[1..], k, q);
        assert AddTo(d, k, q)[1..] == AddTo(d[1..], k, q);
      }
    }
  }

  lemma KeysSplit(d: Quantities)
    requires d != []
    ensures Keys(d) == {d[0].0} + Keys(d[1..])
  {
    forall k | k in Keys(d) ensures k in {d[0].0} + Keys(d[1..]) {
      var i :| 0 <= i < |d| && d[i].0 == k;
      if i > 0 {
        assert d[1..][i - 1].0 == k;
      }
    }
  }

  // ---------- resolve_business_offer_lines ----------

  /** The checks on the offers themselves. */
  predicate OfferResolvable(db: Db, k: nat)
    requires OfferKeysOk(db)
  {
    && k < |db.offers|
    && (assert OfferOk(db, k);
        var f := db.offers[k];
        && f.channel.Business? && db.products[f.product].active && f.enabled
        && (f.batch.Some? ==> EUR in f.amounts))
  }

  ghost predicate AllOffersResolvable(db: Db, inputs: seq<OfferLineInput>)
    requires OfferKeysOk(db)
  {
    forall i :: 0 <= i < |inputs| ==> OfferResolvable(db, inputs[i].offer)
  }

  function OfferWeight(db: Db, k: nat): pos
    requires OfferKeysOk(db) && k < |db.offers|
  {
    assert OfferOk(db, k);
    db.products[db.offers[k].product].weightPerUnit
  }

  function Converted(db: Db, input: OfferLineInput): Result<int>
    requires OfferKeysOk(db) && OfferResolvable(db, input.offer)
  {
    var units :- QuantityToUnits(OfferWeight(db, input.offer), input.quantity, input.unit);
    if units <= 0 then Err(InvalidOrderOperation) else Ok(units)
  }

  function MergeInputs(db: Db, inputs: seq<OfferLineInput>): Result<Quantities>
    requires OfferKeysOk(db) && AllOffersResolvable(db, inputs)
  {
    if inputs == [] then Ok([])
    else
      var n := |inputs| - 1;
      var d :- MergeInputs(db, inputs[..n]);
      var units :- Converted(db, inputs[n]);
      Ok(AddTo(d, inputs[n].offer, units))
  }

  function ResolvedFrom(db: Db, entry: (nat, int)): ResolvedLine
    requires OfferKeysOk(db)
  {
    if entry.0 < |db.offers| then
      var f := db.offers[entry.0];
      ResolvedLine(f.product, entry.1, Some(entry.0), if EUR in f.amounts then Some(f.amounts[EUR]) else None)
    else ResolvedLine(0, entry.1, Some(entry.0), None)
  }

  function LinesFrom(db: Db, d: Quantities): seq<ResolvedLine>
    requires OfferKeysOk(db)
  {
    seq(|d|, i requires 0 <= i < |d| => ResolvedFrom(db, d[i]))
  }

  function ResolveOfferLinesSpec(db: Db, inputs: seq<OfferLineInput>): (r: Result<seq<ResolvedLine>>)
    requires OfferKeysOk(db)
    ensures r.Ok? ==> AllOffered(r.value)
  {
    if exists i :: 0 <= i < |inputs| && !OfferResolvable(db, inputs[i].offer) then Err(InvalidOrderOperation)
    else
      var d :- MergeInputs(db, inputs);
      Ok(LinesFrom(db, d))
  }

  method ResolveOfferLines(store: Database, inputs: seq<OfferLineInput>) returns (r: Result<seq<ResolvedLine>>)
    requires OfferKeysOk(store.Contents())
    ensures r == ResolveOfferLinesSpec(store.Contents(), inputs)
  {
    hide OfferResolvable, AddTo, LinesFrom;
    for i := 0 to |inputs|
      invariant AllOffersResolvable(store.Contents(), inputs[..i])
    {
      if !OfferResolvable(store.Contents(), inputs[i].offer) {
        return Err(InvalidOrderOperation);
      }
    }
    assert inputs[..|inputs|] == inputs;
    var quantityByOfferId: Quantities := [];
    for i := 0 to |inputs|
      invariant MergeInputs(store.Contents(), inputs[..i]) == Ok(quantityByOfferId)
    {
      assert inputs[..i + 1][..i] == inputs[..i];
      var units := Converted(store.Contents(), inputs[i]);
      if units.Err? {
        assert MergeInputs(store.Contents(), inputs[..i + 1]) == Err(units.error);
        MergeStaysFailed(store.Contents(), inputs, i + 1, units.error);
        return Err(units.error);
      }
      quantityByOfferId := AddTo(quantityByOfferId, inputs[i].offer, units.value);
    }
    return Ok(LinesFrom(store.Contents(), quantityByOfferId));
  }

  lemma {:induction false} MergeStaysFailed(db: Db, inputs: seq<OfferLineInput>, i: nat, e: Error)
    requires OfferKeysOk(db) && AllOffersResolvable(db, inputs) && i <= |inputs|
    requires MergeInputs(db, inputs[..i]) == Err(e)
    ensures MergeInputs(db, inputs) == Err(e)
    decreases |inputs| - i
  {
    if i < |inputs| {
      assert inputs[..i + 1][..i] == inputs[..i];
      MergeStaysFailed(db, inputs, i + 1, e);
    } else {
      assert inputs[..i] == inputs;
    }
  }

  /** Converted units of all inputs for one offer. */
  function UnitsFor(db: Db, inputs: seq<OfferLineInput>, k: nat): int
    requires OfferKeysOk(db) && AllOffersResolvable(db, inputs)
  {
    if inputs == [] then 0
    else
      var n := |inputs| - 1;
      UnitsFor(db, inputs[..n], k)
      + (if inputs[n].offer == k && Converted(db, inputs[n]).Ok? then Converted(db, inputs[n]).value else 0)
  }

  ghost predicate Selects(inputs: seq<OfferLineInput>, k: nat) {
    exists i :: 0 <= i < |inputs| && inputs[i].offer == k
  }

  lemma SelectsSnoc(inputs: seq<OfferLineInput>, k: nat)
    requires inputs != []
    ensures Selects(inputs, k) <==> Selects(inputs[..|inputs| - 1], k) || inputs[|inputs| - 1].offer == k
  {
    var shorter := inputs[..|inputs| - 1];
    if i :| 0 <= i < |inputs| && inputs[i].offer == k {
      assert i < |shorter| ==> shorter[i].offer == k;
    }
    if i :| 0 <= i < |shorter| && shorter[i].offer == k {
      assert inputs[i].offer == k;
    }
  }

  lemma {:induction false} MergedFacts(db: Db, inputs: seq<OfferLineInput>, k: nat)
    requires OfferKeysOk(db) && AllOffersResolvable(db, inputs) && MergeInputs(db, inputs).Ok?
    ensures var d := MergeInputs(db, inputs).value;
            && UniqueKeys(d)
            && (k in Keys(d) <==> Selects(inputs, k))
            && QuantityOf(d, k) == UnitsFor(db, inputs, k)
            && (k in Keys(d) ==> QuantityOf(d, k) > 0)
            && QuantityOf(d, k) >= 0
  {
    if inputs != [] {
      hide OfferResolvable, Converted, AddTo, QuantityOf, Keys, UniqueKeys, Selects;
      var n := |inputs| - 1;
      var shorter := inputs[..n];
      MergedFacts(db, shorter, k);
      var d := MergeInputs(db, shorter).value;
      ConvertedIsPositive(db, inputs[n]);
      AddToQuantity(d, inputs[n].offer, Converted(db, inputs[n]).value, k);
      AddToKeys(d, inputs[n].offer, Converted(db, inputs[n]).value);
      AddToUnique(d, inputs[n].offer, Converted(db, inputs[n]).value);
      SelectsSnoc(inputs, k);
    } else {
      assert !Selects(inputs, k);
    }
  }

  lemma ConvertedIsPositive(db: Db, input: OfferLineInput)
    requires OfferKeysOk(db) && OfferResolvable(db, input.offer)
    ensures Converted(db, input).Ok? ==> Converted(db, input).value > 0
  {
  }

  lemma {:induction false} EntryQuantity(d: Quantities, i: nat)
    requires UniqueKeys(d) && i < |d|
    ensures QuantityOf(d, d[i].0) == d[i].1
  {
    if i > 0 {
      EntryQuantity(d[1..], i - 1);
    }
  }

  ghost predicate HasLineFor(lines: seq<ResolvedLine>, k: nat) {
    exists j :: 0 <= j < |lines| && lines[j].offer == Some(k)
  }

  /** The line carries its offer's EUR amount, or no price when the offer has none. */
  ghost predicate IsPricedInEur(db: Db, line: ResolvedLine) {
    && line.offer.Some? && line.offer.value < |db.offers|
    && (var amounts := db.offers[line.offer.value].amounts;
        if EUR in amounts then line.unitPrice == Some(amounts[EUR]) else line.unitPrice.None?)
  }

  /** Resolution gives one line per selected offer, no offer twice, each with the sum of the converted
      quantities of its inputs and the offer's EUR price. */
  lemma ResolutionMergesByOffer(db: Db, inputs: seq<OfferLineInput>)
    requires OfferKeysOk(db) && ResolveOfferLinesSpec(db, inputs).Ok?
    ensures AllOffersResolvable(db, inputs)
    ensures var lines := ResolveOfferLinesSpec(db, inputs).value;
            && !RepeatsAnOffer(lines)
            && AllValid(db, Business, lines)
            && (forall i :: 0 <= i < |inputs| ==> HasLineFor(lines, inputs[i].offer))
            && (forall j :: 0 <= j < |lines| ==>
                  && lines[j].offer.Some? && Selects(inputs, lines[j].offer.value)
                  && lines[j].quantity == UnitsFor(db, inputs, lines[j].offer.value)
                  && IsPricedInEur(db, lines[j]) && Storable(lines[j]))
  {
    var d := MergeInputs(db, inputs).value;
    var lines := LinesFrom(db, d);
    MergedFacts(db, inputs, 0);
    forall i | 0 <= i < |inputs| ensures HasLineFor(lines, inputs[i].offer) {
      MergedFacts(db, inputs, inputs[i].offer);
      assert Selects(inputs, inputs[i].offer);
      var j :| 0 <= j < |d| && d[j].0 == inputs[i].offer;
      assert lines[j].offer == Some(inputs[i].offer);
    }
    forall j | 0 <= j < |lines|
      ensures lines[j].quantity == UnitsFor(db, inputs, lines[j].offer.value) && Storable(lines[j])
      ensures CommercialOfferValid(db, Business, lines[j])
      ensures Selects(inputs, lines[j].offer.value) && IsPricedInEur(db, lines[j])
    {
      assert d[j].0 in Keys(d);
      MergedFacts(db, inputs, d[j].0);
      EntryQuantity(d, j);
      var i :| 0 <= i < |inputs| && inputs[i].offer == d[j].0;
      assert OfferResolvable(db, inputs[i].offer);
    }
  }

  // ---------- Gram lines of one offer ----------

  function GramInputs(k: nat, grams: seq<pos>): (inputs: seq<OfferLineInput>)
    ensures |inputs| == |grams|
    ensures forall i :: 0 <= i < |inputs| ==> inputs[i].offer == k
  {
    seq(|grams|, i requires 0 <= i < |grams| => OfferLineInput(k, grams[i] as real, Grams))
  }

  lemma {:induction false} GramUnits(db: Db, k: nat, grams: seq<pos>)
    requires OfferKeysOk(db) && OfferResolvable(db, k)
    ensures UnitsFor(db, GramInputs(k, grams), k)
         == MergedUnits(OfferWeight(db, k), grams)
    ensures MergeInputs(db, GramInputs(k, grams)).Ok?
  {
    if grams != [] {
      var n := |grams| - 1;
      var w := OfferWeight(db, k);
      var inputs := GramInputs(k, grams);
      GramUnits(db, k, grams[..n]);
      assert inputs[..n] == GramInputs(k, grams[..n]);
      assert (grams[n] as real).Floor == grams[n];
      CeilDivision(grams[n], w);
      UnitsArePositive((grams[n] + w - 1) / w, grams[n], w);
      assert Converted(db, inputs[n]) == Ok((grams[n] + w - 1) / w);
    }
  }

  lemma UnitsArePositive(u: int, grams: pos, w: pos)
    requires grams <= u * w
    ensures u > 0
  {
    if u <= 0 {
      Monotone(u, 0, w);
    }
  }

  /** Ordering n gram lines of one offer resolves to a line for that offer, the only one, that covers
      the ordered weight with less than n units to spare. */
  lemma GramLinesAreCovered(db: Db, k: nat, grams: seq<pos>)
    requires OfferKeysOk(db) && OfferResolvable(db, k) && grams != []
    ensures ResolveOfferLinesSpec(db, GramInputs(k, grams)).Ok?
    ensures var lines := ResolveOfferLinesSpec(db, GramInputs(k, grams)).value;
            && lines != [] && !RepeatsAnOffer(lines)
            && forall j :: 0 <= j < |lines| ==>
                 lines[j].offer == Some(k) && 0 <= lines[j].quantity * OfferWeight(db, k) - SumGrams(grams) < |grams| * OfferWeight(db, k)
  {
    var inputs := GramInputs(k, grams);
    GramUnits(db, k, grams);
    MergedFacts(db, inputs, k);
    ResolutionMergesByOffer(db, inputs);
    MergingOversuppliesLessThanAUnitPerLine(OfferWeight(db, k), grams);
    hide OfferResolvable, QuantityOf, UniqueKeys, MergeInputs;
    var d := MergeInputs(db, inputs).value;
    assert inputs[0].offer == k;
    assert Selects(inputs, k);
    forall j | 0 <= j < |d| ensures d[j].0 == k {
      assert d[j].0 in Keys(d);
      MergedFacts(db, inputs, d[j].0);
    }
  }
}
