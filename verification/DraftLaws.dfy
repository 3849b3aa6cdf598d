/** Resolving business input into lines, told in the columns of the tables and in weights. */
module DraftLaws {
  import opened Common
  import opened Records
  import opened Units
  import opened Pricing
  import opened Placement
  import opened OrderEdit
  import opened Drafts
  import opened SupplyLaws

  /** Input `input` means u stock units of its offer's product. */
  ghost predicate Means(db: Db, input: OfferLineInput, u: int) {
    && input.offer < |db.offers| && db.offers[input.offer].product < |db.products|
    && ConvertsTo(db.products[db.offers[input.offer].product].weightPerUnit, input.quantity, input.unit, u)
  }

  lemma ResolvableIs(db: Db, k: nat)
    requires OfferKeysOk(db)
    ensures OfferResolvable(db, k) <==> k < |db.offers| && OnSale(db, Business, k, db.offers[k].product)
  {
    assert k < |db.offers| ==> OfferOk(db, k);
  }

  lemma ConvertedIs(db: Db, input: OfferLineInput, u: int)
    requires OfferKeysOk(db) && OfferResolvable(db, input.offer)
    ensures Converted(db, input) == Ok(u) <==> Means(db, input, u)
    ensures Converted(db, input).Ok? <==> input.quantity > 0.0 && (input.unit == Kg || input.quantity.Floor as real == input.quantity)
  {
    hide ConvertsTo, QuantityToUnits;
    assert OfferOk(db, input.offer);
    var w := OfferWeight(db, input.offer);
    QuantityToUnitsIsExact(w, input.quantity, input.unit, u);
    if QuantityToUnits(w, input.quantity, input.unit).Ok? {
      QuantityToUnitsIsExact(w, input.quantity, input.unit, QuantityToUnits(w, input.quantity, input.unit).value);
    }
  }

  lemma {:induction false} MergesWhenConverted(db: Db, inputs: seq<OfferLineInput>)
    requires OfferKeysOk(db) && AllOffersResolvable(db, inputs)
    ensures MergeInputs(db, inputs).Ok? <==> forall i :: 0 <= i < |inputs| ==> Converted(db, inputs[i]).Ok?
  {
    hide Converted, OfferResolvable, AddTo;
    if inputs != [] {
      var n := |inputs| - 1;
      MergesWhenConverted(db, inputs[..n]);
      if forall i :: 0 <= i < |inputs| ==> Converted(db, inputs[i]).Ok? {
        forall i | 0 <= i < n ensures Converted(db, inputs[..n][i]).Ok? {
          assert inputs[..n][i] == inputs[i];
        }
      }
      if MergeInputs(db, inputs).Ok? {
        forall i | 0 <= i < |inputs| ensures Converted(db, inputs[i]).Ok? {
          assert i < n ==> inputs[..n][i] == inputs[i];
        }
      }
    }
  }

  lemma {:induction false} RefusedQuantities(db: Db, inputs: seq<OfferLineInput>)
    requires OfferKeysOk(db) && AllOffersResolvable(db, inputs) && MergeInputs(db, inputs).Err?
    ensures MergeInputs(db, inputs).error == InvalidProductData
  {
    hide Converted, OfferResolvable, AddTo;
    var n := |inputs| - 1;
    if MergeInputs(db, inputs[..n]).Err? {
      RefusedQuantities(db, inputs[..n]);
    } else {
      RefusedQuantity(db, inputs[n]);
    }
  }

  lemma RefusedQuantity(db: Db, input: OfferLineInput)
    requires OfferKeysOk(db) && OfferResolvable(db, input.offer) && Converted(db, input).Err?
    ensures Converted(db, input).error == InvalidProductData
  {
    hide QuantityToUnits;
    var w := OfferWeight(db, input.offer);
    QuantityToUnitsIsExact(w, input.quantity, input.unit, 0);
    if QuantityToUnits(w, input.quantity, input.unit).Ok? {
      QuantityToUnitsIsExact(w, input.quantity, input.unit, QuantityToUnits(w, input.quantity, input.unit).value);
    }
  }

  /** Business input resolves exactly when each offer is on sale to businesses and each quantity is
      positive and, unless in kilograms, whole. */
  lemma ResolvingIsExact(db: Db, inputs: seq<OfferLineInput>)
    requires OfferKeysOk(db)
    ensures ResolveOfferLinesSpec(db, inputs).Ok? <==>
              forall i :: 0 <= i < |inputs| ==>
                && inputs[i].offer < |db.offers| && OnSale(db, Business, inputs[i].offer, db.offers[inputs[i].offer].product)
                && inputs[i].quantity > 0.0 && (inputs[i].unit == Kg || inputs[i].quantity.Floor as real == inputs[i].quantity)
    ensures ResolveOfferLinesSpec(db, inputs).Err? ==>
              ResolveOfferLinesSpec(db, inputs).error
              == if forall i :: 0 <= i < |inputs| ==>
                      inputs[i].offer < |db.offers| && OnSale(db, Business, inputs[i].offer, db.offers[inputs[i].offer].product)
                 then InvalidProductData else InvalidOrderOperation
  {
    hide OfferResolvable, Converted, OnSale, OfferKeysOk, LinesFrom;
    forall i | 0 <= i < |inputs|
      ensures OfferResolvable(db, inputs[i].offer) <==>
                inputs[i].offer < |db.offers| && OnSale(db, Business, inputs[i].offer, db.offers[inputs[i].offer].product)
    {
      ResolvableIs(db, inputs[i].offer);
    }
    if AllOffersResolvable(db, inputs) {
      MergesWhenConverted(db, inputs);
      if MergeInputs(db, inputs).Err? {
        RefusedQuantities(db, inputs);
      }
      forall i | 0 <= i < |inputs|
        ensures Converted(db, inputs[i]).Ok? <==>
                  inputs[i].quantity > 0.0 && (inputs[i].unit == Kg || inputs[i].quantity.Floor as real == inputs[i].quantity)
      {
        ConvertedIs(db, inputs[i], 0);
      }
    }
  }

  lemma {:induction false} UnitsForIsSum(db: Db, inputs: seq<OfferLineInput>, units: seq<int>, k: nat, n: nat, f: nat -> int)
    requires OfferKeysOk(db) && AllOffersResolvable(db, inputs) && n <= |inputs| == |units|
    requires forall i :: 0 <= i < |inputs| ==> Converted(db, inputs[i]) == Ok(units[i])
    requires forall i: nat :: i < n ==> f(i) == if inputs[i].offer == k then units[i] else 0
    ensures UnitsFor(db, inputs[..n], k) == Sum(n, f)
  {
    hide Converted, OfferResolvable;
    if n > 0 {
      UnitsForIsSum(db, inputs, units, k, n - 1, f);
      assert inputs[..n][..n - 1] == inputs[..n - 1];
    }
  }

  lemma ResolvedWereConverted(db: Db, inputs: seq<OfferLineInput>)
    requires OfferKeysOk(db) && ResolveOfferLinesSpec(db, inputs).Ok?
    ensures AllOffersResolvable(db, inputs) && forall i :: 0 <= i < |inputs| ==> Converted(db, inputs[i]).Ok?
  {
    hide OfferResolvable, Converted, LinesFrom;
    MergesWhenConverted(db, inputs);
  }

  /** Resolved lines, against what each input means on its own: one line per offer, no offer twice, each
      with the sum of the units its inputs mean, at the offer's EUR price. */
  lemma ResolvedLinesAre(db: Db, inputs: seq<OfferLineInput>) returns (units: seq<int>)
    requires OfferKeysOk(db) && ResolveOfferLinesSpec(db, inputs).Ok?
    ensures |units| == |inputs| && forall i :: 0 <= i < |inputs| ==> Means(db, inputs[i], units[i])
    ensures var lines := ResolveOfferLinesSpec(db, inputs).value;
            && (forall i :: 0 <= i < |inputs| ==> exists j :: 0 <= j < |lines| && lines[j].offer == Some(inputs[i].offer))
            && (forall j, m :: 0 <= j < m < |lines| ==> lines[j].offer != lines[m].offer)
            && (forall j :: 0 <= j < |lines| ==> ResolvesTo(db, inputs, units, lines[j]))
  {
    hide OfferResolvable, Converted, Means, OfferKeysOk, ResolveOfferLinesSpec, Storable, CommercialOfferValid, Selects, UnitsFor,
         IsPricedInEur, ResolvesTo;
    ResolutionMergesByOffer(db, inputs);
    ResolvedWereConverted(db, inputs);
    units := seq(|inputs|, (i: nat) requires i < |inputs| && Converted(db, inputs[i]).Ok? => Converted(db, inputs[i]).value);
    forall i | 0 <= i < |inputs| ensures Means(db, inputs[i], units[i]) {
      ConvertedIs(db, inputs[i], units[i]);
    }
    var lines := ResolveOfferLinesSpec(db, inputs).value;
    forall i | 0 <= i < |inputs| ensures exists j :: 0 <= j < |lines| && lines[j].offer == Some(inputs[i].offer) {
      assert HasLineFor(lines, inputs[i].offer);
      var j :| 0 <= j < |lines| && lines[j].offer == Some(inputs[i].offer);
    }
    assert forall j, m :: 0 <= j < m < |lines| ==> lines[j].offer != lines[m].offer;
    forall j | 0 <= j < |lines| ensures ResolvesTo(db, inputs, units, lines[j]) {
      LineResolvesTo(db, inputs, units, lines[j]);
    }
  }

  /** The line of one offer: of its product, at its EUR price if it has one, with the units of its inputs. */
  ghost predicate ResolvesTo(db: Db, inputs: seq<OfferLineInput>, units: seq<int>, line: ResolvedLine) {
    && |units| == |inputs|
    && line.offer.Some? && line.offer.value < |db.offers| && line.product == db.offers[line.offer.value].product
    && (exists i :: 0 <= i < |inputs| && inputs[i].offer == line.offer.value)
    && line.quantity == Sum(|inputs|, (i: nat) => if i < |inputs| && i < |units| && inputs[i].offer == line.offer.value then units[i] else 0)
    && line.unitPrice == (if EUR in db.offers[line.offer.value].amounts then Some(db.offers[line.offer.value].amounts[EUR]) else None)
  }

  lemma LineResolvesTo(db: Db, inputs: seq<OfferLineInput>, units: seq<int>, line: ResolvedLine)
    requires OfferKeysOk(db) && AllOffersResolvable(db, inputs) && |units| == |inputs|
    requires forall i :: 0 <= i < |inputs| ==> Converted(db, inputs[i]) == Ok(units[i])
    requires line.offer.Some? && Selects(inputs, line.offer.value) && line.quantity == UnitsFor(db, inputs, line.offer.value)
    requires IsPricedInEur(db, line) && CommercialOfferValid(db, Business, line)
    ensures ResolvesTo(db, inputs, units, line)
  {
    hide Converted, OfferResolvable, OfferKeysOk;
    UnitsForIsSum(db, inputs, units, line.offer.value, |inputs|,
                  (i: nat) => if i < |inputs| && i < |units| && inputs[i].offer == line.offer.value then units[i] else 0);
    assert inputs[..|inputs|] == inputs;
  }

  // ---------- The order of the lines ----------

  /** Offer k is selected before the first input for offer m. */
  ghost predicate SelectedBefore(inputs: seq<OfferLineInput>, k: nat, m: nat) {
    exists i :: 0 <= i < |inputs| && inputs[i].offer == k && forall j :: 0 <= j <= i ==> inputs[j].offer != m
  }

  lemma {:induction false} AddToKeepsOrder(d: Quantities, k: nat, q: int)
    ensures var r := AddTo(d, k, q);
            && |r| == |d| + (if k in Keys(d) then 0 else 1)
            && (forall j :: 0 <= j < |d| ==> r[j].0 == d[j].0)
            && (k !in Keys(d) ==> r[|d|].0 == k)
  {
    if d != [] {
      KeysSplit(d);
      AddToKeepsOrder(d[1..], k, q);
      assert d[0].0 != k ==> AddTo(d, k, q)[1..] == AddTo(d[1..], k, q);
    }
  }

  lemma SelectedBeforeSnoc(inputs: seq<OfferLineInput>, k: nat, m: nat)
    requires inputs != []
    ensures SelectedBefore(inputs[..|inputs| - 1], k, m) ==> SelectedBefore(inputs, k, m)
    ensures Selects(inputs[..|inputs| - 1], k) && !Selects(inputs[..|inputs| - 1], m) ==> SelectedBefore(inputs, k, m)
  {
    var shorter := inputs[..|inputs| - 1];
    if i :| 0 <= i < |shorter| && shorter[i].offer == k && forall j :: 0 <= j <= i ==> shorter[j].offer != m {
      forall j | 0 <= j <= i ensures inputs[j].offer != m {
        assert inputs[j] == shorter[j];
      }
    }
    if Selects(shorter, k) && !Selects(shorter, m) {
      var i :| 0 <= i < |shorter| && shorter[i].offer == k;
      forall j | 0 <= j <= i ensures inputs[j].offer != m {
        assert inputs[j] == shorter[j];
      }
    }
  }

  lemma {:induction false} MergedInOrder(db: Db, inputs: seq<OfferLineInput>, i: nat, j: nat)
    requires OfferKeysOk(db) && AllOffersResolvable(db, inputs) && MergeInputs(db, inputs).Ok?
    requires i < j < |MergeInputs(db, inputs).value|
    ensures SelectedBefore(inputs, MergeInputs(db, inputs).value[i].0, MergeInputs(db, inputs).value[j].0)
  {
    hide OfferResolvable, Converted, AddTo, SelectedBefore, Selects, QuantityOf, UniqueKeys, Keys;
    var n := |inputs| - 1;
    var shorter := inputs[..n];
    var d := MergeInputs(db, shorter).value;
    var r := MergeInputs(db, inputs).value;
    AddToKeepsOrder(d, inputs[n].offer, Converted(db, inputs[n]).value);
    SelectedBeforeSnoc(inputs, r[i].0, r[j].0);
    if j < |d| {
      MergedInOrder(db, shorter, i, j);
    } else {
      MergedFacts(db, shorter, r[i].0);
      MergedFacts(db, shorter, r[j].0);
      KeyAt(d, i);
    }
  }

  lemma KeyAt(d: Quantities, i: nat)
    requires i < |d|
    ensures d[i].0 in Keys(d)
  {
  }

  /** The lines come in the order in which the input first selects their offers. */
  lemma ResolvedLinesKeepInputOrder(db: Db, inputs: seq<OfferLineInput>, i: nat, j: nat)
    requires OfferKeysOk(db) && ResolveOfferLinesSpec(db, inputs).Ok?
    requires i < j < |ResolveOfferLinesSpec(db, inputs).value|
    ensures var lines := ResolveOfferLinesSpec(db, inputs).value;
            lines[i].offer.Some? && lines[j].offer.Some? && SelectedBefore(inputs, lines[i].offer.value, lines[j].offer.value)
  {
    hide OfferResolvable, SelectedBefore;
    MergedInOrder(db, inputs, i, j);
  }
}
