/** Conversion of ordered weights into whole stock units (products/models.py, products/units.py). */
module Units {
  import opened Common

  datatype OrderUnit = Stock | Kg | Grams

  /** Decimal.to_integral_value(rounding=ROUND_CEILING) */
  function Ceiling(x: real): int {
    -((-x).Floor)
  }

  function GramsToUnits(weight: pos, grams: int): Result<int> {
    if grams <= 0 then Err(InvalidProductData) else Ok((grams + weight - 1) / weight)
  }

  function KgToUnits(weight: pos, kg: real): Result<int> {
    if kg <= 0.0 then Err(InvalidProductData) else GramsToUnits(weight, Ceiling(kg * 1000.0))
  }

  function UnitsToGrams(weight: pos, units: int): Result<int> {
    if units <= 0 then Err(InvalidProductData) else Ok(units * weight)
  }

  function QuantityToUnits(weight: pos, quantity: real, unit: OrderUnit): Result<int> {
    if quantity <= 0.0 then Err(InvalidProductData)
    else match unit
      case Stock => if quantity != quantity.Floor as real then Err(InvalidProductData) else Ok(quantity.Floor)
      case Grams => if quantity != quantity.Floor as real then Err(InvalidProductData) else GramsToUnits(weight, quantity.Floor)
      case Kg => KgToUnits(weight, quantity)
  }

  /** u units are the least number that cover the grams. */
  ghost predicate LeastCover(weight: pos, u: int, grams: real) {
    ((u - 1) * weight) as real < grams <= (u * weight) as real
  }

  lemma DivisionBounds(n: int, w: pos)
    ensures (n / w) * w <= n < (n / w) * w + w
  {
    assert n == (n / w) * w + n % w;
  }

  lemma CeilDivision(grams: int, weight: pos)
    ensures var u := (grams + weight - 1) / weight; (u - 1) * weight < grams <= u * weight
  {
    DivisionBounds(grams + weight - 1, weight);
    var u := (grams + weight - 1) / weight;
    assert (u - 1) * weight == u * weight - weight;
  }

  lemma CeilingBounds(x: real)
    ensures (Ceiling(x) - 1) as real < x <= Ceiling(x) as real
  {
  }

  /** Grams become the least number of units that cover them. */
  lemma GramsToUnitsIsLeastCover(weight: pos, grams: int)
    requires grams > 0
    ensures GramsToUnits(weight, grams).Ok? && LeastCover(weight, GramsToUnits(weight, grams).value, grams as real)
  {
    CeilDivision(grams, weight);
  }

  /** Rounding kilograms to grams and grams to units loses nothing: the result is the one least
      cover of the exact weight. */
  lemma KgToUnitsIsLeastCover(weight: pos, kg: real, u: int)
    requires kg > 0.0
    ensures KgToUnits(weight, kg).Ok?
    ensures LeastCover(weight, u, 1000.0 * kg) <==> u == KgToUnits(weight, kg).value
  {
    var x := kg * 1000.0;
    var g := Ceiling(x);
    CeilingBounds(x);
    CeilDivision(g, weight);
    var v := KgToUnits(weight, kg).value;
    assert (v - 1) * weight <= g - 1;
    assert LeastCover(weight, v, x);
    if LeastCover(weight, u, x) {
      LeastCoverUnique(weight, u, v, x);
    }
  }

  lemma LeastCoverUnique(weight: pos, u: int, v: int, grams: real)
    requires LeastCover(weight, u, grams) && LeastCover(weight, v, grams)
    ensures u == v
  {
    StrictlyMonotone(u - 1, v, weight);
    StrictlyMonotone(v - 1, u, weight);
  }

  lemma Monotone(a: int, b: int, w: pos)
    requires a <= b
    ensures a * w <= b * w
  {
  }

  lemma StrictlyMonotone(a: int, b: int, w: pos)
    requires a * w < b * w
    ensures a < b
  {
    if b <= a {
      Monotone(b, a, w);
    }
  }

  /** What an ordered quantity means in stock units: kilograms and whole grams the least number of units
      that cover the weight, whole stock units themselves. */
  ghost predicate ConvertsTo(weight: pos, quantity: real, unit: OrderUnit, u: int) {
    && quantity > 0.0
    && match unit
       case Kg => LeastCover(weight, u, 1000.0 * quantity)
       case Grams => quantity.Floor as real == quantity && LeastCover(weight, u, quantity)
       case Stock => u as real == quantity
  }

  /** A quantity converts exactly when it is positive and, unless in kilograms, whole; and it converts to
      exactly the units it means. */
  lemma QuantityToUnitsIsExact(weight: pos, quantity: real, unit: OrderUnit, u: int)
    ensures QuantityToUnits(weight, quantity, unit).Ok? <==> quantity > 0.0 && (unit == Kg || quantity.Floor as real == quantity)
    ensures QuantityToUnits(weight, quantity, unit) == Ok(u) <==> ConvertsTo(weight, quantity, unit, u)
    ensures QuantityToUnits(weight, quantity, unit).Err? ==> QuantityToUnits(weight, quantity, unit).error == InvalidProductData
    ensures ConvertsTo(weight, quantity, unit, u) ==> u > 0
  {
    hide LeastCover;
    if quantity > 0.0 {
      match unit
      case Kg =>
        KgToUnitsIsLeastCover(weight, quantity, u);
        CoverIsPositive(weight, u, 1000.0 * quantity);
      case Grams =>
        CoverIsPositive(weight, u, quantity);
        if quantity.Floor as real == quantity {
          GramsToUnitsIsLeastCover(weight, quantity.Floor);
          if LeastCover(weight, u, quantity) {
            LeastCoverUnique(weight, u, GramsToUnits(weight, quantity.Floor).value, quantity);
          }
        }
      case Stock =>
    }
  }

  lemma CoverIsPositive(weight: pos, u: int, grams: real)
    requires grams > 0.0
    ensures LeastCover(weight, u, grams) ==> u > 0
  {
    if LeastCover(weight, u, grams) && u <= 0 {
      Monotone(u, 0, weight);
      assert false;
    }
  }

  /** Grams are proportional to units: one unit has the product's weight, and weights add up. */
  lemma UnitsToGramsIsLinear(weight: pos, a: int, b: int)
    ensures UnitsToGrams(weight, a).Ok? <==> a > 0
    ensures UnitsToGrams(weight, 1) == Ok(weight)
    ensures a > 0 && b > 0 ==>
              UnitsToGrams(weight, a + b) == Ok(UnitsToGrams(weight, a).value + UnitsToGrams(weight, b).value)
  {
    assert (a + b) * weight == a * weight + b * weight;
  }

  /** Converting whole units to grams and back gives the same units. */
  lemma UnitsRoundTrip(weight: pos, units: int)
    requires units > 0
    ensures UnitsToGrams(weight, units).Ok?
    ensures GramsToUnits(weight, UnitsToGrams(weight, units).value) == Ok(units)
  {
    Monotone(1, units, weight);
    CeilDivision(units * weight, weight);
    var u := (units * weight + weight - 1) / weight;
    StrictlyMonotone(u - 1, units, weight);
    assert (u + 1) * weight == u * weight + weight;
    StrictlyMonotone(units, u + 1, weight);
  }

  function SumGrams(lines: seq<pos>): nat {
    if lines == [] then 0 else SumGrams(lines[..|lines| - 1]) + lines[|lines| - 1]
  }

  /** Converting each gram line and then merging. */
  function MergedUnits(weight: pos, lines: seq<pos>): int {
    if lines == [] then 0
    else MergedUnits(weight, lines[..|lines| - 1]) + (lines[|lines| - 1] + weight - 1) / weight
  }

  /** Merging n gram lines of one product after conversion supplies at least the ordered weight and
      less than n units too much. */
  lemma {:induction false} MergingOversuppliesLessThanAUnitPerLine(weight: pos, lines: seq<pos>)
    ensures 0 <= MergedUnits(weight, lines) * weight - SumGrams(lines) <= |lines| * (weight - 1)
    ensures lines != [] ==> MergedUnits(weight, lines) * weight - SumGrams(lines) < |lines| * weight
  {
    if lines != [] {
      var n := |lines| - 1;
      var g := lines[n];
      var u := (g + weight - 1) / weight;
      var m := MergedUnits(weight, lines[..n]);
      MergingOversuppliesLessThanAUnitPerLine(weight, lines[..n]);
      CeilDivision(g, weight);
      MergeStep(m, u, g, n, SumGrams(lines[..n]), weight);
    }
  }

  lemma MergeStep(m: int, u: int, g: int, n: nat, s: int, w: pos)
    requires 0 <= m * w - s <= n * (w - 1)
    requires (u - 1) * w < g <= u * w
    ensures 0 <= (m + u) * w - (s + g) <= (n + 1) * (w - 1)
    ensures (m + u) * w - (s + g) < (n + 1) * w
  {
    assert (u - 1) * w == u * w - w;
    assert (m + u) * w == m * w + u * w;
    assert (n + 1) * (w - 1) == n * (w - 1) + (w - 1);
    assert (n + 1) * w == (n + 1) * (w - 1) + (n + 1);
  }
}
