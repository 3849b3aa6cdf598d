/**
 First-expired-first-out planning of batch picks (reservations/planning.py).

 `PlanBatchPicks` is the greedy loop; `Plan` is what it returns. The theorems
 about `Plan` are stated with the amount a plan takes from each batch.
 */
module Planning {
  import opened Common

  datatype BatchAvailability = BatchAvailability(
    batchPk: nat, batchCode: string, productId: nat, physicalQuantity: int, bestBefore: int)

  datatype BatchPick = BatchPick(batchPk: nat, quantity: pos)

  // ---------- The FEFO order ----------

  /** Python's order on strings: lexicographic by code point. */
  predicate CodeLess(a: string, b: string) {
    b != "" && (a == "" || a[0] < b[0] || (a[0] == b[0] && CodeLess(a[1..], b[1..])))
  }

  /** The sort key (best_before, batch_code, batch_pk), compared strictly. */
  predicate Earlier(a: BatchAvailability, b: BatchAvailability) {
    || a.bestBefore < b.bestBefore
    || (a.bestBefore == b.bestBefore && CodeLess(a.batchCode, b.batchCode))
    || (a.bestBefore == b.bestBefore && a.batchCode == b.batchCode && a.batchPk < b.batchPk)
  }

  lemma {:induction false} CodeLessTrichotomy(a: string, b: string)
    ensures CodeLess(a, b) || a == b || CodeLess(b, a)
    ensures !(CodeLess(a, b) && (a == b || CodeLess(b, a)))
  {
    if a != "" && b != "" {
      CodeLessTrichotomy(a[1..], b[1..]);
      assert a == [a[0]] + a[1..] && b == [b[0]] + b[1..];
    }
  }

  lemma {:induction false} CodeLessTransitive(a: string, b: string, c: string)
    requires CodeLess(a, b) && CodeLess(b, c)
    ensures CodeLess(a, c)
  {
    if a != "" && a[0] == b[0] == c[0] {
      CodeLessTransitive(a[1..], b[1..], c[1..]);
    }
  }

  /** The key order is a strict total order on batches with different keys. */
  lemma EarlierIsStrictTotal(a: BatchAvailability, b: BatchAvailability, c: BatchAvailability)
    ensures Earlier(a, b) ==> !Earlier(b, a)
    ensures a.batchPk != b.batchPk ==> Earlier(a, b) || Earlier(b, a)
    ensures Earlier(a, b) && Earlier(b, c) ==> Earlier(a, c)
    ensures !Earlier(b, a) && !Earlier(c, b) ==> !Earlier(c, a)
  {
    CodeLessTrichotomy(a.batchCode, b.batchCode);
    CodeLessTrichotomy(b.batchCode, c.batchCode);
    CodeLessTrichotomy(a.batchCode, c.batchCode);
    if CodeLess(a.batchCode, b.batchCode) && CodeLess(b.batchCode, c.batchCode) {
      CodeLessTransitive(a.batchCode, b.batchCode, c.batchCode);
    }
    if CodeLess(c.batchCode, a.batchCode) && CodeLess(a.batchCode, b.batchCode) {
      CodeLessTransitive(c.batchCode, a.batchCode, b.batchCode);
    }
    if CodeLess(b.batchCode, c.batchCode) && CodeLess(c.batchCode, a.batchCode) {
      CodeLessTransitive(b.batchCode, c.batchCode, a.batchCode);
    }
  }

  /** Lexicographic order by the first difference: a is a proper prefix of b, or has the smaller
      character at the first position where they differ. */
  ghost predicate CodeBefore(a: string, b: string) {
    exists n: nat :: n <= |a| && n < |b| && a[..n] == b[..n] && (n == |a| || a[n] < b[n])
  }

  lemma CodeBeforeTail(a: string, b: string)
    requires a != "" && b != "" && a[0] == b[0]
    ensures CodeBefore(a, b) ==> CodeBefore(a[1..], b[1..])
  {
    if CodeBefore(a, b) {
      var n: nat :| n <= |a| && n < |b| && a[..n] == b[..n] && (n == |a| || a[n] < b[n]);
      assert n > 0;
      assert a[1..][..n - 1] == a[..n][1..] && b[1..][..n - 1] == b[..n][1..];
    }
  }

  lemma CodeBeforeCons(a: string, b: string)
    requires a != "" && b != "" && a[0] == b[0] && CodeBefore(a[1..], b[1..])
    ensures CodeBefore(a, b)
  {
    var n: nat :| n < |b[1..]| && n <= |a[1..]| && a[1..][..n] == b[1..][..n] && (n == |a[1..]| || a[1..][n] < b[1..][n]);
    assert a[..n + 1] == [a[0]] + a[1..][..n] && b[..n + 1] == [b[0]] + b[1..][..n];
  }

  lemma CodeBeforeHead(a: string, b: string)
    ensures b == "" ==> !CodeBefore(a, b)
    ensures a == "" && b != "" ==> CodeBefore(a, b)
    ensures a != "" && b != "" && a[0] < b[0] ==> CodeBefore(a, b)
    ensures a != "" && b != "" && CodeBefore(a, b) ==> a[0] <= b[0]
  {
    assert a[..0] == b[..0];
    if CodeBefore(a, b) {
      var n: nat :| n <= |a| && n < |b| && a[..n] == b[..n] && (n == |a| || a[n] < b[n]);
      assert n > 0 ==> a[..n][0] == b[..n][0];
    }
  }

  lemma {:induction false} CodeLessIsLexicographic(a: string, b: string)
    ensures CodeLess(a, b) <==> CodeBefore(a, b)
  {
    hide CodeBefore;
    if a != "" && b != "" && a[0] == b[0] {
      CodeLessIsLexicographic(a[1..], b[1..]);
      CodeBeforeTail(a, b);
      if CodeBefore(a[1..], b[1..]) {
        CodeBeforeCons(a, b);
      }
    } else {
      CodeBeforeHead(a, b);
    }
  }

  ghost predicate InFefoOrder(s: seq<BatchAvailability>) {
    forall i, j :: 0 <= i < j < |s| ==> !Earlier(s[j], s[i])
  }

  ghost predicate DistinctBatches(s: seq<BatchAvailability>) {
    forall i, j :: 0 <= i < j < |s| ==> s[i].batchPk != s[j].batchPk
  }

  function Insert(b: BatchAvailability, s: seq<BatchAvailability>): (r: seq<BatchAvailability>)
    ensures multiset(r) == multiset(s) + multiset{b}
  {
    if s == [] || Earlier(b, s[0]) then
      assert multiset([b] + s) == multiset(s) + multiset{b};
      [b] + s
    else
      assert s == [s[0]] + s[1..];
      [s[0]] + Insert(b, s[1..])
  }

  /** sorted(pool, key=...) */
  function Sorted(s: seq<BatchAvailability>): (r: seq<BatchAvailability>)
    ensures multiset(r) == multiset(s)
    ensures |r| == |s|
  {
    if s == [] then
      []
    else
      assert s == [s[0]] + s[1..];
      assert |multiset(s)| == |s|;
      var r := Insert(s[0], Sorted(s[1..]));
      assert |multiset(r)| == |r|;
      r
  }

  lemma {:induction false} InsertKeepsOrder(b: BatchAvailability, s: seq<BatchAvailability>)
    requires InFefoOrder(s)
    ensures InFefoOrder(Insert(b, s))
  {
    if s == [] {
    } else if Earlier(b, s[0]) {
      forall j | 0 <= j < |s| ensures !Earlier(s[j], b) {
        EarlierIsStrictTotal(b, s[0], s[j]);
        EarlierIsStrictTotal(s[j], b, s[0]);
      }
    } else {
      var t := Insert(b, s[1..]);
      InsertKeepsOrder(b, s[1..]);
      forall j | 0 <= j < |t| ensures !Earlier(t[j], s[0]) {
        assert t[j] in multiset(t);
        assert t[j] == b || t[j] in s[1..];
      }
    }
  }

  lemma {:induction false} SortedIsInFefoOrder(s: seq<BatchAvailability>)
    ensures InFefoOrder(Sorted(s))
  {
    if s != [] {
      SortedIsInFefoOrder(s[1..]);
      InsertKeepsOrder(s[0], Sorted(s[1..]));
    }
  }

  lemma {:induction false} InsertKeepsDistinct(b: BatchAvailability, s: seq<BatchAvailability>)
    requires DistinctBatches(s) && forall i :: 0 <= i < |s| ==> s[i].batchPk != b.batchPk
    ensures DistinctBatches(Insert(b, s))
  {
    if s != [] && !Earlier(b, s[0]) {
      var t := Insert(b, s[1..]);
      InsertKeepsDistinct(b, s[1..]);
      forall j | 0 <= j < |t| ensures t[j].batchPk != s[0].batchPk {
        assert t[j] in multiset(t);
        assert t[j] == b || t[j] in s[1..];
      }
    }
  }

  lemma SameElements(s: seq<BatchAvailability>, t: seq<BatchAvailability>)
    requires multiset(s) == multiset(t)
    ensures forall i :: 0 <= i < |s| ==> s[i] in t
    ensures forall i :: 0 <= i < |t| ==> t[i] in s
  {
    forall i | 0 <= i < |s| ensures s[i] in t {
      assert s[i] in multiset(s);
    }
    forall i | 0 <= i < |t| ensures t[i] in s {
      assert t[i] in multiset(t);
    }
  }

  lemma {:induction false} SortedKeepsDistinct(s: seq<BatchAvailability>)
    requires DistinctBatches(s)
    ensures DistinctBatches(Sorted(s))
  {
    if s != [] {
      var t := Sorted(s[1..]);
      SortedKeepsDistinct(s[1..]);
      SameElements(s[1..], t);
      InsertKeepsDistinct(s[0], t);
    }
  }

  lemma SameEarliest(s: seq<BatchAvailability>, t: seq<BatchAvailability>)
    requires InFefoOrder(s) && InFefoOrder(t) && DistinctBatches(s)
    requires s != [] && t != [] && multiset(s) == multiset(t)
    ensures s[0] == t[0]
  {
    SameElements(s, t);
    if s[0] != t[0] {
      var i :| 0 <= i < |t| && t[i] == s[0];
      var k :| 0 <= k < |s| && s[k] == t[0];
      assert s[0].batchPk != s[k].batchPk;
      EarlierIsStrictTotal(s[0], t[0], t[0]);
    }
  }

  /** Two FEFO-ordered sequences of the same distinct batches are the same sequence. */
  lemma {:induction false} FefoOrderIsUnique(s: seq<BatchAvailability>, t: seq<BatchAvailability>)
    requires InFefoOrder(s) && InFefoOrder(t) && DistinctBatches(s)
    requires multiset(s) == multiset(t)
    ensures s == t
  {
    hide Earlier;
    assert |multiset(s)| == |s| && |multiset(t)| == |t|;
    if s != [] {
      SameEarliest(s, t);
      assert s == [s[0]] + s[1..] && t == [t[0]] + t[1..];
      assert multiset(s[1..]) == multiset(s) - multiset{s[0]};
      assert multiset(t[1..]) == multiset(t) - multiset{t[0]};
      FefoOrderIsUnique(s[1..], t[1..]);
    }
  }

  // ---------- Free stock and the plan ----------

  /** Units of one batch that no active reservation claims. */
  function Free(b: BatchAvailability, reserved: map<nat, int>): nat {
    Max(b.physicalQuantity - GetOrZero(reserved, b.batchPk), 0)
  }

  function TotalFree(s: seq<BatchAvailability>, reserved: map<nat, int>): nat {
    if s == [] then 0 else Free(s[0], reserved) + TotalFree(s[1..], reserved)
  }

  /** The picks of the loop over an ordered pool that still owes `q` units. */
  function Greedy(s: seq<BatchAvailability>, reserved: map<nat, int>, q: nat): seq<BatchPick> {
    if s == [] || q == 0 then
      []
    else
      var f := Free(s[0], reserved);
      if f == 0 then Greedy(s[1..], reserved, q)
      else [BatchPick(s[0].batchPk, Min(f, q))] + Greedy(s[1..], reserved, q - Min(f, q))
  }

  predicate HasNegative(reserved: map<nat, int>) {
    exists k :: k in reserved && reserved[k] < 0
  }

  predicate OneProduct(batches: seq<BatchAvailability>) {
    forall i, j :: 0 <= i < |batches| && 0 <= j < |batches| ==> batches[i].productId == batches[j].productId
  }

  predicate HasNegativeStock(batches: seq<BatchAvailability>) {
    exists i :: 0 <= i < |batches| && batches[i].physicalQuantity < 0
  }

  function Shortage(requested: int, available: int): Error {
    InsufficientReservationCapacity(requested, available, Max(requested - available, 0))
  }

  function Plan(batches: seq<BatchAvailability>, requested: int, reserved: map<nat, int>): Result<seq<BatchPick>> {
    if requested <= 0 then Err(InvalidReservationPlan)
    else if batches == [] then Err(Shortage(requested, 0))
    else if !OneProduct(batches) then Err(InvalidReservationPlan)
    else if HasNegativeStock(batches) || HasNegative(reserved) then Err(InvalidReservationPlan)
    else
      var s := Sorted(batches);
      if TotalFree(s, reserved) < requested then Err(Shortage(requested, TotalFree(s, reserved)))
      else Ok(Greedy(s, reserved, requested))
  }

  lemma {:induction false} TotalFreeConcat(s: seq<BatchAvailability>, t: seq<BatchAvailability>, reserved: map<nat, int>)
    ensures TotalFree(s + t, reserved) == TotalFree(s, reserved) + TotalFree(t, reserved)
  {
    if s == [] {
      assert s + t == t;
    } else {
      assert (s + t)[1..] == s[1..] + t;
      TotalFreeConcat(s[1..], t, reserved);
    }
  }

  /** The set of product ids has one element. */
  method HasOneProduct(batches: seq<BatchAvailability>) returns (r: bool)
    requires batches != []
    ensures r == OneProduct(batches)
  {
    var productIds: set<nat> := {};
    for i := 0 to |batches|
      invariant forall p :: p in productIds ==> exists k :: 0 <= k < i && batches[k].productId == p
      invariant forall k :: 0 <= k < i ==> batches[k].productId in productIds
    {
      productIds := productIds + {batches[i].productId};
    }
    r := productIds == {batches[0].productId};
    if !r {
      assert exists p :: p in productIds && p != batches[0].productId;
    }
  }

  method HasNegativeQuantity(batches: seq<BatchAvailability>, reserved: map<nat, int>) returns (r: bool)
    ensures r == (HasNegativeStock(batches) || HasNegative(reserved))
  {
    for i := 0 to |batches|
      invariant forall k :: 0 <= k < i ==> batches[k].physicalQuantity >= 0
    {
      if batches[i].physicalQuantity < 0 {
        return true;
      }
    }
    var keys := reserved.Keys;
    while keys != {}
      invariant keys <= reserved.Keys
      invariant forall k :: k in reserved && k !in keys ==> reserved[k] >= 0
    {
      var k :| k in keys;
      if reserved[k] < 0 {
        return true;
      }
      keys := keys - {k};
    }
    return false;
  }

  method PlanBatchPicks(batches: seq<BatchAvailability>, requestedQuantity: int, reserved: map<nat, int>)
    returns (r: Result<seq<BatchPick>>)
    ensures r == Plan(batches, requestedQuantity, reserved)
  {
    if requestedQuantity <= 0 {
      return Err(InvalidReservationPlan);
    }
    if batches == [] {
      return Err(Shortage(requestedQuantity, 0));
    }
    var oneProduct := HasOneProduct(batches);
    if !oneProduct {
      return Err(InvalidReservationPlan);
    }
    var negative := HasNegativeQuantity(batches, reserved);
    if negative {
      return Err(InvalidReservationPlan);
    }
    r := PickInOrder(Sorted(batches), requestedQuantity, reserved);
  }

  lemma NothingFree(reserved: map<nat, int>)
    ensures TotalFree([], reserved) == 0
  {
  }

  /** One pass of the loop that owes q units: the batch gives what it can. */
  lemma PickStep(s: seq<BatchAvailability>, i: nat, reserved: map<nat, int>, q: pos, all: seq<BatchPick>, picks: seq<BatchPick>)
    requires i < |s| && all == picks + Greedy(s[i..], reserved, q)
    ensures var f := Free(s[i], reserved);
            all == if f == 0 then picks + Greedy(s[i + 1..], reserved, q)
                   else picks + [BatchPick(s[i].batchPk, Min(f, q))] + Greedy(s[i + 1..], reserved, q - Min(f, q))
  {
    assert s[i..][1..] == s[i + 1..];
  }

  lemma LoopStarts(s: seq<BatchAvailability>, reserved: map<nat, int>, q: nat)
    ensures TotalFree(s[..0], reserved) == 0
    ensures Greedy(s, reserved, q) == [] + Greedy(s[0..], reserved, q)
  {
    assert s[0..] == s;
  }

  lemma LoopEnds(s: seq<BatchAvailability>, i: nat, reserved: map<nat, int>, picks: seq<BatchPick>)
    requires i <= |s|
    ensures picks + Greedy(s[i..], reserved, 0) == picks
    ensures TotalFree(s[..|s|], reserved) == TotalFree(s, reserved)
  {
    assert s[..|s|] == s;
  }

  /** The greedy loop over the ordered pool. */
  method PickInOrder(orderedBatches: seq<BatchAvailability>, requestedQuantity: pos, reserved: map<nat, int>)
    returns (r: Result<seq<BatchPick>>)
    ensures r == if TotalFree(orderedBatches, reserved) < requestedQuantity
                 then Err(Shortage(requestedQuantity, TotalFree(orderedBatches, reserved)))
                 else Ok(Greedy(orderedBatches, reserved, requestedQuantity))
  {
    hide TotalFree, Greedy, Shortage;
    ghost var all := Greedy(orderedBatches, reserved, requestedQuantity);
    var remainingQuantity: nat := requestedQuantity;
    var totalAvailableQuantity: nat := 0;
    var picks: seq<BatchPick> := [];
    LoopStarts(orderedBatches, reserved, requestedQuantity);
    for i := 0 to |orderedBatches|
      invariant remainingQuantity > 0
      invariant totalAvailableQuantity == TotalFree(orderedBatches[..i], reserved)
      invariant remainingQuantity == requestedQuantity - totalAvailableQuantity
      invariant all == picks + Greedy(orderedBatches[i..], reserved, remainingQuantity)
    {
      var batch := orderedBatches[i];
      var allocatable := Max(batch.physicalQuantity - GetOrZero(reserved, batch.batchPk), 0);
      TotalFreePrefixStep(orderedBatches, reserved, i);
      PickStep(orderedBatches, i, reserved, remainingQuantity, all, picks);
      totalAvailableQuantity := totalAvailableQuantity + allocatable;
      if allocatable == 0 {
        continue;
      }
      var quantityToPick := Min(allocatable, remainingQuantity);
      picks := picks + [BatchPick(batch.batchPk, quantityToPick)];
      remainingQuantity := remainingQuantity - quantityToPick;
      if remainingQuantity == 0 {
        LoopEnds(orderedBatches, i + 1, reserved, picks);
        return Ok(picks);
      }
    }
    LoopEnds(orderedBatches, |orderedBatches|, reserved, picks);
    return Err(Shortage(requestedQuantity, totalAvailableQuantity));
  }

  // ---------- What a plan takes ----------

  /** Units the picks take from one batch. */
  function Taken(picks: seq<BatchPick>, pk: nat): nat {
    if picks == [] then 0 else (if picks[0].batchPk == pk then picks[0].quantity else 0) + Taken(picks[1..], pk)
  }

  function PickTotal(picks: seq<BatchPick>): nat {
    if picks == [] then 0 else picks[0].quantity + PickTotal(picks[1..])
  }

  /** Units the picks take from the first k batches of an ordered pool. */
  function TakenFromPrefix(picks: seq<BatchPick>, s: seq<BatchAvailability>, k: nat): nat
    requires k <= |s|
  {
    if k == 0 then 0 else TakenFromPrefix(picks, s, k - 1) + Taken(picks, s[k - 1].batchPk)
  }

  lemma {:induction false} TotalFreePrefixStep(s: seq<BatchAvailability>, reserved: map<nat, int>, k: nat)
    requires k < |s|
    ensures TotalFree(s[..k + 1], reserved) == TotalFree(s[..k], reserved) + Free(s[k], reserved)
    ensures TotalFree(s[..k + 1], reserved) <= TotalFree(s, reserved)
  {
    assert s[..k + 1] == s[..k] + [s[k]];
    TotalFreeConcat(s[..k], [s[k]], reserved);
    assert s == s[..k + 1] + s[k + 1..];
    TotalFreeConcat(s[..k + 1], s[k + 1..], reserved);
  }

  lemma {:induction false} TakenNothingElsewhere(s: seq<BatchAvailability>, reserved: map<nat, int>, q: nat, pk: nat)
    requires forall i :: 0 <= i < |s| ==> s[i].batchPk != pk
    ensures Taken(Greedy(s, reserved, q), pk) == 0
  {
    if s != [] && q != 0 {
      var f := Free(s[0], reserved);
      TakenNothingElsewhere(s[1..], reserved, q, pk);
      TakenNothingElsewhere(s[1..], reserved, q - Min(f, q), pk);
      if f != 0 {
        assert Greedy(s, reserved, q)[1..] == Greedy(s[1..], reserved, q - Min(f, q));
      }
    }
  }

  /** What the loop takes from a batch: from the first batch what it can, from later ones what is left. */
  lemma GreedyHead(s: seq<BatchAvailability>, reserved: map<nat, int>, q: nat, pk: nat)
    requires s != []
    ensures var taken := Min(Free(s[0], reserved), q);
            Taken(Greedy(s, reserved, q), pk) == (if s[0].batchPk == pk then taken else 0) + Taken(Greedy(s[1..], reserved, q - taken), pk)
  {
    var f := Free(s[0], reserved);
    var rest := Greedy(s[1..], reserved, q - Min(f, q));
    if q != 0 && f != 0 {
      assert Greedy(s, reserved, q) == [BatchPick(s[0].batchPk, Min(f, q))] + rest;
      assert Greedy(s, reserved, q)[1..] == rest;
    }
  }

  lemma TotalFreeCons(s: seq<BatchAvailability>, reserved: map<nat, int>, k: nat)
    requires 0 < k <= |s|
    ensures TotalFree(s[..k], reserved) == Free(s[0], reserved) + TotalFree(s[1..][..k - 1], reserved)
  {
    assert s[..k][1..] == s[1..][..k - 1];
  }

  /** Batch k of the ordered pool gives exactly what the request still lacks after the batches before it. */
  lemma {:induction false} GreedyTakes(s: seq<BatchAvailability>, reserved: map<nat, int>, q: nat, k: nat)
    requires DistinctBatches(s) && k < |s|
    ensures Taken(Greedy(s, reserved, q), s[k].batchPk)
         == Min(q, TotalFree(s[..k + 1], reserved)) - Min(q, TotalFree(s[..k], reserved))
    ensures Taken(Greedy(s, reserved, q), s[k].batchPk) <= Free(s[k], reserved)
    decreases |s|
  {
    hide Greedy, Taken, TotalFree, Free;
    var q' := q - Min(Free(s[0], reserved), q);
    GreedyHead(s, reserved, q, s[k].batchPk);
    TotalFreeCons(s, reserved, k + 1);
    NothingFree(reserved);
    if k == 0 {
      TakenNothingElsewhere(s[1..], reserved, q', s[0].batchPk);
      assert s[1..][..0] == [] && s[..0] == [];
    } else {
      GreedyTakes(s[1..], reserved, q', k - 1);
      TotalFreeCons(s, reserved, k);
      assert s[1..][k - 1] == s[k];
    }
  }

  lemma {:induction false} GreedyPrefix(s: seq<BatchAvailability>, reserved: map<nat, int>, q: nat, k: nat)
    requires DistinctBatches(s) && k <= |s|
    ensures TakenFromPrefix(Greedy(s, reserved, q), s, k) == Min(q, TotalFree(s[..k], reserved))
  {
    if k == 0 {
      assert s[..0] == [];
    } else {
      GreedyPrefix(s, reserved, q, k - 1);
      GreedyTakes(s, reserved, q, k - 1);
      assert s[..k - 1 + 1] == s[..k];
    }
  }

  lemma {:induction false} GreedyTotal(s: seq<BatchAvailability>, reserved: map<nat, int>, q: nat)
    ensures PickTotal(Greedy(s, reserved, q)) == Min(q, TotalFree(s, reserved))
  {
    if s != [] && q != 0 {
      var f := Free(s[0], reserved);
      GreedyTotal(s[1..], reserved, q);
      GreedyTotal(s[1..], reserved, q - Min(f, q));
      if f != 0 {
        assert Greedy(s, reserved, q)[1..] == Greedy(s[1..], reserved, q - Min(f, q));
      }
    }
  }

  ghost predicate HasBatch(s: seq<BatchAvailability>, pk: nat) {
    exists k :: 0 <= k < |s| && s[k].batchPk == pk
  }

  /** A pick names a batch of the pool, in pool order, and never the same batch twice. */
  lemma {:induction false} GreedyPicksPoolBatches(s: seq<BatchAvailability>, reserved: map<nat, int>, q: nat)
    requires DistinctBatches(s)
    ensures forall i :: 0 <= i < |Greedy(s, reserved, q)| ==> HasBatch(s, Greedy(s, reserved, q)[i].batchPk)
    ensures forall i, j :: 0 <= i < j < |Greedy(s, reserved, q)| ==>
              Greedy(s, reserved, q)[i].batchPk != Greedy(s, reserved, q)[j].batchPk
  {
    if s != [] && q != 0 {
      var f := Free(s[0], reserved);
      var g := Greedy(s, reserved, q);
      var rest := Greedy(s[1..], reserved, q - Min(f, q));
      GreedyPicksPoolBatches(s[1..], reserved, q - Min(f, q));
      forall i | 0 <= i < |rest| ensures HasBatch(s, rest[i].batchPk) && rest[i].batchPk != s[0].batchPk {
        assert HasBatch(s[1..], rest[i].batchPk);
        var k :| 0 <= k < |s[1..]| && s[1..][k].batchPk == rest[i].batchPk;
        assert s[k + 1].batchPk == rest[i].batchPk;
      }
      assert HasBatch(s, s[0].batchPk);
      assert g == (if f == 0 then [] else [BatchPick(s[0].batchPk, Min(f, q))]) + rest;
    }
  }

  // ---------- The planner's promises ----------

  predicate ValidInput(batches: seq<BatchAvailability>, requested: int, reserved: map<nat, int>) {
    && requested > 0
    && OneProduct(batches)
    && !HasNegativeStock(batches)
    && !HasNegative(reserved)
  }

  lemma {:induction false} TotalFreeOfInsert(b: BatchAvailability, s: seq<BatchAvailability>, reserved: map<nat, int>)
    ensures TotalFree(Insert(b, s), reserved) == Free(b, reserved) + TotalFree(s, reserved)
  {
    if s == [] || Earlier(b, s[0]) {
      assert ([b] + s)[1..] == s;
    } else {
      TotalFreeOfInsert(b, s[1..], reserved);
      assert Insert(b, s)[1..] == Insert(b, s[1..]);
    }
  }

  lemma {:induction false} TotalFreeOfSorted(s: seq<BatchAvailability>, reserved: map<nat, int>)
    ensures TotalFree(Sorted(s), reserved) == TotalFree(s, reserved)
  {
    if s != [] {
      TotalFreeOfSorted(s[1..], reserved);
      TotalFreeOfInsert(s[0], Sorted(s[1..]), reserved);
    }
  }

  /** A plan is returned exactly when the pool's free stock covers the request; a refusal reports
      the true total and a positive shortage. */
  lemma PlanIsExact(batches: seq<BatchAvailability>, requested: int, reserved: map<nat, int>)
    requires ValidInput(batches, requested, reserved)
    ensures Plan(batches, requested, reserved).Ok? <==> TotalFree(batches, reserved) >= requested
    ensures Plan(batches, requested, reserved).Ok? ==>
              PickTotal(Plan(batches, requested, reserved).value) == requested
    ensures Plan(batches, requested, reserved).Err? ==>
              Plan(batches, requested, reserved).error
              == InsufficientReservationCapacity(requested, TotalFree(batches, reserved), requested - TotalFree(batches, reserved))
              && requested - TotalFree(batches, reserved) > 0
  {
    TotalFreeOfSorted(batches, reserved);
    GreedyTotal(Sorted(batches), reserved, requested);
  }

  /** No batch gives more than its free stock, batches outside the pool give nothing, and no batch
      is picked twice. */
  lemma PlanIsSound(batches: seq<BatchAvailability>, requested: int, reserved: map<nat, int>)
    requires DistinctBatches(batches)
    requires Plan(batches, requested, reserved).Ok?
    ensures var picks := Plan(batches, requested, reserved).value;
            && (forall i :: 0 <= i < |batches| ==>
                  Taken(picks, batches[i].batchPk) <= Free(batches[i], reserved))
            && (forall pk :: !HasBatch(batches, pk) ==> Taken(picks, pk) == 0)
            && (forall i :: 0 <= i < |picks| ==> HasBatch(batches, picks[i].batchPk))
            && (forall i, j :: 0 <= i < j < |picks| ==> picks[i].batchPk != picks[j].batchPk)
  {
    var s := Sorted(batches);
    var picks := Plan(batches, requested, reserved).value;
    SortedKeepsDistinct(batches);
    forall i | 0 <= i < |batches| ensures Taken(picks, batches[i].batchPk) <= Free(batches[i], reserved) {
      SameElements(batches, s);
      var k :| 0 <= k < |s| && s[k] == batches[i];
      GreedyTakes(s, reserved, requested, k);
    }
    forall pk | !HasBatch(batches, pk) ensures Taken(picks, pk) == 0 {
      SameBatches(batches, s, pk);
      TakenNothingElsewhere(s, reserved, requested, pk);
    }
    GreedyPicksPoolBatches(s, reserved, requested);
    forall i | 0 <= i < |picks| ensures HasBatch(batches, picks[i].batchPk) {
      SameBatches(batches, s, picks[i].batchPk);
    }
  }

  lemma SameBatches(s: seq<BatchAvailability>, t: seq<BatchAvailability>, pk: nat)
    requires multiset(s) == multiset(t)
    ensures HasBatch(s, pk) <==> HasBatch(t, pk)
  {
    SameElements(s, t);
    if HasBatch(s, pk) {
      var k :| 0 <= k < |s| && s[k].batchPk == pk;
      assert s[k] in t;
    }
    if HasBatch(t, pk) {
      var k :| 0 <= k < |t| && t[k].batchPk == pk;
      assert t[k] in s;
    }
  }

  /** The amounts any feasible plan takes, one per batch of the ordered pool. */
  ghost predicate Feasible(s: seq<BatchAvailability>, reserved: map<nat, int>, amounts: seq<nat>) {
    |amounts| == |s| && forall i :: 0 <= i < |s| ==> amounts[i] <= Free(s[i], reserved)
  }

  function SumOf(amounts: seq<nat>): nat {
    if amounts == [] then 0 else SumOf(amounts[..|amounts| - 1]) + amounts[|amounts| - 1]
  }

  lemma {:induction false} FeasiblePrefixBound(s: seq<BatchAvailability>, reserved: map<nat, int>, amounts: seq<nat>, k: nat)
    requires Feasible(s, reserved, amounts) && k <= |s|
    ensures SumOf(amounts[..k]) <= TotalFree(s[..k], reserved)
    ensures SumOf(amounts[..k]) <= SumOf(amounts)
    decreases |s| - k
  {
    if k < |s| {
      FeasiblePrefixBound(s, reserved, amounts, k + 1);
      assert amounts[..k + 1][..k] == amounts[..k];
    } else {
      assert amounts[..k] == amounts;
    }
    PrefixWithinFree(s, reserved, amounts, k);
  }

  lemma {:induction false} PrefixWithinFree(s: seq<BatchAvailability>, reserved: map<nat, int>, amounts: seq<nat>, k: nat)
    requires Feasible(s, reserved, amounts) && k <= |s|
    ensures SumOf(amounts[..k]) <= TotalFree(s[..k], reserved)
  {
    if k > 0 {
      PrefixWithinFree(s, reserved, amounts, k - 1);
      assert amounts[..k][..k - 1] == amounts[..k - 1];
      TotalFreePrefixStep(s, reserved, k - 1);
      assert s[..k - 1 + 1] == s[..k];
    }
  }

  /** FEFO: from every prefix of the expiry order a plan takes min(request, free stock of the prefix). */
  lemma PlanFillsPrefixes(batches: seq<BatchAvailability>, requested: int, reserved: map<nat, int>, k: nat)
    requires DistinctBatches(batches)
    requires Plan(batches, requested, reserved).Ok? && k <= |batches|
    ensures InFefoOrder(Sorted(batches))
    ensures TakenFromPrefix(Plan(batches, requested, reserved).value, Sorted(batches), k)
         == Min(requested, TotalFree(Sorted(batches)[..k], reserved))
  {
    SortedIsInFefoOrder(batches);
    SortedKeepsDistinct(batches);
    GreedyPrefix(Sorted(batches), reserved, requested, k);
  }

  /** FEFO optimality: what the plan takes from a prefix of the expiry order, no feasible way of meeting
      the request exceeds. */
  lemma PlanIsFefoOptimal(batches: seq<BatchAvailability>, requested: int, reserved: map<nat, int>,
                          amounts: seq<nat>, k: nat)
    requires DistinctBatches(batches)
    requires Plan(batches, requested, reserved).Ok?
    requires Feasible(Sorted(batches), reserved, amounts) && SumOf(amounts) == requested
    requires k <= |batches|
    ensures InFefoOrder(Sorted(batches))
    ensures TakenFromPrefix(Plan(batches, requested, reserved).value, Sorted(batches), k)
         == Min(requested, TotalFree(Sorted(batches)[..k], reserved))
    ensures SumOf(amounts[..k]) <= TakenFromPrefix(Plan(batches, requested, reserved).value, Sorted(batches), k)
  {
    PlanFillsPrefixes(batches, requested, reserved, k);
    FeasiblePrefixBound(Sorted(batches), reserved, amounts, k);
  }

  /** First expired, first out, batch by batch: a plan that takes anything from a batch has emptied
      every batch that expires before it; at equal dates every batch with the smaller code, and at
      equal codes every batch with the smaller key. */
  lemma EarlierStockIsTakenFirst(batches: seq<BatchAvailability>, requested: int, reserved: map<nat, int>, i: nat, j: nat)
    requires DistinctBatches(batches) && Plan(batches, requested, reserved).Ok?
    requires i < |batches| && j < |batches|
    requires var a, b := batches[i], batches[j];
             || a.bestBefore < b.bestBefore
             || (a.bestBefore == b.bestBefore && CodeBefore(a.batchCode, b.batchCode))
             || (a.bestBefore == b.bestBefore && a.batchCode == b.batchCode && a.batchPk < b.batchPk)
    requires Taken(Plan(batches, requested, reserved).value, batches[j].batchPk) > 0
    ensures Taken(Plan(batches, requested, reserved).value, batches[i].batchPk)
         == Max(batches[i].physicalQuantity - (if batches[i].batchPk in reserved then reserved[batches[i].batchPk] else 0), 0)
  {
    hide CodeLess, CodeBefore, Greedy, Taken, TotalFree, Plan, Sorted;
    CodeLessIsLexicographic(batches[i].batchCode, batches[j].batchCode);
    EarlierIsStrictTotal(batches[i], batches[j], batches[j]);
    PlanIsGreedy(batches, requested, reserved);
    SortedKeepsDistinct(batches);
    var ki, kj := EarlierComesFirst(batches, i, j);
    hide Earlier;
    var s := Sorted(batches);
    GreedyTakes(s, reserved, requested, ki);
    GreedyTakes(s, reserved, requested, kj);
    TotalFreePrefixStep(s, reserved, ki);
    PrefixesGrow(s, reserved, ki + 1, kj);
  }

  lemma PlanIsGreedy(batches: seq<BatchAvailability>, requested: int, reserved: map<nat, int>)
    requires Plan(batches, requested, reserved).Ok?
    ensures requested > 0 && Plan(batches, requested, reserved).value == Greedy(Sorted(batches), reserved, requested)
  {
  }

  lemma EarlierComesFirst(batches: seq<BatchAvailability>, i: nat, j: nat) returns (ki: nat, kj: nat)
    requires i < |batches| && j < |batches| && Earlier(batches[i], batches[j]) && !Earlier(batches[j], batches[i])
    ensures ki < kj < |Sorted(batches)| && Sorted(batches)[ki] == batches[i] && Sorted(batches)[kj] == batches[j]
  {
    hide Earlier, Sorted;
    var s := Sorted(batches);
    SortedIsInFefoOrder(batches);
    SameElements(batches, s);
    assert batches[i] in s && batches[j] in s;
    ki :| 0 <= ki < |s| && s[ki] == batches[i];
    kj :| 0 <= kj < |s| && s[kj] == batches[j];
  }

  /** A later pick comes from a later batch of the ordered pool. */
  lemma {:induction false} GreedyFollowsPool(s: seq<BatchAvailability>, reserved: map<nat, int>, q: nat, i: nat, j: nat)
    returns (m: nat, n: nat)
    requires i < j < |Greedy(s, reserved, q)|
    ensures m < n < |s|
    ensures s[m].batchPk == Greedy(s, reserved, q)[i].batchPk && s[n].batchPk == Greedy(s, reserved, q)[j].batchPk
  {
    var f := Free(s[0], reserved);
    if f != 0 && i == 0 {
      m := 0;
      n := GreedyAt(s[1..], reserved, q - Min(f, q), j - 1);
      n := n + 1;
    } else {
      var skipped := if f == 0 then 0 else 1;
      m, n := GreedyFollowsPool(s[1..], reserved, q - Min(f, q), i - skipped, j - skipped);
      m, n := m + 1, n + 1;
    }
  }

  lemma {:induction false} GreedyAt(s: seq<BatchAvailability>, reserved: map<nat, int>, q: nat, i: nat) returns (m: nat)
    requires i < |Greedy(s, reserved, q)|
    ensures m < |s| && s[m].batchPk == Greedy(s, reserved, q)[i].batchPk
  {
    var f := Free(s[0], reserved);
    if f != 0 && i == 0 {
      m := 0;
    } else {
      m := GreedyAt(s[1..], reserved, q - Min(f, q), if f == 0 then i else i - 1);
      m := m + 1;
    }
  }

  /** The picks themselves are listed in the order of expiry date, code and key. */
  lemma PicksAreInOrder(batches: seq<BatchAvailability>, requested: int, reserved: map<nat, int>, i: nat, j: nat)
    returns (a: BatchAvailability, b: BatchAvailability)
    requires DistinctBatches(batches) && Plan(batches, requested, reserved).Ok?
    requires i < j < |Plan(batches, requested, reserved).value|
    ensures a in batches && a.batchPk == Plan(batches, requested, reserved).value[i].batchPk
    ensures b in batches && b.batchPk == Plan(batches, requested, reserved).value[j].batchPk
    ensures || a.bestBefore < b.bestBefore
            || (a.bestBefore == b.bestBefore && CodeBefore(a.batchCode, b.batchCode))
            || (a.bestBefore == b.bestBefore && a.batchCode == b.batchCode && a.batchPk < b.batchPk)
  {
    hide CodeLess, CodeBefore, Greedy, Plan, Sorted;
    var s := Sorted(batches);
    PlanIsGreedy(batches, requested, reserved);
    SortedIsInFefoOrder(batches);
    SortedKeepsDistinct(batches);
    SameElements(batches, s);
    var m, n := GreedyFollowsPool(s, reserved, requested, i, j);
    a, b := s[m], s[n];
    EarlierIsStrictTotal(a, b, b);
    CodeLessIsLexicographic(a.batchCode, b.batchCode);
  }

  lemma {:induction false} PrefixesGrow(s: seq<BatchAvailability>, reserved: map<nat, int>, m: nat, n: nat)
    requires m <= n <= |s|
    ensures TotalFree(s[..m], reserved) <= TotalFree(s[..n], reserved)
  {
    if m < n {
      PrefixesGrow(s, reserved, m, n - 1);
      TotalFreePrefixStep(s, reserved, n - 1);
      assert s[..n - 1 + 1] == s[..n];
    }
  }

  /** The invalid requests, and the answer for an empty pool. */
  lemma PlanRefusesInvalidInput(batches: seq<BatchAvailability>, requested: int, reserved: map<nat, int>)
    ensures Plan(batches, requested, reserved) == Err(InvalidReservationPlan) <==>
              || requested <= 0
              || (batches != [] && (
                  || (exists i, j :: 0 <= i < |batches| && 0 <= j < |batches| && batches[i].productId != batches[j].productId)
                  || (exists i :: 0 <= i < |batches| && batches[i].physicalQuantity < 0)
                  || (exists k :: k in reserved && reserved[k] < 0)))
    ensures requested > 0 ==> Plan([], requested, reserved) == Err(InsufficientReservationCapacity(requested, 0, requested))
  {
  }

  /** The order in which the caller lists the batches does not matter. */
  lemma PlanIgnoresInputOrder(a: seq<BatchAvailability>, b: seq<BatchAvailability>, requested: int, reserved: map<nat, int>)
    requires DistinctBatches(a) && multiset(a) == multiset(b)
    ensures Plan(a, requested, reserved) == Plan(b, requested, reserved)
  {
    SameElements(a, b);
    assert |multiset(a)| == |a| && |multiset(b)| == |b|;
    SortedIsInFefoOrder(a);
    SortedIsInFefoOrder(b);
    SortedKeepsDistinct(a);
    FefoOrderIsUnique(Sorted(a), Sorted(b));
    SameValidity(a, b);
    SameValidity(b, a);
  }

  lemma SameValidity(a: seq<BatchAvailability>, b: seq<BatchAvailability>)
    requires forall i :: 0 <= i < |b| ==> b[i] in a
    ensures OneProduct(a) ==> OneProduct(b)
    ensures HasNegativeStock(b) ==> HasNegativeStock(a)
  {
    if OneProduct(a) {
      forall i, j | 0 <= i < |b| && 0 <= j < |b| ensures b[i].productId == b[j].productId {
        assert b[i] in a && b[j] in a;
      }
    }
    if HasNegativeStock(b) {
      var i :| 0 <= i < |b| && b[i].physicalQuantity < 0;
      assert b[i] in a;
    }
  }

  // ---------- Two requests on one pool ----------

  /** The reserved map after a first plan's picks have become reservations. */
  function WithPicks(reserved: map<nat, int>, picks: seq<BatchPick>): map<nat, int> {
    map k | k in reserved.Keys + PickKeys(picks) :: GetOrZero(reserved, k) + Taken(picks, k)
  }

  function PickKeys(picks: seq<BatchPick>): set<nat> {
    set i | 0 <= i < |picks| :: picks[i].batchPk
  }

  lemma {:induction false} TakenOutsideKeys(picks: seq<BatchPick>, pk: nat)
    requires pk !in PickKeys(picks)
    ensures Taken(picks, pk) == 0
  {
    if picks != [] {
      assert picks[0].batchPk in PickKeys(picks);
      forall i | 0 <= i < |picks[1..]| ensures picks[1..][i].batchPk in PickKeys(picks) {
        assert picks[1..][i] == picks[i + 1];
      }
      TakenOutsideKeys(picks[1..], pk);
    }
  }

  lemma GetAfterPicks(reserved: map<nat, int>, picks: seq<BatchPick>, pk: nat)
    ensures GetOrZero(WithPicks(reserved, picks), pk) == GetOrZero(reserved, pk) + Taken(picks, pk)
  {
    if pk !in PickKeys(picks) {
      TakenOutsideKeys(picks, pk);
    }
  }

  lemma FreeDrops(b: BatchAvailability, reserved: map<nat, int>, picks: seq<BatchPick>)
    requires b.physicalQuantity >= 0 && Taken(picks, b.batchPk) <= Free(b, reserved)
    ensures Free(b, WithPicks(reserved, picks)) == Free(b, reserved) - Taken(picks, b.batchPk)
  {
    hide WithPicks, Taken;
    GetAfterPicks(reserved, picks, b.batchPk);
  }

  lemma {:induction false} FreeAfterFirst(s: seq<BatchAvailability>, reserved: map<nat, int>, q: nat, k: nat)
    requires DistinctBatches(s) && k <= |s| && q <= TotalFree(s, reserved)
    requires forall i :: 0 <= i < |s| ==> s[i].physicalQuantity >= 0
    ensures TotalFree(s[..k], WithPicks(reserved, Greedy(s, reserved, q)))
         == TotalFree(s[..k], reserved) - Min(q, TotalFree(s[..k], reserved))
  {
    hide Greedy, Taken, TotalFree, WithPicks, Free, DistinctBatches;
    var after := WithPicks(reserved, Greedy(s, reserved, q));
    if k == 0 {
      assert s[..0] == [];
      NothingFree(reserved);
      NothingFree(after);
    } else {
      FreeAfterFirst(s, reserved, q, k - 1);
      TotalFreePrefixStep(s, reserved, k - 1);
      TotalFreePrefixStep(s, after, k - 1);
      assert s[..k - 1 + 1] == s[..k];
      GreedyTakes(s, reserved, q, k - 1);
      FreeDrops(s[k - 1], reserved, Greedy(s, reserved, q));
    }
  }

  lemma PicksKeepReservedNonNegative(reserved: map<nat, int>, picks: seq<BatchPick>)
    requires !HasNegative(reserved)
    ensures !HasNegative(WithPicks(reserved, picks))
  {
  }

  lemma TakenComposes(s: seq<BatchAvailability>, q1: nat, q2: nat, reserved: map<nat, int>, pk: nat)
    requires DistinctBatches(s) && q1 + q2 <= TotalFree(s, reserved)
    requires forall i :: 0 <= i < |s| ==> s[i].physicalQuantity >= 0
    ensures Taken(Greedy(s, reserved, q1 + q2), pk)
         == Taken(Greedy(s, reserved, q1), pk)
          + Taken(Greedy(s, WithPicks(reserved, Greedy(s, reserved, q1)), q2), pk)
  {
    hide Greedy, Taken, TotalFree, WithPicks, Free;
    var after := WithPicks(reserved, Greedy(s, reserved, q1));
    if k :| 0 <= k < |s| && s[k].batchPk == pk {
      GreedyTakes(s, reserved, q1 + q2, k);
      GreedyTakes(s, reserved, q1, k);
      GreedyTakes(s, after, q2, k);
      FreeAfterFirst(s, reserved, q1, k);
      FreeAfterFirst(s, reserved, q1, k + 1);
    } else {
      TakenNothingElsewhere(s, reserved, q1 + q2, pk);
      TakenNothingElsewhere(s, reserved, q1, pk);
      TakenNothingElsewhere(s, after, q2, pk);
    }
  }

  /** Planning q1, turning its picks into reservations and planning q2 takes from every batch what
      planning q1 + q2 at once takes, and succeeds exactly when that does. */
  lemma PlanningComposes(batches: seq<BatchAvailability>, q1: pos, q2: pos, reserved: map<nat, int>)
    requires DistinctBatches(batches) && ValidInput(batches, q1, reserved)
    ensures Plan(batches, q1 + q2, reserved).Ok? <==>
              && Plan(batches, q1, reserved).Ok?
              && Plan(batches, q2, WithPicks(reserved, Plan(batches, q1, reserved).value)).Ok?
    ensures Plan(batches, q1 + q2, reserved).Ok? ==>
              forall pk :: Taken(Plan(batches, q1 + q2, reserved).value, pk)
                        == Taken(Plan(batches, q1, reserved).value, pk)
                         + Taken(Plan(batches, q2, WithPicks(reserved, Plan(batches, q1, reserved).value)).value, pk)
  {
    var s := Sorted(batches);
    PlanIsExact(batches, q1, reserved);
    PlanIsExact(batches, q1 + q2, reserved);
    if q1 <= TotalFree(batches, reserved) {
      TotalFreeOfSorted(batches, reserved);
      var picks := Greedy(s, reserved, q1);
      SecondPlanSucceeds(batches, q1, q2, reserved);
      if q1 + q2 <= TotalFree(batches, reserved) {
        forall pk: nat ensures Taken(Greedy(s, reserved, q1 + q2), pk)
                            == Taken(picks, pk) + Taken(Greedy(s, WithPicks(reserved, picks), q2), pk) {
          SortedStock(batches);
          SortedKeepsDistinct(batches);
          TakenComposes(s, q1, q2, reserved, pk);
        }
      }
    }
  }

  lemma SortedStock(batches: seq<BatchAvailability>)
    requires !HasNegativeStock(batches)
    ensures forall i :: 0 <= i < |Sorted(batches)| ==> Sorted(batches)[i].physicalQuantity >= 0
  {
    SameElements(batches, Sorted(batches));
  }

  lemma SecondPlanSucceeds(batches: seq<BatchAvailability>, q1: pos, q2: pos, reserved: map<nat, int>)
    requires DistinctBatches(batches) && ValidInput(batches, q1, reserved) && q1 <= TotalFree(batches, reserved)
    ensures var after := WithPicks(reserved, Greedy(Sorted(batches), reserved, q1));
            && (Plan(batches, q2, after).Ok? <==> q1 + q2 <= TotalFree(batches, reserved))
            && (Plan(batches, q2, after).Ok? ==> Plan(batches, q2, after).value == Greedy(Sorted(batches), after, q2))
  {
    var s := Sorted(batches);
    var picks := Greedy(s, reserved, q1);
    var after := WithPicks(reserved, picks);
    TotalFreeOfSorted(batches, reserved);
    TotalFreeOfSorted(batches, after);
    PicksKeepReservedNonNegative(reserved, picks);
    SortedStock(batches);
    SortedKeepsDistinct(batches);
    FreeAfterFirst(s, reserved, q1, |s|);
    assert s[..|s|] == s;
    PlanIsExact(batches, q2, after);
  }
}
