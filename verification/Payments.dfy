/** Payment attempts (payments/services.py, payments/models.py) and order totals (orders/models.py). */
module Payments {
  import opened Common
  import opened Records
  import opened Storage

  function LineTotal(row: LineRow): Option<nat> {
    match row.unitPrice
    case None => None
    case Some(price) =>
      assert price * row.quantity >= 0;
      Some(price * row.quantity)
  }

  /** Order.total over the lines with key below n: None as soon as one line is unpriced. */
  function TotalBelow(lines: Lines, n: nat, o: nat): Option<nat> {
    if n == 0 then Some(0)
    else
      match TotalBelow(lines, n - 1, o)
      case None => None
      case Some(t) =>
        if n - 1 in lines && lines[n - 1].order == o then
          match LineTotal(lines[n - 1])
          case None => None
          case Some(x) => Some(t + x)
        else Some(t)
  }

  function OrderTotal(db: Db, o: nat): Option<nat> {
    TotalBelow(db.lines, db.nextLine, o)
  }

  lemma {:induction false} SameTotal(lines: Lines, lines': Lines, n: nat, o: nat)
    requires forall l :: 0 <= l < n ==> ((l in lines && lines[l].order == o) <==> (l in lines' && lines'[l].order == o))
    requires forall l :: 0 <= l < n && l in lines && lines[l].order == o ==> l in lines' && lines'[l] == lines[l]
    ensures TotalBelow(lines, n, o) == TotalBelow(lines', n, o)
  {
    if n > 0 {
      SameTotal(lines, lines', n - 1, o);
    }
  }

  lemma {:induction false} TotalBelowBeyond(lines: Lines, n: nat, m: nat, o: nat)
    requires n <= m && forall l :: l in lines ==> l < n
    ensures TotalBelow(lines, m, o) == TotalBelow(lines, n, o)
  {
    if n < m {
      TotalBelowBeyond(lines, n, m - 1, o);
    }
  }

  /** order.total: the loop over the order's lines that gives up at the first unpriced line. */
  method ComputeOrderTotal(store: Database, o: nat) returns (total: Option<nat>)
    ensures total == OrderTotal(store.Contents(), o)
  {
    var sum: nat := 0;
    for l := 0 to store.nextLine
      invariant TotalBelow(store.lines, l, o) == Some(sum)
    {
      if l in store.lines && store.lines[l].order == o {
        match LineTotal(store.lines[l]) {
          case None =>
            UnpricedStays(store.lines, l + 1, store.nextLine, o);
            return None;
          case Some(x) =>
            sum := sum + x;
        }
      }
    }
    return Some(sum);
  }

  lemma {:induction false} UnpricedStays(lines: Lines, n: nat, m: nat, o: nat)
    requires n <= m && TotalBelow(lines, n, o).None?
    ensures TotalBelow(lines, m, o).None?
  {
    if n < m {
      UnpricedStays(lines, n, m - 1, o);
    }
  }

  /** An order has a total exactly when each of its lines has a price, and it is the sum of price times
      quantity over its lines. */
  lemma OrderTotalIsSum(db: Db, o: nat)
    requires forall l :: l in db.lines ==> l < db.nextLine
    ensures OrderTotal(db, o).Some? <==> forall l :: l in db.lines && db.lines[l].order == o ==> db.lines[l].unitPrice.Some?
    ensures OrderTotal(db, o).Some? ==>
              OrderTotal(db, o).value
              == Sum(db.nextLine, (l: nat) => if l in db.lines && db.lines[l].order == o && db.lines[l].unitPrice.Some?
                                              then db.lines[l].unitPrice.value * db.lines[l].quantity else 0)
  {
    TotalBelowIsSum(db.lines, db.nextLine, o,
                    (l: nat) => if l in db.lines && db.lines[l].order == o && db.lines[l].unitPrice.Some?
                                then db.lines[l].unitPrice.value * db.lines[l].quantity else 0);
  }

  lemma {:induction false} TotalBelowIsSum(lines: Lines, n: nat, o: nat, f: nat -> int)
    requires forall l: nat :: l < n ==>
               f(l) == if l in lines && lines[l].order == o && lines[l].unitPrice.Some?
                       then lines[l].unitPrice.value * lines[l].quantity else 0
    ensures TotalBelow(lines, n, o).Some? <==> forall l :: l in lines && l < n && lines[l].order == o ==> lines[l].unitPrice.Some?
    ensures TotalBelow(lines, n, o).Some? ==> TotalBelow(lines, n, o).value == Sum(n, f)
  {
    if n > 0 {
      TotalBelowIsSum(lines, n - 1, o, f);
    }
  }

  predicate HasPending(attempts: map<nat, AttemptRow>, o: nat) {
    exists a :: a in attempts && attempts[a].order == o && attempts[a].status.Pending?
  }

  function CreateAttemptSpec(db: Db, o: nat): Result<Db> {
    match OrderTotal(db, o)
    case None => Err(InvalidPaymentAttempt)
    case Some(amount) =>
      if amount <= 0 || HasPending(db.attempts, o) then Err(InvalidPaymentAttempt)
      else Ok(db.(attempts := db.attempts[db.nextAttempt := AttemptRow(o, amount, Pending, "", "")],
                  nextAttempt := db.nextAttempt + 1))
  }

  method CreatePaymentAttempt(store: Database, o: nat) returns (r: Result<()>)
    modifies store`attempts, store`nextAttempt
    ensures r == Reply(CreateAttemptSpec(old(store.Contents()), o))
    ensures store.Contents() == Committed(old(store.Contents()), CreateAttemptSpec(old(store.Contents()), o))
    ensures r.Err? ==> r.error == InvalidPaymentAttempt
    ensures r.Ok? ==> OrderTotal(old(store.Contents()), o).Some?
                      && store.nextAttempt == old(store.nextAttempt) + 1 && old(store.nextAttempt) in store.attempts
                      && store.attempts[old(store.nextAttempt)].status == Pending
                      && store.attempts[old(store.nextAttempt)].order == o
                      && store.attempts[old(store.nextAttempt)].amount == OrderTotal(old(store.Contents()), o).value
  {
    var amount := ComputeOrderTotal(store, o);
    if amount.None? {
      return Err(InvalidPaymentAttempt);
    }
    if amount.value <= 0 {
      return Err(InvalidPaymentAttempt);
    }
    if HasPending(store.attempts, o) {
      return Err(InvalidPaymentAttempt);
    }
    store.attempts := store.attempts[store.nextAttempt := AttemptRow(o, amount.value, Pending, "", "")];
    store.nextAttempt := store.nextAttempt + 1;
    return Ok(());
  }

  /** The characters that str.strip() removes: exactly those for which str.isspace() holds. */
  predicate IsBlank(c: char) {
    var u := c as int;
    || 0x09 <= u <= 0x0D || 0x1C <= u <= 0x20 || u == 0x85 || u == 0xA0 || u == 0x1680
    || 0x2000 <= u <= 0x200A || u == 0x2028 || u == 0x2029 || u == 0x202F || u == 0x205F || u == 0x3000
  }

  function StripLeft(s: string): string {
    if s != "" && IsBlank(s[0]) then StripLeft(s[1..]) else s
  }

  function StripRight(s: string): string {
    if s != "" && IsBlank(s[|s| - 1]) then StripRight(s[..|s| - 1]) else s
  }

  /** str.strip() */
  function Strip(s: string): string {
    StripRight(StripLeft(s))
  }

  /** No blank at either end. */
  predicate Trimmed(s: string) {
    s != "" ==> !IsBlank(s[0]) && !IsBlank(s[|s| - 1])
  }

  lemma {:induction false} StripLeftFacts(s: string)
    ensures StripLeft(s) != "" ==> !IsBlank(StripLeft(s)[0])
    ensures |StripLeft(s)| <= |s|
    ensures StripLeft(s) == s <==> s == "" || !IsBlank(s[0])
  {
    if s != "" && IsBlank(s[0]) {
      StripLeftFacts(s[1..]);
    }
  }

  lemma {:induction false} StripRightFacts(s: string)
    ensures StripRight(s) <= s
    ensures StripRight(s) != "" ==> !IsBlank(StripRight(s)[|StripRight(s)| - 1])
    ensures StripRight(s) == s <==> s == "" || !IsBlank(s[|s| - 1])
  {
    if s != "" && IsBlank(s[|s| - 1]) {
      StripRightFacts(s[..|s| - 1]);
    }
  }

  /** strip() leaves a string alone exactly when it has no blank at either end, and its result is
      always such a string. */
  lemma StripIsTrimming(s: string)
    ensures Strip(s) == s <==> Trimmed(s)
    ensures Trimmed(Strip(s))
  {
    StripLeftFacts(s);
    StripRightFacts(StripLeft(s));
    if Strip(s) == s {
      assert |StripLeft(s)| == |s|;
    }
  }

  predicate AllBlank(s: string) {
    forall i :: 0 <= i < |s| ==> IsBlank(s[i])
  }

  lemma {:induction false} StripLeftToNothing(s: string)
    ensures StripLeft(s) == "" <==> AllBlank(s)
  {
    if s != "" && IsBlank(s[0]) {
      StripLeftToNothing(s[1..]);
      assert s == [s[0]] + s[1..];
    }
  }

  /** Nothing is left exactly of the strings that are all blanks. */
  lemma StripsToNothing(s: string)
    ensures Strip(s) == "" <==> AllBlank(s)
  {
    StripLeftToNothing(s);
    StripLeftFacts(s);
    if StripLeft(s) != "" {
      StripRightKeepsFirst(StripLeft(s));
    }
  }

  lemma {:induction false} StripRightKeepsFirst(s: string)
    requires s != "" && !IsBlank(s[0])
    ensures StripRight(s) != ""
  {
    if IsBlank(s[|s| - 1]) {
      StripRightKeepsFirst(s[..|s| - 1]);
    }
  }

  /** Everything outside i..j is blank, and nothing at the ends of i..j is. */
  ghost predicate IsMiddle(s: string, i: nat, j: nat) {
    && i <= j <= |s| && Trimmed(s[i..j])
    && (forall k :: 0 <= k < i ==> IsBlank(s[k])) && (forall k :: j <= k < |s| ==> IsBlank(s[k]))
  }

  lemma {:induction false} StripLeftIs(s: string) returns (i: nat)
    ensures i <= |s| && StripLeft(s) == s[i..] && (i < |s| ==> !IsBlank(s[i]))
    ensures forall k :: 0 <= k < i ==> IsBlank(s[k])
  {
    hide IsBlank;
    i := 0;
    if s != "" && IsBlank(s[0]) {
      var n := StripLeftIs(s[1..]);
      i := n + 1;
      forall k | 0 <= k < i ensures IsBlank(s[k]) {
        assert k > 0 ==> s[k] == s[1..][k - 1];
      }
    }
  }

  lemma {:induction false} StripRightIs(s: string) returns (j: nat)
    ensures j <= |s| && StripRight(s) == s[..j] && (j > 0 ==> !IsBlank(s[j - 1]))
    ensures forall k :: j <= k < |s| ==> IsBlank(s[k])
  {
    hide IsBlank;
    j := |s|;
    if s != "" && IsBlank(s[|s| - 1]) {
      var shorter := s[..|s| - 1];
      j := StripRightIs(shorter);
      forall k | j <= k < |s| ensures IsBlank(s[k]) {
        assert k < |shorter| ==> s[k] == shorter[k];
      }
      assert s[..j] == shorter[..j];
    }
  }

  /** Stripping leaves exactly the part between the blanks at both ends. */
  lemma StripIsMiddle(s: string) returns (i: nat, j: nat)
    ensures IsMiddle(s, i, j) && Strip(s) == s[i..j]
  {
    hide IsBlank;
    i := StripLeftIs(s);
    var t := StripLeft(s);
    var n := StripRightIs(t);
    j := i + n;
    assert s[i..j] == t[..n];
    forall k | j <= k < |s| ensures IsBlank(s[k]) {
      assert t[k - i] == s[k];
    }
    assert n > 0 ==> t[0] == s[i];
  }

  /** Only attempt a differs, and it is still an attempt of its order for the same amount. */
  ghost predicate OnlyAttempt(before: map<nat, AttemptRow>, after: map<nat, AttemptRow>, a: nat)
    requires a in before
  {
    && after.Keys == before.Keys
    && (forall b :: b in before && b != a ==> after[b] == before[b])
    && after[a].order == before[a].order && after[a].amount == before[a].amount
  }

  function MarkSucceededSpec(db: Db, a: nat, transactionId: Option<string>): Result<Db>
    requires a in db.attempts
  {
    var row := db.attempts[a];
    if !row.status.Pending? then Err(InvalidPaymentAttempt)
    else
      match transactionId
      case None => Ok(db.(attempts := db.attempts[a := row.(status := Succeeded)]))
      case Some(id) =>
        if Strip(id) == "" then Err(InvalidPaymentAttempt)
        else Ok(db.(attempts := db.attempts[a := row.(status := Succeeded, providerTransactionId := Strip(id))]))
  }

  method MarkPaymentAttemptSucceeded(store: Database, a: nat, transactionId: Option<string>) returns (r: Result<()>)
    requires a in store.attempts
    modifies store`attempts
    ensures r == Reply(MarkSucceededSpec(old(store.Contents()), a, transactionId))
    ensures store.Contents() == Committed(old(store.Contents()), MarkSucceededSpec(old(store.Contents()), a, transactionId))
    ensures r.Ok? <==> old(store.attempts)[a].status.Pending? && (transactionId.Some? ==> !AllBlank(transactionId.value))
    ensures r.Ok? ==> OnlyAttempt(old(store.attempts), store.attempts, a) && store.attempts[a].status.Succeeded?
                      && store.attempts[a].providerPaymentId == old(store.attempts)[a].providerPaymentId
    ensures r.Ok? && transactionId.Some? ==>
              store.attempts[a].providerTransactionId != "" && Trimmed(store.attempts[a].providerTransactionId)
    ensures r.Ok? && transactionId.Some? && Trimmed(transactionId.value) ==>
              store.attempts[a].providerTransactionId == transactionId.value
    ensures r.Ok? && transactionId.None? ==>
              store.attempts[a].providerTransactionId == old(store.attempts)[a].providerTransactionId
    ensures r.Err? ==> r.error == InvalidPaymentAttempt && store.Contents() == old(store.Contents())
  {
    hide Strip, IsBlank, AllBlank, Trimmed;
    if transactionId.Some? {
      StripIsTrimming(transactionId.value);
      StripsToNothing(transactionId.value);
    }
    var attempt := store.attempts[a];
    if !attempt.status.Pending? {
      return Err(InvalidPaymentAttempt);
    }
    if transactionId.Some? {
      var stripped := Strip(transactionId.value);
      if stripped == "" {
        return Err(InvalidPaymentAttempt);
      }
      attempt := attempt.(providerTransactionId := stripped);
    }
    attempt := attempt.(status := Succeeded);
    store.attempts := store.attempts[a := attempt];
    return Ok(());
  }

  function MarkFailedSpec(db: Db, a: nat): Result<Db>
    requires a in db.attempts
  {
    if !db.attempts[a].status.Pending? then Err(InvalidPaymentAttempt)
    else Ok(db.(attempts := db.attempts[a := db.attempts[a].(status := Failed)]))
  }

  method MarkPaymentAttemptFailed(store: Database, a: nat) returns (r: Result<()>)
    requires a in store.attempts
    modifies store`attempts
    ensures r == Reply(MarkFailedSpec(old(store.Contents()), a))
    ensures store.Contents() == Committed(old(store.Contents()), MarkFailedSpec(old(store.Contents()), a))
    ensures r.Ok? <==> old(store.attempts)[a].status.Pending?
    ensures r.Ok? ==> OnlyAttempt(old(store.attempts), store.attempts, a) && store.attempts[a].status.Failed?
                      && store.attempts[a].providerPaymentId == old(store.attempts)[a].providerPaymentId
                      && store.attempts[a].providerTransactionId == old(store.attempts)[a].providerTransactionId
    ensures r.Err? ==> r.error == InvalidPaymentAttempt && store.Contents() == old(store.Contents())
  {
    if !store.attempts[a].status.Pending? {
      return Err(InvalidPaymentAttempt);
    }
    store.attempts := store.attempts[a := store.attempts[a].(status := Failed)];
    return Ok(());
  }

  /** The second transaction of create_hosted_payment_session, with the provider's id as input; the
      database refuses an id another attempt has. */
  function AttachProviderSpec(db: Db, a: nat, paymentId: string): Result<Db> {
    if a !in db.attempts then Err(DoesNotExist)
    else if !db.attempts[a].status.Pending? || db.attempts[a].providerPaymentId != "" then Err(InvalidPaymentAttempt)
    else if paymentId != "" && exists b :: b in db.attempts && db.attempts[b].providerPaymentId == paymentId then Err(IntegrityError)
    else Ok(db.(attempts := db.attempts[a := db.attempts[a].(providerPaymentId := paymentId)]))
  }

  /** unique_provider_payment_id */
  ghost predicate PaymentIdsDistinct(attempts: map<nat, AttemptRow>) {
    forall a, b :: a in attempts && b in attempts && a != b && attempts[a].providerPaymentId != ""
      ==> attempts[a].providerPaymentId != attempts[b].providerPaymentId
  }

  method PersistProviderPayment(store: Database, a: nat, paymentId: string) returns (r: Result<()>)
    modifies store`attempts
    ensures r == Reply(AttachProviderSpec(old(store.Contents()), a, paymentId))
    ensures store.Contents() == Committed(old(store.Contents()), AttachProviderSpec(old(store.Contents()), a, paymentId))
    ensures r.Ok? <==> && a in old(store.attempts) && old(store.attempts)[a].status.Pending?
                       && old(store.attempts)[a].providerPaymentId == ""
                       && (paymentId == "" || forall b :: b in old(store.attempts) ==> old(store.attempts)[b].providerPaymentId != paymentId)
    ensures r.Ok? ==> OnlyAttempt(old(store.attempts), store.attempts, a) && store.attempts[a].status.Pending?
                      && store.attempts[a].providerPaymentId == paymentId
                      && store.attempts[a].providerTransactionId == old(store.attempts)[a].providerTransactionId
    ensures r.Err? ==> store.Contents() == old(store.Contents())
    ensures r.Err? ==> r.error == if a !in store.attempts then DoesNotExist
                                  else if !store.attempts[a].status.Pending? || store.attempts[a].providerPaymentId != ""
                                  then InvalidPaymentAttempt else IntegrityError
    ensures PaymentIdsDistinct(old(store.attempts)) ==> PaymentIdsDistinct(store.attempts)
  {
    if a !in store.attempts {
      return Err(DoesNotExist);
    }
    var lockedAttempt := store.attempts[a];
    if !lockedAttempt.status.Pending? {
      return Err(InvalidPaymentAttempt);
    }
    if lockedAttempt.providerPaymentId != "" {
      return Err(InvalidPaymentAttempt);
    }
    if paymentId != "" && exists b :: b in store.attempts && store.attempts[b].providerPaymentId == paymentId {
      return Err(IntegrityError);
    }
    store.attempts := store.attempts[a := lockedAttempt.(providerPaymentId := paymentId)];
    return Ok(());
  }
}
