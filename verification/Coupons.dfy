/**
 Coupons, snapshots and the treasury of one bond, as values: when each instruction succeeds, what
 it leaves behind, and what holds over every run. `h` is the hash the snapshot roots are made with.
 */
module Coupons {
  import opened Numbers
  import opened Merkle
  import opened Payout

  datatype Coupon = Coupon(
    snapshotId: u64, periodStart: i64, periodEnd: i64, paymentDate: i64,
    rate: Option<u64>, rateDecimals: Option<u8>)

  datatype BondTerms = BondTerms(
    rate: u64, rateDecimals: u8, parValue: u64, parDecimals: u8, dayCount: DayCount)

  datatype TreasuryConfig = TreasuryConfig(paymentMint: Pubkey, paymentDecimals: u8, lockedFor: u64)

  datatype PaidKey = PaidKey(couponId: nat, account: Pubkey)

  datatype Book = Book(
    bondDecimals: u8, couponCount: u64, snapshotCount: u64,
    coupons: map<nat, Coupon>, roots: map<nat, Digest>,
    bond: Option<BondTerms>, treasury: Option<TreasuryConfig>, paid: map<PaidKey, u64>)

  datatype Action =
    | CreateCoupon(id: u64, periodStart: i64, periodEnd: i64, paymentDate: i64,
                   rate: Option<u64>, rateDecimals: Option<u8>, root: Digest)
    | SetCouponRate(id: u64, rate: Option<u64>, rateDecimals: Option<u8>)
    | SetBondTerms(terms: BondTerms)
    | SetPaymentToken(mint: Pubkey, decimals: u8)
    | PayCoupon(id: u64, account: Pubkey, balance: u64, proof: seq<Digest>, now: i64)

  // ---------- When an action succeeds and what it leaves ----------

  predicate PeriodOk(c: Coupon) { 0 < c.periodEnd - c.periodStart <= I64_MAX }

  /** The terms a coupon is paid under: its own rate if it has one, the bond's otherwise. */
  function TermsOf(b: Book, c: Coupon): Terms
    requires b.bond.Some? && b.treasury.Some? && PeriodOk(c)
  {
    var bond := b.bond.value;
    var own := c.rate.Some? && c.rateDecimals.Some?;
    Terms(if own then c.rate.value else bond.rate, if own then c.rateDecimals.value else bond.rateDecimals,
          bond.parValue, bond.parDecimals, b.bondDecimals, b.treasury.value.paymentDecimals,
          c.periodEnd - c.periodStart, bond.dayCount)
  }

  predicate Payable(b: Book, id: u64) {
    && id in b.coupons && b.bond.Some? && b.treasury.Some?
    && b.coupons[id].snapshotId in b.roots && PeriodOk(b.coupons[id])
  }

  predicate Can(h: Hash, b: Book, a: Action) {
    match a
    case CreateCoupon(id, start, end, payment, rate, decimals, _) =>
      && start < end < payment
      && id == b.couponCount + 1
      && rate.Some? == decimals.Some?
    case SetCouponRate(id, rate, decimals) => id in b.coupons && rate.Some? == decimals.Some?
    case SetBondTerms(_) => true
    case SetPaymentToken(_, _) =>
      b.treasury.None? || b.treasury.value.lockedFor == 0 || b.couponCount == 0
      || b.treasury.value.lockedFor < b.couponCount
    case PayCoupon(id, account, balance, proof, now) =>
      && Payable(b, id)
      && var c := b.coupons[id];
      && now >= c.paymentDate
      && PaidKey(id, account) !in b.paid
      && Fold(h, proof, account, balance) == b.roots[c.snapshotId]
      && Fits(TermsOf(b, c), balance)
  }

  function Do(h: Hash, b: Book, a: Action): Book
    requires Can(h, b, a)
  {
    match a
    case CreateCoupon(id, start, end, payment, rate, decimals, root) =>
      b.(couponCount := id, snapshotCount := id,
         coupons := b.coupons[id := Coupon(id - 1, start, end, payment, rate, decimals)],
         roots := b.roots[id - 1 := root])
    case SetCouponRate(id, rate, decimals) =>
      b.(coupons := b.coupons[id := b.coupons[id].(rate := rate, rateDecimals := decimals)])
    case SetBondTerms(terms) => b.(bond := Some(terms))
    case SetPaymentToken(mint, decimals) =>
      b.(treasury := Some(TreasuryConfig(mint, decimals, Lock(b))))
    case PayCoupon(id, account, balance, _, _) =>
      b.(paid := b.paid[PaidKey(id, account) := Due(TermsOf(b, b.coupons[id]), balance)],
         treasury := Some(b.treasury.value.(lockedFor := id)))
  }

  predicate Initial(b: Book) {
    && b.couponCount == 0 && b.snapshotCount == 0 && b.coupons == map[] && b.roots == map[]
    && b.treasury.None? && b.paid == map[]
  }

  /** Perform the actions in order; `None` if one of them fails. */
  function Run(h: Hash, b: Book, steps: seq<Action>): Option<Book> {
    if |steps| == 0 then Some(b) else
      var before := Run(h, b, steps[..|steps| - 1]);
      var last := steps[|steps| - 1];
      if before.Some? && Can(h, before.value, last) then Some(Do(h, before.value, last)) else None
  }

  /** One more action at the end of a run. */
  lemma RunExtends(h: Hash, b: Book, steps: seq<Action>, a: Action)
    requires Run(h, b, steps).Some? && Can(h, Run(h, b, steps).value, a)
    ensures Run(h, b, steps + [a]) == Some(Do(h, Run(h, b, steps).value, a))
  {
    assert (steps + [a])[..|steps|] == steps;
  }

  /** A run of two parts is the second after the first, and fails if either does. */
  lemma {:induction false} RunAppends(h: Hash, b: Book, steps: seq<Action>, more: seq<Action>)
    ensures Run(h, b, steps + more) ==
            if Run(h, b, steps).Some? then Run(h, Run(h, b, steps).value, more) else None
  {
    if |more| == 0 {
      assert steps + more == steps;
    } else {
      var front := more[..|more| - 1];
      RunAppends(h, b, steps, front);
      assert (steps + more)[..|steps + more| - 1] == steps + front;
    }
  }

  // ---------- Counters, snapshots and rates ----------

  predicate CouponOk(c: Coupon, id: nat) {
    && c.snapshotId == id - 1
    && c.periodStart < c.periodEnd < c.paymentDate
    && c.rate.Some? == c.rateDecimals.Some?
  }

  /** The coupon the payment token is locked for: 0 while nothing was paid. */
  function Lock(b: Book): u64 { if b.treasury.Some? then b.treasury.value.lockedFor else 0 }

  /**
   Both counters agree, coupon n is bound to snapshot n - 1, every root is there, and the payment
   token is locked for no coupon that does not exist.
   */
  ghost predicate Inv(b: Book) {
    && b.couponCount == b.snapshotCount
    && (forall n: nat :: n in b.coupons <==> 1 <= n <= b.couponCount)
    && (forall n: nat :: n in b.roots <==> n < b.snapshotCount)
    && (forall n | n in b.coupons :: CouponOk(b.coupons[n], n))
    && (forall k | k in b.paid :: k.couponId in b.coupons)
    && Lock(b) <= b.couponCount
  }

  lemma StepKeepsInv(h: Hash, b: Book, a: Action)
    requires Inv(b) && Can(h, b, a)
    ensures Inv(Do(h, b, a))
  {
  }

  lemma {:induction false} RunKeepsInv(h: Hash, b: Book, steps: seq<Action>)
    requires Inv(b) && Run(h, b, steps).Some?
    ensures Inv(Run(h, b, steps).value)
  {
    if |steps| > 0 {
      var front := steps[..|steps| - 1];
      RunKeepsInv(h, b, front);
      StepKeepsInv(h, Run(h, b, front).value, steps[|steps| - 1]);
    }
  }

  /** Distinct coupons never share a snapshot. */
  lemma CouponsHaveOwnRoots(h: Hash, start: Book, steps: seq<Action>, m: nat, n: nat)
    requires Initial(start) && Run(h, start, steps).Some?
    ensures var b := Run(h, start, steps).value;
            && b.couponCount == b.snapshotCount
            && (m in b.coupons && n in b.coupons && m != n ==>
                  && b.coupons[m].snapshotId in b.roots && b.coupons[n].snapshotId in b.roots
                  && b.coupons[m].snapshotId != b.coupons[n].snapshotId)
  {
    RunKeepsInv(h, start, steps);
  }

  /** What was written once stays: roots, the coupon's dates and snapshot, and paid markers. */
  ghost predicate Keeps(b: Book, b': Book) {
    && (forall n | n in b.roots :: n in b'.roots && b'.roots[n] == b.roots[n])
    && (forall n | n in b.coupons ::
          && n in b'.coupons
          && b'.coupons[n] == b.coupons[n].(rate := b'.coupons[n].rate, rateDecimals := b'.coupons[n].rateDecimals))
    && (forall k | k in b.paid :: k in b'.paid && b'.paid[k] == b.paid[k])
  }

  lemma StepKeeps(h: Hash, b: Book, a: Action)
    requires Inv(b) && Can(h, b, a)
    ensures Keeps(b, Do(h, b, a))
  {
  }

  lemma {:induction false} RunKeeps(h: Hash, b: Book, steps: seq<Action>)
    requires Inv(b) && Run(h, b, steps).Some?
    ensures Keeps(b, Run(h, b, steps).value)
  {
    if |steps| > 0 {
      var front := steps[..|steps| - 1];
      RunKeeps(h, b, front);
      RunKeepsInv(h, b, front);
      StepKeeps(h, Run(h, b, front).value, steps[|steps| - 1]);
    }
  }

  // ---------- The elapsed-time check ----------

  /**
   A coupon that `create_coupon` accepted never has a period that is zero or negative, but its
   length can still pass the largest i64: exactly then `pay_coupon` answers "negative elapsed time".
   */
  lemma PeriodOkExactly(h: Hash, start: Book, steps: seq<Action>, id: nat)
    requires Initial(start) && Run(h, start, steps).Some? && id in Run(h, start, steps).value.coupons
    ensures var c := Run(h, start, steps).value.coupons[id];
            && c.periodEnd - c.periodStart > 0
            && (PeriodOk(c) <==> c.periodEnd - c.periodStart <= I64_MAX)
  {
    RunKeepsInv(h, start, steps);
  }

  /** A payment that gets as far as the elapsed time of a coupon whose period is too long. */
  predicate NegativeElapsed(h: Hash, b: Book, id: u64, account: Pubkey, balance: u64, proof: seq<Digest>, now: i64) {
    && id in b.coupons && b.bond.Some? && b.treasury.Some?
    && now >= b.coupons[id].paymentDate && PaidKey(id, account) !in b.paid
    && b.coupons[id].snapshotId in b.roots
    && Fold(h, proof, account, balance) == b.roots[b.coupons[id].snapshotId]
    && b.coupons[id].periodEnd - b.coupons[id].periodStart > I64_MAX
  }

  /** Dates that creation accepts, after which a proven payment is refused at any time after 1970. */
  lemma OverlongPeriodAccepted(h: Hash, start: Book, terms: BondTerms, mint: Pubkey, decimals: u8,
                               account: Pubkey, balance: u64, now: i64)
    requires Initial(start) && now >= 1
    ensures var create := CreateCoupon(1, I64_MIN, 0, 1, None, None, h(LeafBytes(account, balance)));
            var b := Run(h, start, [create] + [SetBondTerms(terms)] + [SetPaymentToken(mint, decimals)]);
            b.Some? && NegativeElapsed(h, b.value, 1, account, balance, [], now)
  {
    var create := CreateCoupon(1, I64_MIN, 0, 1, None, None, h(LeafBytes(account, balance)));
    assert [] + [create] == [create];
    RunExtends(h, start, [], create);
    RunExtends(h, start, [create], SetBondTerms(terms));
    RunExtends(h, start, [create] + [SetBondTerms(terms)], SetPaymentToken(mint, decimals));
  }

  // ---------- The payment-token lock ----------

  /** The coupon paid last in the run, or `locked` if it pays none. */
  function LastPaid(steps: seq<Action>, locked: u64): u64 {
    if |steps| == 0 then locked else
      var last := steps[|steps| - 1];
      if last.PayCoupon? then last.id else LastPaid(steps[..|steps| - 1], locked)
  }

  function Creations(steps: seq<Action>): nat {
    if |steps| == 0 then 0 else
      Creations(steps[..|steps| - 1]) + if steps[|steps| - 1].CreateCoupon? then 1 else 0
  }

  lemma {:induction false} LockAndCount(h: Hash, b: Book, steps: seq<Action>)
    requires Run(h, b, steps).Some?
    ensures Lock(Run(h, b, steps).value) == LastPaid(steps, Lock(b))
    ensures Run(h, b, steps).value.couponCount == b.couponCount + Creations(steps)
  {
    if |steps| > 0 { LockAndCount(h, b, steps[..|steps| - 1]); }
  }

  /**
   After any run the payment token can be changed if and only if no coupon was ever paid or the one
   paid last is older than the newest coupon. What else was paid, and when, does not matter.
   */
  lemma LockExactly(h: Hash, b: Book, steps: seq<Action>, mint: Pubkey, decimals: u8)
    requires Inv(b) && Run(h, b, steps).Some?
    ensures var last := LastPaid(steps, Lock(b));
            Can(h, Run(h, b, steps).value, SetPaymentToken(mint, decimals)) <==>
              last == 0 || last < b.couponCount + Creations(steps)
  {
    RunKeepsInv(h, b, steps);
    LockAndCount(h, b, steps);
  }

  lemma {:induction false} NoCreations(steps: seq<Action>)
    requires forall n | 0 <= n < |steps| :: !steps[n].CreateCoupon?
    ensures Creations(steps) == 0
  {
    if |steps| > 0 { NoCreations(steps[..|steps| - 1]); }
  }

  /**
   Once the newest coupon is being paid and while no coupon is created, the payment token can be
   changed if and only if the last payment was of an older coupon; and while none is, it is not.
   */
  lemma {:induction false} LockHolds(h: Hash, b: Book, steps: seq<Action>, mint: Pubkey, decimals: u8)
    requires Inv(b) && Lock(b) == b.couponCount > 0 && Run(h, b, steps).Some?
    requires forall n | 0 <= n < |steps| :: !steps[n].CreateCoupon?
    ensures var t := Run(h, b, steps).value;
            && t.couponCount == b.couponCount
            && (Can(h, t, SetPaymentToken(mint, decimals)) <==> LastPaid(steps, b.couponCount) < b.couponCount)
            && ((forall n | 0 <= n < |steps| && steps[n].PayCoupon? :: steps[n].id == b.couponCount) ==>
                  t.treasury == b.treasury)
  {
    NoCreations(steps);
    LockAndCount(h, b, steps);
    if |steps| > 0 {
      LockHolds(h, b, steps[..|steps| - 1], mint, decimals);
    }
  }

  /** A payment leaves the payment token changeable if and only if it is not of the newest coupon. */
  lemma OlderPaymentUnlocks(h: Hash, b: Book, pay: Action, mint: Pubkey, decimals: u8)
    requires Inv(b) && pay.PayCoupon? && Can(h, b, pay)
    ensures Can(h, Do(h, b, pay), SetPaymentToken(mint, decimals)) <==> pay.id < b.couponCount
  {
  }
}
