/**
 The coupon, snapshot and treasury handlers, run in their own order of checks and proved against
 `Coupons`. `cleared` is the outcome of the role, pause, activity and functionality gates, and
 `settled` that of the payment token's own transfer.
 */
module Treasury {
  import opened Numbers
  import opened Merkle
  import opened Payout
  import opened Coupons

  datatype Error =
    | NotCleared | AccountNotInitialized | AccountInUse | Unauthorized | TransferFailed
    | InvalidCouponPeriod | InvalidPaymentDate | CouponCounterOverflow | InvalidCouponId
    | SnapshotCounterOverflow | InconsistentRateOverride
    | CouponNotMature | InvalidMerkleProof | NegativeElapsedTime | AmountOverflow | ClaimsInProgress

  /** Who calls `take_snapshot`. */
  datatype Caller = CouponAuthority | Other(key: Pubkey)

  ghost predicate Performed(h: Hash, before: Book, open: bool, a: Action, r: Outcome<Error>, after: Book) {
    && (r.Pass? <==> open && Can(h, before, a))
    && after == (if r.Pass? then Do(h, before, a) else before)
  }

  /** The i64 subtraction of a coupon's dates, checked. */
  function Elapsed(c: Coupon): Option<i64> {
    var d := c.periodEnd - c.periodStart;
    if I64_MIN <= d <= I64_MAX then Some(d) else None
  }

  class Treasury {
    const h: Hash
    const bondDecimals: u8
    var couponCount: u64
    var snapshotCount: u64
    var coupons: map<nat, Coupon>
    var roots: map<nat, Digest>
    var bond: Option<BondTerms>
    var treasury: Option<TreasuryConfig>
    var paid: map<PaidKey, u64>

    function Now(): Book
      reads this
    {
      Book(bondDecimals, couponCount, snapshotCount, coupons, roots, bond, treasury, paid)
    }

    ghost predicate Valid()
      reads this
    {
      Inv(Now())
    }

    constructor (h: Hash, bondDecimals: u8, bond: Option<BondTerms>)
      ensures Valid() && Initial(Now()) && this.h == h
    {
      this.h, this.bondDecimals, this.bond := h, bondDecimals, bond;
      couponCount, snapshotCount, coupons, roots, treasury, paid := 0, 0, map[], map[], None, map[];
    }

    /** Record a root under the counter's current value, then move the counter on. */
    method TakeSnapshot(caller: Caller, root: Digest) returns (r: Outcome<Error>)
      modifies this`snapshotCount, this`roots
      ensures r.Pass? <==>
                caller == CouponAuthority && old(snapshotCount) !in old(roots) && old(snapshotCount) < U64_MAX
      ensures caller != CouponAuthority ==> r.Fail?
      ensures r.Pass? ==> snapshotCount == old(snapshotCount) + 1 && roots == old(roots)[old(snapshotCount) := root]
      ensures r.Fail? ==> unchanged(this)
    {
      r := Pass;
      :- Require(snapshotCount !in roots, AccountInUse);
      :- Require(caller == CouponAuthority, Unauthorized);
      var next := CheckedAdd64(snapshotCount, 1);
      :- Require(next.Some?, SnapshotCounterOverflow);
      roots := roots[snapshotCount := root];
      snapshotCount := next.value;
    }

    method CreateCoupon(cleared: bool, id: u64, start: i64, end: i64, payment: i64,
                        rate: Option<u64>, decimals: Option<u8>, root: Digest)
      returns (r: Outcome<Error>)
      requires Valid()
      modifies this
      ensures Valid()
      ensures var a := Coupons.CreateCoupon(id, start, end, payment, rate, decimals, root);
              Performed(h, old(Now()), cleared, a, r, Now())
    {
      var before := Now();
      :- Require(id !in coupons, AccountInUse);
      :- Require(cleared, NotCleared);
      :- Require(end > start, InvalidCouponPeriod);
      :- Require(payment > end, InvalidPaymentDate);
      var expected := if couponCount == 0 then Some(1) else CheckedAdd64(couponCount, 1);
      :- Require(expected.Some?, CouponCounterOverflow);
      :- Require(id == expected.value, InvalidCouponId);
      // The rate pair is checked last in the program; a failure there undoes all of this.
      :- Require(rate.Some? == decimals.Some?, InconsistentRateOverride);
      couponCount := expected.value;
      var snapshotId := snapshotCount;
      r := TakeSnapshot(CouponAuthority, root);
      coupons := coupons[id := Coupon(snapshotId, start, end, payment, rate, decimals)];
      StepKeepsInv(h, before, Coupons.CreateCoupon(id, start, end, payment, rate, decimals, root));
    }

    method SetCouponRate(cleared: bool, id: u64, rate: Option<u64>, decimals: Option<u8>) returns (r: Outcome<Error>)
      requires Valid()
      modifies this`coupons
      ensures Valid()
      ensures Performed(h, old(Now()), cleared, Coupons.SetCouponRate(id, rate, decimals), r, Now())
    {
      var before := Now();
      :- Require(id in coupons, AccountNotInitialized);
      :- Require(cleared, NotCleared);
      :- Require(rate.Some? == decimals.Some?, InconsistentRateOverride);
      coupons := coupons[id := coupons[id].(rate := rate, rateDecimals := decimals)];
      StepKeepsInv(h, before, Coupons.SetCouponRate(id, rate, decimals));
      return Pass;
    }

    method SetPaymentToken(cleared: bool, mint: Pubkey, decimals: u8) returns (r: Outcome<Error>)
      requires Valid()
      modifies this`treasury
      ensures Valid()
      ensures Performed(h, old(Now()), cleared, Coupons.SetPaymentToken(mint, decimals), r, Now())
    {
      var before := Now();
      :- Require(cleared, NotCleared);
      var locked := if treasury.Some? then treasury.value.lockedFor else 0;
      // The counter's account exists from the first coupon on.
      if locked != 0 && couponCount != 0 {
        :- Require(locked < couponCount, ClaimsInProgress);
      }
      treasury := Some(TreasuryConfig(mint, decimals, locked));
      StepKeepsInv(h, before, Coupons.SetPaymentToken(mint, decimals));
      return Pass;
    }

    /** Check the proof, compute the amount, pay, lock the payment token, leave the marker. */
    method PayCoupon(cleared: bool, settled: bool, id: u64, account: Pubkey, balance: u64,
                     proof: seq<Digest>, now: i64)
      returns (r: Outcome<Error>)
      requires Valid()
      modifies this`treasury, this`paid
      ensures Valid()
      ensures var a := Coupons.PayCoupon(id, account, balance, proof, now);
              Performed(h, old(Now()), cleared && settled, a, r, Now())
      ensures r == Fail(NegativeElapsedTime) <==>
                cleared && NegativeElapsed(h, old(Now()), id, account, balance, proof, now)
    {
      var before := Now();
      :- Require(id in coupons && bond.Some? && treasury.Some?, AccountNotInitialized);
      var coupon := coupons[id];
      :- Require(coupon.snapshotId in roots, AccountNotInitialized);
      :- Require(PaidKey(id, account) !in paid, AccountInUse);
      :- Require(cleared, NotCleared);
      :- Require(now >= coupon.paymentDate, CouponNotMature);
      var proven := VerifyBalanceProof(h, proof, roots[coupon.snapshotId], account, balance);
      :- Require(proven, InvalidMerkleProof);
      var elapsed := Elapsed(coupon);
      :- Require(elapsed.Some?, NegativeElapsedTime);
      :- Require(elapsed.value > 0, NegativeElapsedTime);
      var amount := ComputePayout(TermsOf(before, coupon), balance);
      :- Require(amount.Some?, AmountOverflow);
      :- Require(settled, TransferFailed);
      treasury := Some(treasury.value.(lockedFor := id));
      paid := paid[PaidKey(id, account) := amount.value];
      StepKeepsInv(h, before, Coupons.PayCoupon(id, account, balance, proof, now));
      return Pass;
    }
  }
}
