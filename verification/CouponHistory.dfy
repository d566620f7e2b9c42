/** The bond's records read off the list of actions alone, and every payment against the documented formula. */
module CouponHistory {
  import opened Numbers
  import opened Arithmetic
  import opened Merkle
  import opened Payout
  import opened Coupons

  // ---------- The last word on a subject ----------

  datatype Subject = Creation(id: u64) | RateOf(id: u64) | Bond | PaymentToken | Payment(id: u64, account: Pubkey)

  predicate Concerns(a: Action, t: Subject) {
    match t
    case Creation(id) => a.CreateCoupon? && a.id == id
    case RateOf(id) => (a.CreateCoupon? || a.SetCouponRate?) && a.id == id
    case Bond => a.SetBondTerms?
    case PaymentToken => a.SetPaymentToken?
    case Payment(id, account) => a.PayCoupon? && a.id == id && a.account == account
  }

  /** The last action that concerns the subject. */
  function Last(steps: seq<Action>, t: Subject): Option<Action> {
    if |steps| == 0 then None
    else if Concerns(steps[|steps| - 1], t) then Some(steps[|steps| - 1])
    else Last(steps[..|steps| - 1], t)
  }

  /** The coupon and its snapshot carry the dates, root and rate asked for. */
  ghost predicate AsAsked(b: Book, id: u64, created: Option<Action>, rated: Option<Action>) {
    && (id in b.coupons <==> created.Some?)
    && (created.Some? ==>
          && created.value.CreateCoupon? && rated.Some? && (rated.value.CreateCoupon? || rated.value.SetCouponRate?)
          && id > 0 && id - 1 in b.roots && b.roots[id - 1] == created.value.root
          && b.coupons[id] == Coupon(id - 1, created.value.periodStart, created.value.periodEnd,
                                     created.value.paymentDate, rated.value.rate, rated.value.rateDecimals))
  }

  lemma StepAsAsked(h: Hash, b: Book, a: Action, id: u64, created: Option<Action>, rated: Option<Action>)
    requires Inv(b) && Can(h, b, a) && AsAsked(b, id, created, rated)
    ensures AsAsked(Do(h, b, a), id, if Concerns(a, Creation(id)) then Some(a) else created,
                    if Concerns(a, RateOf(id)) then Some(a) else rated)
  {
  }

  /** Every coupon is as its creation asked, at the rate asked for last. */
  lemma {:induction false} CouponsFromHistory(h: Hash, start: Book, steps: seq<Action>, id: u64)
    requires Initial(start) && Run(h, start, steps).Some?
    ensures AsAsked(Run(h, start, steps).value, id, Last(steps, Creation(id)), Last(steps, RateOf(id)))
  {
    if |steps| > 0 {
      var front := steps[..|steps| - 1];
      CouponsFromHistory(h, start, front, id);
      RunKeepsInv(h, start, front);
      StepAsAsked(h, Run(h, start, front).value, steps[|steps| - 1], id,
                  Last(front, Creation(id)), Last(front, RateOf(id)));
    }
  }

  function TermsSet(start: Book, last: Option<Action>): Option<BondTerms> {
    if last.Some? && last.value.SetBondTerms? then Some(last.value.terms) else start.bond
  }

  function TokenSet(last: Option<Action>): Option<(Pubkey, u8)> {
    if last.Some? && last.value.SetPaymentToken? then Some((last.value.mint, last.value.decimals)) else None
  }

  function Token(b: Book): Option<(Pubkey, u8)> {
    if b.treasury.Some? then Some((b.treasury.value.paymentMint, b.treasury.value.paymentDecimals)) else None
  }

  lemma {:induction false} TermsFromHistory(h: Hash, start: Book, steps: seq<Action>)
    requires Initial(start) && Run(h, start, steps).Some?
    ensures var b := Run(h, start, steps).value;
            && b.bond == TermsSet(start, Last(steps, Bond))
            && Token(b) == TokenSet(Last(steps, PaymentToken))
            && b.bondDecimals == start.bondDecimals
  {
    if |steps| > 0 { TermsFromHistory(h, start, steps[..|steps| - 1]); }
  }

  // ---------- The documented payout ----------

  /** Days of the year a day count assumes. */
  function YearOf(dayCount: DayCount): nat {
    match dayCount
    case Actual360 => 360
    case Actual365 => 365
  }

  function Documented(rate: nat, rateDecimals: nat, balance: nat, bondDecimals: nat, par: nat, parDecimals: nat,
                      elapsed: nat, dayCount: DayCount, paymentDecimals: nat): int
  {
    FactorGrows(YearOf(dayCount) * 86_400, Pow10(rateDecimals + bondDecimals + parDecimals));
    rate * balance * par * elapsed * Pow10(paymentDecimals)
    / (YearOf(dayCount) * 86_400 * Pow10(rateDecimals + bondDecimals + parDecimals))
  }

  lemma DueIsDocumented(t: Terms, balance: nat)
    ensures Due(t, balance) ==
            Documented(t.rate, t.rateDecimals, balance, t.bondDecimals, t.parValue, t.parDecimals,
                       t.elapsed, t.dayCount, t.paymentDecimals)
  {
    NumeratorSplits(t, balance);
    DenominatorSplits(t);
    ProductOf4(t.rate, balance, t.parValue, t.elapsed);
  }

  /** 5.25% on 12,345.67 bonds of 1,000.00 over 182 days of 365, in a token of six decimals. */
  lemma DocumentedExample()
    ensures Documented(525, 4, 1_234_567, 2, 100_000, 2, 15_724_800, Actual365, 6) == 323_185_963_972
  {
    assert Pow10(2) == 100 && Pow10(4) == 10_000;
    Pow10Adds(2, 4);
    Pow10Adds(4, 4);
  }

  // ---------- Every payment ----------

  /** What the actions before a payment say about it. */
  datatype Past = Past(created: Action, rated: Action, bond: BondTerms, bondDecimals: u8, token: (Pubkey, u8))

  predicate WellFormed(p: Past) { p.created.CreateCoupon? && (p.rated.CreateCoupon? || p.rated.SetCouponRate?) }

  function PastOf(start: Book, steps: seq<Action>, id: u64): Option<Past> {
    var created, rated := Last(steps, Creation(id)), Last(steps, RateOf(id));
    var bond, token := TermsSet(start, Last(steps, Bond)), TokenSet(Last(steps, PaymentToken));
    if created.Some? && rated.Some? && bond.Some? && token.Some?
    then Some(Past(created.value, rated.value, bond.value, start.bondDecimals, token.value)) else None
  }

  /** The rate of a coupon: its own if it was last given one, the bond's otherwise. */
  function RateInForce(p: Past): (u64, u8)
    requires WellFormed(p)
  {
    match (p.rated.rate, p.rated.rateDecimals)
    case (Some(rate), Some(decimals)) => (rate, decimals)
    case _ => (p.bond.rate, p.bond.rateDecimals)
  }

  function Owed(p: Past, balance: u64): int
    requires WellFormed(p) && p.created.periodStart <= p.created.periodEnd
  {
    var (rate, decimals) := RateInForce(p);
    Documented(rate, decimals, balance, p.bondDecimals, p.bond.parValue, p.bond.parDecimals,
               p.created.periodEnd - p.created.periodStart, p.bond.dayCount, p.token.1)
  }

  lemma StepPays(h: Hash, b: Book, pay: Action, p: Past)
    requires Inv(b) && pay.PayCoupon? && Can(h, b, pay)
    requires AsAsked(b, pay.id, Some(p.created), Some(p.rated))
    requires b.bond == Some(p.bond) && Token(b) == Some(p.token) && b.bondDecimals == p.bondDecimals
    ensures WellFormed(p) && p.created.periodStart < p.created.periodEnd && pay.now >= p.created.paymentDate
    ensures Fold(h, pay.proof, pay.account, pay.balance) == p.created.root
    ensures PaidKey(pay.id, pay.account) in Do(h, b, pay).paid
    ensures Do(h, b, pay).paid[PaidKey(pay.id, pay.account)] == Owed(p, pay.balance)
  {
    DueIsDocumented(TermsOf(b, b.coupons[pay.id]), pay.balance);
  }

  lemma PaymentAt(h: Hash, start: Book, steps: seq<Action>, n: nat)
    requires Inv(start) && Run(h, start, steps).Some? && n < |steps| && steps[n].PayCoupon?
    ensures Run(h, start, steps[..n]).Some?
    ensures var b := Run(h, start, steps[..n]).value;
            && Inv(b) && Can(h, b, steps[n])
            && Keeps(Do(h, b, steps[n]), Run(h, start, steps).value)
  {
    assert steps[..n + 1] + steps[n + 1..] == steps;
    RunAppends(h, start, steps[..n + 1], steps[n + 1..]);
    assert steps[..n + 1][..n] == steps[..n];
    RunKeepsInv(h, start, steps[..n]);
    RunKeepsInv(h, start, steps[..n + 1]);
    RunKeeps(h, Run(h, start, steps[..n + 1]).value, steps[n + 1..]);
  }

  /**
   Every payment of a run was for a coupon created before it and mature, on a proof that climbs to the
   root committed at its creation, and its marker records exactly the documented payout: at the
   coupon's rate in force, on the bond terms and in the decimals of the payment token set last.
   */
  lemma PaymentExact(h: Hash, start: Book, steps: seq<Action>, n: nat)
    requires Initial(start) && Run(h, start, steps).Some? && n < |steps| && steps[n].PayCoupon?
    ensures var pay, p, paid := steps[n], PastOf(start, steps[..n], steps[n].id), Run(h, start, steps).value.paid;
            && p.Some? && WellFormed(p.value) && p.value.created.periodStart < p.value.created.periodEnd
            && pay.now >= p.value.created.paymentDate
            && Accepted(h, pay.proof, p.value.created.root, pay.account, pay.balance)
            && PaidKey(pay.id, pay.account) in paid
            && paid[PaidKey(pay.id, pay.account)] == Owed(p.value, pay.balance)
  {
    var pay, past := steps[n], steps[..n];
    PaymentAt(h, start, steps, n);
    CouponsFromHistory(h, start, past, pay.id);
    TermsFromHistory(h, start, past);
    var p := PastOf(start, past, pay.id).value;
    StepPays(h, Run(h, start, past).value, pay, p);
    AcceptedIffFold(h, pay.proof, p.created.root, pay.account, pay.balance);
  }

  // ---------- Exactly which payments are possible ----------

  lemma {:induction false} PaidFromHistory(h: Hash, start: Book, steps: seq<Action>, id: u64, account: Pubkey)
    requires Initial(start) && Run(h, start, steps).Some?
    ensures PaidKey(id, account) in Run(h, start, steps).value.paid <==> Last(steps, Payment(id, account)).Some?
  {
    if |steps| > 0 { PaidFromHistory(h, start, steps[..|steps| - 1], id, account); }
  }

  /** The terms a payment is computed under. */
  function TermsIn(p: Past): Terms
    requires WellFormed(p) && 0 <= p.created.periodEnd - p.created.periodStart <= I64_MAX
  {
    Terms(RateInForce(p).0, RateInForce(p).1, p.bond.parValue, p.bond.parDecimals, p.bondDecimals, p.token.1,
          p.created.periodEnd - p.created.periodStart, p.bond.dayCount)
  }

  lemma StepPayable(h: Hash, b: Book, pay: Action, p: Past)
    requires Inv(b) && pay.PayCoupon? && AsAsked(b, pay.id, Some(p.created), Some(p.rated))
    requires b.bond == Some(p.bond) && Token(b) == Some(p.token) && b.bondDecimals == p.bondDecimals
    ensures WellFormed(p) && p.created.periodStart < p.created.periodEnd
    ensures Can(h, b, pay) <==>
            && pay.now >= p.created.paymentDate && PaidKey(pay.id, pay.account) !in b.paid
            && Fold(h, pay.proof, pay.account, pay.balance) == p.created.root
            && p.created.periodEnd - p.created.periodStart <= I64_MAX && Fits(TermsIn(p), pay.balance)
  {
  }

  /**
   After any run a payment is possible exactly for a coupon that was created, under bond terms and a
   token that were set, once mature, with a proof for its root, to an account no action has paid for
   it yet, if its period is no longer than the largest i64 and every intermediate of the payout fits.
   */
  lemma PayableFromHistory(h: Hash, start: Book, steps: seq<Action>, pay: Action)
    requires Initial(start) && Run(h, start, steps).Some? && pay.PayCoupon?
    ensures var p := PastOf(start, steps, pay.id);
            && (p.Some? ==> WellFormed(p.value) && p.value.created.periodStart < p.value.created.periodEnd)
            && (Can(h, Run(h, start, steps).value, pay) <==>
                && p.Some? && pay.now >= p.value.created.paymentDate
                && Last(steps, Payment(pay.id, pay.account)).None?
                && Accepted(h, pay.proof, p.value.created.root, pay.account, pay.balance)
                && p.value.created.periodEnd - p.value.created.periodStart <= I64_MAX
                && Fits(TermsIn(p.value), pay.balance))
  {
    var b, p := Run(h, start, steps).value, PastOf(start, steps, pay.id);
    RunKeepsInv(h, start, steps);
    CouponsFromHistory(h, start, steps, pay.id);
    TermsFromHistory(h, start, steps);
    PaidFromHistory(h, start, steps, pay.id, pay.account);
    if p.Some? {
      StepPayable(h, b, pay, p.value);
      AcceptedIffFold(h, pay.proof, p.value.created.root, pay.account, pay.balance);
    }
  }
}
