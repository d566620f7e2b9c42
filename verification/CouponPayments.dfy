/** What the payments of one coupon add up to, over any run. */
module CouponPayments {
  import opened Numbers
  import opened Arithmetic
  import opened Merkle
  import opened Payout
  import opened Coupons

  // ---------- Snapshot trees ----------

  predicate Has(t: Tree, account: Pubkey) {
    match t
    case Leaf(a, _) => a == account
    case Node(l, r) => Has(l, account) || Has(r, account)
  }

  /** No account has two leaves. */
  ghost predicate Distinct(t: Tree) {
    match t
    case Leaf(_, _) => true
    case Node(l, r) => Distinct(l) && Distinct(r) && forall a :: !(Has(l, a) && Has(r, a))
  }

  function Total(t: Tree): nat {
    match t
    case Leaf(_, x) => x
    case Node(l, r) => Total(l) + Total(r)
  }

  function Leaves(t: Tree): nat {
    match t
    case Leaf(_, _) => 1
    case Node(l, r) => Leaves(l) + Leaves(r)
  }

  /** Sum of the amounts recorded as paid to the leaves of `t` for one coupon. */
  function PaidOn(t: Tree, paid: map<PaidKey, u64>, id: nat): nat {
    match t
    case Leaf(a, _) => if PaidKey(id, a) in paid then paid[PaidKey(id, a)] else 0
    case Node(l, r) => PaidOn(l, paid, id) + PaidOn(r, paid, id)
  }

  predicate AllPaid(t: Tree, paid: map<PaidKey, u64>, id: nat) {
    match t
    case Leaf(a, _) => PaidKey(id, a) in paid
    case Node(l, r) => AllPaid(l, paid, id) && AllPaid(r, paid, id)
  }

  /** Every leaf that was paid was paid what is due on its snapshot balance. */
  predicate PaidDue(t: Tree, terms: Terms, paid: map<PaidKey, u64>, id: nat) {
    match t
    case Leaf(a, x) => PaidKey(id, a) in paid ==> paid[PaidKey(id, a)] == Due(terms, x)
    case Node(l, r) => PaidDue(l, terms, paid, id) && PaidDue(r, terms, paid, id)
  }

  // ---------- Sums over a tree ----------

  lemma {:induction false} PaidBounded(t: Tree, terms: Terms, paid: map<PaidKey, u64>, id: nat)
    requires PaidDue(t, terms, paid, id)
    ensures PaidOn(t, paid, id) <= Due(terms, Total(t))
  {
    if t.Node? {
      PaidBounded(t.left, terms, paid, id);
      PaidBounded(t.right, terms, paid, id);
      DueAdds(terms, Total(t.left), Total(t.right));
    }
  }

  /** Once every leaf is paid, the whole falls short by less than one unit per leaf. */
  lemma {:induction false} PaidTight(t: Tree, terms: Terms, paid: map<PaidKey, u64>, id: nat)
    requires PaidDue(t, terms, paid, id) && AllPaid(t, paid, id)
    ensures Total(t) * Numerator(terms) < (PaidOn(t, paid, id) + Leaves(t)) * Denominator(terms)
  {
    match t
    case Leaf(a, x) => DueTight(terms, x);
    case Node(l, r) =>
      PaidTight(l, terms, paid, id);
      PaidTight(r, terms, paid, id);
      Distributes(Total(l), Total(r), Numerator(terms));
      Distributes(PaidOn(l, paid, id) + Leaves(l), PaidOn(r, paid, id) + Leaves(r), Denominator(terms));
  }

  /** A marker elsewhere does not show in the tree. */
  lemma {:induction false} OtherMarker(t: Tree, terms: Terms, paid: map<PaidKey, u64>, id: nat, k: PaidKey, v: u64)
    requires k.couponId != id || !Has(t, k.account)
    ensures PaidOn(t, paid[k := v], id) == PaidOn(t, paid, id)
    ensures PaidDue(t, terms, paid[k := v], id) == PaidDue(t, terms, paid, id)
  {
    if t.Node? {
      OtherMarker(t.left, terms, paid, id, k, v);
      OtherMarker(t.right, terms, paid, id, k, v);
    }
  }

  lemma {:induction false} ContainsHas(t: Tree, account: Pubkey, balance: u64)
    requires Contains(t, account, balance)
    ensures Has(t, account)
  {
    if t.Node? {
      if Contains(t.left, account, balance) {
        ContainsHas(t.left, account, balance);
      } else {
        ContainsHas(t.right, account, balance);
      }
    }
  }

  /** A first payment to one leaf adds exactly its amount. */
  lemma {:induction false} NewMarker(t: Tree, terms: Terms, paid: map<PaidKey, u64>, id: nat, a: Pubkey, x: u64, v: u64)
    requires Distinct(t) && Contains(t, a, x) && PaidKey(id, a) !in paid
    requires PaidDue(t, terms, paid, id) && v == Due(terms, x)
    ensures PaidOn(t, paid[PaidKey(id, a) := v], id) == PaidOn(t, paid, id) + v
    ensures PaidDue(t, terms, paid[PaidKey(id, a) := v], id)
  {
    if t.Node? {
      ContainsHas(t, a, x);
      var there, other := if Contains(t.left, a, x) then t.left else t.right,
                          if Contains(t.left, a, x) then t.right else t.left;
      ContainsHas(there, a, x);
      NewMarker(there, terms, paid, id, a, x, v);
      OtherMarker(other, terms, paid, id, PaidKey(id, a), v);
    }
  }

  // ---------- Payments over a run ----------

  /** What a successful run pays out for coupon `id`. */
  function AmountPaid(h: Hash, b: Book, steps: seq<Action>, id: u64): nat
    requires Run(h, b, steps).Some?
  {
    if |steps| == 0 then 0 else
      var front, last := steps[..|steps| - 1], steps[|steps| - 1];
      var before := Run(h, b, front).value;
      AmountPaid(h, b, front, id) +
      if last.PayCoupon? && last.id == id then Due(TermsOf(before, before.coupons[id]), last.balance) else 0
  }

  /**
   Every payment of coupon `id` in the run was made under `terms`, and none of their proofs hashed
   anything that collides with what the tree hashed.
   */
  ghost predicate Regular(h: Hash, b: Book, steps: seq<Action>, id: u64, t: Tree, terms: Terms)
    requires Run(h, b, steps).Some?
  {
    |steps| == 0 ||
    (var front, last := steps[..|steps| - 1], steps[|steps| - 1];
     var before := Run(h, b, front).value;
     && Regular(h, b, front, id, t, terms)
     && (last.PayCoupon? && last.id == id ==>
           && TermsOf(before, before.coupons[id]) == terms
           && InjectiveOn(h, TreePreimages(h, t) + ProofPreimages(h, last.proof, last.account, last.balance))))
  }

  /** The snapshot behind coupon `id`, if it exists yet, is the root of `t`. */
  predicate Committed(h: Hash, b: Book, id: u64, t: Tree) {
    id in b.coupons && b.coupons[id].snapshotId in b.roots ==> b.roots[b.coupons[id].snapshotId] == Root(h, t)
  }

  /** The markers of coupon `id` are exactly the payments made, all to leaves of the tree. */
  ghost predicate Tracked(b: Book, id: u64, t: Tree, terms: Terms, amount: nat) {
    && PaidDue(t, terms, b.paid, id)
    && PaidOn(t, b.paid, id) == amount
    && (forall k | k in b.paid && k.couponId == id :: Has(t, k.account))
  }

  lemma StepTracked(h: Hash, b: Book, a: Action, id: u64, t: Tree, terms: Terms, amount: nat)
    requires Can(h, b, a) && Tracked(b, id, t, terms, amount) && Distinct(t)
    requires a.PayCoupon? && a.id == id ==>
               && b.roots[b.coupons[id].snapshotId] == Root(h, t)
               && TermsOf(b, b.coupons[id]) == terms
               && InjectiveOn(h, TreePreimages(h, t) + ProofPreimages(h, a.proof, a.account, a.balance))
    ensures Tracked(Do(h, b, a), id, t, terms,
              amount + if a.PayCoupon? && a.id == id then Due(terms, a.balance) else 0)
  {
    if a.PayCoupon? {
      var k, v := PaidKey(a.id, a.account), Due(TermsOf(b, b.coupons[a.id]), a.balance);
      if a.id == id {
        Sound(h, t, a.proof, a.account, a.balance);
        assert Contains(t, a.account, a.balance);
        ContainsHas(t, a.account, a.balance);
        NewMarker(t, terms, b.paid, id, a.account, a.balance, v);
      } else {
        OtherMarker(t, terms, b.paid, id, k, v);
      }
    }
  }

  lemma {:induction false} RunTracked(h: Hash, start: Book, steps: seq<Action>, id: u64, t: Tree, terms: Terms)
    requires Initial(start) && Run(h, start, steps).Some? && Distinct(t)
    requires Regular(h, start, steps, id, t, terms) && Committed(h, Run(h, start, steps).value, id, t)
    ensures Tracked(Run(h, start, steps).value, id, t, terms, AmountPaid(h, start, steps, id))
  {
    if |steps| == 0 {
      NothingPaid(t, terms, id);
    } else {
      var front, last := steps[..|steps| - 1], steps[|steps| - 1];
      var before := Run(h, start, front).value;
      RunKeepsInv(h, start, front);
      StepKeeps(h, before, last);
      RunTracked(h, start, front, id, t, terms);
      StepTracked(h, before, last, id, t, terms, AmountPaid(h, start, front, id));
    }
  }

  lemma {:induction false} NothingPaid(t: Tree, terms: Terms, id: nat)
    ensures PaidOn(t, map[], id) == 0 && PaidDue(t, terms, map[], id)
  {
    if t.Node? {
      NothingPaid(t.left, terms, id);
      NothingPaid(t.right, terms, id);
    }
  }

  /**
   Over any run under fixed terms and without a hash collision, the payments of a coupon add up to
   at most what is due on the whole snapshot; every one went to an account of the snapshot; and
   once all n accounts are paid, the exact payout is missed by less than n units.
   */
  lemma PaymentsAddUp(h: Hash, start: Book, steps: seq<Action>, id: u64, t: Tree, terms: Terms)
    requires Initial(start) && Run(h, start, steps).Some? && Distinct(t)
    requires Regular(h, start, steps, id, t, terms) && Committed(h, Run(h, start, steps).value, id, t)
    ensures AmountPaid(h, start, steps, id) <= Due(terms, Total(t))
    ensures AllPaid(t, Run(h, start, steps).value.paid, id) ==>
              Total(t) * Numerator(terms) < (AmountPaid(h, start, steps, id) + Leaves(t)) * Denominator(terms)
    ensures forall k | k in Run(h, start, steps).value.paid && k.couponId == id :: Has(t, k.account)
  {
    RunTracked(h, start, steps, id, t, terms);
    var paid := Run(h, start, steps).value.paid;
    PaidBounded(t, terms, paid, id);
    if AllPaid(t, paid, id) { PaidTight(t, terms, paid, id); }
  }

  // ---------- No account is paid twice ----------

  lemma {:induction false} PaymentMarked(h: Hash, b: Book, steps: seq<Action>, n: nat)
    requires Run(h, b, steps).Some? && n < |steps| && steps[n].PayCoupon?
    ensures PaidKey(steps[n].id, steps[n].account) in Run(h, b, steps).value.paid
  {
    var front := steps[..|steps| - 1];
    if n < |front| {
      assert front[n] == steps[n];
      PaymentMarked(h, b, front, n);
    }
  }

  /** Two payments of one run differ in their coupon or in their account, whatever their proofs say. */
  lemma {:induction false} PaidOnce(h: Hash, b: Book, steps: seq<Action>, m: nat, n: nat)
    requires Run(h, b, steps).Some? && m < n < |steps| && steps[m].PayCoupon? && steps[n].PayCoupon?
    ensures steps[m].id != steps[n].id || steps[m].account != steps[n].account
  {
    var front := steps[..|steps| - 1];
    assert front[m] == steps[m];
    if n < |front| {
      assert front[n] == steps[n];
      PaidOnce(h, b, front, m, n);
    } else {
      PaymentMarked(h, b, front, m);
    }
  }

  // ---------- Everyone can be paid ----------

  /** Coupon `id` has matured and its snapshot is the root of `t`. */
  predicate Distributable(h: Hash, b: Book, id: u64, t: Tree, now: i64) {
    && Payable(b, id) && now >= b.coupons[id].paymentDate
    && b.roots[b.coupons[id].snapshotId] == Root(h, t)
  }

  /**
   An unpaid leaf of the snapshot can be paid with the proof that its tree gives it if and only if
   its own payout fits; by `DueMonotone` a larger balance whose payout fits is enough.
   */
  lemma LeafPayable(h: Hash, b: Book, id: u64, t: Tree, a: Pubkey, x: u64, now: i64)
    requires Distributable(h, b, id, t, now) && Contains(t, a, x) && PaidKey(id, a) !in b.paid
    ensures ProofFor(h, t, a, x).Some?
    ensures Can(h, b, PayCoupon(id, a, x, ProofFor(h, t, a, x).value, now)) <==>
            Fits(TermsOf(b, b.coupons[id]), x)
  {
    Complete(h, t, a, x);
  }

  /** The payout of every leaf not yet paid fits. */
  predicate LeavesFit(t: Tree, terms: Terms, paid: map<PaidKey, u64>, id: u64) {
    match t
    case Leaf(a, x) => PaidKey(id, a) in paid || Fits(terms, x)
    case Node(l, r) => LeavesFit(l, terms, paid, id) && LeavesFit(r, terms, paid, id)
  }

  lemma {:induction false} TotalFits(t: Tree, terms: Terms, paid: map<PaidKey, u64>, id: u64, total: u64)
    requires Total(t) <= total && Fits(terms, total)
    ensures LeavesFit(t, terms, paid, id)
  {
    match t
    case Leaf(_, x) => DueMonotone(terms, x, total);
    case Node(l, r) =>
      TotalFits(l, terms, paid, id, total);
      TotalFits(r, terms, paid, id, total);
  }

  /** The payments still to be made to the leaves of `t`, a part of the snapshot `whole`. */
  function Remaining(h: Hash, whole: Tree, t: Tree, paid: map<PaidKey, u64>, id: u64, now: i64): seq<Action> {
    match t
    case Leaf(a, x) =>
      var proof := ProofFor(h, whole, a, x);
      if PaidKey(id, a) in paid || proof.None? then [] else [PayCoupon(id, a, x, proof.value, now)]
    case Node(l, r) => Remaining(h, whole, l, paid, id, now) + Remaining(h, whole, r, paid, id, now)
  }

  /** From `b` to `c` only accounts of `t` were paid, for coupon `id`. */
  ghost predicate PaidWithin(b: Book, c: Book, id: u64, t: Tree) {
    && b.treasury.Some? && c.treasury.Some?
    && c == b.(paid := c.paid, treasury := Some(b.treasury.value.(lockedFor := Lock(c))))
    && (forall k | k in b.paid :: k in c.paid && c.paid[k] == b.paid[k])
    && (forall k | k in c.paid :: k in b.paid || (k.couponId == id && Has(t, k.account)))
  }

  lemma {:induction false} AllPaidStays(t: Tree, paid: map<PaidKey, u64>, paid': map<PaidKey, u64>, id: u64)
    requires AllPaid(t, paid, id) && forall k | k in paid :: k in paid'
    ensures AllPaid(t, paid', id)
  {
    if t.Node? {
      AllPaidStays(t.left, paid, paid', id);
      AllPaidStays(t.right, paid, paid', id);
    }
  }

  /** `paid` says which accounts of `t` have been paid in `b`. */
  ghost predicate Knows(paid: map<PaidKey, u64>, b: Book, id: u64, t: Tree) {
    forall a | Has(t, a) :: PaidKey(id, a) in b.paid <==> PaidKey(id, a) in paid
  }

  ghost predicate PartOf(t: Tree, whole: Tree) {
    forall a, x | Contains(t, a, x) :: Contains(whole, a, x)
  }

  /** Paying one half of a node leaves the other half as it was. */
  lemma HalfPaid(h: Hash, b: Book, c: Book, id: u64, l: Tree, r: Tree, whole: Tree, paid: map<PaidKey, u64>, now: i64)
    requires Distributable(h, b, id, whole, now) && PaidWithin(b, c, id, l)
    requires Distinct(Node(l, r)) && Knows(paid, b, id, Node(l, r))
    ensures Distributable(h, c, id, whole, now) && Knows(paid, c, id, r)
    ensures TermsOf(c, c.coupons[id]) == TermsOf(b, b.coupons[id])
  {
    forall a | Has(r, a) ensures PaidKey(id, a) in c.paid <==> PaidKey(id, a) in paid {
      assert Has(Node(l, r), a) && !Has(l, a);
    }
  }

  lemma BothPaid(b: Book, c: Book, d: Book, id: u64, l: Tree, r: Tree)
    requires PaidWithin(b, c, id, l) && PaidWithin(c, d, id, r)
    requires AllPaid(l, c.paid, id) && AllPaid(r, d.paid, id)
    ensures PaidWithin(b, d, id, Node(l, r)) && AllPaid(Node(l, r), d.paid, id)
  {
    AllPaidStays(l, c.paid, d.paid, id);
  }

  lemma PaymentWithin(h: Hash, b: Book, pay: Action, x: u64)
    requires pay.PayCoupon? && Can(h, b, pay)
    ensures PaidWithin(b, Do(h, b, pay), pay.id, Leaf(pay.account, x))
  {
  }

  /** `c` is `b` with everyone in `t` paid, or nothing if some payout does not fit. */
  ghost predicate Completed(b: Book, c: Option<Book>, id: u64, t: Tree, terms: Terms, paid: map<PaidKey, u64>) {
    && (c.Some? <==> LeavesFit(t, terms, paid, id))
    && (c.Some? ==> AllPaid(t, c.value.paid, id) && PaidWithin(b, c.value, id, t))
  }

  lemma LeafPaid(h: Hash, b: Book, id: u64, whole: Tree, a: Pubkey, x: u64, paid: map<PaidKey, u64>, now: i64)
    requires Distributable(h, b, id, whole, now) && Contains(whole, a, x)
    requires PaidKey(id, a) in b.paid <==> PaidKey(id, a) in paid
    ensures Completed(b, Run(h, b, Remaining(h, whole, Leaf(a, x), paid, id, now)), id, Leaf(a, x),
              TermsOf(b, b.coupons[id]), paid)
  {
    if PaidKey(id, a) !in b.paid {
      LeafPayable(h, b, id, whole, a, x, now);
      var pay := PayCoupon(id, a, x, ProofFor(h, whole, a, x).value, now);
      assert [pay][..0] == [];
      if Can(h, b, pay) { PaymentWithin(h, b, pay, x); }
    }
  }

  lemma {:induction false} PartPayable(h: Hash, b: Book, id: u64, whole: Tree, t: Tree,
                                       paid: map<PaidKey, u64>, now: i64)
    requires Distributable(h, b, id, whole, now) && Distinct(t) && PartOf(t, whole) && Knows(paid, b, id, t)
    ensures Completed(b, Run(h, b, Remaining(h, whole, t, paid, id, now)), id, t, TermsOf(b, b.coupons[id]), paid)
    decreases t
  {
    match t
    case Leaf(a, x) =>
      assert Contains(t, a, x) && Has(t, a);
      LeafPaid(h, b, id, whole, a, x, paid, now);
    case Node(l, r) =>
      var first, second := Remaining(h, whole, l, paid, id, now), Remaining(h, whole, r, paid, id, now);
      PartPayable(h, b, id, whole, l, paid, now);
      RunAppends(h, b, first, second);
      if Run(h, b, first).Some? {
        var c := Run(h, b, first).value;
        HalfPaid(h, b, c, id, l, r, whole, paid, now);
        PartPayable(h, c, id, whole, r, paid, now);
        if Run(h, c, second).Some? { BothPaid(b, c, Run(h, c, second).value, id, l, r); }
      }
  }

  /**
   However far the distribution of a matured coupon has got, one payment to each account not yet
   paid, in the tree's order, succeeds if and only if each of their payouts fits; then everyone has
   been paid, and nothing else has changed. A payout on the whole snapshot that fits is enough.
   */
  lemma DistributionCompletes(h: Hash, b: Book, id: u64, t: Tree, now: i64)
    requires Distinct(t) && Distributable(h, b, id, t, now)
    ensures var c := Run(h, b, Remaining(h, t, t, b.paid, id, now));
            var terms := TermsOf(b, b.coupons[id]);
            && (c.Some? <==> LeavesFit(t, terms, b.paid, id))
            && (c.Some? ==> AllPaid(t, c.value.paid, id) && PaidWithin(b, c.value, id, t))
            && (Total(t) <= U64_MAX && Fits(terms, Total(t)) ==> c.Some?)
  {
    PartPayable(h, b, id, t, t, b.paid, now);
    var terms := TermsOf(b, b.coupons[id]);
    if Total(t) <= U64_MAX && Fits(terms, Total(t)) { TotalFits(t, terms, b.paid, id, Total(t)); }
  }

  // ---------- One coupon paid in two tokens ----------

  const YEAR: i64 := 31_104_000

  /** At a rate of one on a par value of one over a year of 360 days, the payout is the balance. */
  const PLAIN := BondTerms(1, 0, 1, 0, Actual360)

  lemma PlainFits(x: u64)
    ensures var t := Terms(1, 0, 1, 0, 0, 0, YEAR, Actual360);
            Fits(t, x) && Due(t, x) == x
  {
    var t := Terms(1, 0, 1, 0, 0, 0, YEAR, Actual360);
    assert Pow10(0) == 1;
    ProductOf4(1, x, 1, YEAR);
    QuotientExact(t, x);
  }

  const EMPTY := Book(0, 0, 0, map[], map[], None, None, map[])

  /** Two coupons on one snapshot, with the given payment token and markers. */
  function TwoCoupons(root: Digest, token: Pubkey, locked: u64, paid: map<PaidKey, u64>): Book {
    Book(0, 2, 2,
      map[1 := Coupon(0, 0, YEAR, YEAR + 1, None, None), 2 := Coupon(1, 0, YEAR, YEAR + 1, None, None)],
      map[0 := root, 1 := root], Some(PLAIN), Some(TreasuryConfig(token, 0, locked)), paid)
  }

  function Preparation(root: Digest, token: Pubkey): seq<Action> {
    [CreateCoupon(1, 0, YEAR, YEAR + 1, None, None, root)]
    + [CreateCoupon(2, 0, YEAR, YEAR + 1, None, None, root)]
    + [SetBondTerms(PLAIN)] + [SetPaymentToken(token, 0)]
  }

  lemma Prepared(h: Hash, root: Digest, token: Pubkey)
    ensures Run(h, EMPTY, Preparation(root, token)) == Some(TwoCoupons(root, token, 0, map[]))
  {
    var first := CreateCoupon(1, 0, YEAR, YEAR + 1, None, None, root);
    var second := CreateCoupon(2, 0, YEAR, YEAR + 1, None, None, root);
    assert [] + [first] == [first];
    RunExtends(h, EMPTY, [], first);
    RunExtends(h, EMPTY, [first], second);
    RunExtends(h, EMPTY, [first] + [second], SetBondTerms(PLAIN));
    RunExtends(h, EMPTY, [first] + [second] + [SetBondTerms(PLAIN)], SetPaymentToken(token, 0));
  }

  function Pay(h: Hash, t: Tree, id: u64, a: Pubkey, x: u64): Action {
    var proof := ProofFor(h, t, a, x);
    PayCoupon(id, a, x, if proof.Some? then proof.value else [], YEAR + 1)
  }

  lemma PlainTerms(root: Digest, token: Pubkey, locked: u64, paid: map<PaidKey, u64>, id: u64)
    requires 1 <= id <= 2
    ensures var b := TwoCoupons(root, token, locked, paid);
            && Payable(b, id) && b.coupons[id].paymentDate == YEAR + 1 && b.roots[b.coupons[id].snapshotId] == root
            && TermsOf(b, b.coupons[id]) == Terms(1, 0, 1, 0, 0, 0, YEAR, Actual360)
  {
  }

  /** Where the payout is the balance, a payment records the balance. */
  lemma PaysBalance(h: Hash, b: Book, t: Tree, terms: Terms, id: u64, a: Pubkey, x: u64)
    requires Distributable(h, b, id, t, YEAR + 1) && Contains(t, a, x) && PaidKey(id, a) !in b.paid
    requires TermsOf(b, b.coupons[id]) == terms
    ensures Fits(terms, x) && Due(terms, x) == x ==>
              && Can(h, b, Pay(h, t, id, a, x))
              && Do(h, b, Pay(h, t, id, a, x)) ==
                 b.(paid := b.paid[PaidKey(id, a) := x], treasury := Some(b.treasury.value.(lockedFor := id)))
  {
    LeafPayable(h, b, id, t, a, x, YEAR + 1);
  }

  lemma PlainPayment(h: Hash, t: Tree, token: Pubkey, locked: u64, paid: map<PaidKey, u64>, id: u64, a: Pubkey, x: u64)
    requires Contains(t, a, x) && 1 <= id <= 2 && PaidKey(id, a) !in paid
    ensures var b := TwoCoupons(Root(h, t), token, locked, paid);
            && Can(h, b, Pay(h, t, id, a, x))
            && Do(h, b, Pay(h, t, id, a, x)) == TwoCoupons(Root(h, t), token, id, paid[PaidKey(id, a) := x])
  {
    var b := TwoCoupons(Root(h, t), token, locked, paid);
    PlainTerms(Root(h, t), token, locked, paid, id);
    PaysBalance(h, b, t, Terms(1, 0, 1, 0, 0, 0, YEAR, Actual360), id, a, x);
    PlainFits(x);
  }

  /** Pay `a` coupon 2, the newest one... */
  function NewestPaid(h: Hash, t: Tree, a: Pubkey, x: u64, usd: Pubkey): seq<Action> {
    Preparation(Root(h, t), usd) + [Pay(h, t, 2, a, x)]
  }

  /** ... pay `a` coupon 1, change the payment token, and go on with coupon 2 by paying `b`. */
  function Swap(h: Hash, t: Tree, a: Pubkey, x: u64, b: Pubkey, y: u64, usd: Pubkey, eur: Pubkey): seq<Action> {
    NewestPaid(h, t, a, x, usd) + [Pay(h, t, 1, a, x)] + [SetPaymentToken(eur, 0)] + [Pay(h, t, 2, b, y)]
  }

  lemma OlderPaid(h: Hash, t: Tree, a: Pubkey, x: u64, usd: Pubkey)
    requires Contains(t, a, x)
    ensures Run(h, EMPTY, NewestPaid(h, t, a, x, usd)) ==
            Some(TwoCoupons(Root(h, t), usd, 2, map[PaidKey(2, a) := x]))
    ensures Run(h, EMPTY, NewestPaid(h, t, a, x, usd) + [Pay(h, t, 1, a, x)]) ==
            Some(TwoCoupons(Root(h, t), usd, 1, map[PaidKey(2, a) := x][PaidKey(1, a) := x]))
  {
    Prepared(h, Root(h, t), usd);
    PlainPayment(h, t, usd, 0, map[], 2, a, x);
    RunExtends(h, EMPTY, Preparation(Root(h, t), usd), Pay(h, t, 2, a, x));
    PlainPayment(h, t, usd, 2, map[PaidKey(2, a) := x], 1, a, x);
    RunExtends(h, EMPTY, NewestPaid(h, t, a, x, usd), Pay(h, t, 1, a, x));
  }

  /**
   The payment token can be swapped while the newest coupon is being distributed: for any snapshot
   with two accounts this run from an empty book pays coupon 2 to one of them in one token and to
   the other in another.
   */
  lemma PaidInTwoTokens(h: Hash, t: Tree, a: Pubkey, x: u64, b: Pubkey, y: u64, usd: Pubkey, eur: Pubkey)
    requires Contains(t, a, x) && Contains(t, b, y) && a != b
    ensures Initial(EMPTY)
    ensures Run(h, EMPTY, NewestPaid(h, t, a, x, usd)) ==
            Some(TwoCoupons(Root(h, t), usd, 2, map[PaidKey(2, a) := x]))
    ensures Run(h, EMPTY, Swap(h, t, a, x, b, y, usd, eur)) ==
            Some(TwoCoupons(Root(h, t), eur, 2, map[PaidKey(2, a) := x][PaidKey(1, a) := x][PaidKey(2, b) := y]))
  {
    var paid := map[PaidKey(2, a) := x][PaidKey(1, a) := x];
    OlderPaid(h, t, a, x, usd);
    var s, steps := TwoCoupons(Root(h, t), usd, 1, paid), NewestPaid(h, t, a, x, usd) + [Pay(h, t, 1, a, x)];
    assert Do(h, s, SetPaymentToken(eur, 0)) == TwoCoupons(Root(h, t), eur, 1, paid);
    RunExtends(h, EMPTY, steps, SetPaymentToken(eur, 0));
    PlainPayment(h, t, eur, 1, paid, 2, b, y);
    RunExtends(h, EMPTY, steps + [SetPaymentToken(eur, 0)], Pay(h, t, 2, b, y));
  }
}
