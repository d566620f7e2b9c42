/**
 The read-only checks the instructions share, as the programs write them: in the programs' order,
 on machine integers, each returning the error it raises. Every contract says in plain
 arithmetic when the check passes.
 */
module Checks {
  import opened Numbers
  import opened Ledger
  import opened LedgerInvariants
  import opened LedgerRuns

  datatype Error =
    | MintPaused | Deactivated | FunctionalityNotSupported | MissingRole
    | AccountNotInitialized | AccountInUse | DuplicateAccounts | OwnerMismatch | InsufficientFunds | Overflow
    | AccountFrozen | AccountNotFrozen | AccountNotPartiallyFrozen | InvalidFreezeAmount
    | InsufficientUnfrozenBalance | InsufficientSpendableBalance
    | ZeroAmount | ExpirationInThePast | HoldIdMismatch | InsufficientAvailableBalance | NotTheEscrow
    | HoldNotActive | HoldExpired | HoldNotExpired | AmountExceedsHold | DestinationMismatch
    | HeldAmountUnderflow | UnauthorizedHoldAuthority
    | NotWhitelisted | Blacklisted
    | MaxSupplyNotSet | MaxSupplyExceeded | MaxSupplyTooLow | MaxSupplyBelowTotalSupply
    | EmptyBatch | InvalidRemainingAccounts | AmountOverflow

  /** Who signs a token transfer: a wallet, or a program's derived authority. */
  datatype Authority = Wallet(key: Pubkey) | PermanentDelegate | HoldAuthority

  function VerifyTransferControlMode(s: State, accounts: seq<Pubkey>): (r: Outcome<Error>)
    ensures r.Pass? <==> forall i | 0 <= i < |accounts| :: Listed(s, accounts[i])
    ensures r.Fail? ==> s.mode.Some? && r.error == (if s.mode.value.Whitelist? then NotWhitelisted else Blacklisted)
  {
    match s.mode
    case None => Pass
    case Some(mode) =>
      if accounts == [] then Pass
      else if mode.Whitelist? && accounts[0] !in s.controlList then Fail(NotWhitelisted)
      else if mode.Blacklist? && accounts[0] in s.controlList then Fail(Blacklisted)
      else
        assert forall i | 0 < i < |accounts| :: accounts[i] == accounts[1..][i - 1];
        VerifyTransferControlMode(s, accounts[1..])
  }

  function VerifyBothEnds(s: State, from: Pubkey, to: Pubkey): (r: Outcome<Error>)
    ensures r.Pass? <==> Listed(s, from) && Listed(s, to)
    ensures r.Fail? ==> r.error in {NotWhitelisted, Blacklisted}
  {
    assert [from, to][0] == from && [from, to][1] == to;
    VerifyTransferControlMode(s, [from, to])
  }

  /** Balance at least `totalLocked`; an account that is not a token account has no balance to read. */
  function RequireLockedBalanceCovered(s: State, a: Pubkey, totalLocked: u64): Outcome<Error> {
    Require(a in s.balances && s.balances[a] >= totalLocked, InsufficientUnfrozenBalance)
  }

  /** Pre-debit lien check of the paths no transfer hook judges. */
  function RequireHoldCovered(s: State, a: Pubkey, amount: u64): (r: Outcome<Error>)
    ensures r.Pass? <==> a in s.balances && s.balances[a] >= Held(s, a) + amount
    ensures r.Fail? ==> r.error == InsufficientSpendableBalance
  {
    if a !in s.balances then Fail(InsufficientSpendableBalance) else
    match CheckedAdd64(Held(s, a), amount)
    case None => Fail(InsufficientSpendableBalance)
    case Some(required) => Require(s.balances[a] >= required, InsufficientSpendableBalance)
  }

  /** The transfer hook. It sees the state after the debit and the credit. */
  function HookExecute(s: State, authority: Authority, from: Pubkey, to: Pubkey): (r: Outcome<Error>)
    ensures r.Pass? <==>
      || authority.PermanentDelegate?
      || (&& !s.deactivated && Listed(s, from) && Listed(s, to) && !FreezeStatus(s, from).fullyFrozen
          && from in s.balances
          && s.balances[from] >= FreezeStatus(s, from).frozenBalance + Held(s, from)
          && TRANSFER_HOOK_EXECUTE in s.features)
  {
    if authority.PermanentDelegate? then Pass else
    if s.deactivated then Fail(Deactivated) else
    var control := VerifyBothEnds(s, from, to);
    if control.Fail? then control else
    var status := FreezeStatus(s, from);
    if status.fullyFrozen then Fail(AccountFrozen) else
    match CheckedAdd64(status.frozenBalance, Held(s, from))
    case None => Fail(InsufficientUnfrozenBalance)
    case Some(totalLocked) =>
      var covered := RequireLockedBalanceCovered(s, from, totalLocked);
      if covered.Fail? then covered else
      Require(TRANSFER_HOOK_EXECUTE in s.features, FunctionalityNotSupported)
  }

  /** Supply cap check. An absent cap is an error exactly when the version enables caps. */
  function RequireWithinMaxSupply(s: State, amount: u64): (r: Outcome<Error>)
    ensures r.Pass? <==> WithinCap(s, amount)
    ensures r == Fail(MaxSupplyNotSet) <==> s.cap.None? && CAP_MAX_SUPPLY in s.features
  {
    match s.cap
    case None => Require(CAP_MAX_SUPPLY !in s.features, MaxSupplyNotSet)
    case Some(max) =>
      match CheckedAdd64(s.supply, amount)
      case None => Fail(MaxSupplyExceeded)
      case Some(total) => Require(total <= max, MaxSupplyExceeded)
  }

  /**
   The cover check of `execute_hold`: take `amount` off the lien, add it back to the total locked,
   and compare with the balance. For an amount within the lien it passes exactly when freeze and
   lien together are covered. `HeldAmountUnderflow` does come back: whenever freeze and lien
   together pass the largest u64, although nothing underflowed.
   */
  function ExecutionCover(balance: u64, frozen: u64, held: u64, amount: u64): (r: Result<u64, Error>)
    ensures amount <= held ==> (r.Ok? <==> balance >= frozen + held)
    ensures r.Ok? ==> amount <= held && r.value == held - amount
    ensures amount <= held ==> (r == Err(HeldAmountUnderflow) <==> frozen + held > U64_MAX)
    ensures r.Err? ==> r.error in {HeldAmountUnderflow, InsufficientUnfrozenBalance}
  {
    match CheckedSub64(held, amount)
    case None => Err(HeldAmountUnderflow)
    case Some(heldAfter) =>
      match CheckedAdd64(frozen, heldAfter)
      case None => Err(HeldAmountUnderflow)
      case Some(locked) =>
        match CheckedAdd64(locked, amount)
        case None => Err(HeldAmountUnderflow)
        case Some(totalLocked) => if balance >= totalLocked then Ok(heldAfter) else Err(InsufficientUnfrozenBalance)
  }

  /** The availability test of `record_new_hold`, by saturating subtraction. */
  function RequireAvailable(balance: u64, frozen: u64, held: u64, amount: u64): (r: Outcome<Error>)
    ensures amount > 0 ==> (r.Pass? <==> balance >= frozen + held + amount)
  {
    Require(SaturatingSub64(SaturatingSub64(balance, frozen), held) >= amount, InsufficientAvailableBalance)
  }

  /** The hold program's errors report what they say, when an instruction on a hold fails with one. */
  predicate Truthful(s: State, i: Instruction, e: Error) {
    match i
    case CreateHold(_, a, h, now) => TruthfulCreation(s, a, h, now, e)
    case ControllerCreateHold(_, a, h, now) => TruthfulCreation(s, a, h, now, e)
    case ExecuteHold(signer, a, id, amount, to, now) =>
      TruthfulDraw(s, signer, HoldKey(a, id), amount, e) && TruthfulDelivery(s, HoldKey(a, id), to, now, e)
    case ReleaseHold(signer, a, id, amount) =>
      TruthfulDraw(s, signer, HoldKey(a, id), amount, e) && e != HeldAmountUnderflow
    case ReclaimHold(a, id, now) =>
      var k := HoldKey(a, id);
      && e != HeldAmountUnderflow
      && (e == HoldNotActive ==> k in s.holds && !s.holds[k].status.Active?)
      && (e == HoldNotExpired ==> k in s.holds && now < s.holds[k].expiration)
    case _ => true
  }

  predicate TruthfulCreation(s: State, a: Pubkey, h: NewHold, now: i64, e: Error) {
    && (e == ZeroAmount ==> h.amount == 0)
    && (e == ExpirationInThePast ==> h.expiration <= now)
    && (e == HoldIdMismatch ==> h.id != HoldCount(s, a) + 1)
    && (e == AccountFrozen ==> FreezeStatus(s, a).fullyFrozen)
    && (e == InsufficientAvailableBalance ==>
          Balance(s, a) < FreezeStatus(s, a).frozenBalance + Held(s, a) + h.amount)
  }

  predicate TruthfulDelivery(s: State, k: HoldKey, to: Pubkey, now: i64, e: Error) {
    && (e == HoldExpired ==> k in s.holds && now >= s.holds[k].expiration)
    && (e == DestinationMismatch ==> k in s.holds && s.holds[k].destination !in {None, Some(to)})
    && (e == AccountFrozen ==> FreezeStatus(s, k.account).fullyFrozen)
    && (e == HeldAmountUnderflow ==> FreezeStatus(s, k.account).frozenBalance + Held(s, k.account) > U64_MAX)
  }

  predicate TruthfulDraw(s: State, signer: Pubkey, k: HoldKey, amount: u64, e: Error) {
    && (e == ZeroAmount ==> amount == 0)
    && (e == NotTheEscrow ==> k in s.holds && s.holds[k].escrow != signer)
    && (e == HoldNotActive ==> k in s.holds && !s.holds[k].status.Active?)
    && (e == AmountExceedsHold ==> k in s.holds && amount > s.holds[k].currentAmount)
  }

  // ---------- The guards of the hold instructions ----------

  /** `record_new_hold` up to its writes. */
  function GuardCreation(s: State, a: Pubkey, h: NewHold, now: i64): (r: Outcome<Error>)
    requires Inv(s) && a in s.balances
    ensures r.Pass? <==>
      && !FreezeStatus(s, a).fullyFrozen && h.amount > 0 && h.expiration > now && h.id == HoldCount(s, a) + 1
      && Balance(s, a) >= FreezeStatus(s, a).frozenBalance + Held(s, a) + h.amount
    ensures r.Fail? ==> TruthfulCreation(s, a, h, now, r.error)
  {
    var status := FreezeStatus(s, a);
    :- Require(!status.fullyFrozen, AccountFrozen);
    :- Require(h.amount > 0, ZeroAmount);
    :- Require(h.expiration > now, ExpirationInThePast);
    match CheckedAdd64(HoldCount(s, a), 1)
    case None => Fail(HoldIdMismatch)
    case Some(expected) =>
      :- Require(h.id == expected, HoldIdMismatch);
      :- RequireAvailable(s.balances[a], status.frozenBalance, Held(s, a), h.amount);
      Require(CheckedAdd64(Held(s, a), h.amount).Some?, InsufficientAvailableBalance)
  }

  /** The compliance checks `execute_hold` repeats, because the hook will not run them for it. */
  function GuardDelivery(s: State, from: Pubkey, to: Pubkey, amount: u64): (r: Outcome<Error>)
    requires from in s.balances && amount <= Held(s, from)
    ensures r.Pass? <==>
      && Listed(s, from) && Listed(s, to) && !FreezeStatus(s, from).fullyFrozen
      && s.balances[from] >= FreezeStatus(s, from).frozenBalance + Held(s, from)
    ensures r == Fail(HeldAmountUnderflow) <==>
      && Listed(s, from) && Listed(s, to) && !FreezeStatus(s, from).fullyFrozen
      && FreezeStatus(s, from).frozenBalance + Held(s, from) > U64_MAX
    ensures r.Fail? ==>
              || r.error in {NotWhitelisted, Blacklisted, InsufficientUnfrozenBalance, HeldAmountUnderflow}
              || (r.error == AccountFrozen && FreezeStatus(s, from).fullyFrozen)
  {
    var status := FreezeStatus(s, from);
    :- VerifyBothEnds(s, from, to);
    :- Require(!status.fullyFrozen, AccountFrozen);
    match ExecutionCover(s.balances[from], status.frozenBalance, Held(s, from), amount)
    case Err(e) => Fail(e)
    case Ok(_) => Pass
  }

  /** What `execute_hold` asks of the hold itself, in its own order. */
  function GuardTerms(h: Hold, signer: Pubkey, amount: u64, to: Pubkey, now: i64): (r: Outcome<Error>)
    ensures r.Pass? <==>
      && h.escrow == signer && h.status.Active? && now < h.expiration && 0 < amount <= h.currentAmount
      && (h.destination.None? || h.destination.value == to)
    ensures r.Fail? ==>
      match r.error
      case NotTheEscrow => h.escrow != signer
      case HoldNotActive => !h.status.Active?
      case HoldExpired => now >= h.expiration
      case ZeroAmount => amount == 0
      case AmountExceedsHold => amount > h.currentAmount
      case DestinationMismatch => h.destination !in {None, Some(to)}
      case _ => false
  {
    var owed := h.currentAmount;
    :- Require(signer == h.escrow, NotTheEscrow);
    :- Require(h.status.Active?, HoldNotActive);
    :- Require(now < h.expiration, HoldExpired);
    :- Require(amount > 0, ZeroAmount);
    :- Require(amount <= owed, AmountExceedsHold);
    Require(h.destination.None? || to == h.destination.value, DestinationMismatch)
  }

  /** `execute_hold` up to its writes. */
  function GuardExecution(s: State, signer: Pubkey, from: Pubkey, id: u64, amount: u64, to: Pubkey, now: i64)
    : (r: Outcome<Error>)
    requires Inv(s)
    ensures r.Pass? <==> CanExecute(s, signer, from, id, amount, to, now)
    ensures r.Pass? ==> amount <= Held(s, from)
    ensures r == Fail(HeldAmountUnderflow) <==>
      && Deliverable(s, signer, from, id, amount, to, now)
      && FreezeStatus(s, from).frozenBalance + Held(s, from) > U64_MAX
    ensures r.Fail? ==> TruthfulDraw(s, signer, HoldKey(from, id), amount, r.error)
    ensures r.Fail? ==> TruthfulDelivery(s, HoldKey(from, id), to, now, r.error)
  {
    var k := HoldKey(from, id);
    :- Require(from in s.balances && to in s.balances, AccountNotInitialized);
    :- Require(from != to, DuplicateAccounts);
    :- Require(from in s.positions && k in s.holds, AccountNotInitialized);
    :- Require(!s.paused, MintPaused);
    :- Require(!s.deactivated, Deactivated);
    :- Require(HOLD_CREATE_HOLD in s.features, FunctionalityNotSupported);
    :- GuardTerms(s.holds[k], signer, amount, to, now);
    HoldMovable(s, k, amount, to);
    GuardDelivery(s, from, to, amount)
  }

  /** `release_hold` up to its writes. */
  function GuardRelease(s: State, signer: Pubkey, a: Pubkey, id: u64, amount: u64): (r: Outcome<Error>)
    requires Inv(s)
    ensures r.Pass? <==> CanRelease(s, signer, HoldKey(a, id), amount)
    ensures r.Pass? ==> amount <= Held(s, a)
    ensures r.Fail? ==> Truthful(s, ReleaseHold(signer, a, id, amount), r.error)
  {
    var k := HoldKey(a, id);
    :- Require(a in s.positions && k in s.holds, AccountNotInitialized);
    :- Require(HOLD_CREATE_HOLD in s.features, FunctionalityNotSupported);
    var hold := s.holds[k];
    :- Require(signer == hold.escrow, NotTheEscrow);
    :- Require(hold.status.Active?, HoldNotActive);
    :- Require(amount > 0, ZeroAmount);
    :- Require(amount <= hold.currentAmount, AmountExceedsHold);
    HeldAmountCovers(s, k);
    Require(CheckedSub64(Held(s, a), amount).Some?, HeldAmountUnderflow)
  }

  /** `reclaim_hold` up to its writes. */
  function GuardReclaim(s: State, a: Pubkey, id: u64, now: i64): (r: Outcome<Error>)
    requires Inv(s)
    ensures r.Pass? <==> CanReclaim(s, HoldKey(a, id), now)
    ensures r.Pass? ==> s.holds[HoldKey(a, id)].currentAmount <= Held(s, a)
    ensures r.Fail? ==> Truthful(s, ReclaimHold(a, id, now), r.error)
  {
    var k := HoldKey(a, id);
    :- Require(a in s.positions && k in s.holds, AccountNotInitialized);
    :- Require(HOLD_CREATE_HOLD in s.features, FunctionalityNotSupported);
    var hold := s.holds[k];
    :- Require(hold.status.Active?, HoldNotActive);
    :- Require(now >= hold.expiration, HoldNotExpired);
    HeldAmountCovers(s, k);
    Require(CheckedSub64(Held(s, a), hold.currentAmount).Some?, HeldAmountUnderflow)
  }

  /**
   `HeldAmountUnderflow` is meant to be unreachable while every lien is the sum of its holds.
   It is not: one held token under the largest possible partial freeze is enough.
   */
  lemma UnderflowErrorReachable(key: Pubkey, a: Pubkey, b: Pubkey)
    requires a != b
    ensures exists s :: Reachable(s) && Inv(s) && GuardExecution(s, key, a, 1, 1, b, 0) == Fail(HeldAmountUnderflow)
  {
    OneTokenFrozenReachable(key, a, b, U64_MAX);
    var s := OneTokenFrozen(key, a, b, U64_MAX);
    ReachableInv(s);
    assert Deliverable(s, key, a, 1, 1, b, 0);
  }
}
