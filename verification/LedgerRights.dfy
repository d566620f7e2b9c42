/** Who may do what, when, and up to which amount. */
module LedgerRights {
  import opened Numbers
  import opened Ledger
  import opened LedgerInvariants
  import opened LedgerRuns
  import opened LedgerHistory

  // ---------- Rights ----------

  /** The role an instruction needs, and of whom. */
  function RightFor(i: Instruction): Option<(Pubkey, u16)> {
    match i
    case ControllerCreateHold(signer, _, _, _) => Some((signer, ROLE_CONTROLLER))
    case ControllerTransfer(signer, _, _, _) => Some((signer, ROLE_CONTROLLER))
    case Burn(signer, _, _) => Some((signer, ROLE_CONTROLLER))
    case Mint(signer, _, _) => Some((signer, ROLE_ISSUER))
    case SetMaxSupply(signer, _) => Some((signer, ROLE_CAP))
    case FreezeAccount(signer, _) => Some((signer, ROLE_FREEZE_MANAGER))
    case UnfreezeAccount(signer, _) => Some((signer, ROLE_FREEZE_MANAGER))
    case FreezePartial(signer, _, _) => Some((signer, ROLE_FREEZE_MANAGER))
    case UnfreezePartial(signer, _) => Some((signer, ROLE_FREEZE_MANAGER))
    case SetMode(signer, _) => Some((signer, ROLE_CONTROL_LIST))
    case AddToControlList(signer, _) => Some((signer, ROLE_CONTROL_LIST))
    case RemoveFromControlList(signer, _) => Some((signer, ROLE_CONTROL_LIST))
    case Pause(signer) => Some((signer, ROLE_PAUSER))
    case Unpause(signer) => Some((signer, ROLE_PAUSER))
    case Deactivate(signer) => Some((signer, ROLE_DEACTIVATE))
    case _ => None
  }

  /** The functionality the mint's version must have. */
  function FeatureFor(i: Instruction): Option<u16> {
    match i
    case Transfer(_, from, to, _) => if from == to then None else Some(TRANSFER_HOOK_EXECUTE)
    case ControllerTransfer(_, _, _, _) => Some(OPERATIONS_CONTROLLER_TRANSFER)
    case Burn(_, _, _) => Some(OPERATIONS_BURN)
    case Mint(_, _, _) => Some(MINT_MINT)
    case SetMaxSupply(_, _) => Some(CAP_MAX_SUPPLY)
    case FreezeAccount(_, _) => Some(FREEZE_FREEZE_ACCOUNT)
    case UnfreezeAccount(_, _) => Some(FREEZE_UNFREEZE_ACCOUNT)
    case FreezePartial(_, _, _) => Some(FREEZE_PARTIALLY_FREEZE_ACCOUNT)
    case UnfreezePartial(_, _) => Some(FREEZE_REMOVE_PARTIAL_FREEZE)
    case SetMode(_, _) => Some(TRANSFER_CONTROL_INITIALIZE)
    case AddToControlList(_, _) => Some(TRANSFER_CONTROL_ADD_TO_CONTROL_LIST)
    case RemoveFromControlList(_, _) => Some(TRANSFER_CONTROL_REMOVE_FROM_CONTROL_LIST)
    case Pause(_) => Some(PAUSE_PAUSE)
    case Unpause(_) => Some(PAUSE_UNPAUSE)
    case Deactivate(_) => Some(DEACTIVATE_DEACTIVATE)
    case _ => if TouchesHolds(i) then Some(HOLD_CREATE_HOLD) else None
  }

  /** What Token-2022 and access-control do to accounts, whatever the state of the mint. */
  predicate OfAccounts(i: Instruction) {
    || i.Approve? || i.Revoke? || i.SetAccountOwner? || i.OpenAccount? || i.CloseAccount? || i.SetRoles?
    || (i.Transfer? && i.from == i.to)
  }

  predicate AllowedWhileDeactivated(i: Instruction) { i.ReleaseHold? || i.ReclaimHold? || OfAccounts(i) }

  predicate AllowedWhilePaused(i: Instruction) {
    || i.ReleaseHold? || i.ReclaimHold? || i.Pause? || i.Unpause?
    || (OfAccounts(i) && !i.Transfer?)
  }

  /** Role, functionality, activity and pause, for every instruction that succeeds. */
  predicate Allowed(s: State, i: Instruction) {
    && (RightFor(i).Some? ==> RightFor(i).value in s.roles)
    && (FeatureFor(i).Some? ==> FeatureFor(i).value in s.features)
    && (s.deactivated ==> AllowedWhileDeactivated(i))
    && (s.paused ==> AllowedWhilePaused(i))
  }

  lemma AdminAllowed(s: State, i: Instruction)
    requires Can(s, i) && Administers(i)
    ensures Allowed(s, i)
  {
  }

  lemma TokensAllowed(s: State, i: Instruction)
    requires Can(s, i) && !Administers(i)
    ensures Allowed(s, i)
  {
  }

  lemma StepAllowed(s: State, i: Instruction)
    requires Can(s, i)
    ensures Allowed(s, i)
  {
    if Administers(i) { AdminAllowed(s, i); } else { TokensAllowed(s, i); }
  }

  /**
   At every point of every run from a new mint the signer had the role by the last grant, the
   functionality was there from the start, nothing had deactivated the mint and the last pause had
   been lifted, except where an instruction is meant to work regardless.
   */
  lemma AllowedFromHistory(start: State, steps: seq<Instruction>, n: nat)
    requires Initial(start) && Run(start, steps).Some? && n < |steps|
    ensures var i, past := steps[n], steps[..n];
            && (RightFor(i).Some? ==> RightFor(i).value in Granted(start, Last(past, Grants)))
            && (FeatureFor(i).Some? ==> FeatureFor(i).value in start.features)
            && (Last(past, Deactivation).Some? ==> AllowedWhileDeactivated(i))
            && (Paused(Last(past, Pausing)) ==> AllowedWhilePaused(i))
  {
    PointOf(start, steps, n);
    var s := Run(start, steps[..n]).value;
    RulesFromHistory(start, steps[..n]);
    RulesAreFixed(start, steps[..n]);
    StepAllowed(s, steps[n]);
  }

  // ---------- What must have come before ----------

  predicate Ready(s: State, i: Instruction) {
    match i
    case FreezeAccount(_, a) => !FreezeStatus(s, a).fullyFrozen
    case UnfreezeAccount(_, a) => FreezeStatus(s, a).fullyFrozen
    case FreezePartial(_, _, amount) => amount > 0
    case UnfreezePartial(_, a) => FreezeStatus(s, a).frozenBalance > 0
    case RemoveFromControlList(_, a) => a in s.controlList
    case SetMode(_, _) => s.mode.None?
    case SetMaxSupply(_, max) => max >= 1 && max >= s.supply
    case Mint(_, _, amount) => WithinCap(s, amount)
    case _ => true
  }

  lemma StepReady(s: State, i: Instruction)
    requires Can(s, i)
    ensures Ready(s, i)
  {
  }

  /** For every instruction of an administrator the right, the state of the mint and readiness are enough. */
  lemma AdministeredExactly(s: State, i: Instruction)
    requires Administers(i) && RightFor(i).Some?
    ensures Can(s, i) <==> Allowed(s, i) && Ready(s, i)
  {
  }

  /**
   An account is fully frozen only when it is not, and unfrozen only when it is; the mode is set once;
   and a cap is never below the supply, nor the supply after a mint above the cap.
   */
  lemma InTurn(start: State, steps: seq<Instruction>, n: nat)
    requires Initial(start) && Run(start, steps).Some? && n < |steps|
    ensures var past := steps[..n];
            match steps[n]
            case FreezeAccount(_, a) => !Full(Last(past, FullFreeze(a)))
            case UnfreezeAccount(_, a) => Full(Last(past, FullFreeze(a)))
            case FreezePartial(_, _, amount) => amount > 0
            case UnfreezePartial(_, a) => Frozen(Last(past, PartialFreeze(a))) > 0
            case RemoveFromControlList(_, a) => OnList(Last(past, Listing(a)))
            case SetMode(_, _) => Last(past, ControlMode).None?
            case SetMaxSupply(_, max) => max >= 1 && max >= Minted(past) - Burned(past)
            case Mint(_, _, amount) =>
              var cap := CapSet(Last(past, SupplyCap));
              if cap.Some? then Minted(past) - Burned(past) + amount <= cap.value
              else CAP_MAX_SUPPLY !in start.features
            case _ => true
  {
    PointOf(start, steps, n);
    StepReady(Run(start, steps[..n]).value, steps[n]);
    LimitsFromHistory(start, steps[..n]);
    SupplyFromHistory(start, steps[..n]);
    RulesAreFixed(start, steps[..n]);
    ModeUnset(steps[..n]);
    if steps[n].FreezeAccount? || steps[n].UnfreezeAccount? || steps[n].UnfreezePartial? {
      FreezesFromHistory(start, steps[..n], steps[n].account);
    }
    if steps[n].RemoveFromControlList? { ListFromHistory(start, steps[..n], steps[n].account); }
  }

  lemma {:induction false} ModeUnset(steps: seq<Instruction>)
    ensures ModeSet(Last(steps, ControlMode)).None? ==> Last(steps, ControlMode).None?
  {
    if |steps| > 0 { ModeUnset(steps[..|steps| - 1]); }
  }

  /** Who gives up and who takes tokens on the say-so of a holder or an escrow. */
  predicate Regulated(i: Instruction) { (i.Transfer? && i.from != i.to) || i.ExecuteHold? }

  function Source(i: Instruction): Pubkey
    requires Regulated(i)
  {
    if i.Transfer? then i.from else i.account
  }

  lemma StepRegulated(s: State, i: Instruction)
    requires Can(s, i) && Regulated(i)
    ensures Listed(s, Source(i)) && Listed(s, i.to) && !FreezeStatus(s, Source(i)).fullyFrozen
  {
  }

  /** Both ends of a transfer or an execution were admitted by the list, and its source not fully frozen. */
  lemma RegulatedFromHistory(start: State, steps: seq<Instruction>, n: nat)
    requires Initial(start) && Run(start, steps).Some? && n < |steps| && Regulated(steps[n])
    ensures Admitted(steps[..n], Source(steps[n])) && Admitted(steps[..n], steps[n].to)
    ensures !Full(Last(steps[..n], FullFreeze(Source(steps[n]))))
  {
    PointOf(start, steps, n);
    StepRegulated(Run(start, steps[..n]).value, steps[n]);
    AdmittedFromHistory(start, steps[..n], Source(steps[n]));
    AdmittedFromHistory(start, steps[..n], steps[n].to);
    FreezesFromHistory(start, steps[..n], Source(steps[n]));
  }

  lemma StepSigned(s: State, i: Instruction)
    requires Can(s, i)
    ensures i.CreateHold? ==> OwnerOf(s, i.account) == Some(i.signer)
    ensures i.Transfer? ==>
              OwnerOf(s, i.from) == Some(i.signer) ||
              (DelegatedTo(s, i.from, i.signer) && i.amount <= Allowance(s, i.from, i.signer))
  {
  }

  /** A holder's instruction was signed by the owner on record or, for a transfer, the delegate approved last. */
  lemma SignedFromHistory(start: State, steps: seq<Instruction>, n: nat)
    requires Initial(start) && Run(start, steps).Some? && n < |steps|
    ensures var i, past := steps[n], steps[..n];
            && (i.CreateHold? ==> OwnerSet(Last(past, TokenAccount(i.account))) == Some(i.signer))
            && (i.Transfer? ==>
                  || OwnerSet(Last(past, TokenAccount(i.from))) == Some(i.signer)
                  || (&& Approving(Last(past, Delegation(i.from)), i.signer)
                      && i.amount <= Last(past, Delegation(i.from)).value.amount))
  {
    PointOf(start, steps, n);
    var s, i := Run(start, steps[..n]).value, steps[n];
    StepSigned(s, i);
    if i.CreateHold? { OwnersFromHistory(start, steps[..n], i.account); }
    if i.Transfer? {
      OwnersFromHistory(start, steps[..n], i.from);
      if DelegatedTo(s, i.from, i.signer) { DelegatesFromHistory(start, steps[..n], i.from, i.signer); }
    }
  }

  // ---------- Limits ----------

  predicate Live(s: State) { !s.paused && !s.deactivated }

  /** A holder can send exactly what neither freeze nor lien claims. */
  lemma TransferLimit(s: State, signer: Pubkey, from: Pubkey, to: Pubkey, amount: u64)
    requires Inv(s) && Live(s) && TRANSFER_HOOK_EXECUTE in s.features && from != to && to in s.balances
    requires OwnedBy(s, from, signer) && !DelegatedTo(s, from, signer)
    requires Listed(s, from) && Listed(s, to) && !FreezeStatus(s, from).fullyFrozen
    ensures Can(s, Transfer(signer, from, to, amount)) <==> Covered(s, from) && amount <= Free(s, from)
  {
    if amount <= s.balances[from] { CreditFits(s, from, to, amount); }
  }

  /** A controller can seize and burn exactly what no lien claims, frozen or not. */
  lemma SeizureLimit(s: State, signer: Pubkey, from: Pubkey, to: Pubkey, amount: u64)
    requires Inv(s) && Live(s) && HasRole(s, signer, ROLE_CONTROLLER) && from in s.balances && to in s.balances
    ensures OPERATIONS_CONTROLLER_TRANSFER in s.features ==>
              (Can(s, ControllerTransfer(signer, from, to, amount)) <==> amount <= Balance(s, from) - Held(s, from))
    ensures OPERATIONS_BURN in s.features ==>
              (Can(s, Burn(signer, from, amount)) <==> amount <= Balance(s, from) - Held(s, from))
  {
    BalanceWithinSupply(s, from);
    if from != to && amount <= s.balances[from] { CreditFits(s, from, to, amount); }
  }

  /** An issuer can mint exactly what the cap leaves, or the u64 supply where there are no caps. */
  lemma MintLimit(s: State, signer: Pubkey, to: Pubkey, amount: u64)
    requires Inv(s) && Live(s) && HasRole(s, signer, ROLE_ISSUER) && MINT_MINT in s.features
    requires to in s.balances && Listed(s, to)
    ensures Can(s, Mint(signer, to, amount)) <==>
            if s.cap.Some? then amount <= s.cap.value - s.supply
            else CAP_MAX_SUPPLY !in s.features && amount <= U64_MAX - s.supply
  {
    BalanceWithinSupply(s, to);
  }

  /** A hold can be placed on exactly what neither freeze nor other holds claim. */
  lemma HoldLimit(s: State, signer: Pubkey, a: Pubkey, h: NewHold, now: i64)
    requires Inv(s) && Live(s) && HOLD_CREATE_HOLD in s.features && a in s.balances
    requires !FreezeStatus(s, a).fullyFrozen && h.id == HoldCount(s, a) + 1 && now < h.expiration
    ensures OwnedBy(s, a, signer) ==>
              (Can(s, CreateHold(signer, a, h, now)) <==> h.amount > 0 && Covered(s, a) && h.amount <= Free(s, a))
    ensures HasRole(s, signer, ROLE_CONTROLLER) ==>
              (Can(s, ControllerCreateHold(signer, a, h, now)) <==>
               h.amount > 0 && Covered(s, a) && h.amount <= Free(s, a))
  {
  }
}
