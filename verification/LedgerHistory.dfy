/**
 The ledger read off the list of instructions alone: after any run from a new mint, what every
 record says is decided by the last instruction that concerns it or by a sum over the run.
 */
module LedgerHistory {
  import opened Numbers
  import opened Ledger
  import opened LedgerInvariants
  import opened LedgerRuns

  // ---------- The last word on a subject ----------

  datatype Subject =
    | FullFreeze(account: Pubkey) | PartialFreeze(account: Pubkey) | Listing(account: Pubkey)
    | TokenAccount(account: Pubkey) | Delegation(account: Pubkey)
    | Creation(key: HoldKey) | Reclaiming(key: HoldKey)
    | SupplyCap | ControlMode | Pausing | Deactivation | Grants

  predicate Concerns(i: Instruction, t: Subject) {
    match t
    case FullFreeze(a) => (i.FreezeAccount? || i.UnfreezeAccount?) && i.account == a
    case PartialFreeze(a) => (i.FreezePartial? || i.UnfreezePartial?) && i.account == a
    case Listing(a) => (i.AddToControlList? || i.RemoveFromControlList?) && i.account == a
    case TokenAccount(a) => (i.OpenAccount? || i.CloseAccount? || i.SetAccountOwner?) && i.account == a
    case Delegation(a) =>
      (i.Approve? || i.Revoke? || i.OpenAccount? || i.CloseAccount? || i.SetAccountOwner?) && i.account == a
    case Creation(k) => (i.CreateHold? || i.ControllerCreateHold?) && k == HoldKey(i.account, i.hold.id)
    case Reclaiming(k) => i.ReclaimHold? && k == HoldKey(i.account, i.id)
    case SupplyCap => i.SetMaxSupply?
    case ControlMode => i.SetMode?
    case Pausing => i.Pause? || i.Unpause?
    case Deactivation => i.Deactivate?
    case Grants => i.SetRoles?
  }

  /** The last instruction of the run that concerns the subject. */
  function Last(steps: seq<Instruction>, t: Subject): Option<Instruction> {
    if |steps| == 0 then None
    else if Concerns(steps[|steps| - 1], t) then Some(steps[|steps| - 1])
    else Last(steps[..|steps| - 1], t)
  }

  // ---------- Rules ----------

  predicate Administers(i: Instruction) { !MovesTokens(i) && !TouchesHolds(i) }

  /** Instructions on tokens and holds leave the rules alone. */
  lemma TokensKeepRules(s: State, i: Instruction)
    requires Can(s, i) && !Administers(i)
    ensures var t := Do(s, i);
            && t.cap == s.cap && t.mode == s.mode && t.paused == s.paused && t.deactivated == s.deactivated
            && t.roles == s.roles && t.controlList == s.controlList && t.freezes == s.freezes
  {
  }

  function CapSet(last: Option<Instruction>): Option<u64> {
    if last.Some? && last.value.SetMaxSupply? then Some(last.value.amount) else None
  }

  function ModeSet(last: Option<Instruction>): Option<TransferMode> {
    if last.Some? && last.value.SetMode? then Some(last.value.newMode) else None
  }

  function Granted(start: State, last: Option<Instruction>): set<(Pubkey, u16)> {
    if last.Some? && last.value.SetRoles? then last.value.roles else start.roles
  }

  lemma AdminLimits(s: State, i: Instruction)
    requires Can(s, i) && Administers(i)
    ensures Do(s, i).cap == if Concerns(i, SupplyCap) then CapSet(Some(i)) else s.cap
    ensures Do(s, i).mode == if Concerns(i, ControlMode) then ModeSet(Some(i)) else s.mode
  {
  }

  lemma AdminSwitches(s: State, i: Instruction)
    requires Can(s, i) && Administers(i)
    ensures Do(s, i).paused == if Concerns(i, Pausing) then i.Pause? else s.paused
    ensures Do(s, i).deactivated == (Concerns(i, Deactivation) || s.deactivated)
    ensures Do(s, i).roles == if Concerns(i, Grants) then i.roles else s.roles
  {
  }

  lemma StepLimits(s: State, i: Instruction)
    requires Can(s, i)
    ensures Do(s, i).cap == if Concerns(i, SupplyCap) then CapSet(Some(i)) else s.cap
    ensures Do(s, i).mode == if Concerns(i, ControlMode) then ModeSet(Some(i)) else s.mode
  {
    if Administers(i) { AdminLimits(s, i); } else { TokensKeepRules(s, i); }
  }

  lemma StepSwitches(s: State, i: Instruction)
    requires Can(s, i)
    ensures Do(s, i).paused == if Concerns(i, Pausing) then i.Pause? else s.paused
    ensures Do(s, i).deactivated == (Concerns(i, Deactivation) || s.deactivated)
  {
    if Administers(i) { AdminSwitches(s, i); } else { TokensKeepRules(s, i); }
  }

  lemma StepRoles(s: State, i: Instruction)
    requires Can(s, i)
    ensures Do(s, i).roles == if Concerns(i, Grants) then i.roles else s.roles
  {
    if Administers(i) { AdminSwitches(s, i); } else { TokensKeepRules(s, i); }
  }

  lemma {:induction false} LimitsFromHistory(start: State, steps: seq<Instruction>)
    requires Initial(start) && Run(start, steps).Some?
    ensures Run(start, steps).value.cap == CapSet(Last(steps, SupplyCap))
    ensures Run(start, steps).value.mode == ModeSet(Last(steps, ControlMode))
  {
    if |steps| > 0 {
      LimitsFromHistory(start, steps[..|steps| - 1]);
      StepLimits(Run(start, steps[..|steps| - 1]).value, steps[|steps| - 1]);
    }
  }

  predicate Paused(last: Option<Instruction>) { last.Some? && last.value.Pause? }

  lemma {:induction false} SwitchesFromHistory(start: State, steps: seq<Instruction>)
    requires Initial(start) && Run(start, steps).Some?
    ensures Run(start, steps).value.paused <==> Paused(Last(steps, Pausing))
    ensures Run(start, steps).value.deactivated <==> Last(steps, Deactivation).Some?
  {
    if |steps| > 0 {
      SwitchesFromHistory(start, steps[..|steps| - 1]);
      StepSwitches(Run(start, steps[..|steps| - 1]).value, steps[|steps| - 1]);
    }
  }

  lemma {:induction false} RolesFromHistory(start: State, steps: seq<Instruction>)
    requires Run(start, steps).Some?
    ensures Run(start, steps).value.roles == Granted(start, Last(steps, Grants))
  {
    if |steps| > 0 {
      RolesFromHistory(start, steps[..|steps| - 1]);
      StepRoles(Run(start, steps[..|steps| - 1]).value, steps[|steps| - 1]);
    }
  }

  /** Cap, mode, pause, deactivation and roles are what the last instruction on each made them. */
  lemma RulesFromHistory(start: State, steps: seq<Instruction>)
    requires Initial(start) && Run(start, steps).Some?
    ensures var t := Run(start, steps).value;
            && t.cap == CapSet(Last(steps, SupplyCap))
            && t.mode == ModeSet(Last(steps, ControlMode))
            && (t.paused <==> Paused(Last(steps, Pausing)))
            && (t.deactivated <==> Last(steps, Deactivation).Some?)
            && t.roles == Granted(start, Last(steps, Grants))
  {
    LimitsFromHistory(start, steps);
    SwitchesFromHistory(start, steps);
    RolesFromHistory(start, steps);
  }

  predicate Full(last: Option<Instruction>) { last.Some? && last.value.FreezeAccount? }

  function Frozen(last: Option<Instruction>): u64 {
    if last.Some? && last.value.FreezePartial? then last.value.amount else 0
  }

  lemma StepFreezes(s: State, i: Instruction, a: Pubkey)
    requires Can(s, i) && Administers(i)
    ensures FreezeStatus(Do(s, i), a).fullyFrozen ==
            if Concerns(i, FullFreeze(a)) then i.FreezeAccount? else FreezeStatus(s, a).fullyFrozen
    ensures FreezeStatus(Do(s, i), a).frozenBalance ==
            if Concerns(i, PartialFreeze(a)) then Frozen(Some(i)) else FreezeStatus(s, a).frozenBalance
  {
  }

  /** Both sides of a freeze, likewise. */
  lemma {:induction false} FreezesFromHistory(start: State, steps: seq<Instruction>, a: Pubkey)
    requires Initial(start) && Run(start, steps).Some?
    ensures var f := FreezeStatus(Run(start, steps).value, a);
            && (f.fullyFrozen <==> Full(Last(steps, FullFreeze(a))))
            && f.frozenBalance == Frozen(Last(steps, PartialFreeze(a)))
  {
    if |steps| > 0 {
      FreezesFromHistory(start, steps[..|steps| - 1], a);
      var before, last := Run(start, steps[..|steps| - 1]).value, steps[|steps| - 1];
      if Administers(last) {
        StepFreezes(before, last, a);
      } else {
        TokensKeepRules(before, last);
      }
    }
  }

  lemma StepListing(s: State, i: Instruction, a: Pubkey)
    requires Can(s, i) && Administers(i)
    ensures a in Do(s, i).controlList <==> if Concerns(i, Listing(a)) then i.AddToControlList? else a in s.controlList
  {
  }

  predicate OnList(last: Option<Instruction>) { last.Some? && last.value.AddToControlList? }

  lemma {:induction false} ListFromHistory(start: State, steps: seq<Instruction>, a: Pubkey)
    requires Initial(start) && Run(start, steps).Some?
    ensures a in Run(start, steps).value.controlList <==> OnList(Last(steps, Listing(a)))
  {
    if |steps| > 0 {
      ListFromHistory(start, steps[..|steps| - 1], a);
      var before, last := Run(start, steps[..|steps| - 1]).value, steps[|steps| - 1];
      if Administers(last) {
        StepListing(before, last, a);
      } else {
        TokensKeepRules(before, last);
      }
    }
  }

  /** Without a mode everyone is admitted; a whitelist admits exactly the listed, a blacklist the others. */
  predicate Admitted(steps: seq<Instruction>, a: Pubkey) {
    match ModeSet(Last(steps, ControlMode))
    case None => true
    case Some(Whitelist) => OnList(Last(steps, Listing(a)))
    case Some(Blacklist) => !OnList(Last(steps, Listing(a)))
  }

  lemma AdmittedFromHistory(start: State, steps: seq<Instruction>, a: Pubkey)
    requires Initial(start) && Run(start, steps).Some?
    ensures Listed(Run(start, steps).value, a) <==> Admitted(steps, a)
  {
    RulesFromHistory(start, steps);
    ListFromHistory(start, steps, a);
  }

  // ---------- Token accounts ----------

  function OwnerSet(last: Option<Instruction>): Option<Pubkey> {
    if last.Some? && (last.value.OpenAccount? || last.value.SetAccountOwner?) then Some(last.value.owner) else None
  }

  function OwnerOf(s: State, a: Pubkey): Option<Pubkey> {
    if a in s.balances && a in s.owners then Some(s.owners[a]) else None
  }

  lemma TransferKeepsOwner(s: State, i: Instruction, a: Pubkey)
    requires Can(s, i) && !Administers(i) && !i.OpenAccount? && !i.CloseAccount?
    ensures OwnerOf(Do(s, i), a) == OwnerOf(s, a)
  {
  }

  lemma AdminOwner(s: State, i: Instruction, a: Pubkey)
    requires Can(s, i) && Administers(i)
    ensures OwnerOf(Do(s, i), a) == if Concerns(i, TokenAccount(a)) then OwnerSet(Some(i)) else OwnerOf(s, a)
  {
  }

  lemma StepOwner(s: State, i: Instruction, a: Pubkey)
    requires Can(s, i)
    ensures OwnerOf(Do(s, i), a) == if Concerns(i, TokenAccount(a)) then OwnerSet(Some(i)) else OwnerOf(s, a)
  {
    if Administers(i) {
      AdminOwner(s, i, a);
    } else if !i.OpenAccount? && !i.CloseAccount? {
      TransferKeepsOwner(s, i, a);
    }
  }

  lemma {:induction false} OwnersFromHistory(start: State, steps: seq<Instruction>, a: Pubkey)
    requires Initial(start) && Run(start, steps).Some?
    ensures OwnerOf(Run(start, steps).value, a) == OwnerSet(Last(steps, TokenAccount(a)))
  {
    if |steps| > 0 {
      OwnersFromHistory(start, steps[..|steps| - 1], a);
      StepOwner(Run(start, steps[..|steps| - 1]).value, steps[|steps| - 1], a);
    }
  }

  predicate Approving(last: Option<Instruction>, key: Pubkey) {
    last.Some? && last.value.Approve? && last.value.delegate == key
  }

  lemma TransferDelegate(s: State, i: Instruction, a: Pubkey, key: Pubkey)
    requires Can(s, i) && i.Transfer? && DelegatedTo(Do(s, i), a, key)
    ensures DelegatedTo(s, a, key)
  {
  }

  lemma MoveDelegate(s: State, i: Instruction, a: Pubkey, key: Pubkey)
    requires Can(s, i) && MovesTokens(i) && DelegatedTo(Do(s, i), a, key)
    ensures !Concerns(i, Delegation(a)) && DelegatedTo(s, a, key)
  {
    if i.Transfer? { TransferDelegate(s, i, a, key); }
  }

  lemma StepDelegate(s: State, i: Instruction, a: Pubkey, key: Pubkey)
    requires Can(s, i) && DelegatedTo(Do(s, i), a, key)
    ensures if Concerns(i, Delegation(a)) then Approving(Some(i), key) && Allowance(Do(s, i), a, key) == i.amount
            else DelegatedTo(s, a, key) && Allowance(Do(s, i), a, key) <= Allowance(s, a, key)
  {
    if MovesTokens(i) {
      MoveDelegate(s, i, a, key);
      MovesKeepAllowance(s, i, a, key);
    }
  }

  /** A delegate is the one approved last, for what is left of that approval at most. */
  lemma {:induction false} DelegatesFromHistory(start: State, steps: seq<Instruction>, a: Pubkey, key: Pubkey)
    requires Initial(start) && Run(start, steps).Some? && DelegatedTo(Run(start, steps).value, a, key)
    ensures Approving(Last(steps, Delegation(a)), key)
    ensures Allowance(Run(start, steps).value, a, key) <= Last(steps, Delegation(a)).value.amount
  {
    if |steps| > 0 {
      var front, last := steps[..|steps| - 1], steps[|steps| - 1];
      StepDelegate(Run(start, front).value, last, a, key);
      if !Concerns(last, Delegation(a)) { DelegatesFromHistory(start, front, a, key); }
    }
  }

  // ---------- Balances and supply ----------

  function Received(i: Instruction, a: Pubkey): nat {
    match i
    case ExecuteHold(_, _, _, amount, to, _) => if to == a then amount else 0
    case Transfer(_, _, to, amount) => if to == a then amount else 0
    case ControllerTransfer(_, _, to, amount) => if to == a then amount else 0
    case Mint(_, to, amount) => if to == a then amount else 0
    case _ => 0
  }

  function Sent(i: Instruction, a: Pubkey): nat {
    match i
    case ExecuteHold(_, from, _, amount, _, _) => if from == a then amount else 0
    case Transfer(_, from, _, amount) => if from == a then amount else 0
    case ControllerTransfer(_, from, _, amount) => if from == a then amount else 0
    case Burn(_, from, amount) => if from == a then amount else 0
    case _ => 0
  }

  function TotalReceived(steps: seq<Instruction>, a: Pubkey): nat {
    if |steps| == 0 then 0 else TotalReceived(steps[..|steps| - 1], a) + Received(steps[|steps| - 1], a)
  }

  function TotalSent(steps: seq<Instruction>, a: Pubkey): nat {
    if |steps| == 0 then 0 else TotalSent(steps[..|steps| - 1], a) + Sent(steps[|steps| - 1], a)
  }

  lemma TouchBalance(s: State, i: Instruction, a: Pubkey)
    requires Can(s, i) && TouchesHolds(i)
    ensures Balance(Do(s, i), a) == Balance(s, a) + Received(i, a) - Sent(i, a)
  {
  }

  /** One instruction moves every balance by exactly what its own arguments say. */
  lemma StepBalance(s: State, i: Instruction, a: Pubkey)
    requires Can(s, i)
    ensures Balance(Do(s, i), a) == Balance(s, a) + Received(i, a) - Sent(i, a)
  {
    if TouchesHolds(i) { TouchBalance(s, i, a); }
  }

  /** A balance is what it was at the start plus everything received minus everything sent. */
  lemma {:induction false} BalancesFromHistory(s: State, steps: seq<Instruction>, a: Pubkey)
    requires Run(s, steps).Some?
    ensures Balance(Run(s, steps).value, a) == Balance(s, a) + TotalReceived(steps, a) - TotalSent(steps, a)
  {
    if |steps| > 0 {
      BalancesFromHistory(s, steps[..|steps| - 1], a);
      StepBalance(Run(s, steps[..|steps| - 1]).value, steps[|steps| - 1], a);
    }
  }

  function Minted(steps: seq<Instruction>): nat {
    if |steps| == 0 then 0 else
      Minted(steps[..|steps| - 1]) + if steps[|steps| - 1].Mint? then steps[|steps| - 1].amount else 0
  }

  function Burned(steps: seq<Instruction>): nat {
    if |steps| == 0 then 0 else
      Burned(steps[..|steps| - 1]) + if steps[|steps| - 1].Burn? then steps[|steps| - 1].amount else 0
  }

  lemma StepSupply(s: State, i: Instruction)
    requires Can(s, i)
    ensures Do(s, i).supply == s.supply + (if i.Mint? then i.amount else 0) - (if i.Burn? then i.amount else 0)
  {
  }

  lemma {:induction false} SupplyFromHistory(s: State, steps: seq<Instruction>)
    requires Run(s, steps).Some?
    ensures Run(s, steps).value.supply == s.supply + Minted(steps) - Burned(steps)
  {
    if |steps| > 0 {
      SupplyFromHistory(s, steps[..|steps| - 1]);
      StepSupply(Run(s, steps[..|steps| - 1]).value, steps[|steps| - 1]);
    }
  }

  // ---------- Holds ----------

  /** The record carries the terms its creator asked for. */
  predicate AsAsked(h: Hold, i: Instruction) {
    && (i.CreateHold? || i.ControllerCreateHold?)
    && h.escrow == i.hold.escrow && h.destination == i.hold.destination
    && h.initialAmount == i.hold.amount && h.expiration == i.hold.expiration && h.createdAt == i.now
  }

  lemma StepCreates(s: State, i: Instruction, k: HoldKey)
    requires IdsOk(s.positions, s.holds) && Can(s, i)
    ensures k in Do(s, i).holds <==> Concerns(i, Creation(k)) || k in s.holds
    ensures Concerns(i, Creation(k)) ==> k !in s.holds && AsAsked(Do(s, i).holds[k], i)
  {
  }

  /** Every hold was created by one instruction, whose terms it carries for good. */
  lemma {:induction false} HoldsFromHistory(start: State, steps: seq<Instruction>, k: HoldKey)
    requires Initial(start) && Run(start, steps).Some?
    ensures var t := Run(start, steps).value;
            && (k in t.holds <==> Last(steps, Creation(k)).Some?)
            && (k in t.holds ==> AsAsked(t.holds[k], Last(steps, Creation(k)).value))
  {
    if |steps| > 0 {
      var front, last := steps[..|steps| - 1], steps[|steps| - 1];
      HoldsFromHistory(start, front, k);
      RunKeepsInv(start, front);
      StepCreates(Run(start, front).value, last, k);
      if k in Run(start, front).value.holds && TouchesHolds(last) { StepLater(Run(start, front).value, last, k); }
    }
  }

  lemma {:induction false} LastSees(steps: seq<Instruction>, t: Subject, n: nat)
    requires n < |steps| && Concerns(steps[n], t)
    ensures Last(steps, t).Some?
  {
    if n < |steps| - 1 { LastSees(steps[..|steps| - 1], t, n); }
  }

  /** The point of a run at which its n-th instruction succeeds. */
  lemma PointOf(s: State, steps: seq<Instruction>, n: nat)
    requires Inv(s) && Run(s, steps).Some? && n < |steps|
    ensures Run(s, steps[..n]).Some? && Inv(Run(s, steps[..n]).value) && Can(Run(s, steps[..n]).value, steps[n])
  {
    PrefixRuns(s, steps, n);
    RunKeepsInv(s, steps[..n]);
    AtNext(s, steps, n);
  }

  /** No run creates the same hold twice. */
  lemma CreatedOnce(start: State, steps: seq<Instruction>, k: HoldKey, m: nat, n: nat)
    requires Initial(start) && Run(start, steps).Some? && m < n < |steps| && Concerns(steps[m], Creation(k))
    ensures !Concerns(steps[n], Creation(k))
  {
    PointOf(start, steps, n);
    LastSees(steps[..n], Creation(k), m);
    HoldsFromHistory(start, steps[..n], k);
    StepCreates(Run(start, steps[..n]).value, steps[n], k);
  }

  /**
   The escrow named in the terms executes or releases, in positive amounts; it executes before the
   expiration and to the destination pinned there; and a reclaim comes at the expiration or after.
   */
  predicate OnTerms(i: Instruction, asked: NewHold) {
    match i
    case ExecuteHold(signer, a, _, amount, to, now) =>
      && signer == asked.escrow && now < asked.expiration && 0 < amount <= asked.amount
      && to != a && (asked.destination.Some? ==> to == asked.destination.value)
    case ReleaseHold(signer, _, _, amount) => signer == asked.escrow && 0 < amount <= asked.amount
    case ReclaimHold(_, _, now) => now >= asked.expiration
    case _ => false
  }

  predicate Resolving(i: Instruction) { i.ExecuteHold? || i.ReleaseHold? || i.ReclaimHold? }

  lemma StepOnTerms(s: State, i: Instruction, created: Instruction)
    requires Inv(s) && Can(s, i) && Resolving(i)
    requires HoldKey(i.account, i.id) in s.holds ==> AsAsked(s.holds[HoldKey(i.account, i.id)], created)
    ensures HoldKey(i.account, i.id) in s.holds && OnTerms(i, created.hold)
  {
    assert HoldOk(s.holds[HoldKey(i.account, i.id)]);
  }

  /** Whatever resolves a hold in a run does so on the terms its creator asked for. */
  lemma ResolvedAsAsked(start: State, steps: seq<Instruction>, n: nat)
    requires Initial(start) && Run(start, steps).Some? && n < |steps| && Resolving(steps[n])
    ensures var created := Last(steps[..n], Creation(HoldKey(steps[n].account, steps[n].id)));
            && created.Some? && (created.value.CreateHold? || created.value.ControllerCreateHold?)
            && OnTerms(steps[n], created.value.hold)
  {
    PointOf(start, steps, n);
    var k := HoldKey(steps[n].account, steps[n].id);
    HoldsFromHistory(start, steps[..n], k);
    assert k in Run(start, steps[..n]).value.holds;
    StepOnTerms(Run(start, steps[..n]).value, steps[n], Last(steps[..n], Creation(k)).value);
  }

  lemma StepExpires(s: State, i: Instruction, k: HoldKey)
    requires IdsOk(s.positions, s.holds) && Can(s, i) && TouchesHolds(i)
    ensures var t := Do(s, i);
            k in t.holds && t.holds[k].status.Expired? <==>
            Concerns(i, Reclaiming(k)) || (k in s.holds && s.holds[k].status.Expired?)
  {
  }

  /** A hold with something left is active; with nothing left it has expired if it was reclaimed, else it is closed. */
  lemma StatusFromHistory(start: State, steps: seq<Instruction>, k: HoldKey)
    requires Initial(start) && Run(start, steps).Some? && k in Run(start, steps).value.holds
    ensures var h := Run(start, steps).value.holds[k];
            h.status == if h.currentAmount > 0 then Active
                        else if Last(steps, Reclaiming(k)).Some? then Expired else Closed
  {
    RunKeepsInv(start, steps);
    assert HoldOk(Run(start, steps).value.holds[k]);
    ExpiredFromHistory(start, steps, k);
  }

  lemma {:induction false} ExpiredFromHistory(start: State, steps: seq<Instruction>, k: HoldKey)
    requires Initial(start) && Run(start, steps).Some?
    ensures var t := Run(start, steps).value;
            k in t.holds && t.holds[k].status.Expired? <==> Last(steps, Reclaiming(k)).Some?
  {
    if |steps| > 0 {
      var front, last := steps[..|steps| - 1], steps[|steps| - 1];
      ExpiredFromHistory(start, front, k);
      RunKeepsInv(start, front);
      if TouchesHolds(last) { StepExpires(Run(start, front).value, last, k); }
    }
  }
}
