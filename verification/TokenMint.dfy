/**
 The instructions that change one mint's records, run in the programs' own order of checks and on
 machine integers, and proved against `Ledger`: an instruction succeeds exactly when the ledger
 says it can, leaves exactly what the ledger says, and otherwise changes nothing.
 */
module TokenMint {
  import opened Numbers
  import opened Ledger
  import opened LedgerInvariants
  import opened LedgerRuns
  import opened Checks

  /** An instruction succeeds iff it can, and is all or nothing. */
  ghost predicate Performed(before: State, i: Instruction, r: Outcome<Error>, after: State) {
    && (r.Pass? <==> Can(before, i))
    && after == (if Can(before, i) then Do(before, i) else before)
    && (r.Fail? ==> Truthful(before, i, r.error))
  }

  /** A batch succeeds iff it is not empty and its legs would, one after the other. */
  ghost predicate PerformedAll(before: State, legs: seq<Instruction>, r: Outcome<Error>, after: State) {
    && (r.Pass? <==> legs != [] && Run(before, legs).Some?)
    && after == (if r.Pass? then Run(before, legs).value else before)
  }

  function BurnLegs(signer: Pubkey, accounts: seq<Pubkey>, amounts: seq<u64>): (legs: seq<Instruction>)
    requires |accounts| == |amounts|
    ensures |legs| == |amounts|
  {
    seq(|amounts|, i requires 0 <= i < |amounts| => Burn(signer, accounts[i], amounts[i]))
  }

  function MintLegs(signer: Pubkey, accounts: seq<Pubkey>, amounts: seq<u64>): (legs: seq<Instruction>)
    requires |accounts| == |amounts|
    ensures |legs| == |amounts|
  {
    seq(|amounts|, i requires 0 <= i < |amounts| => Mint(signer, accounts[i], amounts[i]))
  }

  function TransferLegs(signer: Pubkey, from: Pubkey, to: seq<Pubkey>, amounts: seq<u64>): (legs: seq<Instruction>)
    requires |to| == |amounts|
    ensures |legs| == |amounts|
  {
    seq(|amounts|, i requires 0 <= i < |amounts| => Transfer(signer, from, to[i], amounts[i]))
  }

  /** The two sides of a freeze record, set or cleared. */
  datatype FreezeKind = Full | Clear | Partial | ClearPartial

  function FreezeStep(kind: FreezeKind, signer: Pubkey, a: Pubkey, amount: u64): Instruction {
    match kind
    case Full => FreezeAccount(signer, a)
    case Clear => UnfreezeAccount(signer, a)
    case Partial => FreezePartial(signer, a, amount)
    case ClearPartial => UnfreezePartial(signer, a)
  }

  function FreezeFeature(kind: FreezeKind): u16 {
    match kind
    case Full => FREEZE_FREEZE_ACCOUNT
    case Clear => FREEZE_UNFREEZE_ACCOUNT
    case Partial => FREEZE_PARTIALLY_FREEZE_ACCOUNT
    case ClearPartial => FREEZE_REMOVE_PARTIAL_FREEZE
  }

  function FreezeLegs(kind: FreezeKind, signer: Pubkey, accounts: seq<Pubkey>, amounts: seq<u64>)
    : (legs: seq<Instruction>)
    ensures |legs| == |accounts|
  {
    seq(|accounts|, i requires 0 <= i < |accounts| =>
      FreezeStep(kind, signer, accounts[i], if i < |amounts| then amounts[i] else 0))
  }

  // ---------- Runs of legs ----------

  /** One more leg. */
  lemma RunLeg(s: State, legs: seq<Instruction>, n: nat)
    requires n < |legs| && Run(s, legs[..n]).Some?
    ensures var t := Run(s, legs[..n]).value;
            Run(s, legs[..n + 1]) == if Can(t, legs[n]) then Some(Do(t, legs[n])) else None
  {
    assert legs[..n + 1][..n] == legs[..n];
  }

  /** A failing leg fails the batch. */
  lemma LegFails(s: State, legs: seq<Instruction>, n: nat)
    requires n < |legs| && Run(s, legs[..n]).Some? && !Can(Run(s, legs[..n]).value, legs[n])
    ensures Run(s, legs).None?
  {
    RunLeg(s, legs, n);
    if Run(s, legs).Some? { PrefixRuns(s, legs, n + 1); }
  }

  /** A leg that was performed carries the batch on or fails it. */
  lemma LegPerformed(s: State, legs: seq<Instruction>, n: nat, r: Outcome<Error>, t: State)
    requires n < |legs| && Run(s, legs[..n]).Some? && Performed(Run(s, legs[..n]).value, legs[n], r, t)
    ensures r.Pass? ==> Run(s, legs[..n + 1]) == Some(t)
    ensures r.Fail? ==> Run(s, legs).None?
  {
    RunLeg(s, legs, n);
    if r.Fail? { LegFails(s, legs, n); }
  }

  lemma ZeroFreezeFails(s: State, signer: Pubkey, a: Pubkey)
    ensures !Can(s, FreezePartial(signer, a, 0))
  {
  }

  /** A partial freeze of nothing fails wherever it stands in a batch. */
  lemma ZeroLegFails(s: State, signer: Pubkey, accounts: seq<Pubkey>, amounts: seq<u64>)
    requires |accounts| == |amounts| && exists n | 0 <= n < |amounts| :: amounts[n] == 0
    ensures Run(s, FreezeLegs(Partial, signer, accounts, amounts)).None?
  {
    var n :| 0 <= n < |amounts| && amounts[n] == 0;
    var legs := FreezeLegs(Partial, signer, accounts, amounts);
    assert legs[n] == FreezePartial(signer, accounts[n], 0);
    if Run(s, legs).Some? {
      ZeroFreezeFails(At(s, legs, n), signer, accounts[n]);
      AtNext(s, legs, n);
    }
  }

  method AllPositive(amounts: seq<u64>) returns (r: bool)
    ensures r <==> forall n | 0 <= n < |amounts| :: amounts[n] > 0
  {
    for n := 0 to |amounts|
      invariant forall j | 0 <= j < n :: amounts[j] > 0
    {
      if amounts[n] == 0 { return false; }
    }
    return true;
  }

  function Sum(amounts: seq<u64>): nat {
    if |amounts| == 0 then 0 else Sum(amounts[..|amounts| - 1]) + amounts[|amounts| - 1]
  }

  /** What `batch_mint` checks once, on the sum of the amounts. */
  predicate CanMintTotal(s: State, signer: Pubkey, accounts: seq<Pubkey>, total: nat) {
    && HasRole(s, signer, ROLE_ISSUER) && !s.deactivated && !s.paused && MINT_MINT in s.features
    && (forall a | a in accounts :: Listed(s, a) && a in s.balances)
    && WithinCap(s, total)
    && s.supply + total <= U64_MAX
  }

  /** `t` is `s` with `total` more tokens issued to its accounts. */
  ghost predicate Issued(s: State, t: State, total: nat) {
    && t == s.(balances := t.balances, supply := t.supply)
    && t.supply == s.supply + total
    && t.balances.Keys == s.balances.Keys
  }

  lemma NextMint(s: State, t: State, signer: Pubkey, accounts: seq<Pubkey>, total: nat, to: Pubkey, amount: u64)
    requires Inv(t) && Issued(s, t, total)
    requires (accounts == [] && total == 0) || CanMintTotal(s, signer, accounts, total)
    ensures var i := Mint(signer, to, amount);
            && (Can(t, i) <==> CanMintTotal(s, signer, accounts + [to], total + amount))
            && (Can(t, i) ==> Issued(s, Do(t, i), total + amount))
  {
    BalanceWithinSupply(t, to);
    assert to in accounts + [to];
    assert forall a | a in accounts + [to] :: a in accounts || a == to;
  }

  /**
   One check of the total is as good as a check per leg: the legs can be minted one after the
   other exactly when the total passes, and then issue exactly the total.
   */
  lemma {:induction false} MintTotalIffEachLeg(s: State, signer: Pubkey, accounts: seq<Pubkey>, amounts: seq<u64>)
    requires Inv(s) && |accounts| == |amounts| && |amounts| > 0
    ensures Run(s, MintLegs(signer, accounts, amounts)).Some? <==> CanMintTotal(s, signer, accounts, Sum(amounts))
    ensures Run(s, MintLegs(signer, accounts, amounts)).Some? ==>
              Issued(s, Run(s, MintLegs(signer, accounts, amounts)).value, Sum(amounts))
  {
    var n := |amounts| - 1;
    var legs := MintLegs(signer, accounts, amounts);
    var front := MintLegs(signer, accounts[..n], amounts[..n]);
    assert legs[..n] == front;
    assert accounts == accounts[..n] + [accounts[n]];
    if n > 0 { MintTotalIffEachLeg(s, signer, accounts[..n], amounts[..n]); }
    if Run(s, front).Some? {
      RunKeepsInv(s, front);
      NextMint(s, Run(s, front).value, signer, accounts[..n], Sum(amounts[..n]), accounts[n], amounts[n]);
    }
  }

  /** Once the total has passed, every leg on the way is within the cap. */
  lemma LegWithinTotal(s: State, t: State, amount: u64, done: nat, total: nat)
    requires WithinCap(s, total) && Issued(s, t, done) && done + amount <= total
    ensures WithinCap(t, amount)
  {
  }

  /** No supply on the way passes the final one. */
  lemma SupplyOnTheWay(s: State, signer: Pubkey, accounts: seq<Pubkey>, amounts: seq<u64>, n: nat)
    requires Inv(s) && |accounts| == |amounts| && n <= |amounts|
    requires Run(s, MintLegs(signer, accounts, amounts)).Some?
    ensures var way := Run(s, MintLegs(signer, accounts, amounts)[..n]);
            && way.Some?
            && way.value.supply == s.supply + Sum(amounts[..n])
            && way.value.supply <= Run(s, MintLegs(signer, accounts, amounts)).value.supply
  {
    var legs := MintLegs(signer, accounts, amounts);
    PrefixRuns(s, legs, n);
    assert legs[..n] == MintLegs(signer, accounts[..n], amounts[..n]);
    if n > 0 {
      MintTotalIffEachLeg(s, signer, accounts[..n], amounts[..n]);
      SumPrefix(amounts, n - 1);
    }
    if |amounts| > 0 { MintTotalIffEachLeg(s, signer, accounts, amounts); }
  }

  /** A burn never fails for want of supply. */
  lemma BurnPossible(s: State, signer: Pubkey, a: Pubkey, amount: u64)
    requires Inv(s) && HasRole(s, signer, ROLE_CONTROLLER) && !s.deactivated && OPERATIONS_BURN in s.features
    ensures Can(s, Burn(signer, a, amount)) <==>
            !s.paused && a in s.balances && s.balances[a] >= Held(s, a) + amount
  {
    BalanceWithinSupply(s, a);
  }

  class TokenMint {
    const features: set<u16>
    var roles: set<(Pubkey, u16)>
    var owners: map<Pubkey, Pubkey>
    var delegates: map<Pubkey, Delegate>
    var balances: map<Pubkey, u64>
    var supply: u64
    var paused: bool
    var deactivated: bool
    var cap: Option<u64>
    var mode: Option<TransferMode>
    var controlList: set<Pubkey>
    var freezes: map<Pubkey, FreezeState>
    var positions: map<Pubkey, HoldPosition>
    var holds: map<HoldKey, Hold>

    function Now(): State
      reads this
    {
      State(features, roles, owners, delegates, balances, supply, paused, deactivated, cap, mode,
            controlList, freezes, positions, holds)
    }

    ghost predicate Valid()
      reads this
    {
      Inv(Now())
    }

    constructor (features: set<u16>, roles: set<(Pubkey, u16)>)
      ensures Valid() && Initial(Now()) && this.features == features && this.roles == roles
    {
      this.features, this.roles := features, roles;
      owners, delegates, balances, supply := map[], map[], map[], 0;
      paused, deactivated, cap, mode, controlList := false, false, None, None, {};
      freezes, positions, holds := map[], map[], map[];
    }

    /** What the runtime does when a token instruction fails halfway: its writes are undone. */
    method Restore(s: State)
      requires Now() == s.(delegates := delegates, balances := balances, supply := supply)
      modifies this`delegates, this`balances, this`supply
      ensures Now() == s
    {
      delegates, balances, supply := s.delegates, s.balances, s.supply;
    }

    // ---------- Holds ----------

    /** The writes that record a new hold and its lien. */
    method Write(a: Pubkey, h: NewHold, now: i64)
      requires CanCreate(Now(), a, h, now)
      modifies this`positions, this`holds
      ensures Now() == Created(old(Now()), a, h, now)
    {
      var position := if a in positions then positions[a] else HoldPosition(0, 0);
      positions := positions[a := HoldPosition(position.heldAmount + h.amount, position.holdCount + 1)];
      holds := holds[HoldKey(a, h.id) :=
        Hold(h.escrow, h.destination, h.amount, h.amount, now, h.expiration, Active)];
    }

    /** The checks and writes both creation paths share. */
    method RecordNewHold(a: Pubkey, h: NewHold, now: i64) returns (r: Outcome<Error>)
      requires Valid() && a in balances && !paused && !deactivated && HOLD_CREATE_HOLD in features
      modifies this`positions, this`holds
      ensures r.Pass? <==> CanCreate(old(Now()), a, h, now)
      ensures Now() == if r.Pass? then Created(old(Now()), a, h, now) else old(Now())
      ensures r.Fail? ==> TruthfulCreation(old(Now()), a, h, now, r.error)
    {
      r := Pass;
      :- GuardCreation(Now(), a, h, now);
      Write(a, h, now);
    }

    method CreateHold(signer: Pubkey, a: Pubkey, h: NewHold, now: i64) returns (r: Outcome<Error>)
      requires Valid()
      modifies this
      ensures Valid() && Performed(old(Now()), Ledger.CreateHold(signer, a, h, now), r, Now())
    {
      r := Pass;
      :- Require(a in balances, AccountNotInitialized);
      :- Require(a in owners && owners[a] == signer, OwnerMismatch);
      :- Require(HoldKey(a, h.id) !in holds, AccountInUse);
      :- Require(!paused, MintPaused);
      :- Require(!deactivated, Deactivated);
      :- Require(HOLD_CREATE_HOLD in features, FunctionalityNotSupported);
      r := RecordNewHold(a, h, now);
      if r.Pass? { StepKeepsInv(old(Now()), Ledger.CreateHold(signer, a, h, now)); }
    }

    method ControllerCreateHold(signer: Pubkey, a: Pubkey, h: NewHold, now: i64) returns (r: Outcome<Error>)
      requires Valid()
      modifies this
      ensures Valid() && Performed(old(Now()), Ledger.ControllerCreateHold(signer, a, h, now), r, Now())
    {
      r := Pass;
      :- Require(a in balances, AccountNotInitialized);
      :- Require(HoldKey(a, h.id) !in holds, AccountInUse);
      :- Require((signer, ROLE_CONTROLLER) in roles, MissingRole);
      :- Require(!paused, MintPaused);
      :- Require(!deactivated, Deactivated);
      :- Require(HOLD_CREATE_HOLD in features, FunctionalityNotSupported);
      r := RecordNewHold(a, h, now);
      if r.Pass? { StepKeepsInv(old(Now()), Ledger.ControllerCreateHold(signer, a, h, now)); }
    }

    /** The writes that take `amount` off a hold and off its position. */
    method Draw(k: HoldKey, amount: u64, end: HoldStatus)
      requires ActiveHold(Now(), k) && amount <= holds[k].currentAmount
      requires amount <= positions[k.account].heldAmount
      modifies this`positions, this`holds
      ensures Now() == Drawn(old(Now()), k, amount, end)
    {
      var position, hold := positions[k.account], holds[k];
      positions := positions[k.account := position.(heldAmount := position.heldAmount - amount)];
      hold := hold.(currentAmount := hold.currentAmount - amount);
      if hold.currentAmount == 0 { hold := hold.(status := end); }
      holds := holds[k := hold];
    }

    method ExecuteHold(signer: Pubkey, from: Pubkey, id: u64, amount: u64, to: Pubkey, now: i64)
      returns (r: Outcome<Error>)
      requires Valid()
      modifies this
      ensures Valid() && Performed(old(Now()), Ledger.ExecuteHold(signer, from, id, amount, to, now), r, Now())
    {
      r := Pass;
      :- GuardExecution(Now(), signer, from, id, amount, to, now);
      Draw(HoldKey(from, id), amount, Closed);
      r := HoldTransfer(HoldAuthority, from, to, amount);
      StepKeepsInv(old(Now()), Ledger.ExecuteHold(signer, from, id, amount, to, now));
    }

    method ReleaseHold(signer: Pubkey, a: Pubkey, id: u64, amount: u64) returns (r: Outcome<Error>)
      requires Valid()
      modifies this
      ensures Valid() && Performed(old(Now()), Ledger.ReleaseHold(signer, a, id, amount), r, Now())
    {
      r := Pass;
      :- GuardRelease(Now(), signer, a, id, amount);
      Draw(HoldKey(a, id), amount, Closed);
      StepKeepsInv(old(Now()), Ledger.ReleaseHold(signer, a, id, amount));
    }

    method ReclaimHold(a: Pubkey, id: u64, now: i64) returns (r: Outcome<Error>)
      requires Valid()
      modifies this
      ensures Valid() && Performed(old(Now()), Ledger.ReclaimHold(a, id, now), r, Now())
    {
      r := Pass;
      :- GuardReclaim(Now(), a, id, now);
      Draw(HoldKey(a, id), holds[HoldKey(a, id)].currentAmount, Expired);
      StepKeepsInv(old(Now()), Ledger.ReclaimHold(a, id, now));
    }

    // ---------- Transfers ----------

    /** The state once `amount` has moved, and a delegate's allowance with it. */
    ghost function AfterMove(authority: Authority, from: Pubkey, to: Pubkey, amount: u64): State
      requires Movable(Now(), from, to, amount)
      requires authority.Wallet? ==> MaySign(Now(), from, authority.key, amount)
      reads this
    {
      Now().(balances := Moved(balances, from, to, amount),
             delegates := if authority.Wallet? then Spent(Now(), authority.key, from, to, amount) else delegates)
    }

    /** Token-2022's check of the signature, which uses up a delegate's allowance. */
    method Authorise(authority: Authority, from: Pubkey, to: Pubkey, amount: u64) returns (r: Outcome<Error>)
      requires from in balances
      modifies this`delegates
      ensures r.Pass? <==>
        authority.PermanentDelegate? || (authority.Wallet? && MaySign(old(Now()), from, authority.key, amount))
      ensures delegates == if r.Pass? && authority.Wallet? then Spent(old(Now()), authority.key, from, to, amount)
                           else old(delegates)
    {
      if authority.Wallet? && DelegatedTo(Now(), from, authority.key) {
        var left := CheckedSub64(delegates[from].amount, amount);
        :- Require(left.Some?, InsufficientFunds);
        if from != to {
          delegates := if left.value == 0 then delegates - {from}
                       else delegates[from := Delegate(authority.key, left.value)];
        }
        return Pass;
      }
      return Require(authority.PermanentDelegate? ||
                     (authority.Wallet? && from in owners && owners[from] == authority.key), OwnerMismatch);
    }

    /** Token-2022: check, debit, credit, then ask the hook. A self-transfer stops before all that. */
    method TransferChecked(authority: Authority, from: Pubkey, to: Pubkey, amount: u64) returns (r: Outcome<Error>)
      modifies this`delegates, this`balances, this`supply
      ensures r.Pass? <==>
        && Movable(old(Now()), from, to, amount)
        && (authority.PermanentDelegate? || (authority.Wallet? && MaySign(old(Now()), from, authority.key, amount)))
        && (from != to ==> HookExecute(old(AfterMove(authority, from, to, amount)), authority, from, to).Pass?)
      ensures Now() == if r.Pass? then old(AfterMove(authority, from, to, amount)) else old(Now())
    {
      r := Pass;
      :- Require(from in balances && to in balances, AccountNotInitialized);
      :- Require(balances[from] >= amount, InsufficientFunds);
      :- Require(!paused, MintPaused);
      var saved := Now();
      :- Authorise(authority, from, to, amount);
      if from == to { return Pass; }
      balances := balances[from := balances[from] - amount];
      var credited := CheckedAdd64(balances[to], amount);
      if credited.None? { Restore(saved); return Fail(Overflow); }
      balances := balances[to := credited.value];
      r := HookExecute(Now(), authority, from, to);
      if r.Fail? { Restore(saved); }
    }

    /** The entry point that moves held tokens answers to the hold program's authority alone. */
    method HoldTransfer(caller: Authority, from: Pubkey, to: Pubkey, amount: u64) returns (r: Outcome<Error>)
      modifies this`delegates, this`balances, this`supply
      ensures r.Pass? <==> caller == HoldAuthority && Movable(old(Now()), from, to, amount)
      ensures caller != HoldAuthority ==> r == Fail(UnauthorizedHoldAuthority)
      ensures Now() == if r.Pass? then old(Now()).(balances := Moved(old(balances), from, to, amount)) else old(Now())
    {
      r := Pass;
      :- Require(caller == HoldAuthority, UnauthorizedHoldAuthority);
      r := TransferChecked(PermanentDelegate, from, to, amount);
    }

    /** A transfer signed by the holder or by the holder's delegate. */
    method Transfer(signer: Pubkey, from: Pubkey, to: Pubkey, amount: u64) returns (r: Outcome<Error>)
      requires Valid()
      modifies this`delegates, this`balances, this`supply
      ensures Valid() && Performed(old(Now()), Ledger.Transfer(signer, from, to, amount), r, Now())
    {
      r := TransferChecked(Wallet(signer), from, to, amount);
      if r.Pass? { StepKeepsInv(old(Now()), Ledger.Transfer(signer, from, to, amount)); }
    }

    method BatchTransfer(signer: Pubkey, from: Pubkey, to: seq<Pubkey>, amounts: seq<u64>) returns (r: Outcome<Error>)
      requires Valid()
      modifies this`delegates, this`balances, this`supply
      ensures Valid()
      ensures |to| == |amounts| ==> PerformedAll(old(Now()), TransferLegs(signer, from, to, amounts), r, Now())
      ensures |to| != |amounts| ==> r.Fail? && Now() == old(Now())
    {
      r := Pass;
      :- Require(|amounts| > 0, EmptyBatch);
      :- Require(|to| == |amounts|, InvalidRemainingAccounts);
      var saved := Now();
      ghost var legs := TransferLegs(signer, from, to, amounts);
      for n := 0 to |amounts|
        invariant Valid()
        invariant Run(saved, legs[..n]) == Some(Now())
      {
        RunLeg(saved, legs, n);
        r := Transfer(signer, from, to[n], amounts[n]);
        if r.Fail? {
          LegFails(saved, legs, n);
          Restore(saved);
          return;
        }
      }
      assert legs[..|amounts|] == legs;
      return Pass;
    }

    method ControllerTransfer(signer: Pubkey, from: Pubkey, to: Pubkey, amount: u64) returns (r: Outcome<Error>)
      requires Valid()
      modifies this`delegates, this`balances, this`supply
      ensures Valid() && Performed(old(Now()), Ledger.ControllerTransfer(signer, from, to, amount), r, Now())
    {
      r := Pass;
      :- Require((signer, ROLE_CONTROLLER) in roles, MissingRole);
      :- Require(!deactivated, Deactivated);
      :- Require(OPERATIONS_CONTROLLER_TRANSFER in features, FunctionalityNotSupported);
      :- RequireHoldCovered(Now(), from, amount);
      r := TransferChecked(PermanentDelegate, from, to, amount);
      if r.Pass? { StepKeepsInv(old(Now()), Ledger.ControllerTransfer(signer, from, to, amount)); }
    }

    // ---------- Burns ----------

    /** Token-2022's permissioned burn. */
    method PermissionedBurn(a: Pubkey, amount: u64) returns (r: Outcome<Error>)
      requires Valid()
      modifies this`delegates, this`balances, this`supply
      ensures r.Pass? <==> a in old(balances) && amount <= old(balances)[a] && !paused
      ensures r.Pass? ==> amount <= old(supply)
      ensures r.Pass? ==>
                Now() == old(Now()).(balances := old(balances)[a := old(balances)[a] - amount],
                                     supply := old(supply) - amount)
      ensures r.Fail? ==> Now() == old(Now())
    {
      r := Pass;
      :- Require(a in balances, AccountNotInitialized);
      :- Require(balances[a] >= amount, InsufficientFunds);
      :- Require(!paused, MintPaused);
      BalanceWithinSupply(Now(), a);
      balances := balances[a := balances[a] - amount];
      var left := CheckedSub64(supply, amount);
      supply := left.value;
    }

    /** No hook judges a burn, so the lien is checked here, before every single one. */
    method BurnLeg(signer: Pubkey, a: Pubkey, amount: u64) returns (r: Outcome<Error>)
      requires Valid() && (signer, ROLE_CONTROLLER) in roles && !deactivated && OPERATIONS_BURN in features
      modifies this`delegates, this`balances, this`supply
      ensures Valid() && Performed(old(Now()), Ledger.Burn(signer, a, amount), r, Now())
    {
      r := Pass;
      BurnPossible(Now(), signer, a, amount);
      :- RequireHoldCovered(Now(), a, amount);
      r := PermissionedBurn(a, amount);
      if r.Pass? { StepKeepsInv(old(Now()), Ledger.Burn(signer, a, amount)); }
    }

    method Burn(signer: Pubkey, a: Pubkey, amount: u64) returns (r: Outcome<Error>)
      requires Valid()
      modifies this`delegates, this`balances, this`supply
      ensures Valid() && Performed(old(Now()), Ledger.Burn(signer, a, amount), r, Now())
    {
      r := Pass;
      :- Require((signer, ROLE_CONTROLLER) in roles, MissingRole);
      :- Require(!deactivated, Deactivated);
      :- Require(OPERATIONS_BURN in features, FunctionalityNotSupported);
      r := BurnLeg(signer, a, amount);
    }

    method BatchBurn(signer: Pubkey, accounts: seq<Pubkey>, amounts: seq<u64>) returns (r: Outcome<Error>)
      requires Valid()
      modifies this`delegates, this`balances, this`supply
      ensures Valid()
      ensures |accounts| == |amounts| ==> PerformedAll(old(Now()), BurnLegs(signer, accounts, amounts), r, Now())
      ensures |accounts| != |amounts| ==> r.Fail? && Now() == old(Now())
    {
      r := Pass;
      :- Require(|amounts| > 0, EmptyBatch);
      :- Require(|accounts| == |amounts|, InvalidRemainingAccounts);
      var saved := Now();
      ghost var legs := BurnLegs(signer, accounts, amounts);
      if (signer, ROLE_CONTROLLER) !in roles || deactivated || OPERATIONS_BURN !in features {
        LegFails(saved, legs, 0);
      }
      :- Require((signer, ROLE_CONTROLLER) in roles, MissingRole);
      :- Require(!deactivated, Deactivated);
      :- Require(OPERATIONS_BURN in features, FunctionalityNotSupported);
      for n := 0 to |amounts|
        invariant Valid()
        invariant Run(saved, legs[..n]) == Some(Now())
      {
        RunLeg(saved, legs, n);
        r := BurnLeg(signer, accounts[n], amounts[n]);
        if r.Fail? {
          LegFails(saved, legs, n);
          Restore(saved);
          return;
        }
      }
      assert legs[..|amounts|] == legs;
      return Pass;
    }

    // ---------- Issuance ----------

    /** Token-2022's mint. */
    method MintTo(to: Pubkey, amount: u64) returns (r: Outcome<Error>)
      modifies this`delegates, this`balances, this`supply
      ensures r.Pass? <==> !paused && to in old(balances) && old(balances)[to] + amount <= U64_MAX
                           && old(supply) + amount <= U64_MAX
      ensures Now() == if r.Pass? then
                         old(Now()).(balances := old(balances)[to := old(balances)[to] + amount],
                                     supply := old(supply) + amount)
                       else old(Now())
    {
      r := Pass;
      :- Require(to in balances, AccountNotInitialized);
      :- Require(!paused, MintPaused);
      var credited := CheckedAdd64(balances[to], amount);
      :- Require(credited.Some?, Overflow);
      var total := CheckedAdd64(supply, amount);
      :- Require(total.Some?, Overflow);
      balances := balances[to := credited.value];
      supply := total.value;
    }

    /** The mint itself, every check of the instruction having passed. */
    method MintLeg(signer: Pubkey, to: Pubkey, amount: u64) returns (r: Outcome<Error>)
      requires Valid() && (signer, ROLE_ISSUER) in roles && !deactivated && MINT_MINT in features
      requires Listed(Now(), to) && WithinCap(Now(), amount)
      modifies this`delegates, this`balances, this`supply
      ensures Valid() && Performed(old(Now()), Ledger.Mint(signer, to, amount), r, Now())
      ensures r.Pass? ==> Issued(old(Now()), Now(), amount)
    {
      r := MintTo(to, amount);
      if r.Pass? { StepKeepsInv(old(Now()), Ledger.Mint(signer, to, amount)); }
    }

    method Mint(signer: Pubkey, to: Pubkey, amount: u64) returns (r: Outcome<Error>)
      requires Valid()
      modifies this`delegates, this`balances, this`supply
      ensures Valid() && Performed(old(Now()), Ledger.Mint(signer, to, amount), r, Now())
    {
      r := Pass;
      :- Require((signer, ROLE_ISSUER) in roles, MissingRole);
      :- Require(!deactivated, Deactivated);
      :- Require(MINT_MINT in features, FunctionalityNotSupported);
      :- VerifyTransferControlMode(Now(), [to]);
      assert [to][0] == to;
      :- RequireWithinMaxSupply(Now(), amount);
      r := MintLeg(signer, to, amount);
    }

    method BatchMint(signer: Pubkey, accounts: seq<Pubkey>, amounts: seq<u64>) returns (r: Outcome<Error>)
      requires Valid()
      modifies this`delegates, this`balances, this`supply
      ensures Valid()
      ensures |accounts| == |amounts| ==> PerformedAll(old(Now()), MintLegs(signer, accounts, amounts), r, Now())
      ensures |accounts| != |amounts| ==> r.Fail? && Now() == old(Now())
    {
      r := Pass;
      :- Require(|amounts| > 0, EmptyBatch);
      :- Require(|accounts| == |amounts|, InvalidRemainingAccounts);
      var saved := Now();
      ghost var legs := MintLegs(signer, accounts, amounts);
      MintTotalIffEachLeg(saved, signer, accounts, amounts);
      :- Require((signer, ROLE_ISSUER) in roles, MissingRole);
      :- Require(!deactivated, Deactivated);
      :- Require(MINT_MINT in features, FunctionalityNotSupported);
      var total := CheckedSum(amounts);
      :- Require(total.Some?, AmountOverflow);
      :- RequireWithinMaxSupply(Now(), total.value);
      :- VerifyTransferControlMode(Now(), accounts);
      for n := 0 to |amounts|
        invariant Valid()
        invariant Run(saved, legs[..n]) == Some(Now()) && Issued(saved, Now(), Sum(amounts[..n]))
      {
        RunLeg(saved, legs, n);
        SumPrefix(amounts, n);
        LegWithinTotal(saved, Now(), amounts[n], Sum(amounts[..n]), total.value);
        assert Listed(saved, accounts[n]);
        r := MintLeg(signer, accounts[n], amounts[n]);
        if r.Fail? {
          LegFails(saved, legs, n);
          Restore(saved);
          return;
        }
      }
      assert legs[..|amounts|] == legs;
      return Pass;
    }

    // ---------- Freezes ----------

    /** Change one side of a freeze record, creating it on first use and closing it once empty. */
    method FreezeLeg(kind: FreezeKind, signer: Pubkey, a: Pubkey, amount: u64) returns (r: Outcome<Error>)
      requires Valid() && Managed(Now(), signer, ROLE_FREEZE_MANAGER, FreezeFeature(kind))
      modifies this`freezes
      ensures Valid() && Performed(old(Now()), FreezeStep(kind, signer, a, amount), r, Now())
    {
      if kind.Clear? || kind.ClearPartial? {
        :- Require(a in freezes, AccountNotInitialized);
      }
      var record := if a in freezes then freezes[a] else FreezeState(false, 0);
      match kind {
        case Full =>
          :- Require(!record.fullyFrozen, AccountFrozen);
          record := record.(fullyFrozen := true);
        case Clear =>
          :- Require(record.fullyFrozen, AccountNotFrozen);
          record := record.(fullyFrozen := false);
        case Partial =>
          :- Require(amount > 0, InvalidFreezeAmount);
          record := record.(frozenBalance := amount);
        case ClearPartial =>
          :- Require(record.IsPartiallyFrozen(), AccountNotPartiallyFrozen);
          record := record.(frozenBalance := 0);
      }
      freezes := if record.IsEmpty() then freezes - {a} else freezes[a := record];
      StepKeepsInv(old(Now()), FreezeStep(kind, signer, a, amount));
      return Pass;
    }

    method ChangeFreeze(kind: FreezeKind, signer: Pubkey, a: Pubkey, amount: u64) returns (r: Outcome<Error>)
      requires Valid()
      modifies this`freezes
      ensures Valid() && Performed(old(Now()), FreezeStep(kind, signer, a, amount), r, Now())
    {
      r := Pass;
      :- Require((signer, ROLE_FREEZE_MANAGER) in roles, MissingRole);
      :- Require(!paused, MintPaused);
      :- Require(!deactivated, Deactivated);
      :- Require(FreezeFeature(kind) in features, FunctionalityNotSupported);
      r := FreezeLeg(kind, signer, a, amount);
    }

    /** Leg `n` of a batch that has come this far. */
    method FreezeNth(kind: FreezeKind, signer: Pubkey, accounts: seq<Pubkey>,
                     amounts: seq<u64>, n: nat, ghost before: State)
      returns (r: Outcome<Error>)
      requires Valid() && Managed(Now(), signer, ROLE_FREEZE_MANAGER, FreezeFeature(kind)) && n < |accounts|
      requires Run(before, FreezeLegs(kind, signer, accounts, amounts)[..n]) == Some(Now())
      modifies this`freezes
      ensures Valid()
      ensures r.Pass? ==> Run(before, FreezeLegs(kind, signer, accounts, amounts)[..n + 1]) == Some(Now())
      ensures r.Fail? ==> Run(before, FreezeLegs(kind, signer, accounts, amounts)).None?
    {
      r := FreezeLeg(kind, signer, accounts[n], if n < |amounts| then amounts[n] else 0);
      LegPerformed(before, FreezeLegs(kind, signer, accounts, amounts), n, r, Now());
    }

    method FreezeEach(kind: FreezeKind, signer: Pubkey, accounts: seq<Pubkey>, amounts: seq<u64>)
      returns (r: Outcome<Error>)
      requires Valid() && Managed(Now(), signer, ROLE_FREEZE_MANAGER, FreezeFeature(kind)) && accounts != []
      modifies this`freezes
      ensures Valid() && PerformedAll(old(Now()), FreezeLegs(kind, signer, accounts, amounts), r, Now())
    {
      var saved := freezes;
      ghost var before, legs := Now(), FreezeLegs(kind, signer, accounts, amounts);
      for n := 0 to |accounts|
        invariant Valid() && Run(before, legs[..n]) == Some(Now())
      {
        r := FreezeNth(kind, signer, accounts, amounts, n, before);
        if r.Fail? {
          freezes := saved;
          return;
        }
      }
      assert legs[..|accounts|] == legs;
      return Pass;
    }

    /** The four batches: one side of many records, repeated accounts included. */
    method BatchFreeze(kind: FreezeKind, signer: Pubkey, accounts: seq<Pubkey>, amounts: seq<u64>)
      returns (r: Outcome<Error>)
      requires Valid()
      modifies this`freezes
      ensures Valid()
      ensures kind.Partial? ==> |accounts| == |amounts| || (r.Fail? && Now() == old(Now()))
      ensures (kind.Partial? ==> |accounts| == |amounts|) ==>
                PerformedAll(old(Now()), FreezeLegs(kind, signer, accounts, amounts), r, Now())
    {
      if kind.Partial? {
        :- Require(|amounts| > 0, EmptyBatch);
        var positive := AllPositive(amounts);
        if !positive && |accounts| == |amounts| { ZeroLegFails(Now(), signer, accounts, amounts); }
        :- Require(positive, InvalidFreezeAmount);
        :- Require(|accounts| == |amounts|, InvalidRemainingAccounts);
      } else {
        :- Require(|accounts| > 0, EmptyBatch);
      }
      if !Managed(Now(), signer, ROLE_FREEZE_MANAGER, FreezeFeature(kind)) {
        LegFails(Now(), FreezeLegs(kind, signer, accounts, amounts), 0);
      }
      :- Require((signer, ROLE_FREEZE_MANAGER) in roles, MissingRole);
      :- Require(!paused, MintPaused);
      :- Require(!deactivated, Deactivated);
      :- Require(FreezeFeature(kind) in features, FunctionalityNotSupported);
      r := FreezeEach(kind, signer, accounts, amounts);
    }

    // ---------- Administration ----------

    method SetMaxSupply(signer: Pubkey, max: u64) returns (r: Outcome<Error>)
      requires Valid()
      modifies this
      ensures Valid() && Performed(old(Now()), Ledger.SetMaxSupply(signer, max), r, Now())
    {
      r := Pass;
      :- Require((signer, ROLE_CAP) in roles, MissingRole);
      :- Require(!paused, MintPaused);
      :- Require(!deactivated, Deactivated);
      :- Require(CAP_MAX_SUPPLY in features, FunctionalityNotSupported);
      :- Require(max >= 1, MaxSupplyTooLow);
      :- Require(max >= supply, MaxSupplyBelowTotalSupply);
      cap := Some(max);
      StepKeepsInv(old(Now()), Ledger.SetMaxSupply(signer, max));
    }

    method Deactivate(signer: Pubkey) returns (r: Outcome<Error>)
      requires Valid()
      modifies this
      ensures Valid() && Performed(old(Now()), Ledger.Deactivate(signer), r, Now())
    {
      r := Pass;
      :- Require(!deactivated, AccountInUse);
      :- Require((signer, ROLE_DEACTIVATE) in roles, MissingRole);
      :- Require(!paused, MintPaused);
      :- Require(DEACTIVATE_DEACTIVATE in features, FunctionalityNotSupported);
      deactivated := true;
      StepKeepsInv(old(Now()), Ledger.Deactivate(signer));
    }
  }

  lemma SumPrefix(amounts: seq<u64>, n: nat)
    requires n < |amounts|
    ensures Sum(amounts[..n + 1]) == Sum(amounts[..n]) + amounts[n]
    ensures Sum(amounts[..n + 1]) <= Sum(amounts)
    decreases |amounts| - n
  {
    assert amounts[..n + 1][..n] == amounts[..n];
    if n + 1 == |amounts| {
      assert amounts[..n + 1] == amounts;
    } else {
      SumPrefix(amounts, n + 1);
    }
  }

  /** The checked fold of a batch's amounts. */
  method CheckedSum(amounts: seq<u64>) returns (total: Option<u64>)
    ensures total == if Sum(amounts) <= U64_MAX then Some(Sum(amounts)) else None
  {
    var acc: u64 := 0;
    for n := 0 to |amounts|
      invariant acc == Sum(amounts[..n])
    {
      SumPrefix(amounts, n);
      var next := CheckedAdd64(acc, amounts[n]);
      if next.None? { return None; }
      acc := next.value;
    }
    assert amounts[..|amounts|] == amounts;
    return Some(acc);
  }
}
