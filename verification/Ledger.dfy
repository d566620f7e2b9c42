/**
 The records one mint owns across the token programs, and the meaning of every
 instruction that can change them.

 A record stored at a derived address is a map entry keyed by the seeds of that address.
 `Can` says when an instruction succeeds and `Do` what it leaves behind, both in plain
 mathematics: no checked or saturating arithmetic, and no guard that could only fail if the
 books were already wrong. `TokenMint` runs the programs' own checks and is proved against this.
 */
module Ledger {
  import opened Numbers

  // Functionality bits of the asset-class version a mint is pinned to.
  const DEACTIVATE_DEACTIVATE: u16 := 3
  const FREEZE_FREEZE_ACCOUNT: u16 := 4
  const FREEZE_UNFREEZE_ACCOUNT: u16 := 5
  const FREEZE_PARTIALLY_FREEZE_ACCOUNT: u16 := 6
  const FREEZE_REMOVE_PARTIAL_FREEZE: u16 := 7
  const MINT_MINT: u16 := 10
  const OPERATIONS_BURN: u16 := 11
  const PAUSE_PAUSE: u16 := 12
  const PAUSE_UNPAUSE: u16 := 13
  const TRANSFER_CONTROL_INITIALIZE: u16 := 14
  const TRANSFER_CONTROL_ADD_TO_CONTROL_LIST: u16 := 15
  const TRANSFER_CONTROL_REMOVE_FROM_CONTROL_LIST: u16 := 16
  const TRANSFER_HOOK_EXECUTE: u16 := 17
  const CAP_MAX_SUPPLY: u16 := 22
  const OPERATIONS_CONTROLLER_TRANSFER: u16 := 23
  const HOLD_CREATE_HOLD: u16 := 26

  // Role bits of the access-control program.
  const ROLE_CONTROLLER: u16 := 1
  const ROLE_CONTROL_LIST: u16 := 2
  const ROLE_ISSUER: u16 := 4
  const ROLE_PAUSER: u16 := 6
  const ROLE_FREEZE_MANAGER: u16 := 7
  const ROLE_DEACTIVATE: u16 := 8
  const ROLE_CAP: u16 := 10

  datatype FreezeState = FreezeState(fullyFrozen: bool, frozenBalance: u64) {
    predicate IsPartiallyFrozen() { frozenBalance > 0 }
    predicate IsEmpty() { !fullyFrozen && !IsPartiallyFrozen() }
  }

  datatype HoldPosition = HoldPosition(heldAmount: u64, holdCount: u64)

  datatype HoldStatus = Active | Expired | Closed

  datatype HoldKey = HoldKey(account: Pubkey, id: nat)

  datatype Hold = Hold(
    escrow: Pubkey, destination: Option<Pubkey>, initialAmount: u64, currentAmount: u64,
    createdAt: i64, expiration: i64, status: HoldStatus)

  /** Whom the owner of a token account lets transfer from it, and how much more. */
  datatype Delegate = Delegate(key: Pubkey, amount: u64)

  datatype TransferMode = Whitelist | Blacklist

  /** What the caller of a hold-creating instruction supplies. */
  datatype NewHold = NewHold(id: u64, amount: u64, expiration: i64, escrow: Pubkey, destination: Option<Pubkey>)

  datatype State = State(
    features: set<u16>,
    roles: set<(Pubkey, u16)>,
    owners: map<Pubkey, Pubkey>,
    delegates: map<Pubkey, Delegate>,
    balances: map<Pubkey, u64>,
    supply: u64,
    paused: bool,
    deactivated: bool,
    cap: Option<u64>,
    mode: Option<TransferMode>,
    controlList: set<Pubkey>,
    freezes: map<Pubkey, FreezeState>,
    positions: map<Pubkey, HoldPosition>,
    holds: map<HoldKey, Hold>)

  /** One successful instruction. A batch instruction is the sequence of its legs. */
  datatype Instruction =
    | CreateHold(signer: Pubkey, account: Pubkey, hold: NewHold, now: i64)
    | ControllerCreateHold(signer: Pubkey, account: Pubkey, hold: NewHold, now: i64)
    | ExecuteHold(signer: Pubkey, account: Pubkey, id: u64, amount: u64, to: Pubkey, now: i64)
    | ReleaseHold(signer: Pubkey, account: Pubkey, id: u64, amount: u64)
    | ReclaimHold(account: Pubkey, id: u64, now: i64)
    | Transfer(signer: Pubkey, from: Pubkey, to: Pubkey, amount: u64)
    | ControllerTransfer(signer: Pubkey, from: Pubkey, to: Pubkey, amount: u64)
    | Burn(signer: Pubkey, account: Pubkey, amount: u64)
    | Mint(signer: Pubkey, to: Pubkey, amount: u64)
    | SetMaxSupply(signer: Pubkey, amount: u64)
    | FreezeAccount(signer: Pubkey, account: Pubkey)
    | UnfreezeAccount(signer: Pubkey, account: Pubkey)
    | FreezePartial(signer: Pubkey, account: Pubkey, amount: u64)
    | UnfreezePartial(signer: Pubkey, account: Pubkey)
    | SetMode(signer: Pubkey, newMode: TransferMode)
    | AddToControlList(signer: Pubkey, account: Pubkey)
    | RemoveFromControlList(signer: Pubkey, account: Pubkey)
    | Pause(signer: Pubkey)
    | Unpause(signer: Pubkey)
    | Deactivate(signer: Pubkey)
    // Token-2022 and access-control, which change the accounts the programs read.
    | Approve(signer: Pubkey, account: Pubkey, delegate: Pubkey, amount: u64)
    | Revoke(signer: Pubkey, account: Pubkey)
    | SetAccountOwner(signer: Pubkey, account: Pubkey, owner: Pubkey)
    | OpenAccount(account: Pubkey, owner: Pubkey)
    | CloseAccount(signer: Pubkey, account: Pubkey)
    | SetRoles(roles: set<(Pubkey, u16)>)

  // ---------- Readers ----------

  predicate HasRole(s: State, key: Pubkey, role: u16) { (key, role) in s.roles }

  function BalanceIn(balances: map<Pubkey, u64>, a: Pubkey): u64 {
    if a in balances then balances[a] else 0
  }

  function Balance(s: State, a: Pubkey): u64 { BalanceIn(s.balances, a) }

  function Held(s: State, a: Pubkey): u64 {
    if a in s.positions then s.positions[a].heldAmount else 0
  }

  function HoldCount(s: State, a: Pubkey): u64 {
    if a in s.positions then s.positions[a].holdCount else 0
  }

  function FreezeIn(freezes: map<Pubkey, FreezeState>, a: Pubkey): FreezeState {
    if a in freezes then freezes[a] else FreezeState(false, 0)
  }

  function FreezeStatus(s: State, a: Pubkey): FreezeState { FreezeIn(s.freezes, a) }

  /** The account satisfies the transfer-control mode. */
  predicate Listed(s: State, a: Pubkey) {
    match s.mode
    case None => true
    case Some(Whitelist) => a in s.controlList
    case Some(Blacklist) => a !in s.controlList
  }

  predicate OwnedBy(s: State, a: Pubkey, key: Pubkey) {
    a in s.balances && a in s.owners && s.owners[a] == key
  }

  predicate DelegatedTo(s: State, a: Pubkey, key: Pubkey) {
    a in s.balances && a in s.delegates && s.delegates[a].key == key
  }

  /** Token-2022 asks the delegate's allowance of a delegate's signature, and ownership of any other. */
  predicate MaySign(s: State, a: Pubkey, key: Pubkey, amount: u64) {
    if DelegatedTo(s, a, key) then amount <= s.delegates[a].amount else OwnedBy(s, a, key)
  }

  predicate ActiveHold(s: State, k: HoldKey) {
    k in s.holds && k.account in s.positions && s.holds[k].status.Active?
  }

  // ---------- When an instruction succeeds ----------

  /** Token-2022's own conditions for moving `amount`; a self-transfer moves nothing. */
  predicate Movable(s: State, from: Pubkey, to: Pubkey, amount: u64) {
    && !s.paused
    && from in s.balances && to in s.balances
    && amount <= s.balances[from]
    && (from != to ==> s.balances[to] + amount <= U64_MAX)
  }

  predicate Managed(s: State, signer: Pubkey, role: u16, feature: u16) {
    HasRole(s, signer, role) && !s.paused && !s.deactivated && feature in s.features
  }

  predicate CanCreate(s: State, a: Pubkey, h: NewHold, now: i64) {
    && !s.paused && !s.deactivated && HOLD_CREATE_HOLD in s.features
    && a in s.balances
    && !FreezeStatus(s, a).fullyFrozen
    && h.amount > 0
    && h.expiration > now
    && h.id == HoldCount(s, a) + 1
    && Balance(s, a) >= FreezeStatus(s, a).frozenBalance + Held(s, a) + h.amount
  }

  /** Everything about an execution except whether the tokens are there. */
  predicate Deliverable(s: State, signer: Pubkey, from: Pubkey, id: u64, amount: u64, to: Pubkey, now: i64) {
    var k := HoldKey(from, id);
    && !s.deactivated && HOLD_CREATE_HOLD in s.features && !s.paused
    && from in s.balances && to in s.balances && from != to
    && ActiveHold(s, k)
    && var h := s.holds[k];
    && h.escrow == signer
    && now < h.expiration
    && 0 < amount <= h.currentAmount
    && (h.destination.None? || h.destination.value == to)
    && Listed(s, from) && Listed(s, to)
    && !FreezeStatus(s, from).fullyFrozen
  }

  predicate CanExecute(s: State, signer: Pubkey, from: Pubkey, id: u64, amount: u64, to: Pubkey, now: i64) {
    && Deliverable(s, signer, from, id, amount, to, now)
    && Balance(s, from) >= FreezeStatus(s, from).frozenBalance + Held(s, from)
    && Movable(s, from, to, amount)
  }

  predicate CanRelease(s: State, signer: Pubkey, k: HoldKey, amount: u64) {
    && HOLD_CREATE_HOLD in s.features
    && ActiveHold(s, k)
    && s.holds[k].escrow == signer
    && 0 < amount <= s.holds[k].currentAmount
  }

  predicate CanReclaim(s: State, k: HoldKey, now: i64) {
    && HOLD_CREATE_HOLD in s.features
    && ActiveHold(s, k)
    && now >= s.holds[k].expiration
  }

  /** A transfer by the owner or a delegate. The hook judges it except on a self-transfer, where none is called. */
  predicate CanTransfer(s: State, signer: Pubkey, from: Pubkey, to: Pubkey, amount: u64) {
    && Movable(s, from, to, amount)
    && MaySign(s, from, signer, amount)
    && (from != to ==>
          && !s.deactivated
          && Listed(s, from) && Listed(s, to)
          && !FreezeStatus(s, from).fullyFrozen
          && s.balances[from] - amount >= FreezeStatus(s, from).frozenBalance + Held(s, from)
          && TRANSFER_HOOK_EXECUTE in s.features)
  }

  predicate CanSeize(s: State, signer: Pubkey, from: Pubkey, to: Pubkey, amount: u64) {
    && HasRole(s, signer, ROLE_CONTROLLER) && !s.deactivated
    && OPERATIONS_CONTROLLER_TRANSFER in s.features
    && Balance(s, from) >= Held(s, from) + amount
    && Movable(s, from, to, amount)
  }

  predicate CanBurn(s: State, signer: Pubkey, a: Pubkey, amount: u64) {
    && HasRole(s, signer, ROLE_CONTROLLER) && !s.deactivated && !s.paused
    && OPERATIONS_BURN in s.features
    && a in s.balances
    && s.balances[a] >= Held(s, a) + amount
    && amount <= s.supply
  }

  predicate WithinCap(s: State, amount: nat) {
    match s.cap
    case None => CAP_MAX_SUPPLY !in s.features
    case Some(max) => s.supply + amount <= max
  }

  predicate CanMint(s: State, signer: Pubkey, to: Pubkey, amount: u64) {
    && HasRole(s, signer, ROLE_ISSUER) && !s.deactivated && !s.paused
    && MINT_MINT in s.features
    && Listed(s, to)
    && WithinCap(s, amount)
    && to in s.balances
    && s.balances[to] + amount <= U64_MAX
    && s.supply + amount <= U64_MAX
  }

  /** Instructions that may change a balance. */
  predicate MovesTokens(i: Instruction) {
    || i.ExecuteHold? || i.Transfer? || i.ControllerTransfer? || i.Burn? || i.Mint?
    || i.OpenAccount? || i.CloseAccount?
  }

  /** Instructions that may change a hold or its position. */
  predicate TouchesHolds(i: Instruction) {
    i.CreateHold? || i.ControllerCreateHold? || i.ExecuteHold? || i.ReleaseHold? || i.ReclaimHold?
  }

  predicate CanTouch(s: State, i: Instruction)
    requires TouchesHolds(i)
  {
    match i
    case CreateHold(signer, a, h, now) => OwnedBy(s, a, signer) && CanCreate(s, a, h, now)
    case ControllerCreateHold(signer, a, h, now) =>
      HasRole(s, signer, ROLE_CONTROLLER) && CanCreate(s, a, h, now)
    case ExecuteHold(signer, a, id, amount, to, now) => CanExecute(s, signer, a, id, amount, to, now)
    case ReleaseHold(signer, a, id, amount) => CanRelease(s, signer, HoldKey(a, id), amount)
    case ReclaimHold(a, id, now) => CanReclaim(s, HoldKey(a, id), now)
  }

  predicate CanMove(s: State, i: Instruction)
    requires MovesTokens(i) && !i.ExecuteHold?
  {
    match i
    case Transfer(signer, from, to, amount) => CanTransfer(s, signer, from, to, amount)
    case ControllerTransfer(signer, from, to, amount) => CanSeize(s, signer, from, to, amount)
    case Burn(signer, a, amount) => CanBurn(s, signer, a, amount)
    case Mint(signer, to, amount) => CanMint(s, signer, to, amount)
    case OpenAccount(a, _) => a !in s.balances
    case CloseAccount(signer, a) => OwnedBy(s, a, signer) && s.balances[a] == 0
  }

  predicate CanAdminister(s: State, i: Instruction)
    requires !TouchesHolds(i) && !MovesTokens(i)
  {
    match i
    case SetMaxSupply(signer, max) =>
      Managed(s, signer, ROLE_CAP, CAP_MAX_SUPPLY) && max >= 1 && max >= s.supply
    case FreezeAccount(signer, a) =>
      Managed(s, signer, ROLE_FREEZE_MANAGER, FREEZE_FREEZE_ACCOUNT) && !FreezeStatus(s, a).fullyFrozen
    case UnfreezeAccount(signer, a) =>
      Managed(s, signer, ROLE_FREEZE_MANAGER, FREEZE_UNFREEZE_ACCOUNT) && FreezeStatus(s, a).fullyFrozen
    case FreezePartial(signer, a, amount) =>
      Managed(s, signer, ROLE_FREEZE_MANAGER, FREEZE_PARTIALLY_FREEZE_ACCOUNT) && amount > 0
    case UnfreezePartial(signer, a) =>
      && Managed(s, signer, ROLE_FREEZE_MANAGER, FREEZE_REMOVE_PARTIAL_FREEZE)
      && FreezeStatus(s, a).IsPartiallyFrozen()
    case SetMode(signer, _) =>
      Managed(s, signer, ROLE_CONTROL_LIST, TRANSFER_CONTROL_INITIALIZE) && s.mode.None?
    case AddToControlList(signer, _) =>
      Managed(s, signer, ROLE_CONTROL_LIST, TRANSFER_CONTROL_ADD_TO_CONTROL_LIST)
    case RemoveFromControlList(signer, a) =>
      && Managed(s, signer, ROLE_CONTROL_LIST, TRANSFER_CONTROL_REMOVE_FROM_CONTROL_LIST)
      && a in s.controlList
    case Pause(signer) => HasRole(s, signer, ROLE_PAUSER) && !s.deactivated && PAUSE_PAUSE in s.features
    case Unpause(signer) => HasRole(s, signer, ROLE_PAUSER) && !s.deactivated && PAUSE_UNPAUSE in s.features
    case Deactivate(signer) =>
      Managed(s, signer, ROLE_DEACTIVATE, DEACTIVATE_DEACTIVATE)
    case Approve(signer, a, _, _) => OwnedBy(s, a, signer)
    case Revoke(signer, a) => OwnedBy(s, a, signer) || DelegatedTo(s, a, signer)
    case SetAccountOwner(signer, a, _) => OwnedBy(s, a, signer)
    case SetRoles(_) => true
  }

  predicate Can(s: State, i: Instruction) {
    if TouchesHolds(i) then CanTouch(s, i) else if MovesTokens(i) then CanMove(s, i) else CanAdminister(s, i)
  }

  // ---------- What an instruction leaves behind ----------

  function Moved(b: map<Pubkey, u64>, from: Pubkey, to: Pubkey, amount: u64): map<Pubkey, u64>
    requires from in b && to in b && amount <= b[from]
    requires from != to ==> b[to] + amount <= U64_MAX
  {
    if from == to then b else b[from := b[from] - amount][to := b[to] + amount]
  }

  /**
   Reduce hold `k` and its position by `amount`; `end` is the status once nothing is left. The
   position never saturates: see `HeldAmountCovers`.
   */
  function Drawn(s: State, k: HoldKey, amount: u64, end: HoldStatus): State
    requires ActiveHold(s, k) && amount <= s.holds[k].currentAmount
  {
    var h := s.holds[k];
    var p := s.positions[k.account];
    var left := h.currentAmount - amount;
    s.(positions := s.positions[k.account := p.(heldAmount := SaturatingSub64(p.heldAmount, amount))],
       holds := s.holds[k := h.(currentAmount := left, status := if left == 0 then end else Active)])
  }

  /** What a transfer uses up of a delegate's allowance; a delegate with nothing left is dropped. */
  function Spent(s: State, signer: Pubkey, from: Pubkey, to: Pubkey, amount: u64): map<Pubkey, Delegate>
    requires MaySign(s, from, signer, amount)
  {
    if from == to || !DelegatedTo(s, from, signer) then s.delegates
    else if s.delegates[from].amount == amount then s.delegates - {from}
    else s.delegates[from := Delegate(signer, s.delegates[from].amount - amount)]
  }

  function Created(s: State, a: Pubkey, h: NewHold, now: i64): State
    requires CanCreate(s, a, h, now)
  {
    s.(positions := s.positions[a := HoldPosition(Held(s, a) + h.amount, h.id)],
       holds := s.holds[HoldKey(a, h.id) :=
         Hold(h.escrow, h.destination, h.amount, h.amount, now, h.expiration, Active)])
  }

  /** Write a freeze record, dropping it when neither side of it is set. */
  function WithFreeze(s: State, a: Pubkey, f: FreezeState): State {
    s.(freezes := if f.IsEmpty() then s.freezes - {a} else s.freezes[a := f])
  }

  function DoTouch(s: State, i: Instruction): (t: State)
    requires TouchesHolds(i) && CanTouch(s, i)
    ensures t == s.(balances := t.balances, positions := t.positions, holds := t.holds)
    ensures !i.ExecuteHold? ==> t.balances == s.balances
  {
    match i
    case CreateHold(_, a, h, now) => Created(s, a, h, now)
    case ControllerCreateHold(_, a, h, now) => Created(s, a, h, now)
    case ExecuteHold(_, a, id, amount, to, _) =>
      Drawn(s, HoldKey(a, id), amount, Closed).(balances := Moved(s.balances, a, to, amount))
    case ReleaseHold(_, a, id, amount) => Drawn(s, HoldKey(a, id), amount, Closed)
    case ReclaimHold(a, id, _) =>
      var k := HoldKey(a, id);
      Drawn(s, k, s.holds[k].currentAmount, Expired)
  }

  function DoMove(s: State, i: Instruction): (t: State)
    requires MovesTokens(i) && !i.ExecuteHold? && CanMove(s, i)
    ensures t == s.(owners := t.owners, delegates := t.delegates, balances := t.balances, supply := t.supply)
  {
    match i
    case Transfer(signer, from, to, amount) =>
      s.(balances := Moved(s.balances, from, to, amount), delegates := Spent(s, signer, from, to, amount))
    case ControllerTransfer(_, from, to, amount) => s.(balances := Moved(s.balances, from, to, amount))
    case Burn(_, a, amount) =>
      s.(balances := s.balances[a := s.balances[a] - amount], supply := s.supply - amount)
    case Mint(_, to, amount) =>
      s.(balances := s.balances[to := s.balances[to] + amount], supply := s.supply + amount)
    case OpenAccount(a, o) =>
      s.(balances := s.balances[a := 0], owners := s.owners[a := o], delegates := s.delegates - {a})
    case CloseAccount(_, a) =>
      s.(balances := s.balances - {a}, owners := s.owners - {a}, delegates := s.delegates - {a})
  }

  function DoAdminister(s: State, i: Instruction): (t: State)
    requires !TouchesHolds(i) && !MovesTokens(i) && CanAdminister(s, i)
    ensures t.features == s.features && t.balances == s.balances && t.supply == s.supply
    ensures t.positions == s.positions && t.holds == s.holds
    ensures !i.SetMaxSupply? ==> t.cap == s.cap
    ensures FreezesOk(s.freezes) ==> FreezesOk(t.freezes)
    ensures s.mode.Some? ==> t.mode == s.mode
    ensures s.deactivated ==> t.deactivated
  {
    match i
    case SetMaxSupply(_, max) => s.(cap := Some(max))
    case FreezeAccount(_, a) => WithFreeze(s, a, FreezeStatus(s, a).(fullyFrozen := true))
    case UnfreezeAccount(_, a) => WithFreeze(s, a, FreezeStatus(s, a).(fullyFrozen := false))
    case FreezePartial(_, a, amount) => WithFreeze(s, a, FreezeStatus(s, a).(frozenBalance := amount))
    case UnfreezePartial(_, a) => WithFreeze(s, a, FreezeStatus(s, a).(frozenBalance := 0))
    case SetMode(_, m) => s.(mode := Some(m))
    case AddToControlList(_, a) => s.(controlList := s.controlList + {a})
    case RemoveFromControlList(_, a) => s.(controlList := s.controlList - {a})
    case Pause(_) => s.(paused := true)
    case Unpause(_) => s.(paused := false)
    case Deactivate(_) => s.(deactivated := true)
    case Approve(_, a, key, amount) => s.(delegates := s.delegates[a := Delegate(key, amount)])
    case Revoke(_, a) => s.(delegates := s.delegates - {a})
    case SetAccountOwner(_, a, o) => s.(owners := s.owners[a := o], delegates := s.delegates - {a})
    case SetRoles(r) => s.(roles := r)
  }

  /** No freeze record is empty. */
  ghost predicate FreezesOk(freezes: map<Pubkey, FreezeState>) {
    forall a | a in freezes :: !freezes[a].IsEmpty()
  }

  /** The state after instruction `i`, and what every instruction of a kind leaves alone. */
  function Do(s: State, i: Instruction): (t: State)
    requires Can(s, i)
    ensures t.features == s.features
    ensures !MovesTokens(i) ==> t.balances == s.balances && t.supply == s.supply
    ensures !TouchesHolds(i) ==> t.positions == s.positions && t.holds == s.holds
    ensures MovesTokens(i) || TouchesHolds(i) ==> t.freezes == s.freezes
    ensures !i.SetMaxSupply? ==> t.cap == s.cap
    ensures FreezesOk(s.freezes) ==> FreezesOk(t.freezes)
    ensures s.mode.Some? ==> t.mode == s.mode
    ensures s.deactivated ==> t.deactivated
  {
    if TouchesHolds(i) then DoTouch(s, i) else if MovesTokens(i) then DoMove(s, i) else DoAdminister(s, i)
  }

  // ---------- Runs ----------

  /** A mint as deployed: its version's functionalities fixed and nothing else recorded. */
  predicate Initial(s: State) {
    && s.owners == map[] && s.delegates == map[] && s.balances == map[] && s.supply == 0
    && !s.paused && !s.deactivated && s.cap.None? && s.mode.None?
    && s.controlList == {} && s.freezes == map[] && s.positions == map[] && s.holds == map[]
  }

  function Step(s: Option<State>, i: Instruction): Option<State> {
    if s.Some? && Can(s.value, i) then Some(Do(s.value, i)) else None
  }

  /** Perform the instructions in order; `None` if one of them fails. */
  function Run(s: State, steps: seq<Instruction>): Option<State> {
    if |steps| == 0 then Some(s) else Step(Run(s, steps[..|steps| - 1]), steps[|steps| - 1])
  }

  ghost predicate Reachable(s: State) {
    exists start, steps :: Initial(start) && Run(start, steps) == Some(s)
  }
}
