/** What holds over whole runs of the ledger. */
module LedgerRuns {
  import opened Numbers
  import opened Ledger
  import opened LedgerInvariants

  // ---------- Runs and their prefixes ----------

  /** A run of two parts is the second after the first, and fails if either does. */
  lemma {:induction false} RunAppends(s: State, steps: seq<Instruction>, more: seq<Instruction>)
    ensures Run(s, steps + more) == if Run(s, steps).Some? then Run(Run(s, steps).value, more) else None
  {
    if |more| == 0 {
      assert steps + more == steps;
    } else {
      RunAppends(s, steps, more[..|more| - 1]);
      assert (steps + more)[..|steps + more| - 1] == steps + more[..|more| - 1];
    }
  }

  lemma PrefixRuns(s: State, steps: seq<Instruction>, n: nat)
    requires n <= |steps| && Run(s, steps).Some?
    ensures Run(s, steps[..n]).Some?
  {
    assert steps[..n] + steps[n..] == steps;
    RunAppends(s, steps[..n], steps[n..]);
  }

  /** The state before the n-th instruction of a successful run. */
  function At(s: State, steps: seq<Instruction>, n: nat): State
    requires n <= |steps| && Run(s, steps).Some?
  {
    PrefixRuns(s, steps, n);
    Run(s, steps[..n]).value
  }

  lemma AtNext(s: State, steps: seq<Instruction>, n: nat)
    requires n < |steps| && Run(s, steps).Some?
    ensures Can(At(s, steps, n), steps[n]) && At(s, steps, n + 1) == Do(At(s, steps, n), steps[n])
  {
    PrefixRuns(s, steps, n + 1);
    assert steps[..n + 1][..n] == steps[..n];
  }

  lemma AtKeepsInv(s: State, steps: seq<Instruction>, n: nat)
    requires n <= |steps| && Inv(s) && Run(s, steps).Some?
    ensures Inv(At(s, steps, n))
  {
    PrefixRuns(s, steps, n);
    RunKeepsInv(s, steps[..n]);
  }

  /** `steps[..n]` followed by `steps[n..]` is `steps`. */
  lemma RunSplits(s: State, steps: seq<Instruction>, n: nat)
    requires n <= |steps| && Run(s, steps).Some?
    ensures Run(At(s, steps, n), steps[n..]) == Run(s, steps)
  {
    assert steps[..n] + steps[n..] == steps;
    RunAppends(s, steps[..n], steps[n..]);
  }

  lemma ReachableStep(s: State, i: Instruction)
    requires Reachable(s) && Can(s, i)
    ensures Reachable(Do(s, i))
  {
    var start, steps :| Initial(start) && Run(start, steps) == Some(s);
    assert (steps + [i])[..|steps|] == steps;
    assert Run(start, steps + [i]) == Some(Do(s, i));
  }

  // ---------- Solvency ----------

  /** The lien of every account is the sum of its holds and is covered by its balance. */
  lemma LiensSolvent(s: State, a: Pubkey)
    requires Reachable(s)
    ensures Held(s, a) == HeldSum(s.holds, a, HoldCount(s, a))
    ensures Held(s, a) <= Balance(s, a)
    ensures forall n: nat :: HoldKey(a, n) in s.holds <==> 1 <= n <= HoldCount(s, a)
  {
    ReachableInv(s);
    if a in s.positions { assert LienOk(s.balances, s.positions[a], s.holds, a); }
  }

  /** Supply is the sum of balances and respects the cap; the cap record follows its functionality bit. */
  lemma SupplyCapped(s: State)
    requires Reachable(s)
    ensures s.supply == Total(s.balances)
    ensures s.cap.Some? ==> s.supply <= s.cap.value
    ensures CAP_MAX_SUPPLY in s.features && s.supply > 0 ==> s.cap.Some?
    ensures CAP_MAX_SUPPLY !in s.features ==> s.cap.None?
  {
    ReachableInv(s);
  }

  // ---------- The life of a hold ----------

  datatype Resolution = Execution | Release | Reclaim

  /** How much of hold `k` a successful instruction resolves, and how. */
  function Resolves(s: State, i: Instruction, k: HoldKey, how: Resolution): nat {
    match i
    case ExecuteHold(_, a, id, amount, _, _) => if how.Execution? && k == HoldKey(a, id) then amount else 0
    case ReleaseHold(_, a, id, amount) => if how.Release? && k == HoldKey(a, id) then amount else 0
    case ReclaimHold(a, id, _) => if how.Reclaim? && k == HoldKey(a, id) then CurrentOf(s.holds, k) else 0
    case _ => 0
  }

  function Resolved(s: State, steps: seq<Instruction>, k: HoldKey, how: Resolution): nat
    requires Run(s, steps).Some?
  {
    if |steps| == 0 then 0 else
      var front := steps[..|steps| - 1];
      Resolved(s, front, k, how) + Resolves(Run(s, front).value, steps[|steps| - 1], k, how)
  }

  function InitialOf(holds: map<HoldKey, Hold>, k: HoldKey): nat {
    if k in holds then holds[k].initialAmount else 0
  }

  /** A hold's initial amount is what is left of it plus everything resolved over the run. */
  lemma {:induction false} HoldConserved(start: State, steps: seq<Instruction>, k: HoldKey)
    requires Initial(start) && Run(start, steps).Some?
    ensures var t := Run(start, steps).value;
            InitialOf(t.holds, k) == CurrentOf(t.holds, k)
              + Resolved(start, steps, k, Execution) + Resolved(start, steps, k, Release)
              + Resolved(start, steps, k, Reclaim)
  {
    if |steps| > 0 {
      var front := steps[..|steps| - 1];
      HoldConserved(start, front, k);
      RunKeepsInv(start, front);
      if TouchesHolds(steps[|steps| - 1]) { StepConserves(Run(start, front).value, steps[|steps| - 1], k); }
    }
  }

  lemma StepConserves(s: State, i: Instruction, k: HoldKey)
    requires IdsOk(s.positions, s.holds) && Can(s, i) && TouchesHolds(i)
    ensures var t := Do(s, i);
            InitialOf(t.holds, k) - CurrentOf(t.holds, k) == InitialOf(s.holds, k) - CurrentOf(s.holds, k)
              + Resolves(s, i, k, Execution) + Resolves(s, i, k, Release) + Resolves(s, i, k, Reclaim)
  {
    if i.CreateHold? || i.ControllerCreateHold? {
      assert HoldKey(i.account, i.hold.id) !in s.holds;
    }
  }

  /** A hold after a step: its terms fixed, never larger, and final once it is not active. */
  predicate Later(h: Hold, h': Hold) {
    && h' == h.(currentAmount := h'.currentAmount, status := h'.status)
    && h'.currentAmount <= h.currentAmount
    && (!h.status.Active? ==> h' == h)
  }

  lemma StepLater(s: State, i: Instruction, k: HoldKey)
    requires IdsOk(s.positions, s.holds) && Can(s, i) && TouchesHolds(i) && k in s.holds
    ensures k in Do(s, i).holds && Later(s.holds[k], Do(s, i).holds[k])
  {
    if i.CreateHold? || i.ControllerCreateHold? {
      assert HoldKey(i.account, i.hold.id) !in s.holds;
    }
  }

  /** Holds are never removed, never change terms, never grow, and never leave a terminal status. */
  lemma {:induction false} HoldLifetime(s: State, steps: seq<Instruction>, k: HoldKey)
    requires Inv(s) && Run(s, steps).Some? && k in s.holds
    ensures k in Run(s, steps).value.holds && Later(s.holds[k], Run(s, steps).value.holds[k])
  {
    if |steps| > 0 {
      var front := steps[..|steps| - 1];
      HoldLifetime(s, front, k);
      RunKeepsInv(s, front);
      if TouchesHolds(steps[|steps| - 1]) { StepLater(Run(s, front).value, steps[|steps| - 1], k); }
    }
  }

  /**
   Whatever was executed on a hold at any point of a run agrees with the record left at its end:
   signed by its escrow, before its expiration, and to its pinned destination if it has one.
   */
  lemma ExecutionsHonourTerms(s: State, steps: seq<Instruction>, n: nat)
    requires Inv(s) && Run(s, steps).Some? && n < |steps| && steps[n].ExecuteHold?
    ensures var k := HoldKey(steps[n].account, steps[n].id);
            var t := Run(s, steps).value;
            && k in t.holds
            && steps[n].signer == t.holds[k].escrow
            && steps[n].now < t.holds[k].expiration
            && (t.holds[k].destination.Some? ==> steps[n].to == t.holds[k].destination.value)
  {
    AtNext(s, steps, n);
    AtKeepsInv(s, steps, n);
    RunSplits(s, steps, n);
    HoldLifetime(At(s, steps, n), steps[n..], HoldKey(steps[n].account, steps[n].id));
  }

  // ---------- Holds can always be resolved ----------

  /** The escrow can release any part of an active hold, paused or deactivated or not. */
  lemma ReleaseAlwaysPossible(s: State, a: Pubkey, id: u64, amount: u64)
    requires Reachable(s) && 0 < amount <= CurrentOf(s.holds, HoldKey(a, id))
    ensures var i := ReleaseHold(s.holds[HoldKey(a, id)].escrow, a, id, amount);
            Can(s, i) && Held(Do(s, i), a) == Held(s, a) - amount
  {
    ReachableInv(s);
    HeldAmountCovers(s, HoldKey(a, id));
  }

  /** Anyone can reclaim what is left of a hold once it has expired, and that lifts all of its lien. */
  lemma ReclaimPossibleAfterExpiry(s: State, a: Pubkey, id: u64, now: i64)
    requires Reachable(s) && 0 < CurrentOf(s.holds, HoldKey(a, id))
    requires now >= s.holds[HoldKey(a, id)].expiration
    ensures var i := ReclaimHold(a, id, now);
            Can(s, i) && Held(Do(s, i), a) == Held(s, a) - CurrentOf(s.holds, HoldKey(a, id))
  {
    ReachableInv(s);
    HeldAmountCovers(s, HoldKey(a, id));
  }

  /** Balance enough for the partial freeze and the liens of the account together. */
  predicate Covered(s: State, a: Pubkey) {
    Balance(s, a) >= FreezeStatus(s, a).frozenBalance + Held(s, a)
  }

  /**
   On a live mint and between listed accounts the escrow can deliver any part of a hold if and only
   if the account is not fully frozen and covered; no other lien, transfer or seizure matters.
   */
  lemma ExecutionCovered(s: State, a: Pubkey, id: u64, amount: u64, to: Pubkey, now: i64)
    requires Inv(s) && 0 < amount <= CurrentOf(s.holds, HoldKey(a, id))
    requires var h := s.holds[HoldKey(a, id)]; now < h.expiration && h.destination in {None, Some(to)}
    requires !s.paused && !s.deactivated && to in s.balances && to != a && Listed(s, a) && Listed(s, to)
    ensures Can(s, ExecuteHold(s.holds[HoldKey(a, id)].escrow, a, id, amount, to, now)) <==>
            !FreezeStatus(s, a).fullyFrozen && Covered(s, a)
    ensures a !in s.freezes ==> Covered(s, a)
  {
    HeldAmountCovers(s, HoldKey(a, id));
    HoldMovable(s, HoldKey(a, id), amount, to);
  }

  /** The instruction is not one on hold `k` itself by its escrow, or a reclaim at or after its expiration. */
  predicate Foreign(i: Instruction, k: HoldKey, h: Hold) {
    match i
    case ExecuteHold(signer, a, id, _, _, _) => HoldKey(a, id) == k ==> signer != h.escrow
    case ReleaseHold(signer, a, id, _) => HoldKey(a, id) == k ==> signer != h.escrow
    case ReclaimHold(a, id, now) => HoldKey(a, id) == k ==> now < h.expiration
    case _ => true
  }

  lemma StepLeavesHold(s: State, i: Instruction, k: HoldKey)
    requires IdsOk(s.positions, s.holds) && Can(s, i) && TouchesHolds(i) && k in s.holds && Foreign(i, k, s.holds[k])
    ensures k in Do(s, i).holds && Do(s, i).holds[k] == s.holds[k]
  {
    if i.CreateHold? || i.ControllerCreateHold? {
      assert HoldKey(i.account, i.hold.id) !in s.holds;
    }
  }

  /**
   Before it expires nobody but its escrow can erode a hold: whatever transfers, seizures, burns,
   freezes and other holds a run contains, the same escrow's on the same account included, the hold
   is untouched and its tokens are still there.
   */
  lemma {:induction false} LienSecure(s: State, steps: seq<Instruction>, k: HoldKey)
    requires Inv(s) && Run(s, steps).Some? && k in s.holds
    requires forall n | 0 <= n < |steps| :: Foreign(steps[n], k, s.holds[k])
    ensures var t := Run(s, steps).value;
            && k in t.holds && t.holds[k] == s.holds[k]
            && Balance(t, k.account) >= Held(t, k.account) >= s.holds[k].currentAmount
  {
    RunKeepsInv(s, steps);
    if |steps| > 0 {
      var front := steps[..|steps| - 1];
      LienSecure(s, front, k);
      RunKeepsInv(s, front);
      if TouchesHolds(steps[|steps| - 1]) { StepLeavesHold(Run(s, front).value, steps[|steps| - 1], k); }
    }
    HeldAmountCovers(Run(s, steps).value, k);
  }

  // ---------- Freezes against balances ----------

  /** A mint with one token, held in full by its owner, who has a second account. */
  function OneTokenHeld(key: Pubkey, a: Pubkey, b: Pubkey): State {
    State({MINT_MINT, HOLD_CREATE_HOLD, FREEZE_PARTIALLY_FREEZE_ACCOUNT},
      {(key, ROLE_ISSUER), (key, ROLE_FREEZE_MANAGER)}, map[a := key, b := key], map[], map[a := 1, b := 0], 1,
      false, false, None, None, {}, map[], map[a := HoldPosition(1, 1)],
      map[HoldKey(a, 1) := Hold(key, None, 1, 1, 0, 1, Active)])
  }

  lemma AccountsOpened(key: Pubkey, a: Pubkey, b: Pubkey)
    requires a != b
    ensures Reachable(OneTokenHeld(key, a, b).(balances := map[a := 0, b := 0], supply := 0,
                                               positions := map[], holds := map[]))
  {
    var s2 := OneTokenHeld(key, a, b).(balances := map[a := 0, b := 0], supply := 0,
                                       positions := map[], holds := map[]);
    var s1 := s2.(owners := map[a := key], balances := map[a := 0]);
    var s0 := s1.(owners := map[], balances := map[]);
    assert Run(s0, []) == Some(s0);
    assert Reachable(s0);
    ReachableStep(s0, OpenAccount(a, key));
    assert Do(s0, OpenAccount(a, key)) == s1;
    ReachableStep(s1, OpenAccount(b, key));
    assert Do(s1, OpenAccount(b, key)) == s2;
  }

  lemma OneTokenMinted(key: Pubkey, a: Pubkey, b: Pubkey)
    requires a != b
    ensures Reachable(OneTokenHeld(key, a, b).(positions := map[], holds := map[]))
  {
    AccountsOpened(key, a, b);
    var t := OneTokenHeld(key, a, b).(positions := map[], holds := map[]);
    var s := t.(balances := map[a := 0, b := 0], supply := 0);
    assert CanMint(s, key, a, 1) && s.balances[a := 1] == t.balances;
    ReachableStep(s, Mint(key, a, 1));
    assert Do(s, Mint(key, a, 1)) == t;
  }

  lemma OneTokenHeldReachable(key: Pubkey, a: Pubkey, b: Pubkey)
    requires a != b
    ensures Reachable(OneTokenHeld(key, a, b))
  {
    OneTokenMinted(key, a, b);
    var s := OneTokenHeld(key, a, b).(positions := map[], holds := map[]);
    var i := CreateHold(key, a, NewHold(1, 1, 1, key, None), 0);
    ReachableStep(s, i);
    assert Do(s, i) == OneTokenHeld(key, a, b);
  }

  /** The same mint under a partial freeze. */
  function OneTokenFrozen(key: Pubkey, a: Pubkey, b: Pubkey, amount: u64): State {
    OneTokenHeld(key, a, b).(freezes := map[a := FreezeState(false, amount)])
  }

  lemma OneTokenFrozenReachable(key: Pubkey, a: Pubkey, b: Pubkey, amount: u64)
    requires a != b && amount > 0
    ensures Reachable(OneTokenFrozen(key, a, b, amount))
  {
    OneTokenHeldReachable(key, a, b);
    var s, i := OneTokenHeld(key, a, b), FreezePartial(key, a, amount);
    ReachableStep(s, i);
    assert Do(s, i) == OneTokenFrozen(key, a, b, amount);
  }

  /**
   A partial freeze can exceed the balance: of one held token any amount can be frozen, so freeze and
   lien together need not be covered.
   */
  lemma FreezeMayExceedBalance(key: Pubkey, a: Pubkey, b: Pubkey, amount: u64)
    requires a != b && amount > 0
    ensures exists s :: Reachable(s) && a in s.balances && Balance(s, a) == Held(s, a) == 1
                        && FreezeStatus(s, a).frozenBalance == amount && !Covered(s, a)
  {
    OneTokenFrozenReachable(key, a, b, amount);
    var s := OneTokenFrozen(key, a, b, amount);
    assert Balance(s, a) == Held(s, a) == 1 && FreezeStatus(s, a).frozenBalance == amount;
  }

  /** What neither the freeze nor the liens of a covered account claim. */
  function Free(s: State, a: Pubkey): nat
    requires Covered(s, a)
  {
    Balance(s, a) - FreezeStatus(s, a).frozenBalance - Held(s, a)
  }

  /** The instruction freezes more than is there, or burns or seizes more than is free. */
  predicate Uncovers(s: State, i: Instruction, a: Pubkey)
    requires Covered(s, a)
  {
    match i
    case FreezePartial(_, account, amount) => account == a && amount + Held(s, a) > Balance(s, a)
    case Burn(_, account, amount) => account == a && amount > Free(s, a)
    case ControllerTransfer(_, from, to, amount) => from == a != to && amount > Free(s, a)
    case _ => false
  }

  lemma TouchKeepsCover(s: State, i: Instruction, a: Pubkey)
    requires Inv(s) && Can(s, i) && TouchesHolds(i) && Covered(s, a)
    ensures Covered(Do(s, i), a)
  {
    if !i.CreateHold? && !i.ControllerCreateHold? { HeldAmountCovers(s, HoldKey(i.account, i.id)); }
  }

  lemma TransferKeepsCover(s: State, i: Instruction, a: Pubkey)
    requires Can(s, i) && (i.Transfer? || i.ControllerTransfer?) && Covered(s, a)
    ensures Covered(Do(s, i), a) <==> !Uncovers(s, i, a)
  {
  }

  lemma MoveKeepsCover(s: State, i: Instruction, a: Pubkey)
    requires Can(s, i) && MovesTokens(i) && !TouchesHolds(i) && Covered(s, a)
    ensures Covered(Do(s, i), a) <==> !Uncovers(s, i, a)
  {
    if i.Transfer? || i.ControllerTransfer? { TransferKeepsCover(s, i, a); }
  }

  lemma AdminKeepsCover(s: State, i: Instruction, a: Pubkey)
    requires Can(s, i) && !MovesTokens(i) && !TouchesHolds(i) && Covered(s, a)
    ensures Covered(Do(s, i), a) <==> !Uncovers(s, i, a)
  {
  }

  /** A covered account stays covered if and only if the instruction is none of those three. */
  lemma StepCovered(s: State, i: Instruction, a: Pubkey)
    requires Inv(s) && Can(s, i) && Covered(s, a)
    ensures Covered(Do(s, i), a) <==> !Uncovers(s, i, a)
  {
    if TouchesHolds(i) {
      TouchKeepsCover(s, i, a);
    } else if MovesTokens(i) {
      MoveKeepsCover(s, i, a);
    } else {
      AdminKeepsCover(s, i, a);
    }
  }

  /** No step of the run uncovers an account that is covered when it is taken. */
  ghost predicate NeverUncovers(s: State, steps: seq<Instruction>, a: Pubkey)
    requires Run(s, steps).Some?
  {
    forall n | 0 <= n < |steps| ::
      Covered(At(s, steps, n), a) ==> !Uncovers(At(s, steps, n), steps[n], a)
  }

  lemma CoveredNext(s: State, steps: seq<Instruction>, a: Pubkey, n: nat)
    requires Inv(s) && Run(s, steps).Some? && n < |steps| && Covered(At(s, steps, n), a)
    ensures Covered(At(s, steps, n + 1), a) <==> !Uncovers(At(s, steps, n), steps[n], a)
  {
    AtNext(s, steps, n);
    AtKeepsInv(s, steps, n);
    StepCovered(At(s, steps, n), steps[n], a);
  }

  lemma {:induction false} CoveredUpTo(s: State, steps: seq<Instruction>, a: Pubkey, n: nat)
    requires Inv(s) && Run(s, steps).Some? && Covered(s, a) && NeverUncovers(s, steps, a) && n <= |steps|
    ensures Covered(At(s, steps, n), a)
  {
    if n > 0 {
      CoveredUpTo(s, steps, a, n - 1);
      CoveredNext(s, steps, a, n - 1);
    }
  }

  /**
   An account covered at the start of a run, as every account of a new mint is, is covered at every
   point of it if and only if no step freezes more than is there or burns or seizes more than is free.
   */
  lemma CoveredExactly(s: State, steps: seq<Instruction>, a: Pubkey)
    requires Inv(s) && Run(s, steps).Some? && Covered(s, a)
    ensures (forall n | 0 <= n <= |steps| :: Covered(At(s, steps, n), a)) <==> NeverUncovers(s, steps, a)
  {
    if NeverUncovers(s, steps, a) {
      forall n | 0 <= n <= |steps| ensures Covered(At(s, steps, n), a) { CoveredUpTo(s, steps, a, n); }
    }
    if n :| 0 <= n < |steps| && Covered(At(s, steps, n), a) && Uncovers(At(s, steps, n), steps[n], a) {
      CoveredNext(s, steps, a, n);
      assert !Covered(At(s, steps, n + 1), a);
    }
  }

  /**
   A hold that could be delivered still can be after any run that leaves it to its escrow and never
   uncovers its account, once the mint is live and the account is not fully frozen.
   */
  lemma HoldStaysDeliverable(s: State, steps: seq<Instruction>, a: Pubkey, id: u64, amount: u64, to: Pubkey, now: i64)
    requires Inv(s) && Run(s, steps).Some? && 0 < amount <= CurrentOf(s.holds, HoldKey(a, id)) && Covered(s, a)
    requires var h := s.holds[HoldKey(a, id)]; now < h.expiration && h.destination in {None, Some(to)}
    requires forall n | 0 <= n < |steps| :: Foreign(steps[n], HoldKey(a, id), s.holds[HoldKey(a, id)])
    requires NeverUncovers(s, steps, a)
    requires var t := Run(s, steps).value;
             && !t.paused && !t.deactivated && to in t.balances && to != a && Listed(t, a) && Listed(t, to)
             && !FreezeStatus(t, a).fullyFrozen
    ensures Can(Run(s, steps).value, ExecuteHold(s.holds[HoldKey(a, id)].escrow, a, id, amount, to, now))
  {
    var t := Run(s, steps).value;
    RunKeepsInv(s, steps);
    LienSecure(s, steps, HoldKey(a, id));
    CoveredUpTo(s, steps, a, |steps|);
    assert steps[..|steps|] == steps;
    ExecutionCovered(t, a, id, amount, to, now);
  }

  // ---------- Who may receive and who may send ----------

  /** Outside a seizure, a balance rises only on an account the transfer-control mode admits. */
  lemma RisesOnlyIfListed(s: State, i: Instruction, a: Pubkey)
    requires Can(s, i) && Balance(Do(s, i), a) > Balance(s, a)
    ensures i.ControllerTransfer? || Listed(s, a)
  {
  }

  /**
   Outside burns and seizures a balance falls only on an account that is not fully frozen, and
   what remains covers its partial freeze and its liens, executed holds included.
   */
  lemma FallsOnlyIfFree(s: State, i: Instruction, a: Pubkey)
    requires Inv(s) && Can(s, i) && Balance(Do(s, i), a) < Balance(s, a)
    ensures i.Burn? || i.ControllerTransfer? ||
            (!FreezeStatus(s, a).fullyFrozen && Covered(Do(s, i), a))
  {
    if i.ExecuteHold? && i.account == a { TouchKeepsCover(s, i, a); }
  }

  /**
   Who can take tokens out of an account: its owner, the delegate the owner approved, up to what is
   left of the allowance, the escrow of a hold on it, up to what is left of the hold, or a controller.
   */
  predicate MayTake(s: State, i: Instruction, a: Pubkey) {
    match i
    case Transfer(signer, from, _, amount) => from == a && MaySign(s, a, signer, amount)
    case ExecuteHold(signer, from, id, amount, _, _) =>
      from == a && HoldKey(a, id) in s.holds && s.holds[HoldKey(a, id)].escrow == signer
      && amount <= s.holds[HoldKey(a, id)].currentAmount
    case ControllerTransfer(signer, from, _, _) => from == a && HasRole(s, signer, ROLE_CONTROLLER)
    case Burn(signer, from, _) => from == a && HasRole(s, signer, ROLE_CONTROLLER)
    case _ => false
  }

  /** Nobody else takes tokens, and no balance changes while the mint is paused or deactivated. */
  lemma TakenOnlyByRight(s: State, i: Instruction, a: Pubkey)
    requires Can(s, i) && Balance(Do(s, i), a) != Balance(s, a)
    ensures Balance(Do(s, i), a) < Balance(s, a) ==> MayTake(s, i, a)
    ensures !s.paused && !s.deactivated
  {
  }

  // Consequences of what Token-2022 does with delegates; no program of the suite reads an allowance.

  function Allowance(s: State, a: Pubkey, key: Pubkey): u64 {
    if DelegatedTo(s, a, key) then s.delegates[a].amount else 0
  }

  lemma TransferKeepsAllowance(s: State, i: Instruction, a: Pubkey, key: Pubkey)
    requires i.Transfer? && Can(s, i)
    ensures Allowance(Do(s, i), a, key) <= Allowance(s, a, key)
  {
  }

  lemma MovesKeepAllowance(s: State, i: Instruction, a: Pubkey, key: Pubkey)
    requires MovesTokens(i) && Can(s, i)
    ensures Allowance(Do(s, i), a, key) <= Allowance(s, a, key)
  {
    if i.Transfer? {
      TransferKeepsAllowance(s, i, a, key);
    } else {
      assert Do(s, i).delegates.Keys <= s.delegates.Keys;
    }
  }

  /** A delegate's allowance on an account grows only by the signature of the account's owner. */
  lemma AllowanceFromOwner(s: State, i: Instruction, a: Pubkey, key: Pubkey)
    requires Can(s, i) && Allowance(Do(s, i), a, key) > Allowance(s, a, key)
    ensures i.Approve? && i.account == a && i.delegate == key && OwnedBy(s, a, i.signer)
    ensures Allowance(Do(s, i), a, key) == i.amount
  {
    if MovesTokens(i) { MovesKeepAllowance(s, i, a, key); }
  }

  /** Whatever a delegate takes comes off the allowance. */
  lemma AllowanceSpent(s: State, i: Instruction, a: Pubkey)
    requires i.Transfer? && Can(s, i) && DelegatedTo(s, a, i.signer) && Balance(Do(s, i), a) < Balance(s, a)
    ensures Balance(s, a) - Balance(Do(s, i), a) ==
            Allowance(s, a, i.signer) - Allowance(Do(s, i), a, i.signer)
  {
  }

  /** What a step takes out of `a` on the signature of its delegate `key`. */
  function Takes(s: State, i: Instruction, a: Pubkey, key: Pubkey): nat {
    if i.Transfer? && i.signer == key && i.from == a != i.to && DelegatedTo(s, a, key) then i.amount else 0
  }

  function Approves(i: Instruction, a: Pubkey, key: Pubkey): nat {
    if i.Approve? && i.account == a && i.delegate == key then i.amount else 0
  }

  function TakenBy(s: State, steps: seq<Instruction>, a: Pubkey, key: Pubkey): nat
    requires Run(s, steps).Some?
  {
    if |steps| == 0 then 0 else
      var front := steps[..|steps| - 1];
      TakenBy(s, front, a, key) + Takes(Run(s, front).value, steps[|steps| - 1], a, key)
  }

  function Approved(steps: seq<Instruction>, a: Pubkey, key: Pubkey): nat {
    if |steps| == 0 then 0 else
      Approved(steps[..|steps| - 1], a, key) + Approves(steps[|steps| - 1], a, key)
  }

  lemma StepWithinAllowance(s: State, i: Instruction, a: Pubkey, key: Pubkey)
    requires Can(s, i)
    ensures Takes(s, i, a, key) + Allowance(Do(s, i), a, key) <= Allowance(s, a, key) + Approves(i, a, key)
  {
    if Allowance(Do(s, i), a, key) > Allowance(s, a, key) { AllowanceFromOwner(s, i, a, key); }
  }

  /**
   Over any run a delegate takes no more from an account than its allowance at the start and what
   the account's owners approved since; what it has left is part of that bound.
   */
  lemma {:induction false} DelegateWithinAllowance(s: State, steps: seq<Instruction>, a: Pubkey, key: Pubkey)
    requires Run(s, steps).Some?
    ensures TakenBy(s, steps, a, key) + Allowance(Run(s, steps).value, a, key)
            <= Allowance(s, a, key) + Approved(steps, a, key)
  {
    if |steps| > 0 {
      var front := steps[..|steps| - 1];
      DelegateWithinAllowance(s, front, a, key);
      StepWithinAllowance(Run(s, front).value, steps[|steps| - 1], a, key);
    }
  }

  /**
   A lien grows only by the owner or a controller, on a live mint and an account that is not fully
   frozen, and never past what the balance leaves free.
   */
  lemma LienGrowsOnlyByRight(s: State, i: Instruction, a: Pubkey)
    requires Can(s, i) && Held(Do(s, i), a) > Held(s, a)
    ensures (i.CreateHold? && OwnedBy(s, a, i.signer)) ||
            (i.ControllerCreateHold? && HasRole(s, i.signer, ROLE_CONTROLLER))
    ensures !s.paused && !s.deactivated && !FreezeStatus(s, a).fullyFrozen
    ensures Covered(Do(s, i), a)
  {
  }

  /** Supply grows only by an issuer and shrinks only by a controller. */
  lemma SupplyChangesOnlyByRight(s: State, i: Instruction)
    requires Can(s, i) && Do(s, i).supply != s.supply
    ensures if Do(s, i).supply > s.supply then i.Mint? && HasRole(s, i.signer, ROLE_ISSUER)
            else i.Burn? && HasRole(s, i.signer, ROLE_CONTROLLER)
  {
  }

  /** The flow rules at every point of every run. */
  lemma FlowsRegulated(start: State, steps: seq<Instruction>, n: nat, a: Pubkey)
    requires Initial(start) && Run(start, steps).Some? && n < |steps|
    ensures var s, t := At(start, steps, n), At(start, steps, n + 1);
            && (Balance(t, a) > Balance(s, a) ==> steps[n].ControllerTransfer? || Listed(s, a))
            && (Balance(t, a) < Balance(s, a) ==>
                  steps[n].Burn? || steps[n].ControllerTransfer? ||
                  (!FreezeStatus(s, a).fullyFrozen && Covered(t, a)))
            && (Balance(t, a) < Balance(s, a) ==> MayTake(s, steps[n], a))
            && (Balance(t, a) != Balance(s, a) ==> !s.paused && !s.deactivated)
  {
    AtNext(start, steps, n);
    AtKeepsInv(start, steps, n);
    var s, t := At(start, steps, n), At(start, steps, n + 1);
    if Balance(t, a) > Balance(s, a) { RisesOnlyIfListed(s, steps[n], a); }
    if Balance(t, a) < Balance(s, a) { FallsOnlyIfFree(s, steps[n], a); }
    if Balance(t, a) != Balance(s, a) { TakenOnlyByRight(s, steps[n], a); }
  }

  /**
   The transfer-control mode never changes once set. No instruction here writes the functionality
   mask; that the registry it is read from cannot change it either is `Factory.AnswersNeverChange`.
   */
  lemma {:induction false} RulesAreFixed(s: State, steps: seq<Instruction>)
    requires Run(s, steps).Some?
    ensures Run(s, steps).value.features == s.features
    ensures s.mode.Some? ==> Run(s, steps).value.mode == s.mode
  {
    if |steps| > 0 {
      var front := steps[..|steps| - 1];
      RulesAreFixed(s, front);
    }
  }

  // ---------- Deactivation ----------

  lemma TokensAfterDeactivation(s: State, i: Instruction, a: Pubkey)
    requires s.deactivated && Can(s, i)
    ensures Do(s, i).deactivated && Do(s, i).supply == s.supply && Balance(Do(s, i), a) == Balance(s, a)
  {
  }

  /** In a deactivated mint only releases and reclaims still change a lien. */
  lemma LiensAfterDeactivation(s: State, i: Instruction, a: Pubkey)
    requires s.deactivated && Can(s, i)
    ensures Held(Do(s, i), a) <= Held(s, a) && Do(s, i).holds.Keys == s.holds.Keys
  {
    assert TouchesHolds(i) ==> i.ReleaseHold? || i.ReclaimHold?;
  }

  /** Deactivation is final: balances and supply are frozen for good, and liens only shrink. */
  lemma {:induction false} DeactivationIsFinal(s: State, steps: seq<Instruction>, a: Pubkey)
    requires s.deactivated && Run(s, steps).Some?
    ensures var t := Run(s, steps).value;
            && t.deactivated && t.supply == s.supply
            && Balance(t, a) == Balance(s, a) && Held(t, a) <= Held(s, a)
            && t.holds.Keys == s.holds.Keys
  {
    if |steps| > 0 {
      var front := steps[..|steps| - 1];
      DeactivationIsFinal(s, front, a);
      TokensAfterDeactivation(Run(s, front).value, steps[|steps| - 1], a);
      LiensAfterDeactivation(Run(s, front).value, steps[|steps| - 1], a);
    }
  }

  // ---------- Freezes ----------

  /** A freeze record exists exactly while one of its sides is set. */
  lemma FreezeRecordExactly(s: State, a: Pubkey)
    requires Reachable(s)
    ensures a in s.freezes <==> FreezeStatus(s, a).fullyFrozen || FreezeStatus(s, a).frozenBalance > 0
  {
    ReachableInv(s);
  }

  /** The full side of a freeze is changed only by its own two instructions, on its own account... */
  lemma FullSideIndependent(s: State, i: Instruction, a: Pubkey)
    requires Can(s, i) && FreezeStatus(Do(s, i), a).fullyFrozen != FreezeStatus(s, a).fullyFrozen
    ensures i.FreezeAccount? || i.UnfreezeAccount?
    ensures i.account == a && i.FreezeAccount? == FreezeStatus(Do(s, i), a).fullyFrozen
  {
  }

  /** ... and so is the partial side. */
  lemma PartialSideIndependent(s: State, i: Instruction, a: Pubkey)
    requires Can(s, i) && FreezeStatus(Do(s, i), a).frozenBalance != FreezeStatus(s, a).frozenBalance
    ensures i.FreezePartial? || i.UnfreezePartial?
    ensures i.account == a
    ensures FreezeStatus(Do(s, i), a).frozenBalance == if i.FreezePartial? then i.amount else 0
  {
  }
}
