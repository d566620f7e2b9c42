/** What every reachable ledger satisfies, and the proof that every instruction keeps it. */
module LedgerInvariants {
  import opened Numbers
  import opened Ledger

  // ---------- Sums ----------

  function CurrentOf(holds: map<HoldKey, Hold>, k: HoldKey): nat {
    if k in holds then holds[k].currentAmount else 0
  }

  /** Sum of the unresolved amounts of holds 1..n of one account. */
  function HeldSum(holds: map<HoldKey, Hold>, a: Pubkey, n: nat): nat {
    if n == 0 then 0 else HeldSum(holds, a, n - 1) + CurrentOf(holds, HoldKey(a, n))
  }

  lemma {:induction false} HeldSumFrame(h: map<HoldKey, Hold>, h': map<HoldKey, Hold>, a: Pubkey, n: nat)
    requires forall j | 1 <= j <= n :: CurrentOf(h', HoldKey(a, j)) == CurrentOf(h, HoldKey(a, j))
    ensures HeldSum(h', a, n) == HeldSum(h, a, n)
  {
    if n > 0 { HeldSumFrame(h, h', a, n - 1); }
  }

  /** Rewriting one hold moves its account's sum by exactly the change. */
  lemma {:induction false} HeldSumUpdate(h: map<HoldKey, Hold>, k: HoldKey, v: Hold, n: nat)
    requires 1 <= k.id <= n
    ensures HeldSum(h[k := v], k.account, n) == HeldSum(h, k.account, n) - CurrentOf(h, k) + v.currentAmount
  {
    if k.id == n {
      HeldSumFrame(h, h[k := v], k.account, n - 1);
    } else {
      HeldSumUpdate(h, k, v, n - 1);
    }
  }

  /** One hold is never more than the sum it is part of. */
  lemma {:induction false} HeldSumCovers(h: map<HoldKey, Hold>, k: HoldKey, n: nat)
    requires 1 <= k.id <= n
    ensures CurrentOf(h, k) <= HeldSum(h, k.account, n)
  {
    if k.id < n { HeldSumCovers(h, k, n - 1); }
  }

  /** Sum of all balances. */
  ghost function Total(b: map<Pubkey, u64>): nat {
    if b == map[] then 0 else
      var a :| a in b;
      b[a] + Total(b - {a})
  }

  /** The sum does not depend on the order in which accounts are taken. */
  lemma {:induction false} TotalSplit(b: map<Pubkey, u64>, a: Pubkey)
    requires a in b
    ensures Total(b) == b[a] + Total(b - {a})
    decreases |b|
  {
    var c :| c in b && Total(b) == b[c] + Total(b - {c});
    if c != a {
      TotalSplit(b - {c}, a);
      TotalSplit(b - {a}, c);
      assert b - {c} - {a} == b - {a} - {c};
    }
  }

  lemma TotalUpdate(b: map<Pubkey, u64>, a: Pubkey, v: u64)
    ensures Total(b[a := v]) == Total(b) - BalanceIn(b, a) + v
  {
    TotalSplit(b[a := v], a);
    assert b[a := v] - {a} == b - {a};
    if a in b {
      TotalSplit(b, a);
    } else {
      assert b - {a} == b;
    }
  }

  lemma TotalMoved(b: map<Pubkey, u64>, from: Pubkey, to: Pubkey, amount: u64)
    requires from in b && to in b && amount <= b[from]
    requires from != to ==> b[to] + amount <= U64_MAX
    ensures Total(Moved(b, from, to, amount)) == Total(b)
  {
    if from != to {
      TotalUpdate(b, from, b[from] - amount);
      TotalUpdate(b[from := b[from] - amount], to, b[to] + amount);
    }
  }

  // ---------- The invariant ----------

  ghost predicate SupplyOk(b: map<Pubkey, u64>, supply: u64, cap: Option<u64>, features: set<u16>) {
    && supply == Total(b)
    && (cap.Some? ==> supply <= cap.value && CAP_MAX_SUPPLY in features)
    && (CAP_MAX_SUPPLY in features && supply > 0 ==> cap.Some?)
  }

  predicate HoldOk(h: Hold) {
    && 0 < h.initialAmount
    && h.currentAmount <= h.initialAmount
    && (h.status.Active? <==> h.currentAmount > 0)
    && h.createdAt < h.expiration
  }

  /** Hold ids of a position are exactly 1..holdCount. */
  ghost predicate IdsOk(positions: map<Pubkey, HoldPosition>, holds: map<HoldKey, Hold>) {
    forall k :: k in holds <==> k.account in positions && 1 <= k.id <= positions[k.account].holdCount
  }

  ghost predicate LienOk(b: map<Pubkey, u64>, p: HoldPosition, holds: map<HoldKey, Hold>, a: Pubkey) {
    p.heldAmount == HeldSum(holds, a, p.holdCount) && p.heldAmount <= BalanceIn(b, a)
  }

  ghost predicate HoldsOk(b: map<Pubkey, u64>, positions: map<Pubkey, HoldPosition>, holds: map<HoldKey, Hold>) {
    && IdsOk(positions, holds)
    && (forall a | a in positions :: LienOk(b, positions[a], holds, a))
    && (forall k | k in holds :: HoldOk(holds[k]))
  }

  ghost predicate Inv(s: State) {
    && SupplyOk(s.balances, s.supply, s.cap, s.features)
    && HoldsOk(s.balances, s.positions, s.holds)
    && FreezesOk(s.freezes)
    && (s.positions != map[] ==> HOLD_CREATE_HOLD in s.features)
  }

  // ---------- Consequences used by the programs ----------

  /** The subtraction from `held_amount` in execute, release and reclaim cannot underflow. */
  lemma HeldAmountCovers(s: State, k: HoldKey)
    requires Inv(s) && k in s.holds
    ensures k.account in s.positions
    ensures s.holds[k].currentAmount <= s.positions[k.account].heldAmount <= Balance(s, k.account)
  {
    assert LienOk(s.balances, s.positions[k.account], s.holds, k.account);
    HeldSumCovers(s.holds, k, s.positions[k.account].holdCount);
  }

  lemma BalanceWithinSupply(s: State, a: Pubkey)
    requires Inv(s)
    ensures Balance(s, a) <= s.supply
  {
    if a in s.balances { TotalSplit(s.balances, a); }
  }

  /** Two accounts together hold no more than the supply, so a credit cannot overflow. */
  lemma CreditFits(s: State, from: Pubkey, to: Pubkey, amount: u64)
    requires Inv(s) && from != to && from in s.balances && to in s.balances && amount <= s.balances[from]
    ensures s.balances[to] + amount <= s.supply
  {
    TotalSplit(s.balances, from);
    TotalSplit(s.balances - {from}, to);
  }

  /** The tokens of a hold can leave for any other account of a mint that is not paused. */
  lemma HoldMovable(s: State, k: HoldKey, amount: u64, to: Pubkey)
    requires Inv(s) && k in s.holds && amount <= s.holds[k].currentAmount && !s.paused
    requires k.account in s.balances && to in s.balances && k.account != to
    ensures amount <= Held(s, k.account) && Movable(s, k.account, to, amount)
  {
    HeldAmountCovers(s, k);
    CreditFits(s, k.account, to, amount);
  }

  // ---------- Every instruction keeps it ----------

  lemma DrawnKeepsLien(s: State, k: HoldKey, amount: u64, end: HoldStatus, b: map<Pubkey, u64>, a: Pubkey)
    requires Inv(s) && ActiveHold(s, k) && amount <= s.holds[k].currentAmount && a in s.positions
    requires Balance(s, a) - (if a == k.account then amount else 0) <= BalanceIn(b, a)
    ensures LienOk(b, Drawn(s, k, amount, end).positions[a], Drawn(s, k, amount, end).holds, a)
  {
    var t := Drawn(s, k, amount, end);
    assert LienOk(s.balances, s.positions[a], s.holds, a);
    if a == k.account {
      HeldAmountCovers(s, k);
      HeldSumUpdate(s.holds, k, t.holds[k], s.positions[a].holdCount);
    } else {
      HeldSumFrame(s.holds, t.holds, a, s.positions[a].holdCount);
    }
  }

  lemma DrawnKeepsHolds(s: State, k: HoldKey, amount: u64, end: HoldStatus, b: map<Pubkey, u64>)
    requires Inv(s) && ActiveHold(s, k) && 0 < amount <= s.holds[k].currentAmount && !end.Active?
    requires forall a :: Balance(s, a) - (if a == k.account then amount else 0) <= BalanceIn(b, a)
    ensures HoldsOk(b, Drawn(s, k, amount, end).positions, Drawn(s, k, amount, end).holds)
  {
    var t := Drawn(s, k, amount, end);
    forall a | a in t.positions ensures LienOk(b, t.positions[a], t.holds, a) {
      DrawnKeepsLien(s, k, amount, end, b, a);
    }
  }

  lemma CreatedKeepsLien(s: State, a: Pubkey, h: NewHold, now: i64, c: Pubkey)
    requires Inv(s) && CanCreate(s, a, h, now) && (c == a || c in s.positions)
    ensures LienOk(s.balances, Created(s, a, h, now).positions[c], Created(s, a, h, now).holds, c)
  {
    var t := Created(s, a, h, now);
    if c in s.positions { assert LienOk(s.balances, s.positions[c], s.holds, c); }
    HeldSumFrame(s.holds, t.holds, c, HoldCount(s, c));
  }

  lemma CreatedKeepsIds(s: State, a: Pubkey, h: NewHold, now: i64)
    requires IdsOk(s.positions, s.holds) && CanCreate(s, a, h, now)
    ensures IdsOk(Created(s, a, h, now).positions, Created(s, a, h, now).holds)
  {
    var t := Created(s, a, h, now);
    forall k ensures k in t.holds <==> k.account in t.positions && 1 <= k.id <= t.positions[k.account].holdCount {
      assert k in s.holds <==> k.account in s.positions && 1 <= k.id <= s.positions[k.account].holdCount;
    }
  }

  lemma CreatedKeepsHolds(s: State, a: Pubkey, h: NewHold, now: i64)
    requires Inv(s) && CanCreate(s, a, h, now)
    ensures HoldsOk(s.balances, Created(s, a, h, now).positions, Created(s, a, h, now).holds)
  {
    var t := Created(s, a, h, now);
    CreatedKeepsIds(s, a, h, now);
    forall c | c in t.positions ensures LienOk(s.balances, t.positions[c], t.holds, c) {
      CreatedKeepsLien(s, a, h, now, c);
    }
    forall k | k in t.holds ensures HoldOk(t.holds[k]) {
      assert k in s.holds ==> HoldOk(s.holds[k]);
    }
  }

  /** Holds stay covered when no balance drops below its lien. */
  lemma BalancesKeepHolds(s: State, b: map<Pubkey, u64>)
    requires Inv(s)
    requires forall a :: Held(s, a) <= BalanceIn(b, a)
    ensures HoldsOk(b, s.positions, s.holds)
  {
    forall a | a in s.positions ensures LienOk(b, s.positions[a], s.holds, a) {
      assert LienOk(s.balances, s.positions[a], s.holds, a);
      assert Held(s, a) <= BalanceIn(b, a);
    }
  }

  lemma LienCovered(s: State, a: Pubkey)
    requires Inv(s)
    ensures Held(s, a) <= Balance(s, a)
  {
    if a in s.positions { assert LienOk(s.balances, s.positions[a], s.holds, a); }
  }

  lemma TransferKeepsSupply(s: State, i: Instruction)
    requires Inv(s) && Can(s, i) && (i.ExecuteHold? || i.Transfer? || i.ControllerTransfer?)
    ensures Do(s, i).supply == s.supply == Total(Do(s, i).balances)
  {
    if i.ExecuteHold? {
      TotalMoved(s.balances, i.account, i.to, i.amount);
    } else {
      TotalMoved(s.balances, i.from, i.to, i.amount);
    }
  }

  /** One balance and the supply move together, and the cap admits the new supply. */
  lemma UpdateKeepsSupply(b: map<Pubkey, u64>, a: Pubkey, v: u64, supply: u64, supply': u64,
                          cap: Option<u64>, features: set<u16>)
    requires SupplyOk(b, supply, cap, features)
    requires supply' - supply == v - BalanceIn(b, a)
    requires supply' <= supply || if cap.Some? then supply' <= cap.value else CAP_MAX_SUPPLY !in features
    ensures SupplyOk(b[a := v], supply', cap, features)
  {
    TotalUpdate(b, a, v);
  }

  lemma IssueKeepsSupply(s: State, i: Instruction)
    requires Inv(s) && Can(s, i) && (i.Burn? || i.Mint? || i.OpenAccount? || i.CloseAccount?)
    ensures SupplyOk(Do(s, i).balances, Do(s, i).supply, s.cap, s.features)
  {
    if i.Mint? {
      UpdateKeepsSupply(s.balances, i.to, s.balances[i.to] + i.amount, s.supply, s.supply + i.amount,
                        s.cap, s.features);
    } else if i.Burn? {
      UpdateKeepsSupply(s.balances, i.account, s.balances[i.account] - i.amount, s.supply, s.supply - i.amount,
                        s.cap, s.features);
    } else if i.OpenAccount? {
      UpdateKeepsSupply(s.balances, i.account, 0, s.supply, s.supply, s.cap, s.features);
    } else {
      TotalSplit(s.balances, i.account);
    }
  }

  lemma AdminKeepsSupply(s: State, i: Instruction)
    requires Inv(s) && Can(s, i) && !MovesTokens(i)
    ensures SupplyOk(s.balances, s.supply, Do(s, i).cap, s.features)
  {
    if i.SetMaxSupply? { assert i.amount >= s.supply && CAP_MAX_SUPPLY in s.features; }
  }

  lemma StepKeepsSupply(s: State, i: Instruction)
    requires Inv(s) && Can(s, i)
    ensures SupplyOk(Do(s, i).balances, Do(s, i).supply, Do(s, i).cap, Do(s, i).features)
  {
    if i.ExecuteHold? || i.Transfer? || i.ControllerTransfer? {
      TransferKeepsSupply(s, i);
    } else if MovesTokens(i) {
      IssueKeepsSupply(s, i);
    } else {
      AdminKeepsSupply(s, i);
    }
  }

  lemma TouchKeepsHolds(s: State, i: Instruction)
    requires Inv(s) && Can(s, i) && TouchesHolds(i)
    ensures HoldsOk(Do(s, i).balances, Do(s, i).positions, Do(s, i).holds)
  {
    if i.CreateHold? || i.ControllerCreateHold? {
      CreatedKeepsHolds(s, i.account, i.hold, i.now);
    } else {
      var k := HoldKey(i.account, i.id);
      if i.ReclaimHold? {
        DrawnKeepsHolds(s, k, s.holds[k].currentAmount, Expired, s.balances);
      } else {
        DrawnKeepsHolds(s, k, i.amount, Closed, Do(s, i).balances);
      }
    }
  }

  /** No path that moves or burns tokens takes a balance below its lien. */
  lemma MoveKeepsLien(s: State, i: Instruction, a: Pubkey)
    requires Inv(s) && Can(s, i) && MovesTokens(i) && !i.ExecuteHold?
    ensures Held(s, a) <= Balance(Do(s, i), a)
  {
    LienCovered(s, a);
  }

  lemma StepKeepsHolds(s: State, i: Instruction)
    requires Inv(s) && Can(s, i)
    ensures HoldsOk(Do(s, i).balances, Do(s, i).positions, Do(s, i).holds)
  {
    if TouchesHolds(i) {
      TouchKeepsHolds(s, i);
    } else if MovesTokens(i) {
      forall a ensures Held(s, a) <= Balance(Do(s, i), a) { MoveKeepsLien(s, i, a); }
      BalancesKeepHolds(s, Do(s, i).balances);
    }
  }

  lemma StepKeepsInv(s: State, i: Instruction)
    requires Inv(s) && Can(s, i)
    ensures Inv(Do(s, i))
  {
    StepKeepsSupply(s, i);
    StepKeepsHolds(s, i);
    assert TouchesHolds(i) ==> HOLD_CREATE_HOLD in s.features;
  }

  /** Every run from a state that satisfies the invariant ends in one that does. */
  lemma {:induction false} RunKeepsInv(s: State, steps: seq<Instruction>)
    requires Inv(s) && Run(s, steps).Some?
    ensures Inv(Run(s, steps).value)
  {
    if |steps| > 0 {
      var front := steps[..|steps| - 1];
      RunKeepsInv(s, front);
      StepKeepsInv(Run(s, front).value, steps[|steps| - 1]);
    }
  }

  lemma ReachableInv(s: State)
    requires Reachable(s)
    ensures Inv(s)
  {
    var start, steps :| Initial(start) && Run(start, steps) == Some(s);
    RunKeepsInv(start, steps);
  }
}
