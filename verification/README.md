# Token suite: a verified model

This project models, in Dafny 4.11, the hard core of a suite of Solana programs that run a
Token-2022 security token: the ledger of balances, liens, freezes and caps of one mint; the
coupon, snapshot and treasury programs of a bond; the registry of asset-class versions; and two
exact kernels (byte masks and metadata sizes). `dafny verify dfyconfig.toml` checks all of it.

## How it is built

- **`Ledger`** is one mint's records as a value and every instruction that can change them. `Can`
  says when an instruction succeeds and `Do` what it leaves, in unbounded arithmetic and without
  the programs' defensive checks. A batch is the sequence of its legs. **`LedgerInvariants`** proves
  what every instruction keeps, **`LedgerRuns`** what holds over whole runs. **`LedgerHistory`** reads
  every record off the list of instructions alone (the last one that concerns it, or a sum over all of
  them), and **`LedgerRights`** says who may do what, when and up to which amount.
- **`Checks`** is the read-only checks as the programs write them, on machine integers with checked
  and saturating arithmetic and their error codes. **`TokenMint`** is a class whose methods run the
  handlers: same order of checks, same writes, loops for the batches, rollback on failure. Each
  method succeeds if and only if `Can` holds and leaves exactly `Do` (`Performed`,
  `PerformedAll`); so every theorem about the ledger is a theorem about the handlers.
- **`Merkle`**, **`Payout`**, **`Coupons`**, **`CouponPayments`**, **`CouponHistory`** and **`Treasury`**
  do the same for snapshots and coupon payments. The hash is an arbitrary function, a parameter of every theorem.
- **`Bitmask`** and **`Factory`** relate byte masks to sets and prove that a deployed mint's
  functionality queries have one answer for good, which is why `Ledger.State.features` is constant.
- **`Metadata`** is the size prediction. **`Numbers`** and **`Arithmetic`** are shared vocabulary.

## Conventions

- A record at a derived address is a map entry keyed by its seeds; `init` needs the key absent,
  `init_if_needed` starts from zero, `close` removes the key.
- An instruction is atomic: on an error the state is what it was. The clock is an argument.
- Token-2022 is modelled by its contract: mint, burn and transfer fail on a paused mint; a transfer
  is signed by the owner or by the delegate the owner approved, within the allowance; it debits,
  credits, then asks the hook; a self-transfer moves nothing and asks nobody. Opening, closing and
  handing over token accounts, approving and revoking delegates and changing role grants are
  instructions of the ledger too, so runs include what those other programs may do in between.
- What a delegate can take is part of that assumption about Token-2022 and not of the programs: the
  hook never reads an allowance. `LedgerRuns.AllowanceFromOwner`, `LedgerRuns.AllowanceSpent` and
  `LedgerRuns.DelegateWithinAllowance` are its consequences for runs and have no row below, nor have
  `LedgerHistory.OwnersFromHistory` and `LedgerHistory.DelegatesFromHistory`.
- The framework refuses one account in two typed writable slots, so a hold is never executed to its
  own source account; the unchecked slots of a controller transfer may name one account twice.
- Only a program can sign as its own derived authority, so an outside caller is always a wallet
  key; `Authority` and `Caller` keep the cases apart.

## Where the code and its documentation disagree

The model follows the code.

- `docs/hold.md:147` calls `HeldAmountUnderflow` unreachable while each lien is the sum of its
  holds. In `execute_hold` it is returned whenever freeze plus lien exceed the largest u64, which a
  partial freeze can cause at will: `Checks.UnderflowErrorReachable` reaches it with two distinct
  accounts, and `Checks.GuardExecution` states exactly when it comes back. Release and reclaim
  never return it.
- `docs/freeze.md:339` says the amount of a partial freeze must not exceed the token balance. The
  handler checks only that it is positive: `LedgerRuns.FreezeMayExceedBalance` freezes any amount of
  an account with one held token. `LedgerRuns.CoveredExactly` says exactly which steps leave a
  balance that does not cover freeze and lien, and so can keep a hold from being delivered
  (`LedgerRuns.ExecutionCovered`).
- `docs/treasury.md:170` says the non-positive period cannot happen because `create_coupon` requires
  a later end date. The subtraction is a checked i64 one, so a period longer than the largest i64
  is accepted at creation and refused at payment as negative: `Coupons.OverlongPeriodAccepted` gives
  the dates and a payment that gets that far, `Coupons.PeriodOkExactly` the accepted periods that
  fail, and `Treasury.Treasury.PayCoupon` exactly which calls answer so.
- `docs/treasury.md:31` says the payment mint cannot be swapped in the middle of a distribution. The
  lock stores the coupon paid last, so paying an older coupon releases it:
  `CouponPayments.PaidInTwoTokens` is a run that pays one coupon in two tokens. `Coupons.LockExactly`
  says exactly when the mint can be changed after any run, and `Coupons.LockHolds` when it can while
  no coupon is created: if and only if the last payment was of a coupon older than the newest.

## Model

| member | source | states |
|---|---|---|
| `LedgerInvariants.StepKeepsInv` | programs/hold/src/creation.rs:50-75 | every instruction of every program keeps: each lien is the sum of its holds and at most the balance, ids are 1..count, holds are Active iff something is left, supply is the sum of balances and within the cap, freeze records are never empty |
| `LedgerInvariants.RunKeepsInv` | programs/hold/src/state.rs:11-22 | the invariant holds after every run |
| `LedgerInvariants.ReachableInv` | programs/hold/src/state.rs:11-22 | the invariant holds in every state a deployed mint can reach |
| `LedgerInvariants.MoveKeepsLien` | programs/common/src/lib.rs:164-190 | no transfer, seizure, burn or account closure takes any balance below its lien |
| `LedgerInvariants.TouchKeepsHolds` | programs/hold/src/instructions/execute_hold.rs:59-83 | creating, executing, releasing and reclaiming keep the lien equal to the sum of holds and covered |
| `LedgerInvariants.TransferKeepsSupply` | programs/operations/src/instructions/controller_transfer.rs:54-102 | moving tokens, by any path, conserves the sum of balances |
| `LedgerInvariants.IssueKeepsSupply` | programs/mint/src/instructions/mint.rs:32-65 | mint and burn move supply and balances together and respect the cap |
| `LedgerInvariants.HeldAmountCovers` | programs/hold/src/instructions/release_hold.rs:26-31 | the subtraction from `held_amount` never underflows and the hold's tokens are in the account |
| `LedgerInvariants.CreditFits` | programs/operations/src/instructions/hold_transfer.rs:81-85 | crediting the destination of a covered transfer cannot overflow |
| `LedgerRuns.LiensSolvent` | programs/hold/src/creation.rs:50-63 | in every reachable state a lien equals the sum of the account's holds, is covered by the balance, and hold ids are exactly 1..count |
| `LedgerRuns.SupplyCapped` | programs/cap/src/lib.rs:39-64 | in every reachable state supply is the sum of balances and within the cap; with the cap bit positive supply implies a cap, without it there is none |
| `LedgerRuns.FreezeMayExceedBalance` | programs/freeze/src/instructions/freeze_account_partial.rs:30-35 | a reachable state in which any given amount is frozen of an open account with one held token, so freeze plus lien exceed the balance |
| `LedgerRuns.StepCovered` | programs/operations/src/instructions/controller_transfer.rs:30-37 | an account whose balance covers freeze and lien stays so iff the instruction is no partial freeze of more than is there and no burn or seizure of more than is free |
| `LedgerRuns.CoveredExactly` | programs/freeze/src/instructions/freeze_account_partial.rs:30-35 | an account covered at the start of a run is covered at every point of it iff no step is one of those three |
| `LedgerRuns.HoldConserved` | programs/hold/src/instructions/execute_hold.rs:76-83 | over any run a hold's initial amount is what is left plus everything executed, released and reclaimed |
| `LedgerRuns.HoldLifetime` | programs/hold/src/instructions/reclaim_hold.rs:16-33 | over any run a hold is never removed, its terms never change, its amount never grows and Closed and Expired are final |
| `LedgerRuns.ExecutionsHonourTerms` | programs/hold/src/instructions/execute_hold.rs:27-44 | every execution in a run was signed by the escrow, before expiration and to the pinned destination recorded at its end |
| `LedgerRuns.LienSecure` | programs/operations/src/instructions/controller_transfer.rs:30-37 | in any run in which the hold itself is neither resolved by its escrow nor reclaimed after expiry it is untouched and its tokens stay in the account, whatever happens to other holds of the same escrow |
| `LedgerRuns.ReleaseAlwaysPossible` | programs/hold/src/instructions/release_hold.rs:10-40 | the escrow can release any part of an active hold in every reachable state, paused or deactivated included |
| `LedgerRuns.ReclaimPossibleAfterExpiry` | programs/hold/src/instructions/reclaim_hold.rs:10-33 | after expiry anyone can reclaim, and the whole remaining lien is lifted |
| `LedgerRuns.ExecutionCovered` | programs/hold/src/instructions/execute_hold.rs:59-72 | on a live mint and between listed accounts an execution succeeds iff the source is not fully frozen and its balance covers freeze and lien |
| `LedgerRuns.HoldStaysDeliverable` | programs/hold/src/instructions/execute_hold.rs:46-72 | after any run that leaves a hold to its escrow and never uncovers its account, the hold can be executed on a live mint if the account is not fully frozen |
| `LedgerRuns.RisesOnlyIfListed` | programs/transfer-control/src/lib.rs:32-60 | outside a seizure a balance rises only on an account the control mode admits |
| `LedgerRuns.FallsOnlyIfFree` | programs/transfer-hook/src/instructions/execute.rs:42-55 | outside burns and seizures a balance falls only on an account not fully frozen, and what remains covers freeze and lien |
| `LedgerRuns.TakenOnlyByRight` | programs/operations/src/instructions/burn_tokens.rs:11-32 | only the owner, the owner's delegate within its allowance, the escrow within a hold, or a controller takes tokens from an account, and no balance changes while paused or deactivated |
| `LedgerRuns.LienGrowsOnlyByRight` | programs/hold/src/instructions/controller_create_hold.rs:21-30 | a lien grows only by the owner or a controller, on a live mint and an unfrozen account, within the free balance |
| `LedgerRuns.SupplyChangesOnlyByRight` | programs/mint/src/instructions/mint.rs:16-38 | supply grows only by an issuer's mint and shrinks only by a controller's burn |
| `LedgerRuns.FlowsRegulated` | programs/hold/src/instructions/execute_hold.rs:46-74 | the rules on rising, falling and taking at every point of every run, executions that bypass the hook and transfers by a delegate included |
| `LedgerRuns.RulesAreFixed` | programs/transfer-control/src/instructions/initialize.rs:71-78 | over any run the control mode never changes once set; no instruction writes the functionality mask, whose constancy in the registry is `Factory.AnswersNeverChange` |
| `LedgerRuns.DeactivationIsFinal` | programs/deactivate/src/instructions/deactivate.rs:56-63 | after deactivation every continuation keeps all balances and the supply, creates no hold and only shrinks liens |
| `LedgerRuns.FreezeRecordExactly` | programs/freeze/src/state.rs:12-33 | a freeze record exists exactly while one of its sides is set |
| `LedgerRuns.FullSideIndependent` | programs/freeze/src/instructions/unfreeze_account.rs:30-35 | only the two full-freeze instructions change the full side, and only on their account |
| `LedgerRuns.PartialSideIndependent` | programs/freeze/src/instructions/unfreeze_account_partial.rs:30-38 | only the two partial-freeze instructions change the partial side, to the given amount or to zero |
| `LedgerHistory.StepBalance` | programs/hold/src/instructions/execute_hold.rs:93-126 | every instruction moves every balance by exactly what its own arguments say: an execution takes the amount from the source and gives it to the destination |
| `LedgerHistory.BalancesFromHistory` | programs/operations/src/instructions/controller_transfer.rs:54-102 | after any run a balance is what it was plus everything received minus everything sent, summed over the instructions alone |
| `LedgerHistory.SupplyFromHistory` | programs/mint/src/instructions/mint.rs:41-65 | after any run the supply is what it was plus everything minted minus everything burned |
| `LedgerHistory.HoldsFromHistory` | programs/hold/src/creation.rs:65-75 | a hold exists iff a creation in the run named it, and carries the escrow, destination, amount, expiration and time that creation asked for |
| `LedgerHistory.CreatedOnce` | programs/hold/src/creation.rs:44-48 | no run creates the same hold twice |
| `LedgerHistory.ResolvedAsAsked` | programs/hold/src/instructions/execute_hold.rs:27-44 | every execution, release and reclaim of a run obeys the terms its hold's creator asked for: escrow, positive amount, expiration, pinned destination |
| `LedgerHistory.StatusFromHistory` | programs/hold/src/instructions/reclaim_hold.rs:31-33 | a hold with something left is active; with nothing left it is expired iff a reclaim in the run named it, closed otherwise |
| `LedgerHistory.RulesFromHistory` | programs/cap/src/instructions/set_max_supply.rs:38-39 | cap, mode, pause, deactivation and roles are what the last instruction of the run on each of them says |
| `LedgerHistory.FreezesFromHistory` | programs/freeze/src/instructions/freeze_account.rs:30-33 | an account is fully frozen iff the last full freeze or unfreeze of it froze it, and partially by the amount of the last partial freeze not lifted since |
| `LedgerHistory.AdmittedFromHistory` | programs/transfer-control/src/lib.rs:32-60 | an account is admitted iff no mode was set, a whitelist was set and the account was last added, or a blacklist was set and it was not |
| `LedgerRights.AllowedFromHistory` | programs/common/src/lib.rs:89-111 | every step of a run had its role by the last grant and its functionality from the start; none came after a deactivation or during a pause but those meant to |
| `LedgerRights.AdministeredExactly` | programs/freeze/src/instructions/freeze_account.rs:12-33 | an administrator's instruction succeeds iff role, functionality, activity and pause allow it and its own precondition holds |
| `LedgerRights.InTurn` | programs/cap/src/instructions/set_max_supply.rs:26-36 | an account is frozen only when it was not and unfrozen only when it was, the mode is set once, a cap is at least one and the supply, and a mint stays within the last cap |
| `LedgerRights.RegulatedFromHistory` | programs/transfer-hook/src/instructions/execute.rs:34-46 | both ends of every transfer and execution were admitted and the source was not fully frozen, by the instructions before it |
| `LedgerRights.SignedFromHistory` | programs/hold/src/instructions/create_hold.rs:11-58 | a hold is placed and tokens are transferred only by the owner on record or, for a transfer, the delegate approved last |
| `LedgerRights.TransferLimit` | programs/transfer-hook/src/instructions/execute.rs:48-55 | on a live mint a holder can send an amount iff neither freeze nor lien claims it |
| `LedgerRights.SeizureLimit` | programs/common/src/lib.rs:164-190 | a controller can seize or burn an amount iff no lien claims it, frozen or not |
| `LedgerRights.MintLimit` | programs/cap/src/lib.rs:30-67 | an issuer can mint an amount iff the cap leaves it, or the u64 supply where the version has no caps |
| `LedgerRights.HoldLimit` | programs/hold/src/creation.rs:29-57 | a hold can be placed on an amount iff it is positive and neither freeze nor other holds claim it |
| `Checks.VerifyTransferControlMode` | programs/transfer-control/src/lib.rs:32-60 | passes iff every account satisfies the mode, and fails with that mode's error |
| `Checks.RequireHoldCovered` | programs/common/src/lib.rs:168-190 | the checked pre-debit sum passes iff the balance covers lien plus amount |
| `Checks.HookExecute` | programs/transfer-hook/src/instructions/execute.rs:17-63 | the post-debit gate passes iff exempt, or active, listed, unfrozen, with freeze plus lien covered and the bit set |
| `Checks.RequireWithinMaxSupply` | programs/cap/src/lib.rs:30-67 | the checked sum passes iff the new supply is within the cap, and an absent cap fails iff the bit is set |
| `Checks.ExecutionCover` | programs/hold/src/instructions/execute_hold.rs:59-72 | subtracting and re-adding the amount decides exactly whether freeze plus lien are covered, and when the underflow error is returned |
| `Checks.RequireAvailable` | programs/hold/src/creation.rs:50-57 | the saturating availability test of a positive amount is the exact inequality |
| `Checks.GuardCreation` | programs/hold/src/creation.rs:29-62 | the creation guards pass iff the plain conditions hold; its errors are truthful and the overflow guard never fires |
| `Checks.GuardDelivery` | programs/hold/src/instructions/execute_hold.rs:46-72 | the repeated compliance checks pass iff both ends are listed, the source is unfrozen and everything locked is covered |
| `Checks.GuardExecution` | programs/hold/src/instructions/execute_hold.rs:15-72 | all guards pass iff the execution is possible, to an account other than the source; exactly when the underflow error is returned; errors are truthful |
| `Checks.GuardRelease` | programs/hold/src/instructions/release_hold.rs:10-31 | the guards pass iff the release is possible; the underflow error is never returned |
| `Checks.GuardReclaim` | programs/hold/src/instructions/reclaim_hold.rs:10-29 | the guards pass iff the reclaim is possible; the underflow error is never returned |
| `Checks.UnderflowErrorReachable` | programs/hold/src/instructions/execute_hold.rs:66-72 | a reachable, consistent state in which executing one token to another account answers HeldAmountUnderflow |
| `TokenMint.TokenMint.RecordNewHold` | programs/hold/src/creation.rs:21-78 | succeeds iff possible, and then adds exactly the hold asked for (`LedgerHistory.HoldsFromHistory`), its lien and its id |
| `TokenMint.TokenMint.CreateHold` | programs/hold/src/instructions/create_hold.rs:11-58 | the holder's creation refines the ledger's; the record it initialises is always free |
| `TokenMint.TokenMint.ControllerCreateHold` | programs/hold/src/instructions/controller_create_hold.rs:13-66 | the controller's creation refines the ledger's |
| `TokenMint.TokenMint.Draw` | programs/hold/src/instructions/execute_hold.rs:74-83 | takes the amount off hold and position and ends the hold when nothing is left |
| `TokenMint.TokenMint.ExecuteHold` | programs/hold/src/instructions/execute_hold.rs:15-176 | succeeds iff possible, source and destination distinct, moves the amount between them (`LedgerHistory.StepBalance`) and off the lien, otherwise changes nothing |
| `TokenMint.TokenMint.ReleaseHold` | programs/hold/src/instructions/release_hold.rs:10-52 | refines the ledger's release |
| `TokenMint.TokenMint.ReclaimHold` | programs/hold/src/instructions/reclaim_hold.rs:10-44 | refines the ledger's reclaim |
| `TokenMint.TokenMint.TransferChecked` | programs/transfer-hook/src/instructions/execute.rs:17-63 | debit, credit, a delegate's allowance and the hook on the state after them, undone if the hook refuses |
| `TokenMint.TokenMint.HoldTransfer` | programs/operations/src/instructions/hold_transfer.rs:13-88 | moves tokens for the hold authority alone; any other caller is refused |
| `TokenMint.TokenMint.Transfer` | programs/transfer-hook/src/instructions/execute.rs:32-62 | a hooked transfer by the holder or a delegate refines the ledger's |
| `TokenMint.TokenMint.BatchTransfer` | programs/transfer/src/instructions/batch_transfer.rs:14-87 | succeeds iff its legs would one by one, with the same final state, otherwise changes nothing |
| `TokenMint.TokenMint.ControllerTransfer` | programs/operations/src/instructions/controller_transfer.rs:14-114 | a seizure bounded by the lien refines the ledger's |
| `TokenMint.TokenMint.BurnLeg` | programs/operations/src/instructions/batch_burn.rs:48-89 | one lien check and burn refines the ledger's burn |
| `TokenMint.TokenMint.Burn` | programs/operations/src/instructions/burn_tokens.rs:11-85 | refines the ledger's burn |
| `TokenMint.TokenMint.BatchBurn` | programs/operations/src/instructions/batch_burn.rs:13-100 | succeeds iff its legs would one by one, repeated accounts included, with the same final state |
| `TokenMint.TokenMint.MintLeg` | programs/mint/src/instructions/batch_mint.rs:71-93 | issuing one leg after the checks refines the ledger's mint |
| `TokenMint.TokenMint.Mint` | programs/mint/src/instructions/mint.rs:15-75 | refines the ledger's mint |
| `TokenMint.TokenMint.BatchMint` | programs/mint/src/instructions/batch_mint.rs:17-104 | one check of the total succeeds iff minting leg by leg would, with the same balances and supply |
| `TokenMint.MintTotalIffEachLeg` | programs/mint/src/instructions/batch_mint.rs:36-51 | the legs can be minted one by one exactly when their total passes, and issue exactly the total |
| `TokenMint.SupplyOnTheWay` | programs/mint/src/instructions/batch_mint.rs:37-40 | every intermediate supply is the initial one plus the legs so far and never passes the final one |
| `TokenMint.CheckedSum` | programs/mint/src/instructions/batch_mint.rs:41-44 | the checked fold is the sum, or nothing exactly when the sum exceeds u64 |
| `TokenMint.TokenMint.FreezeLeg` | programs/freeze/src/instructions/batch_unfreeze_account.rs:56-65 | changing one side of a record keeps the other, creates it on first use and closes it when empty |
| `TokenMint.TokenMint.ChangeFreeze` | programs/freeze/src/instructions/freeze_account.rs:12-42 | each of the four single freeze instructions refines the ledger's |
| `TokenMint.TokenMint.BatchFreeze` | programs/freeze/src/instructions/batch_freeze_account_partial.rs:13-92 | each of the four batches succeeds iff its single calls would in sequence, with the same final state |
| `TokenMint.TokenMint.SetMaxSupply` | programs/cap/src/instructions/set_max_supply.rs:14-48 | refines the ledger's cap update |
| `TokenMint.TokenMint.Deactivate` | programs/deactivate/src/instructions/deactivate.rs:8-31 | refines the ledger's one-way deactivation |
| `Merkle.LeafBytesInjective` | programs/common/src/merkle.rs:15-20 | the 40-byte leaf encoding determines account and balance |
| `Merkle.NodeBytesDetermine` | programs/common/src/merkle.rs:30-34 | a sorted-pair preimage determines its two children up to order |
| `Merkle.NodeBytesCommute` | programs/common/src/merkle.rs:30-34 | the sorted-pair preimage does not depend on which side a child is on |
| `Merkle.LeafBytesLayout` | programs/common/src/merkle.rs:18-20 | the leaf preimage is the account's 32 bytes followed by the balance, lowest byte first, and nothing else is |
| `Merkle.NodeBytesSorted` | programs/common/src/merkle.rs:30-34 | the pair preimage is the two digests, the one smaller in the first differing byte in front, and nothing else is |
| `Merkle.AcceptedIffFold` | programs/common/src/merkle.rs:22-37 | a proof folds to the root iff digests lead there from the leaf preimage through the sorted pairs with the siblings in order |
| `Merkle.VerifyBalanceProof` | programs/common/src/merkle.rs:22-37 | the loop accepts iff digests lead from the leaf preimage through the sorted pairs to the root |
| `Merkle.Complete` | programs/common/src/merkle.rs:28-36 | for a tree of any shape exactly its leaves have sibling lists, and those are accepted |
| `Merkle.Sound` | programs/common/src/merkle.rs:15-37 | an accepted proof of any length is of a leaf, or the computed pair of preimages, one hashed by the tree and one by the check, collides |
| `Merkle.AcceptedIffContained` | programs/common/src/merkle.rs:22-37 | without a collision among what was hashed, acceptance is membership |
| `Payout.QuotientExact` | programs/treasury/src/instructions/pay_coupon.rs:71-100 | the single net power of ten, on either side, gives the floor of the documented fraction |
| `Payout.CheckedAccrued` | programs/treasury/src/instructions/pay_coupon.rs:78-82 | the numerator chain fails exactly when the four-factor product exceeds u128 |
| `Payout.Power` | programs/treasury/src/instructions/pay_coupon.rs:89-96 | the checked power of ten, or nothing exactly when it exceeds u128 |
| `Payout.ComputePayout` | programs/treasury/src/instructions/pay_coupon.rs:56-102 | answers exactly when every intermediate fits, with exactly the floor that is due |
| `Payout.DueMonotone` | programs/treasury/src/instructions/pay_coupon.rs:78-102 | a larger balance is never due less, and if it is payable so is every smaller one |
| `Payout.DueAdds` | programs/treasury/src/instructions/pay_coupon.rs:100-102 | amounts due apart never exceed the amount due together |
| `Payout.DueTight` | programs/treasury/src/instructions/pay_coupon.rs:100-102 | one payment is short of the exact amount by less than one unit |
| `Coupons.StepKeepsInv` | programs/coupon/src/instructions/create_coupon.rs:47-107 | every action keeps the counters equal, coupon n on snapshot n-1, every root present, dates ordered, rate overrides both set or both unset, and the payment token locked for an existing coupon or none |
| `Coupons.RunKeepsInv` | programs/snapshot/src/instructions/take_snapshot.rs:17-33 | the same after every run |
| `Coupons.CouponsHaveOwnRoots` | programs/coupon/src/instructions/create_coupon.rs:61-73 | in every reachable state the counters agree and distinct coupons have distinct root records |
| `Coupons.RunKeeps` | programs/snapshot/src/instructions/take_snapshot.rs:64-79 | roots, coupon dates and snapshots, and paid markers are never overwritten |
| `Coupons.PeriodOkExactly` | programs/treasury/src/instructions/pay_coupon.rs:49-53 | an accepted coupon has a positive period, and the elapsed-time check fails exactly when it exceeds i64 |
| `Coupons.OverlongPeriodAccepted` | programs/coupon/src/instructions/create_coupon.rs:37-45 | dates that creation accepts and for which a mature, proven payment reaches the elapsed-time error |
| `Coupons.LockExactly` | programs/treasury/src/instructions/set_payment_token.rs:26-37 | after any run the payment mint is changeable iff nothing was ever paid or the coupon paid last is older than the newest |
| `Coupons.LockHolds` | programs/treasury/src/instructions/set_payment_token.rs:26-37 | once the newest coupon is being paid and while none is created, the payment mint is changeable iff the last payment was of an older coupon, and stays if none was |
| `Coupons.OlderPaymentUnlocks` | programs/treasury/src/instructions/pay_coupon.rs:126-127 | a payment leaves the payment mint changeable iff the coupon paid is not the newest |
| `CouponPayments.StepTracked` | programs/treasury/src/instructions/pay_coupon.rs:40-45 | an accepted payment of a coupon goes to a leaf of its snapshot and records exactly what is due on it |
| `CouponPayments.PaymentsAddUp` | programs/treasury/src/instructions/pay_coupon.rs:40-102 | over any run the payments of a coupon sum to at most the payout on the whole snapshot, all to its accounts, and miss the exact payout by less than n units once all n are paid |
| `CouponPayments.PaidOnce` | programs/treasury/src/instructions/pay_coupon.rs:228-240 | no run pays one coupon to one account twice, whatever the proofs |
| `CouponPayments.LeafPayable` | programs/treasury/src/instructions/pay_coupon.rs:36-102 | an unpaid account of the snapshot of a mature coupon can be paid with its tree's proof iff its own payout fits |
| `CouponPayments.DistributionCompletes` | programs/treasury/src/instructions/pay_coupon.rs:17-144 | from any point of the distribution of a mature coupon, paying every remaining account in turn succeeds iff each of their payouts fits, and leaves everyone paid and nothing else changed |
| `CouponPayments.PaidInTwoTokens` | programs/treasury/src/instructions/pay_coupon.rs:126-127 | a run from an empty book that pays the newest coupon to one account in one token and to another in a second token |
| `CouponHistory.CouponsFromHistory` | programs/coupon/src/instructions/create_coupon.rs:99-107 | a coupon exists iff it was created, with the dates and root asked for then and the rate pair asked for last |
| `CouponHistory.TermsFromHistory` | programs/treasury/src/instructions/set_payment_token.rs:39-43 | bond terms and payment token are those set last |
| `CouponHistory.DueIsDocumented` | programs/treasury/src/instructions/pay_coupon.rs:55-102 | the payout is the floor of rate, balance, par value, elapsed seconds and payment power over days, 86,400 and the other decimals' power |
| `CouponHistory.DocumentedExample` | programs/treasury/src/instructions/pay_coupon.rs:55-102 | the amount of one payment with distinct decimals on a 365-day year |
| `CouponHistory.PaymentExact` | programs/treasury/src/instructions/pay_coupon.rs:36-144 | every payment of a run was mature, proven against the root asked for at creation, and recorded exactly the documented amount at the coupon's own rate if last given one, else the bond's, on the terms and token set last |
| `CouponHistory.PayableFromHistory` | programs/treasury/src/instructions/pay_coupon.rs:36-102 | after any run a payment succeeds iff the coupon was created, terms and token set, the date reached, the proof good, the account unpaid, the period within i64 and every intermediate within its type |
| `Treasury.Treasury.TakeSnapshot` | programs/snapshot/src/instructions/take_snapshot.rs:9-42 | records the root under the current count for the coupon authority alone |
| `Treasury.Treasury.CreateCoupon` | programs/coupon/src/instructions/create_coupon.rs:15-120 | succeeds iff cleared and possible, leaves coupon, counter and snapshot together, otherwise changes nothing |
| `Treasury.Treasury.SetCouponRate` | programs/coupon/src/state.rs:22-32 | replaces the pair of rate and decimals, both or neither |
| `Treasury.Treasury.SetPaymentToken` | programs/treasury/src/instructions/set_payment_token.rs:13-52 | succeeds iff the lock is behind the newest coupon, and keeps the lock |
| `Treasury.Treasury.PayCoupon` | programs/treasury/src/instructions/pay_coupon.rs:17-144 | succeeds iff mature, proven, payable and not yet paid; records what `CouponHistory.PaymentExact` spells out; exactly when it answers negative elapsed time |
| `Bitmask.Locate` | programs/common/src/bitmask.rs:17-24 | a position in range splits into its byte and bit, one out of range is returned as the error |
| `Bitmask.IsSet` | programs/common/src/bitmask.rs:50-53 | reading a bit is membership in the set the mask stands for |
| `Bitmask.BitMeans` | programs/common/src/bitmask.rs:50-53 | bit k of a byte is the one that weighs 2^k |
| `Bitmask.SetBits` | programs/common/src/bitmask.rs:29-35 | in place, union with the positions before the first out-of-range one, which is the error |
| `Bitmask.ClearBits` | programs/common/src/bitmask.rs:40-46 | in place, difference with the positions before the first out-of-range one, which is the error |
| `Factory.StepKeepsInv` | programs/factory/src/instructions/finalize_asset_class_version.rs:22-45 | every action keeps finalized versions at 1..latest, a draft only at latest+1, and mints on finalized versions |
| `Factory.RunKeepsInv` | programs/factory/src/instructions/init_asset_class_version.rs:21-36 | over any run that holds, finalized versions are never rewritten and mints never change version |
| `Factory.VersionsSequential` | programs/factory/src/instructions/init_asset_class_version.rs:21-36 | in every reachable registry finalized versions are exactly 1..latest and a draft is latest+1 |
| `Factory.AnswersNeverChange` | programs/common/src/lib.rs:98-111 | a deployed mint answers every functionality query the same in all later states, never as not finalized |
| `Factory.AnswersFromHistory` | programs/common/src/lib.rs:98-111 | a query about a mint answers yes iff the last edit naming the functionality, of the version named in the mint's deployment, enabled it; no for others, errors exactly for undeployed mints and out-of-range bits |
| `Factory.BitsFromHistory` | programs/factory/src/instructions/enable_asset_class_version_functionalities.rs:8-38 | a version has a functionality iff the last edit of it naming the functionality enabled it |
| `Factory.EditedByOwner` | programs/factory/src/instructions/init_asset_class_version.rs:10-36 | versions are opened, edited and finalized only by the owner on record, classes created only by the manager on record, never while paused |
| `Factory.Factory.InitAssetClassVersion` | programs/factory/src/instructions/init_asset_class_version.rs:10-46 | succeeds iff it is the owner's next version, and starts it empty |
| `Factory.Factory.EditVersion` | programs/factory/src/instructions/enable_asset_class_version_functionalities.rs:8-38 | enabling and disabling change a draft's set by exactly the positions, and nothing on any error |
| `Factory.Factory.FinalizeAssetClassVersion` | programs/factory/src/instructions/finalize_asset_class_version.rs:11-54 | succeeds iff the owner finalizes a draft; the defensive version check never fails |
| `Factory.Factory.PinMint` | programs/deploy/src/instructions/deploy_mint.rs:285-291 | pins a mint once, to an existing finalized version only |
| `Factory.Factory.QueryFunctionality` | programs/common/src/lib.rs:98-111 | the query on the byte mask is the query on the set, answered as `Factory.AnswersFromHistory` says |
| `Metadata.PutSize` | programs/metadata-update/src/instructions/update_metadata.rs:50-57 | replacing the first matching entry or appending one changes the packed size by exactly the predicted amount |
| `Metadata.PredictionExact` | programs/metadata-update/src/instructions/update_metadata.rs:32-59 | the predicted size is the packed size after the update, for every field and value |
| `Metadata.PackedSize` | programs/metadata-update/src/instructions/update_metadata.rs:32-42 | the computed size is the number of bytes of the packed form: two keys, length-prefixed strings, a counted list of pairs |
| `Metadata.PredictedBytes` | programs/metadata-update/src/instructions/update_metadata.rs:44-59 | the predicted size is the number of bytes of the packed form after the update |
| `Metadata.PutFinds` | programs/metadata-update/src/instructions/update_metadata.rs:50-57 | an update is found under its key and leaves every other key's value |

## Left out

- Cross-program call plumbing, signer seeds, address derivation and account lists: a derived address is a map key, so passing the wrong record for an account is not expressible.
- Closing a freeze record inside a batch leaves a zeroed account until the transaction ends; the model removes it at once. A later leg on the same account fails in both.
- Pause, unpause, control-list and mode instructions, token accounts and delegates: instructions of `Ledger` and of every run, without a method of their own in `TokenMint`.
- Role masks of access-control: a set of (key, role) pairs that any step may replace; granting and revoking would only repeat `Bitmask`.
- TokenMint.TokenMint.Transfer: which error a failing instruction returns is stated only for the hold program's instructions and for the functions of `Checks`; elsewhere the contract says when it fails and that nothing changes.
- Treasury.Treasury.PayCoupon: the payment token's own transfer and the role, pause, activity and functionality gates are two boolean inputs.
- CouponPayments.PaymentsAddUp: terms are fixed by hypothesis at each payment of the coupon, because rates, bond terms and the payment mint can legally change between payments.
- Keccak itself, rent and lamports, events, error texts, deployment of mint extensions, documents, nominal values, bond-term validation, and the manager and owner handovers (any owner or manager change is allowed between steps).
- The mapping from metadata keys to fields and the removal of a field.
