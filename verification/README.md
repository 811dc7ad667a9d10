# Token protocols and graph searches of rustle, verified

This project models three parts of the repository and proves what they keep over every run.

* **Fungible token** (NEP-141 with NEP-145 storage). `ft_transfer_call` moves tokens first and settles
  later, in a callback. Calls are steps of a state machine in which any other call may run between the
  transfer and its callback. `FungibleToken.dfy` says what each call does; `FungibleTokenTheorems.dfy`
  proves what one call keeps, `FungibleTokenCalls.dfy` what each call promises its caller, and
  `FungibleTokenRuns.dfy` what every run keeps.
  `FungibleTokenContract.dfy` follows the Rust code check by check, with fields updated in place and
  128-bit checked arithmetic, and proves that each entry point does exactly the step.
* **Non-fungible token** (NEP-171, NEP-178, NEP-181), in the same arrangement: `NonFungibleToken.dfy` for
  the steps, `NonFungibleTokenIndex.dfy` for the index by owner, `NonFungibleTokenApprovals.dfy` for
  approval ids, `NonFungibleTokenEscrow.dfy` for approval deposits, `NonFungibleTokenViews.dfy` for the
  read-only methods, `NonFungibleTokenCalls.dfy` for what each call promises its caller,
  `NonFungibleTokenRuns.dfy` for whole runs and `NonFungibleTokenContract.dfy` for the code. Each extension may be switched off.
* **Graph searches of the analyzer**: `UserWalk.dfy` (`simpleFindUsers`), `CallGraph.dfy`
  (`findFunctionCallerRec`) and `PrivilegeCheck.dfy` (`isFuncPrivileged`).

`Prelude.dfy` holds account names, `Option`, `Result` and sums over maps.

The host environment is input: caller, attached deposit, prepaid gas, the result of the receiver's call,
and the bytes a mint takes. A panic is a value; the host (`Execute`) restores the state of before the call.
The callbacks still to run are part of the state, so the private resolve methods run for those only.

What the proofs turned up, where the code and its documentation disagree (the model follows the code):

* `nft_resolve_transfer` refunds the receiver's approvals on a revert but leaves them in place when the
  token was sent without approvals. Rollback and the cover of approval deposits are therefore proved with
  the exact condition, and `RevertCanLeaveApprovals` gives a run after which the deposits fall short.
* `emit_transfer` keeps the sender as authorizer only if it is the owner, while its callers pass a sender
  only if it is not; no transfer event ever names an authorizer.
* An account registered by `internal_register_account` has no deposit set aside, yet closing it pays one
  out. The ledger is proved with that term, and closings are covered under an exact condition on it.
* `approval_id + 1` is unchecked and taken to wrap; ids are proved fresh for exactly the first 2^64 approvals of a token.

## Model

| member | source | states |
|---|---|---|
| FungibleTokenRuns.LogReplay | examples/nep-interface/src/fungible_token/core_impl.rs:96-117 | over every run, replaying the recorded events (with registrations, deposits, withdrawals and closings) gives exactly every balance and the supply; the supply is what was deposited less withdrawals and the amounts handed to the two hooks |
| FungibleTokenRuns.SupplyIsSumOfBalances | examples/nep-interface/src/fungible_token/core_impl.rs:27-37 | in every reachable state, with callbacks pending or not, the balances add up to the total supply, which fits 128 bits |
| FungibleTokenRuns.NoOverflow | examples/nep-interface/src/fungible_token/core_impl.rs:70-94 | why no overflow check of a transfer, refund, burn or closing can fire: two balances together stay within the supply |
| FungibleTokenRuns.RunKeepsInv | examples/nep-interface/src/fungible_token/core_impl.rs:126-163 | every invariant of the token survives every sequence of calls, in any interleaving with pending callbacks |
| FungibleTokenTheorems.StepConserves | examples/nep-interface/src/fungible_token/core_impl.rs:178-245 | each single call keeps the sum of balances equal to the supply |
| FungibleTokenTheorems.StepReplays | examples/nep-interface/src/fungible_token/core_impl.rs:216-240 | each single call tells the host exactly the change it made to balances and supply |
| FungibleTokenTheorems.StepBalancesLedger | examples/nep-interface/src/fungible_token/storage_impl.rs:48-73 | each single call keeps or returns NEAR so that the ledger equation stays true |
| FungibleTokenTheorems.StepResolvesOnce | examples/nep-interface/src/fungible_token/core_impl.rs:154-162 | a call that schedules a callback adds one; resolving takes exactly that one away |
| FungibleTokenRuns.ResolveAfterAnything | examples/nep-interface/src/fungible_token/core_impl.rs:187-244 | whatever runs between ft_transfer_call and its callback: an answer is the amount not used, and the refund is the least of it, the amount sent and the receiver's balance then; without an answer (failed or not a number) it is the least of the amount sent and that balance; an answer of 0 moves nothing; a registered sender gains the refund, otherwise it is burned; nobody else's balance and no registration changes |
| FungibleTokenRuns.PendingIsStable | examples/nep-interface/src/fungible_token/macros.rs:42-56 | no call changes the sender, receiver or amount of a pending callback |
| FungibleTokenRuns.RefusedTransferIsUndone | examples/nep-interface/src/fungible_token/core.rs:20-31 | a transfer call refused in full (failed, not answered with a number, or at least the amount not used) before anything else runs leaves balances, supply and callbacks as they were |
| FungibleTokenRuns.CallbacksResolveOnce | examples/nep-interface/src/fungible_token/core_impl.rs:148-162 | every scheduled callback is resolved at most once, and exactly the unresolved ones are pending |
| FungibleTokenRuns.IdleAccountKeepsItsBalance | examples/nep-interface/src/fungible_token/core_impl.rs:127-163 | over any run in which an account makes no call, it stays registered and its balance, less what unsettled transfer calls sent to it may take back, never falls |
| FungibleTokenRuns.LedgerIsExact | examples/nep-interface/src/fungible_token/storage_impl.rs:48-73 | NEAR kept over any run is the minimum balance times the number of registered accounts less all registrations the contract ever made itself, plus one yocto for each one-yocto call that did not close an account |
| FungibleTokenRuns.LedgerCoversAllExactly | examples/nep-interface/src/fungible_token/storage_impl.rs:102-109 | every registered account has its minimum balance set aside just when the contract registered none itself (or the minimum is zero) |
| FungibleTokenRuns.StorageDepositsAreKept | examples/nep-interface/src/fungible_token/storage_impl.rs:48-73 | without registrations by the contract itself, NEAR kept covers the minimum balance of every registered account |
| FungibleTokenRuns.ClosingAllIsCovered | examples/nep-interface/src/fungible_token/storage_impl.rs:16-21 | the NEAR kept covers closing every registered account just when the kept yoctos make up for the registrations the contract ever made itself |
| FungibleTokenRuns.ClosingIsCovered | examples/nep-interface/src/fungible_token/storage_impl.rs:16-21 | closing an account takes the minimum balance out of the NEAR kept; over every run it is there just when the other accounts and the kept yoctos make up for the registrations the contract ever made itself, so always if it made none |
| FungibleTokenRuns.RegistrationIsRefunded | examples/nep-interface/src/fungible_token/storage_impl.rs:9-31 | registering with a deposit and closing again restores accounts and supply and leaves the NEAR kept as it was |
| FungibleTokenRuns.FreeAccountIsNotCovered | examples/nep-interface/src/fungible_token/core_impl.rs:119-123 | counterexample otherwise: registering an account directly and closing it costs the contract the minimum balance |
| FungibleTokenCalls.TransferMovesAmount | examples/nep-interface/src/fungible_token/core_impl.rs:127-132 | ft_transfer goes through just when its caller can pay, with one yocto, another registered account; it moves exactly the amount asked for and changes nothing else |
| FungibleTokenCalls.TransferCallMovesAmount | examples/nep-interface/src/fungible_token/core_impl.rs:134-163 | ft_transfer_call moves exactly the same, given more than 30 Tgas, and schedules the callback for the amount the receiver got |
| FungibleTokenCalls.AnswerDecidesRefund | examples/nep-interface/src/fungible_token/core_impl.rs:187-244 | what each answer of ft_on_transfer refunds, burns and returns, for any pending callback |
| FungibleTokenCalls.DepositRegisters | examples/nep-interface/src/fungible_token/storage_impl.rs:48-73 | storage_deposit registers the account named, or its caller, with balance zero and sends the caller back all but the minimum; an account registered before costs nothing |
| FungibleTokenCalls.WithdrawGivesNothing | examples/nep-interface/src/fungible_token/storage_impl.rs:81-96 | storage_withdraw goes through just for a registered account that asks for nothing, and changes nothing |
| FungibleTokenCalls.UnregisterCloses | examples/nep-interface/src/fungible_token/storage_impl.rs:9-31 | storage_unregister goes through just for an empty or unknown account or by force; it removes only the caller's account and pays only the caller |
| FungibleTokenCalls.DepositAndWithdrawMint | examples/nep-interface/src/fungible_token/core_impl.rs:70-94 | the contract's own deposits and withdrawals change one balance and the supply by the amount, just when the supply stays within 128 bits or the balance suffices |
| FungibleTokenContract.FungibleToken.constructor | examples/nep-interface/src/fungible_token/core_impl.rs:40-51 | a new token has no accounts and no supply; the dummy entry is gone |
| FungibleTokenContract.FungibleToken.MeasureAccountStorageUsage | examples/nep-interface/src/fungible_token/core_impl.rs:53-59 | measuring leaves the accounts as they were but for the dummy name |
| FungibleTokenContract.FungibleToken.InternalDeposit | examples/nep-interface/src/fungible_token/core_impl.rs:70-81 | adds to balance and supply; panics on an unregistered account, a balance overflow or a supply overflow, in that order |
| FungibleTokenContract.FungibleToken.InternalWithdraw | examples/nep-interface/src/fungible_token/core_impl.rs:83-94 | takes from balance and supply; the supply check never fires |
| FungibleTokenContract.FungibleToken.InternalTransfer | examples/nep-interface/src/fungible_token/core_impl.rs:96-117 | moves the amount and leaves the supply alone, although the code takes it out and puts it back; none of the four overflow panics is reachable |
| FungibleTokenContract.FungibleToken.InternalRegisterAccount | examples/nep-interface/src/fungible_token/core_impl.rs:119-123 | registers with balance zero; panics if registered |
| FungibleTokenContract.FungibleToken.FtTransfer | examples/nep-interface/src/fungible_token/core_impl.rs:127-132 | one yocto, then a transfer from the caller |
| FungibleTokenContract.FungibleToken.FtTransferCall | examples/nep-interface/src/fungible_token/core_impl.rs:134-163 | transfers and schedules the callback with sender, receiver and amount; the gas subtraction never fails |
| FungibleTokenContract.FungibleToken.InternalFtResolveTransfer | examples/nep-interface/src/fungible_token/core_impl.rs:178-245 | refund or burn computed check by check equals the closed form; only a result that is not ready panics |
| FungibleTokenContract.FungibleToken.FtResolveTransfer | examples/nep-interface/src/fungible_token/macros.rs:43-56 | runs for a pending callback only, and calls the burn hook just when something was burned |
| FungibleTokenContract.FungibleToken.StorageDeposit | examples/nep-interface/src/fungible_token/storage_impl.rs:48-73 | registers and refunds the excess, or refunds everything if registered; panics below the minimum |
| FungibleTokenContract.FungibleToken.StorageWithdraw | examples/nep-interface/src/fungible_token/storage_impl.rs:81-96 | never changes anything; panics when unregistered or asked for a positive amount |
| FungibleTokenContract.FungibleToken.StorageUnregister | examples/nep-interface/src/fungible_token/storage_impl.rs:9-31 | removes the account and its balance from the supply without wrapping around, pays min + 1 and calls the close hook; panics on a positive balance without force |
| FungibleTokenContract.FungibleToken.Execute | examples/nep-interface/src/fungible_token/macros.rs:9-57 | one transaction: the state becomes exactly that of the step, and a panicking call leaves it unchanged |
| NonFungibleTokenRuns.IndexAgrees | examples/nep-interface/src/non_fungible_token/core/core_impl.rs:161-191 | in every reachable state the index lists each token once, under its owner only, and no owner without tokens |
| NonFungibleTokenIndex.MoveTokenIndexes | examples/nep-interface/src/non_fungible_token/core/core_impl.rs:170-190 | handing a token over keeps the index exact, and the previous owner's list exists |
| NonFungibleTokenIndex.StepIndexes | examples/nep-interface/src/non_fungible_token/core/core_impl.rs:362-371 | every call keeps the index exact |
| NonFungibleTokenIndex.SetRemoveIsRemoval | examples/nep-interface/src/non_fungible_token/core/core_impl.rs:176-181 | removing from a list with gap filling removes that token only and leaves no duplicates |
| NonFungibleTokenRuns.PendingTokensExist | examples/nep-interface/src/non_fungible_token/core/core_impl.rs:485-497 | every pending callback is about an existing token, sent to somebody else: the branch for a vanished token is dead |
| NonFungibleTokenRuns.EventReplay | examples/nep-interface/src/non_fungible_token/core/core_impl.rs:257-272 | the mint and transfer events of any run give the owner of every token minted with an event, and each transfer event names the true previous owner |
| NonFungibleTokenRuns.IssuedIdsAreFresh | examples/nep-interface/src/non_fungible_token/approval/approval_impl.rs:43-53 | the ids issued for a token in a run are pairwise different just for up to 2^64 approvals, and strictly increasing just below that |
| NonFungibleTokenRuns.ApprovalIdsAreLinear | examples/nep-interface/src/non_fungible_token/core/core_impl.rs:209-214 | no approval id of a token is held in two places, stored or captured by a pending callback, and every held id was issued, on every run of up to 2^64 approvals of the token |
| NonFungibleTokenApprovals.StepIsLinear | examples/nep-interface/src/non_fungible_token/core/core_impl.rs:501-511 | a call moves approval ids between storage and callbacks but never copies one |
| NonFungibleTokenApprovals.HeldBefore | examples/nep-interface/src/non_fungible_token/core/core_impl.rs:423-431 | every id held after a call was held before it, at the place it moved from, or was issued by it |
| NonFungibleTokenApprovals.StepCounts | examples/nep-interface/src/non_fungible_token/approval/approval_impl.rs:45-53 | the next id is one more than the number issued, in 64 bits |
| NonFungibleTokenRuns.EscrowCoversApprovals | examples/nep-interface/src/non_fungible_token/approval/approval_impl.rs:55-63 | over every run, approval deposits kept plus what reverts refunded and left in place cover the cost of all approvals, stored and captured |
| NonFungibleTokenRuns.RevokeAllIsCovered | examples/nep-interface/src/non_fungible_token/approval/approval_impl.rs:120-126 | if no revert left refunded approvals in place, the refund of all approvals of any token is covered |
| NonFungibleTokenEscrow.RevokeUndoesApprove | examples/nep-interface/src/non_fungible_token/approval/approval_impl.rs:88-103 | revoking a fresh approval restores the stored approvals and refunds what approving kept, but for at most one yocto |
| NonFungibleTokenEscrow.SurplusFallsExactly | examples/nep-interface/src/non_fungible_token/core/core_impl.rs:504-511 | deposits fall behind just in a revert that captured no approvals and finds some stored |
| NonFungibleTokenEscrow.LeavingBehindCosts | examples/nep-interface/src/non_fungible_token/core/core_impl.rs:505-510 | and then by exactly the refund paid |
| NonFungibleTokenEscrow.StepKeepsSurplus | examples/nep-interface/src/non_fungible_token/utils.rs:31-45 | no other call lets the deposits fall behind the approvals |
| NonFungibleTokenRuns.RevertCanLeaveApprovals | examples/nep-interface/src/non_fungible_token/core/core_impl.rs:501-511 | counterexample run, from a new contract: after such a revert an account approved by the receiver is still approved for the returned token; one yocto of the approval deposits is left, the surplus is one less the cost of that approval, and nft_revoke_all still pays that cost |
| NonFungibleTokenRuns.KeptChangesNothing | examples/nep-interface/src/non_fungible_token/core/core_impl.rs:477-497 | a callback that reports the token kept changes no collection |
| NonFungibleTokenRuns.RevertRestores | examples/nep-interface/src/non_fungible_token/core/core_impl.rs:499-513 | unless the receiver answers false or no longer has the token, the callback makes the previous owner the owner, keeps the index exact and other tokens untouched; the token gets exactly the captured approvals just when there were some or none are stored |
| NonFungibleTokenRuns.RollbackAfterAnything | examples/nep-interface/src/non_fungible_token/core/resolver.rs:19-33 | whatever runs in between: unless the receiver answers false or has passed the token on, it goes back to its owner of before, with the approvals of before just when there were some or the receiver left none; otherwise owners, index and approvals stay |
| NonFungibleTokenRuns.OwnerChangesByAuthority | examples/nep-interface/src/non_fungible_token/core/mod.rs:28-33 | a token changes hands only by its owner, an approved account, or back by a revert |
| NonFungibleTokenRuns.IdleOwnerKeepsToken | examples/nep-interface/src/non_fungible_token/core/mod.rs:26-33 | over any run in which its owner makes no call, a token without approvals and not held by a transfer call still to be settled stays with its owner |
| NonFungibleTokenViews.ApprovalIsAuthorization | examples/nep-interface/src/non_fungible_token/approval/approval_impl.rs:129-164 | nft_is_approved answers true just when a transfer by that account with that approval id is authorized |
| NonFungibleTokenViews.TransferEndsApprovals | examples/nep-interface/src/non_fungible_token/core/core_impl.rs:209-214 | after a transfer nobody is approved |
| NonFungibleTokenRuns.MintShowsToken | examples/nep-interface/src/non_fungible_token/core/core_impl.rs:373-391 | a mint returns what nft_token then shows, just when metadata is given iff the contract keeps it |
| NonFungibleTokenCalls.TransferGivesToken | examples/nep-interface/src/non_fungible_token/core/core_impl.rs:396-406 | nft_transfer goes through just when its caller, with one yocto, owns the token or is approved and the receiver is not the owner; the receiver then has the token, nobody is approved for it, and no other token changes |
| NonFungibleTokenCalls.TransferCallGivesToken | examples/nep-interface/src/non_fungible_token/core/core_impl.rs:408-434 | nft_transfer_call does the same, given more than 30 Tgas, and schedules both calls with the owner and the approvals of before |
| NonFungibleTokenCalls.AnswerDecidesOwner | examples/nep-interface/src/non_fungible_token/core/core_impl.rs:463-514 | false, or a receiver that no longer has the token, leaves everything; any other answer or failure takes the token back, restores captured approvals and pays the receiver for its own |
| NonFungibleTokenCalls.ApproveAdds | examples/nep-interface/src/non_fungible_token/approval/approval_impl.rs:24-71 | nft_approve goes through just for the owner with the deposit its cost asks for; nft_token then shows the account with the next id and nothing else changed |
| NonFungibleTokenCalls.ApprovedMayMove | examples/nep-interface/src/non_fungible_token/approval/approval_impl.rs:129-164 | an account just approved may move the token, with its id or without one, and nobody else may who could not before |
| NonFungibleTokenCalls.RevokeRemoves | examples/nep-interface/src/non_fungible_token/approval/approval_impl.rs:73-104 | nft_revoke goes through just for the owner; the account is no longer shown, nothing else changed, and the owner is paid its cost if it was |
| NonFungibleTokenCalls.RevokeAllRemoves | examples/nep-interface/src/non_fungible_token/approval/approval_impl.rs:106-127 | the same for all approvals of the token |
| NonFungibleTokenCalls.MintGivesToken | examples/nep-interface/src/non_fungible_token/core/core_impl.rs:289-324 | a mint goes through just for an unused id, with metadata if the contract keeps it, a sufficient deposit and, for mint, the contract owner as caller; the named owner then has the token, no other token changes, and the caller gets the change |
| NonFungibleTokenCalls.MintWithRefundGivesToken | examples/nep-interface/src/non_fungible_token/core/core_impl.rs:333-392 | the same with the change to the account named, or no charge at all |
| NonFungibleTokenCalls.ContractStays | examples/nep-interface/src/non_fungible_token/core/core_impl.rs:28-54 | no call changes the contract owner or which extensions are on |
| NonFungibleTokenViews.ListingAgrees | examples/nep-interface/src/non_fungible_token/enumeration/enumeration_impl.rs:38-55 | every token on every page of nft_tokens equals nft_token of its id |
| NonFungibleTokenViews.OwnerListingAgrees | examples/nep-interface/src/non_fungible_token/enumeration/enumeration_impl.rs:70-105 | the same for nft_tokens_for_owner, and the owner is the one asked for |
| NonFungibleTokenViews.Listing | examples/nep-interface/src/non_fungible_token/enumeration/enumeration_impl.rs:49-51 | the global listing holds every token id once |
| NonFungibleTokenViews.ListingIsAscending | examples/nep-interface/src/non_fungible_token/enumeration/enumeration_impl.rs:49-51 | in ascending order of ids |
| NonFungibleTokenViews.PagesAreTheListing | examples/nep-interface/src/non_fungible_token/enumeration/enumeration_impl.rs:38-55 | for every page size the pages of nft_tokens together are the whole listing, without gap or repeat |
| NonFungibleTokenViews.OwnedPagesAreTheListing | examples/nep-interface/src/non_fungible_token/enumeration/enumeration_impl.rs:88-104 | the same for nft_tokens_for_owner under its stricter start bound |
| NonFungibleTokenViews.PageIsSlice | examples/nep-interface/src/non_fungible_token/enumeration/enumeration_impl.rs:38-55 | every page of nft_tokens is that slice of the whole listing, and is refused just for a start beyond the end or a limit of 0 |
| NonFungibleTokenViews.OwnedPageIsSlice | examples/nep-interface/src/non_fungible_token/enumeration/enumeration_impl.rs:70-105 | the same for nft_tokens_for_owner, whose start must lie inside a listing that is not empty |
| NonFungibleTokenViews.SuppliesPartitionTokens | examples/nep-interface/src/non_fungible_token/enumeration/enumeration_impl.rs:57-68 | nft_supply_for_owner counts the tokens an account owns; over all owners in the index the supplies add up to the total supply, and nobody else has any; each token is listed once, by its owner only |
| NonFungibleTokenViews.ListingsPartitionTokens | examples/nep-interface/src/non_fungible_token/enumeration/enumeration_impl.rs:70-105 | the whole listings of nft_tokens_for_owner are a partition of the whole listing of nft_tokens: a token is in its owner's listing, in no other, and in each at most once |
| NonFungibleTokenRuns.OwnersPartitionTokens | examples/nep-interface/src/non_fungible_token/enumeration/enumeration_impl.rs:33-36 | in every reachable state the supplies shown add up and the owners' listings are that partition |
| NonFungibleTokenContract.NonFungibleToken.constructor | examples/nep-interface/src/non_fungible_token/core/core_impl.rs:58-92 | a new contract has empty collections for the chosen extensions |
| NonFungibleTokenContract.NonFungibleToken.MeasureMinTokenStorageCost | examples/nep-interface/src/non_fungible_token/core/core_impl.rs:95-156 | every collection is as before but for the dummy entries, which are gone |
| NonFungibleTokenContract.NonFungibleToken.InternalTransferUnguarded | examples/nep-interface/src/non_fungible_token/core/core_impl.rs:161-191 | hands the token over in owners and index, never panics, and keeps the index exact |
| NonFungibleTokenContract.NonFungibleToken.InternalTransfer | examples/nep-interface/src/non_fungible_token/core/core_impl.rs:196-255 | moves an authorized token and ends its approvals, returning previous owner and approvals; panics in the order of the checks |
| NonFungibleTokenContract.NonFungibleToken.InternalMintWithRefund | examples/nep-interface/src/non_fungible_token/core/core_impl.rs:333-392 | stores the new token in owners, metadata and index, keeps the storage cost and returns the token; panics on missing metadata, a used id or too small a deposit |
| NonFungibleTokenContract.NonFungibleToken.InternalMint | examples/nep-interface/src/non_fungible_token/core/core_impl.rs:305-324 | mints with a refund to the caller and notes the mint |
| NonFungibleTokenContract.NonFungibleToken.Mint | examples/nep-interface/src/non_fungible_token/core/core_impl.rs:289-298 | the same for the contract owner only |
| NonFungibleTokenContract.NonFungibleToken.NftTransfer | examples/nep-interface/src/non_fungible_token/core/core_impl.rs:396-406 | one yocto, then a transfer by the caller |
| NonFungibleTokenContract.NonFungibleToken.NftTransferCall | examples/nep-interface/src/non_fungible_token/core/core_impl.rs:408-434 | transfers, schedules the receiver's call with the sender, previous owner, token and message, and the callback with the previous owner and the captured approvals |
| NonFungibleTokenContract.NonFungibleToken.NftResolveTransfer | examples/nep-interface/src/non_fungible_token/core/core_impl.rs:457-514 | keeps or takes back the token with refunds and approvals, for any pending callback and an exact index |
| NonFungibleTokenContract.NonFungibleToken.NftApprove | examples/nep-interface/src/non_fungible_token/approval/approval_impl.rs:24-71 | enters the account under the next id, keeps the cost of a new entry, returns the change and, given a message, schedules nft_on_approve with token, owner, approval id and the gas left, whose subtraction may wrap; panics in the order of the checks |
| NonFungibleTokenContract.NonFungibleToken.NftRevoke | examples/nep-interface/src/non_fungible_token/approval/approval_impl.rs:73-104 | removes one approval with its refund, and the whole entry with the last |
| NonFungibleTokenContract.NonFungibleToken.NftRevokeAll | examples/nep-interface/src/non_fungible_token/approval/approval_impl.rs:106-127 | removes all approvals with their refund |
| NonFungibleTokenContract.StorageReleased | examples/nep-interface/src/non_fungible_token/utils.rs:11-22 | the loop over the accounts adds up their bytes, in any order |
| NonFungibleTokenContract.NonFungibleToken.RefundDepositToAccount | examples/nep-interface/src/non_fungible_token/utils.rs:31-45 | keeps the cost and sends back more than one yocto of change, or panics |
| NonFungibleTokenContract.NonFungibleToken.Execute | examples/nep-interface/src/non_fungible_token/macros.rs:6-59 | one transaction: the state becomes exactly that of the step, and a panicking call leaves it unchanged |
| UserWalk.SimpleFindUsers | detectors/near_core.cpp:8-35 | terminates on every graph; whatever is visited after the start is reached by an edge that is there at that moment, from the start or a value visited since; wherever an edge leads that is there when its value is visited, is visited |
| UserWalk.FollowCall | detectors/near_core.cpp:20-27 | argument by argument: each parameter whose argument was visited beforehand, each parameter at all in unrestricted mode, and the result slot of an into() whose source was visited, ends up visited, and what is visited goes on in the order of the search |
| UserWalk.CompleteMeansFired | detectors/near_core.cpp:20-34 | so what is visited anew is closed under the unconditional edges, and under the conditional ones that the values visited before, or the start, make fire |
| UserWalk.ReachedMeansWithin | detectors/near_core.cpp:20-34 | and lies in every set that holds those and is closed under all edges |
| UserWalk.FindUsers | detectors/near_core.cpp:8-35 | from an empty set the values are visited in such an order, each once; the result lies between the values reachable by unconditional edges and every closed set, and is exactly the reachable values when no edge is conditional; in every mode that follows calls, a visited call that takes the start as an argument leads to that parameter; nothing for a label |
| UserWalk.ReachableIsLeastClosed | detectors/near_core.cpp:20-34 | the values reachable along paths are the least set closed under user, store and parameter edges |
| CallGraph.FindFunctionCallerRec | detectors/near_core.cpp:232-248 | at every depth, whatever is added has a chain of at most that many calls, and has all its callers found unless it heads a chain of exactly that many; with depth at least the number of functions not yet found, no caller of anything found is missing; depth 1 adds exactly the direct callers |
| CallGraph.FindFunctionCallers | detectors/near_core.cpp:232-248 | from an empty set: at every positive depth all direct callers, and all callers of whatever is found unless it heads a chain of exactly that many calls; with depth at least the number of functions, exactly the functions that call into the given one; a use of a function by a call instruction, also as an argument, is a call here as in the code |
| PrivilegeCheck.IsFuncPrivileged | detectors/near_core.cpp:124-160 | true just when a chain of at most depth followed calls leads to a function that asks for the predecessor in user code and compares accounts; terminates on recursive programs |
| PrivilegeCheck.FindsEquality | detectors/near_core.cpp:143-148 | the inner search finds a comparison of accounts anywhere in the function |
| PrivilegeCheck.DeeperFindsMore | detectors/near_core.h:161-169 | a deeper check finds whatever a shallower one does |
| PrivilegeCheck.DepthSaturates | detectors/near_core.h:161-169 | one less than the number of functions is depth enough, however recursive the program |

## Left out

- SimpleFindUsers: a conditional edge that comes to be only after its value was visited may or may not be followed, because the code looks once per argument; the order of visiting bounds it from above.
- FindFunctionCallerRec: for depths above 1 and below the number of functions no exact set is stated, because a function first reached near the bound is not expanded again.
- The width of NEAR amounts, gas and byte counts: these are unbounded numbers here, but for the 64-bit gas subtraction of `nft_approve`. Token balances, the token supply and approval ids have their 128 and 64 bits.
- Overflow checks: the crate sets no release profile, and the model takes unchecked arithmetic to wrap, as a Rust release build does by default; the gas subtraction is near_sdk's, taken as one of 64 bits. Built with `overflow-checks = true`, as sibling examples are, the last of 2^64 approvals of a token and a notice sent with less than `GAS_FOR_NFT_APPROVE` would panic instead; the supply subtraction is proved never to underflow either way.
- The casts of page bounds to `usize` are taken as lossless.
- Two facts about near_sdk, which is not part of this model: its tree map lists keys in ascending order, and its unordered set appends and fills a gap with its last element. The proofs about contents do not depend on the order.
- Account and token names are strings of characters; the bytes charged for a name are its length, as for the ASCII names of NEAR.
- The result of `env::storage_usage` is an input of the mint and of the two measuring methods; its relation to what is stored is not modelled.
- Burning non-fungible tokens: the code has no burn function, so the callback's branch for a vanished token is modelled and proved dead.
- Event encoding, metadata validation, the `upgrade` module and the plain balance getters would add only easy members.
- Debug locations, name matching and the LLVM data structures: in the graph models they are attributes of nodes, instructions and uses. A callee is required to have a parameter for each argument, which `getArg` demands.
- `findUsers`, `isFuncCallFuncRec`, `getMode` and the recursive checks inside single detectors: bounded or unbounded searches whose result depends on the visiting order, or that do not descend.
- The report tooling in Python and JavaScript and the other example contracts.
