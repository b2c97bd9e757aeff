# Payment lifecycles, spending contracts and exact money: a verified model

This project models the parts of the payment agent whose correctness is hardest to see by reading, and proves what
they keep. `dafny verify dfyconfig.toml` checks all of it.

**Concurrent lifecycles.** `Optimistic` is the protocol of the versioned stores: any number of calls, each split at its
awaits into read, decide, compute and compare-and-swap, interleaved in any order with a clock that only moves forward.
`Pilot` (draft, prepare, approve, claim, complete) and `Bridge` (prepare, record burn, poll Circle) are instances of it;
`Stores` holds the retry loops themselves as methods. `OneShot` is the other concurrent shape: mark a record in one
atomic step, perform an effect, write the outcome later (relayer, passkey ceremony, administrator's transfer).

**Spending contracts.** `SpendAccount`, `Escrow` and `Wallet` are the three Soroban contracts as classes over a state
machine; an error or a panic leaves the state as it was. `Refinement` relates the escrow to the wallet; `Relayer` relates
the relayer's canonical requests to the account. `Token` is the token contract as a map of balances.

**Exact data.** `Money` and `Digits` (four decimal conversions), `Base64Url` (the in-place encoder against section 5 of
RFC 4648), `RateLimit` (fixed windows), `Receipts` (the bounded list), `Rails` (ranking), `SpendHub` (budgets).

Each operation of the source is a function of the state (or a method proved equal to one), and the results are lemmas
about every input or every run of those functions.

## What the proofs show about the code

- A settled pilot request can be overwritten by `expired`: the write at src/pilotService.mjs:126 does not look at the
  status again. This happens exactly while an approve call that began before settlement can still write it.
- `complete` checks the lease before it awaits the verifier and not after, so a completion may commit after its own
  lease ended; it still carries the latest committed claim. This happens exactly while a complete call that has passed
  its lease check holds the current claim and can still swap.
- A settled bridge can be moved by a slower status call with an older report (src/multichainService.mjs:124-128), exactly
  while such a call, having seen the bridge open, can still swap in a report that is not a verified completion.
- `formatTokenAmount` with 0 decimals answers "0" for every amount (src/multichainMoney.mjs:24), so the round trip holds
  exactly from one decimal up.
- The value-compare swap treats the stored text `__SPENDHUB_NULL__` as absence; JSON encoding never produces it.
- Escrow nonces restart at 1 on a re-grant, wallet nonces do not: the escrow refines the wallet exactly when no signer
  pays on both sides of a re-grant.
- The fixed windows admit at most 39 calls in any 60 seconds and 199 in any 24 hours, and 39 is reached: the call that
  opens the earlier window lies outside the interval.
- The administrator's transfer can be stored as failed although it happened: exactly when its output is blocked by the
  scan, its hash cannot be read, its report is blocked, the runner throws all the same, or saving the settled record
  fails, and the report of the failure is not itself blocked.
- The Link approval route has no check for an earlier receipt, so atomic calls give an intent a second one by that route
  only.
- Approvals that interleave can overspend: an append passes a limit exactly when others settled more since its check than
  the slack the check left.
- Two tenants can share a minute counter: exactly when one's name goes on with a colon and the start of the other's address.
- The Redis receipt list keeps repeated ids; it lists what the in-memory list does exactly when no id occurs twice among
  the last hundred saves.

## Model

| member | source | states |
|---|---|---|
| Optimistic.EveryRunIsSequential | src/pilotRepository.mjs:60-82 | Every interleaving of the versioned loops is a sequential history: each commit applies its mutator to the record its predecessor left, with the version one higher, justified by a snapshot of the same record, and the store holds the last entries |
| Optimistic.CommitAppliesToTheStoredRecord | src/pilotRepository.mjs:68-80 | At the moment a swap succeeds the record it was computed from is the one in the store |
| Optimistic.OnlyCommitsMoveRecords | src/pilotRepository.mjs:60-82 | A stored record changes in a step if and only if a call on it swaps successfully; records never disappear |
| Optimistic.CallsCommitWhatTheyReturn | src/pilotRepository.mjs:70-80 | A call that returns committed exactly the returned record, once; every other call committed nothing |
| Optimistic.ContentionMeansEightForeignCommits | src/multichainRepository.mjs:47-69 | A 409 for concurrent change means that since the loop's first read other calls committed each of the next eight versions of the record |
| Optimistic.VersionsIncrease | src/multichainRepository.mjs:47-69 | Along a history the versions of one record grow strictly, so a version names one commit |
| Optimistic.UndisturbedCallCommits | src/pilotRepository.mjs:60-82 | A call that decides to write and is left alone commits |
| Optimistic.EveryCallEnds | src/multichainRepository.mjs:47-69 | Whatever the others do, a call ends within 26 of its own steps: two to look and decide, three for each of eight attempts |
| Optimistic.AbsentRecordsAreRefused | src/multichainRepository.mjs:47-69 | A call on a record that is not there is refused with 404, wherever it looks |
| Pilot.EveryInterleavingIsSafe | src/pilotService.mjs:90-184 | In every interleaving of prepare, approve, claim and complete calls: rank, terms, receipt and transaction hash are never undone, at most one completion commits, and no instant has two lease holders |
| Pilot.HistoryAdvances | src/pilotService.mjs:90-184 | Along a request the status rank never drops (with `expired` on top), the drafted terms never change, and receipt, transaction hash and settlement time are written once |
| Pilot.RecordsAreSane | src/pilotService.mjs:90-184 | No receipt, hash or settlement time before settlement, and a settled request shows its whole receipt; a prepared request awaits the token of its own id and expiry, which is gone once approved; the claim is gone once settled |
| Pilot.AtMostOneCompletion | src/pilotService.mjs:163-184 | Two committed completions of one request are the same commit |
| Pilot.CompletionIsFinal | src/pilotService.mjs:122-128 | After a completion the only commit that can follow is the expiry write |
| Pilot.LeasesAreDisjoint | src/pilotService.mjs:142-161 | A later claim commits no earlier than every earlier lease ends |
| Pilot.FindApproval | src/pilotService.mjs:122-161 | Every approved or settling record was preceded by a committed approve of the same request |
| Pilot.ApprovalWasIssued | src/pilotService.mjs:98-140 | The token of a committed approve was issued by an earlier committed prepare of that request |
| Pilot.ExpiryStemsFromPrepare | src/pilotService.mjs:90-105 | The expiry a record carries was set ten minutes ahead by the decision of a committed prepare that had the secret |
| Pilot.ApprovalWasInTime | src/pilotService.mjs:122-140 | A committed approve was decided before the expiry of the prepare whose token it presents, and that expiry lies ten minutes after the decision of a prepare |
| Pilot.ExpiryWasDue | src/pilotService.mjs:125-128 | A request expires only by an approve that saw it prepared and past its expiry |
| Pilot.LeasesLastTwoMinutes | src/pilotService.mjs:142-156 | A lease ends two minutes after its claim began, no later than its commit, and the record keeps that end |
| Pilot.PrepareDecidesExactly | src/pilotService.mjs:90-98 | A prepare goes on exactly for a drafted or prepared request with the secret there; it keeps an expiry still ahead and sets one ten minutes ahead otherwise |
| Pilot.ApproveDecidesExactly | src/pilotService.mjs:122-131 | Which of approval, expiry and refusal an approve comes to, from status, expiry and token |
| Pilot.ClaimIsTakenExactly | src/pilotService.mjs:142-156 | A claim takes exactly an approved request or one whose lease is over |
| Pilot.CompleteDecidesExactly | src/pilotService.mjs:163-169 | A complete goes on exactly in settlement, before the lease ends, with the claim held and the settlement verified, and which status it stops with otherwise |
| Pilot.StaleJobsAreRefused | src/pilotService.mjs:99-181 | A job whose request has moved on is refused when applied: 409 for another status, 403 for another claim |
| Pilot.SettlementCheckIsExact | src/pilotService.mjs:227-294 | The settlement check accepts if and only if the completion reports success on the drafted terms under a well-formed, successful transaction one of whose operations transfers the drafted amount of USDC through the drafted contract to the drafted recipient, and the scan passes |
| Pilot.CompletionWasPaidAsDrafted | src/pilotService.mjs:227-294 | Behind every committed completion the chain holds that transfer, in the receipt's transaction, for the terms of the draft |
| Pilot.SettlementProvenance | src/pilotService.mjs:227-294 | Behind every settlement stand a draft, a prepare, an approve with that prepare's token and the latest claim, in order; the receipt repeats the drafted network, asset, contract, amount and recipient, and the chain holds a successful operation of that transaction and contract that transfers the drafted amount of USDC to the drafted recipient |
| Pilot.OnlyExpiryMovesASettledRequest | src/pilotService.mjs:125-128 | A step moves a settled request if and only if it is the swap of an expiry write that read the current version |
| Pilot.SettledIsFinalExactlyWithoutPendingExpiry | src/pilotService.mjs:122-128 | Settled is terminal if and only if no approve that began before settlement can still write its expiry |
| Pilot.SettledRequestCanExpire | src/pilotService.mjs:122-128 | A concrete run in which a settled request expires |
| Pilot.CompletionWasDecidedWithinItsLease | src/pilotService.mjs:163-169 | Every committed completion was decided before the end of the lease its call saw, on that lease's claim |
| Pilot.EarlierLeasesAreOver | src/pilotService.mjs:142-161 | While a request stays in settlement each lease before the current one is over |
| Pilot.LateCompletionExactlyWhenPending | src/pilotService.mjs:163-184 | A request whose lease is over can still be settled under its current claim if and only if some complete call past its lease check holds that claim and can still swap |
| Pilot.CompletionCanOutliveItsLease | src/pilotService.mjs:163-184 | A concrete run in which a completion commits after its lease is over |
| Stores.PilotRepository.Create | src/pilotRepository.mjs:33-50 | A second create under the same idempotency digest returns the first record and stores nothing; the index stays injective and the order lists each record once |
| Stores.PilotRepository.Attempt | src/pilotRepository.mjs:60-82 | One pass of the loop commits exactly when nobody committed between its read and its swap |
| Stores.PilotRepository.Update | src/pilotRepository.mjs:60-82 | The loop against any schedule of foreign commits: how it may end and what the store then holds |
| Stores.ContentionCountsForeignCommits | src/pilotRepository.mjs:60-82 | Running out of the eight attempts means at least eight foreign commits landed |
| Stores.AtomicRedisAdapter.Attempt | src/mppStore.mjs:54-69 | One pass of the value-compare loop: the result is returned and the value written exactly when the script accepts |
| Stores.AtomicRedisAdapter.Update | src/mppStore.mjs:54-69 | The returned result belongs to the attempt that took effect, whose function saw exactly the value its write replaced; other keys are untouched; contention means twelve refused swaps and leaves exactly what others wrote |
| Stores.LostSwapsAreForeignWrites | src/mppStore.mjs:54-69 | Each refused swap stands for at least one foreign write in its window, so the 409 means at least twelve |
| Stores.SwapComparesExactlyWithoutTheSentinel | src/mppStore.mjs:7-20 | The script compares exactly with what was read if and only if that is not the sentinel text |
| Bridge.HistoryFollows | src/multichainService.mjs:82-132 | A bridge has a burn hash exactly from the recorded burn on, and from then on hash, block and intent never change |
| Bridge.AtMostOneBurn | src/multichainService.mjs:94-113 | At most one burn is ever recorded per bridge |
| Bridge.BurnIsFinal | src/multichainService.mjs:94-132 | After a burn only status reports commit |
| Bridge.SettlementIsBackedByBurnAndDestination | src/multichainVerification.mjs:63-115 | A settled bridge has a recorded burn, at an open gate, whose sender, target and every argument are as the intent prepared them, and a destination hash confirmed to the call that settled it |
| Bridge.BurnCheckIsExact | src/multichainVerification.mjs:84-115 | The burn check accepts if and only if every field of the decoded burn is as prepared |
| Bridge.DecisionIsExact | src/multichainService.mjs:82-132 | When a call goes on to write, and the status with which it stops otherwise; the state of the bridge is asked first |
| Bridge.StaleJobsAreRefused | src/multichainService.mjs:82-130 | A prepare or burn whose bridge has moved on is refused with 409 when applied; a status report never is |
| Bridge.ReportLeavesExactly | src/multichainVerification.mjs:63-82 | What a committed status report leaves: settled exactly for a confirmed completion, manual review for a failed or expired one, attesting while confirmations are pending, forwarding otherwise, with the destination it names |
| Bridge.PreparationLeavesExactly | src/multichainService.mjs:82-92 | A committed prepare had a valid destination and leaves the quote's expiry and nothing else |
| Bridge.BurnWasChecked | src/multichainService.mjs:94-113 | A committed burn passed the check of a prepared bridge at an open gate, and leaves its hash and block |
| Bridge.SettledBridgeMovesOnlyByAStaleReport | src/multichainService.mjs:115-132 | A step moves a settled bridge out of settled if and only if a status call swaps in a report that is not a verified completion; that call had seen the bridge burnt and not terminal |
| Bridge.SettledIsFinalExactlyWithoutPendingReport | src/multichainService.mjs:115-132 | Settled is terminal if and only if no status call that saw the bridge open can still swap in a report that is not a verified completion |
| Bridge.SettledBridgeCanMove | src/multichainService.mjs:115-132 | A concrete run in which a settled bridge ends in manual review |
| OneShot.EffectHappensAtMostOnce | src/contractAccountRelayer.mjs:71-93 | In every interleaving executor.submit, the deployer and the transfer runner are started at most once per record, only by the call that marked it (a ceremony's before it expired); every other call is refused or shown the stored report |
| OneShot.EffectWasAskedFor | src/adminSorobanTransfer.mjs:16-39 | Behind an effect stands the request of the very call that started it: for a ready record (a ceremony's not expired), or by the administrator for a key without a report, not as a dry run, with the gate open and the first report passed |
| OneShot.DryRunsAndClosedGatesSendNothing | src/adminSorobanTransfer.mjs:23-34 | A dry run, or a request at a closed gate, never starts a transfer, whatever follows |
| OneShot.RequestIsAnsweredExactly | src/adminSorobanTransfer.mjs:16-48 | What a new request is answered and what it leaves, for all three: a dry run stores a preview or is refused unrecorded, a closed gate stores a failure or is refused unrecorded |
| OneShot.MarkedCallProceedsExactly | src/contractAccountRelayer.mjs:75-80 | A call that has marked its record starts its effect, or fails before it, except in a ceremony |
| OneShot.FailureIsWrittenExactly | src/contractAccountRelayer.mjs:87-92 | How a failure reaches the record, step by step: the administrator's at once if its report passes, the others' by a read and a write, either of which failing leaves the mark |
| OneShot.SuccessIsWrittenExactly | src/contractAccountCeremony.mjs:145-168 | How a result reaches the record, step by step, for all three |
| OneShot.FinishedRecordIsExact | src/adminContractAccountDeploy.mjs:22-41 | What the record of a finished call holds, for all three: failed if and only if no result was read or something failed after, and that was written; settled with the result read if and only if that was kept (never by the relayer) or, for the administrator, its save failed and the failure could not be reported; taken otherwise |
| OneShot.StoredOutcomeIsReal | src/contractAccountRepository.mjs:38-62 | At any time a settled or deployed record carries what was read from the one effect, which happened; a preview started none; a failed record means no effect, no result read, or something failing after it was |
| OneShot.AdminFailureIsExact | src/adminSorobanTransfer.mjs:50-83 | A finished transfer that happened is stored as failed if and only if its output was blocked, its hash could not be read, its report was blocked, the runner threw all the same or the save failed, and the report of the failure passed the scan |
| OneShot.UnreadTransferStoredAsFailed | scripts/soroban-testnet-demo.mjs:234-240 | Runs in which no save fails and a transfer that happened is stored as failed, one for each way of not reading its result |
| OneShot.SuccessfulTransferStoredAsFailed | src/adminSorobanTransfer.mjs:64-82 | A run in which the hash is read and the save of the settled record fails |
| OneShot.StatusAdvances | src/contractAccountRepository.mjs:38-62 | No status ever goes back, in particular to prepared or pending; a settled record moves if and only if it is the administrator's, its save fails and the report of that passes |
| OneShot.TakenOnceForAll | src/contractAccountCeremony.mjs:124-143 | Once a call has marked the record every later call on it is refused, whatever happens in between |
| OneShot.Repository.Save | src/contractAccountRepository.mjs:24-31 | A new id starts its record ready and not taken, and touches no other record |
| OneShot.Repository.Consume | src/contractAccountRepository.mjs:38-54 | When a request is accepted and which status it then stores (a dry run only a preview); an accepted call is the record's only taker and every later call on the id is refused for good; a refused one changes nothing |
| OneShot.Repository.ReadForOutcome | src/contractAccountRepository.mjs:56-59 | The read before an outcome is written finds the record still marked by this call |
| OneShot.Repository.WriteOutcome | src/contractAccountCeremony.mjs:158-168 | The later unconditional write replaces exactly that mark, since nobody else can have written in between |
| SpendAccount.VerifySessionPolicy | contracts/spend-account-v1/src/lib.rs:314-349 | The loop over the contexts computes the batch verdict, first error included |
| SpendAccount.BatchMeansPermittedWithinBudget | contracts/spend-account-v1/src/lib.rs:314-369 | A batch is accepted if and only if it is not empty, every context is a permitted transfer and the total fits the remaining budget; then only `spent` moves, by that total; the overflow checks change nothing |
| SpendAccount.BatchIsSequential | contracts/spend-account-v1/src/lib.rs:314-349 | A batch a ++ b of two non-empty parts is accepted if and only if a and then b are, with the same policy |
| SpendAccount.BatchIgnoresOrder | contracts/spend-account-v1/src/lib.rs:314-349 | Permuting the contexts changes neither acceptance nor the resulting policy |
| SpendAccount.SessionKeyOnlyTransfers | contracts/spend-account-v1/src/lib.rs:314-369 | A batch the session key may sign for contains no administration of the account |
| SpendAccount.VerifyOwnerContexts | contracts/spend-account-v1/src/lib.rs:289-312 | The loop finds the first context the owner may not sign for, or none |
| SpendAccount.PasskeyBindsOnePayload | contracts/spend-account-v1/src/lib.rs:212-264 | One passkey assertion verifies for at most one payload |
| SpendAccount.SpendAccountContract.GrantSession | contracts/spend-account-v1/src/lib.rs:124-155 | The stored session and the returned policy or error of a grant; an error changes nothing |
| SpendAccount.SpendAccountContract.Revoke | contracts/spend-account-v1/src/lib.rs:157-164 | The same for a revoke |
| SpendAccount.SpendAccountContract.CheckAuth | contracts/spend-account-v1/src/lib.rs:189-210 | The session after an authorisation by either kind of signature, accepted as the two rows below say |
| SpendAccount.PasskeyAuthorisationIsExact | contracts/spend-account-v1/src/lib.rs:212-312 | Over every run a passkey authorises if and only if the signature verifies, credential, relying party, type, challenge and origin are the owner's for this payload, and its contexts, at least one, are grant, revoke or extend_ttl on the account or payments out of it |
| SpendAccount.SessionAuthorisationIsExact | contracts/spend-account-v1/src/lib.rs:266-349 | Over every run the session key authorises if and only if it holds the last grant, neither revoked since nor expired, signs, and the batch, not empty, is permitted and fits what the key has not spent |
| SpendAccount.GrantIsAcceptedExactly | contracts/spend-account-v1/src/lib.rs:371-393 | A grant is accepted if and only if the account authorised it, both lists have 1 to 16 entries, and there are a budget and time left |
| SpendAccount.RevokeIsAcceptedExactly | contracts/spend-account-v1/src/lib.rs:157-164 | A revoke is accepted if and only if the account authorised it and a grant was accepted |
| SpendAccount.ErrorsNameTheFailedCheck | contracts/spend-account-v1/src/lib.rs:266-393 | Each error of a grant, a revoke or a session names a check that failed |
| SpendAccount.OwnerErrorsNameTheContext | contracts/spend-account-v1/src/lib.rs:289-312 | A context the owner may not sign for is refused as an invalid transfer by another contract or an invalid context |
| SpendAccount.EmptyPasskeyBatchIsInvalid | contracts/spend-account-v1/src/lib.rs:289-292 | A passkey that verifies for no contexts is refused as an invalid context |
| SpendAccount.PasskeyErrorsNameTheFailedCheck | contracts/spend-account-v1/src/lib.rs:212-264 | Each error of the passkey check names a check that failed |
| SpendAccount.EveryRunStaysWithinBudget | contracts/spend-account-v1/src/lib.rs:124-210 | Over every run 0 <= spent <= total_limit, spent is exactly what the session key was allowed to move since the last grant, and the whole run's session total is at most the sum of granted limits |
| SpendAccount.AuthorisationIsCoveredByTheLastGrant | contracts/spend-account-v1/src/lib.rs:266-349 | Each session authorisation is covered by the last accepted grant: its key, unrevoked, not expired, within its lists and limits |
| SpendAccount.NoAuthorisationBetweenRevokeAndGrant | contracts/spend-account-v1/src/lib.rs:157-210 | Between an accepted revoke and a later session authorisation there is an accepted grant |
| Base64Url.Base64UrlEncode | contracts/spend-account-v1/src/lib.rs:416-444 | For inputs of any length the loop writes exactly the unpadded base64url text of section 5 of RFC 4648, within ceil(4n/3) places, and touches nothing behind it |
| Base64Url.DecodeInvertsEncode | contracts/spend-account-v1/src/lib.rs:416-444 | Decoding the encoding of any octets returns them |
| Base64Url.EncodeIsInjective | contracts/spend-account-v1/src/lib.rs:240-244 | Equal challenges mean equal payloads |
| Base64Url.EncodeLength | contracts/spend-account-v1/src/lib.rs:240-244 | The text has ceil(4n/3) letters, 43 for a 32-octet payload |
| Escrow.PolicyEscrow.GrantSession | contracts/policy-escrow-v2/src/lib.rs:94-129 | The stored session of a grant starts with nothing spent and nonce 1; an error changes nothing |
| Escrow.PolicyEscrow.RevokeSession | contracts/policy-escrow-v2/src/lib.rs:131-144 | A revoke marks the stored session and nothing else |
| Escrow.PolicyEscrow.ExecuteAllowedTransfer | contracts/policy-escrow-v2/src/lib.rs:146-206 | New sessions, ledger and receipt of a payment; every error, the token's panic after the session was stored included, restores the old state |
| Escrow.PolicyEscrow.OwnerWithdraw | contracts/policy-escrow-v2/src/lib.rs:208-230 | A withdrawal that succeeds was authorised by the owner, for a positive amount, and moves those tokens only |
| Escrow.GrantIsAcceptedExactly | contracts/policy-escrow-v2/src/lib.rs:244-275 | Over every run a grant is accepted if and only if the owner authorised it and the policy has both lists, a budget and time left |
| Escrow.RevokeIsAcceptedExactly | contracts/policy-escrow-v2/src/lib.rs:131-144 | Over every run a revoke is accepted if and only if the owner authorised it and the session was granted |
| Escrow.WithdrawalIsAcceptedExactly | contracts/policy-escrow-v2/src/lib.rs:208-230 | Over every run a withdrawal is accepted if and only if the owner authorised it for a positive amount that the escrow holds and the receiver has room for |
| Escrow.PaymentIsAcceptedExactly | contracts/policy-escrow-v2/src/lib.rs:146-306 | Over every run a payment is accepted if and only if its signer's last grant is neither revoked since nor expired and covers it, the nonce is one more than its receipts, the budget left covers it and the escrow holds it |
| Escrow.ReceiptIsThePayment | contracts/policy-escrow-v2/src/lib.rs:188-206 | The receipt of an accepted payment repeats it, with what its session has spent, what remains and the time |
| Escrow.ErrorsNameTheFailedCheck | contracts/policy-escrow-v2/src/lib.rs:244-320 | Each error names a check that failed |
| Escrow.EscrowBalanceIsExact | contracts/policy-escrow-v2/src/lib.rs:146-230 | The escrow holds what it held plus what came in, minus the accepted payments and minus the owner's withdrawals |
| Escrow.EveryRunAccountsForTokens | contracts/policy-escrow-v2/src/lib.rs:189-230 | Every holder's balance of every asset is the opening one plus what accepted events brought it, minus what they took |
| Escrow.EveryRunKeepsSessionsExact | contracts/policy-escrow-v2/src/lib.rs:94-230 | Over every interleaving a signer's receipts since its last grant carry nonces 1..k in order, the next is k + 1, spent is their sum, each remaining budget is exact and not negative, each payment respects the grant, and the session is revoked exactly when an accepted revoke followed the grant |
| Escrow.NoPaymentBetweenRevokeAndGrant | contracts/policy-escrow-v2/src/lib.rs:131-206 | Between an accepted revoke and a later payment by that signer there is an accepted grant to it |
| Escrow.EveryRunConservesTokens | contracts/policy-escrow-v2/src/lib.rs:189-230 | No run creates or destroys tokens |
| Wallet.SorobanSmartWallet.Allowed | contracts/soroban-smart-wallet/src/lib.rs:255-271 | The allowlist scan answers membership |
| Wallet.SorobanSmartWallet.UseNonce | contracts/soroban-smart-wallet/src/lib.rs:222-253 | The shared checks use up the nonce or name the failed check; when they pass is stated by the rows on accepted executions |
| Wallet.SorobanSmartWallet.ExecuteAllowedPayment | contracts/soroban-smart-wallet/src/lib.rs:132-157 | A recorded payment uses up its nonce and nothing else |
| Wallet.SorobanSmartWallet.ExecuteAllowedTransfer | contracts/soroban-smart-wallet/src/lib.rs:159-194 | A transfer uses up its nonce and moves the tokens, or changes nothing |
| Wallet.PaymentIsAcceptedExactly | contracts/soroban-smart-wallet/src/lib.rs:132-157 | Over every run a payment is accepted if and only if the signer's last grant by the owner is neither revoked since nor expired, lists the destination or the provider and allows the amount, and the pair was not used before |
| Wallet.TransferIsAcceptedExactly | contracts/soroban-smart-wallet/src/lib.rs:159-194 | The same for a transfer, which also needs its asset in the grant's list and tokens the wallet holds |
| Wallet.AdministrationIsAcceptedExactly | contracts/soroban-smart-wallet/src/lib.rs:88-130 | The first authorised init sets the owner for good; grants and revokes are accepted if and only if that owner authorises them, a revoke only of a granted session |
| Wallet.EveryRunKeepsSessionsExact | contracts/soroban-smart-wallet/src/lib.rs:96-130 | A stored session is its last accepted grant, revoked exactly when an accepted revoke followed |
| Wallet.NoncesAreThePairsUsed | contracts/soroban-smart-wallet/src/lib.rs:247-251 | The stored nonces are exactly the pairs of the accepted executions |
| Wallet.NoExecutionBetweenRevokeAndGrant | contracts/soroban-smart-wallet/src/lib.rs:122-253 | Between an accepted revoke and a later execution by that signer there is an accepted grant to it |
| Wallet.ErrorsNameTheFailedCheck | contracts/soroban-smart-wallet/src/lib.rs:203-253 | Each error names a check that failed |
| Wallet.WalletBalanceIsExact | contracts/soroban-smart-wallet/src/lib.rs:159-194 | The wallet holds what it held plus what came in, minus the accepted transfers |
| Wallet.UsedNoncesStay | contracts/soroban-smart-wallet/src/lib.rs:247-251 | A used nonce stays used, across re-grants |
| Wallet.NoncePairsAreUsedOnce | contracts/soroban-smart-wallet/src/lib.rs:132-253 | A (signer, nonce) pair is accepted at most once in a run, by either entry point |
| Refinement.StepRefines | contracts/policy-escrow-v2/src/lib.rs:277-306 | From related states the wallet takes an accepted escrow operation if and only if its pair is unused, and the states stay related |
| Refinement.RefinesWhenFresh | contracts/policy-escrow-v2/src/lib.rs:146-206 | The wallet accepts the whole image of an escrow run without withdrawals if and only if the run repeats no (signer, nonce) pair |
| Refinement.EscrowRefinesWalletExactlyWithoutPayingAcrossGrants | contracts/policy-escrow-v2/src/lib.rs:94-206 | The same condition as a caller sees it: no signer pays on both sides of a re-grant; then both contracts end with the same tokens and sessions |
| Refinement.OneGrantRefines | contracts/soroban-smart-wallet/src/lib.rs:132-194 | With one grant per signer every escrow run without withdrawals is a legal wallet run with the same tokens |
| Refinement.RegrantedSignerReplays | contracts/policy-escrow-v2/src/lib.rs:94-129 | A concrete run of grant, pay, grant, pay that the wallet refuses |
| Token.TransferConserves | contracts/policy-escrow-v2/src/lib.rs:189-194 | A transfer leaves the total over all holders unchanged, also to oneself |
| Token.TransferIsExact | contracts/soroban-smart-wallet/src/lib.rs:174-176 | A transfer goes through if and only if the sender has the amount and the receiver has room, and then moves it and nothing else |
| Relayer.CanonicalGrantHoldsUntilItsExpiry | src/contractAccountRelayer.mjs:159-182 | Every canonical grant reaches the contract with the fixed limits, and the contract accepts it if and only if ledger time is before its expiry |
| Relayer.CanonicalTransferIsThePayment | src/contractAccountRelayer.mjs:183-241 | Exactly the transfers of 1 to 100000 base units without an override are canonical, and they reach the contract as that payment |
| Relayer.CanonicalGrantIsExact | src/contractAccountRelayer.mjs:159-182 | A grant is canonical if and only if nothing is overridden and the key is valid, the body's or else the configured one; no other action but the three is canonical |
| Relayer.CanonicalRevokeIsTheRevoke | src/contractAccountRelayer.mjs:159-172 | A revoke is canonical if and only if nothing is overridden, and reaches the configured contract as a revoke |
| Relayer.ErrorsNameTheFailedCheck | src/contractAccountRelayer.mjs:159-196 | Each refusal names a check that failed |
| Relayer.CanonicalTransferFitsExactlyTheBudget | src/contractAccountRelayer.mjs:183-196 | Under a canonical grant the contract accepts a canonical transfer if and only if spent + amount <= 200000 |
| Relayer.SessionMovesAtMostTheRelayedBudget | src/contractAccountConfig.mjs:6-7 | Whatever the session key signs and however it is interleaved, it moves at most 200000 since the last grant and at most 200000 per accepted grant |
| Relayer.RelayedTransferIsTakenExactlyWithinBudget | contracts/spend-account-v1/src/lib.rs:314-393 | Over every run a relayed transfer is accepted if and only if the key holds the last grant, unrevoked and not expired, and the amount fits what it has not spent of 200000 |
| Money.FormatSplits | src/multichainMoney.mjs:19-28 | At 1 to 18 decimals the text is the whole units and the remaining units without trailing zeros |
| Money.ParseMeansCanonicalise | src/multichainMoney.mjs:3-17 | parse accepts exactly the positive decimal texts with at most that many decimals and returns their canonical text and base units |
| Money.ParseUndoesFormat | src/multichainMoney.mjs:3-28 | parse(format(n)) = n for every n > 0 at 1 to 18 decimals |
| Money.RoundTripExactlyFromOneDecimal | src/multichainMoney.mjs:24 | The round trip holds if and only if there is at least one decimal |
| Money.ScaleIsExact | src/multichainMoney.mjs:38-47 | Scaling answers m if and only if m at the target precision is the same amount, and otherwise fails with 409 |
| Money.ScalingLeavesFormatUnchanged | src/multichainMoney.mjs:38-47 | An amount reads the same before and after scaling |
| Money.ComparisonSurvivesScaling | src/multichainMoney.mjs:30-47 | Two amounts compare the same before and after both are scaled |
| Money.ComparisonIsTheOrder | src/multichainMoney.mjs:30-36 | compareBaseUnits answers the order of the numbers |
| Money.RefusedExactly | src/multichainMoney.mjs:3-55 | formatting answers exactly for digit strings at 0 to 18 decimals, and parsing and scaling refuse other decimals with 400 |
| Money.TrimIsExact | src/multichainMoney.mjs:5 | Trimming an amount takes the spaces off both ends and nothing else |
| Money.SpacesByCodePoint | src/multichainMoney.mjs:5 | Which characters count as spaces, by code point |
| Money.UsdcFormattersAgree | src/publicEvidenceService.mjs:131-137 | At seven decimals both formatters print the same text if and only if the input has at most eight digits or no leading zero |
| Money.SettlementCheckReadsFormattedAmounts | src/pilotService.mjs:305-309 | The settlement check reads back what formatTokenAmount and formatStellarAmountBaseUnits print |
| RateLimit.PilotRateLimiter.Consume | src/pilotRateLimit.mjs:48-58 | The entry left under the key, and what the answer says about it |
| RateLimit.PilotRateLimiter.EnforceMemory | src/pilotRateLimit.mjs:36-45 | A call passes if and only if both counters, charged by it in any case, are within their limits; a refusal carries the later of the two resets |
| RateLimit.CallChargesItsOwnEntries | src/pilotRateLimit.mjs:38-39 | A call changes the daily entry of its tenant and the minute entry of its tenant and address, and no other |
| RateLimit.ChargeIsExact | src/pilotRateLimit.mjs:48-52 | An entry is continued while its window runs and replaced by a new window once that is over |
| RateLimit.CountersAreSharedExactly | src/pilotRateLimit.mjs:38-39 | Tenants never share a daily counter; two share a minute counter if and only if one name goes on with a colon and the start of the other's address |
| RateLimit.EachWindowAdmitsItsLimit | src/pilotRateLimit.mjs:48-58 | Within one window the counter is the number of calls, refused ones included, and at most 20 (or 100) of them are admitted |
| RateLimit.IntervalAdmitsLessThanTwiceTheLimit | src/pilotRateLimit.mjs:36-58 | For time-ordered calls every half-open 60 s interval admits at most 39 and every 24 h interval at most 199 |
| RateLimit.ThirtyNineWithinAMinute | src/pilotRateLimit.mjs:36-58 | A run that reaches 39 |
| Receipts.ReceiptList.SaveReceipt | src/mppReceiptRepository.mjs:29-35 | A save takes the list of any history to the list of that history with the receipt added |
| Receipts.SavedListIsTheLatestHundred | src/contractAccountRepository.mjs:64-77 | After any history the list is the 100 latest receipts with distinct ids, newest first, each as last saved: cutting at every save loses nothing |
| Receipts.StoresAgreeExactlyWithoutRepeats | src/mppReceiptRepository.mjs:36-41 | The Redis list shows the same ids if and only if no id occurs twice among the last hundred saves |
| Receipts.ReceiptList.ListReceipts | src/contractAccountRepository.mjs:79-81 | After any history a listing is the first 1 to 20 of the latest distinct receipts, newest first |
| Rails.CompareIsTotalPreorder | src/railRegistry.mjs:92-97 | compareCandidates is a total preorder whatever locale orders the network names |
| Rails.SortIsSortedPermutation | src/railRegistry.mjs:73 | The sorted candidates are a permutation in that order |
| Rails.RecommendationIsBest | src/railRegistry.mjs:31-90 | The recommendation is missing if and only if nothing is executable; otherwise no executable option precedes it, it is Stellar whenever a Stellar option is executable whatever is preferred, otherwise Base with both switches on, never Avalanche |
| Rails.RecommendationIsExact | src/railRegistry.mjs:31-90 | There is a recommendation if and only if some option is available, on an allowed network whose balance covers it, for a Stellar rail or for Base's with both switches on; it is such an option, MPP before the contract account before Base |
| Rails.ExecutableNetworks | src/chainRegistry.mjs:59-74 | The registered rails and the switches leave only Stellar and a fully enabled Base executable |
| Rails.BridgeIsSuggestedForLackOfBalance | src/railRegistry.mjs:82-88 | A bridge is suggested if and only if nothing is executable and some option lacks balance |
| SpendHub.SpendHubService.ApproveIntent | src/spendHubService.mjs:161-183 | An intent with an open receipt gets that one again and nothing is stored; otherwise the call answers if and only if it appends a receipt, which is the one it answers |
| SpendHub.EveryRunStaysWithinLimits | src/domain.mjs:49-85 | By either route no day's or month's settled total passes its limit if it did not at the start |
| SpendHub.CallAppendsExactly | src/domain.mjs:49-123 | A call appends a receipt if and only if provider, payment limit and both budgets allow it, every other check passes and the rail answers, and for an approval no earlier receipt is open |
| SpendHub.SpentCounts | src/domain.mjs:49-54 | One more receipt adds its amount to its day and month exactly when it is settled |
| SpendHub.ApprovalsGiveOneReceipt | src/spendHubService.mjs:161-166 | Approvals alone give each intent at most one open receipt |
| SpendHub.SecondReceiptNeedsTheLinkRoute | src/spendHubService.mjs:213-228 | A second open receipt appears if and only if the Link route is taken directly for an intent that has one and passes evaluation and rail |
| SpendHub.LinkRouteGivesASecondReceipt | src/spendHubService.mjs:213-228 | A run of one approval and one direct Link approval that leaves two open receipts |
| SpendHub.AtomicCallIsThreeSteps | src/spendHubService.mjs:161-183 | The atomic call is the three steps of the interleaved machine with nothing in between |
| SpendHub.OverspendIsExactlyForeignSpending | src/spendHubService.mjs:161-183 | In every interleaving an append passes a day's or month's limit if and only if what was settled in it between the call's check and its append exceeds the slack the check left, which is never negative in the check's own day and month |
| SpendHub.UndisturbedRunsStayWithinLimits | src/domain.mjs:49-85 | Interleaved runs whose windows hold no foreign append, and no midnight, stay within every limit |
| SpendHub.SecondReceiptIsExactlyForeign | src/spendHubService.mjs:161-183 | In every interleaving an approval gives its intent a second open receipt if and only if another was appended since it began |
| SpendHub.InterleavedApprovalsOverspend | src/spendHubService.mjs:161-183 | A run of that machine: two approvals of one intent both settle and pass the daily limit |

## Left out

- Pilot: a payload that differs under the same idempotency key (409 after create), presentation, evidence and the format check of ids are not modelled; the tenant is part of the record key and fresh UUIDs never collide.
- Pilot: an approve that commits its expiry counts as returned here; the original then answers 410.
- Digests, the approval HMAC and SHA-256 are free constructors (injective); P-256, Ed25519 and require_auth are verdicts that come with the call.
- Clocks, RPC, Horizon, Circle and rail answers, sensitive-data scans and failing awaits are arbitrary inputs of each step; timestamps are milliseconds.
- Optimistic: models the Redis mode, where read and swap are separate steps; the in-memory mode has fewer interleavings. Expiry of keys in Redis and of contract storage is not modelled.
- Bridge: hashes and addresses come normalised, Circle's status lower-cased; encoding of the forwarder hook data is a field of the intent. The quote's contents are reduced to its expiry.
- OneShot: the content of requests, registrations and reports is reduced to the outcome. An administrator call without a service object, which has no idempotency, is not modelled.
- Token: balances per asset and holder; issuer controls, fees and muxed identifiers are not modelled.
- Refinement.EscrowRefinesWalletExactlyWithoutPayingAcrossGrants: withdrawals have no wallet counterpart, so runs with them are outside it.
- Base64Url: shifts and masks are written as division and remainder by powers of two, letters as characters.
- Relayer: XDR, fees, simulation and the signed entry's comparison are not modelled; BigInt's reading of the requested amount is an input.
- RateLimit: the Redis limiters belong to a library; the retry-after header is reduced to the reset time. The interval bounds need calls in time order.
- Receipts: sanitising and the scan before a save are not modelled; a receipt is its id and its content. The Redis list is compared by ids.
- Rails: reasons, quote ids and times, and provider normalisation are left out; the locale's order of names is any total preorder.
- SpendHub: evaluations other than budgets are one verdict per check; amounts are exact integers, not floats.
- Money: units given to scaling and comparison are integers; malformed text there raises a syntax error in the original.
- HTTP routes, pages, views, provider search, evidence catalogues, readiness reports and scripts add no state worth proving about.
