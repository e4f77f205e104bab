# Conduit contracts: a verified model

This project models the three Conduit contracts and proves what they keep over whole runs. The
payment stream (`DripStream`) is a state machine over its stored record, its token balance and the
ledger time. The factory (`DripFactory`) admits requests, funds and registers new streams and walks
its registry. The governor (`DripGovernor`) keeps roles and the bounds the factory enforces.

Each stateful contract is written twice. A class holds the contract's fields, and its methods follow
the source statement by statement: load, check, write, move tokens, and undo everything when the host
traps. A step function on values says what each method does, every method is proved equal to it, and
the properties are lemmas about the step functions and about runs of any length.

| file | contents |
|---|---|
| `Host.dfy`, `Token.dfy` | integer widths, addresses, token books with a checked transfer |
| `StreamStorage.dfy`, `StreamMath.dfy` | the stream record, its flag bits, both key layouts, the accrual formula |
| `StreamMachine.dfy`, `StreamContract.dfy` | the stream's steps and runs; the contract, proved against them |
| `StreamInvariants.dfy` | what every step keeps, exact success and failure, terminal settlement |
| `StreamAccounting.dfy` | conservation, no double pay, full-funding solvency |
| `StreamTime.dfy`, `StreamHistory.dfy` | the schedule shift as time translation, and as a pause history |
| `StreamPauses.dfy`, `StreamForceCancel.dfy` | calls made during a pause; what `force_cancel` protects against and what not |
| `StreamSettlement.dfy` | same-instant confluence of withdraw, clawback and settlement |
| `FactoryMachine.dfy`, `FactoryContract.dfy` | the factory's steps and runs; the contract, proved against them |
| `FactoryHandoff.dfy`, `FactoryRegistry.dfy` | what a creation hands over; the registry and batches over runs |
| `FactoryWalks.dfy` | what the TTL walker reaches over the factory's runs |
| `FactorySystem.dfy`, `FactoryDirectory.dfy` | the factory and all its streams running together over the shared token books; what its indices then say of them |
| `StreamCalls.dfy`, `FactoryCalls.dfy`, `GovernorCalls.dfy` | what every call of the three contracts checks, in which order, with which error, and does, as tables the steps are proved to follow; roles, parameters, code and halt over any history |
| `Walker.dfy`, `Query.dfy`, `Signature.dfy`, `Rebate.dfy`, `Governor.dfy` | the TTL walker, paging, signing pre-images, rebate, roles and parameters |

Conventions. A failed call, whether an error code or a trap, leaves the state as it was. `signers` is
the set of addresses that authorized a call; a missing one traps where the source asks for it. Other
holders may move tokens between any steps, also into the stream, but nobody signs for the stream's own
address. An address derived by the factory is a constructor of the factory's address and the id, so
different ids have different addresses. `Inv` is established by `initialize` and kept by every step.
`Backed` says that the token's supply fits an i128; it is also kept by every step.

## Where the code and its documentation disagree

The model follows the code.

- `docs/architecture.md:70-88` counts elapsed time without pauses. A paused stream stays frozen only
  until its end time has passed, because the end clamp is tested first: `StreamHistory.PausedStreamIsFrozenExactly`
  gives the exact condition and `StreamHistory.PauseDoesNotFreezePastTheEnd` a run in which more is withdrawn
  than the formula reports after the resume.
- `contracts/factory/src/ttl.rs:14-15` says every live id is eventually visited. That holds while fewer than
  eight streams are created between two maintenance calls (`Walker.SlowGrowthCoversEveryId`); otherwise the ids
  behind the cursor can wait forever. `Walker.VisitedExactly` gives the exact condition for every id,
  `FactoryWalks.WalkedExactly` the same over runs of the factory, and `FactoryWalks.RoundsStarveZero` runs of any
  length in which id 0 is never visited.
- `contracts/governor/src/lib.rs:94-96` says the revoke can never meet the last-admin guard. It does when
  the only admin transfers to itself: `Governor.TransferAuthorityExactly`, and
  `Governor.SoleAdminCannotTransferToItself` right after deployment.
- `contracts/governor/src/lib.rs:131-136` relies on max rate x min duration to keep creation free of overflow.
  The product that matters is max rate x the longest duration a request can have: `FactoryHandoff.BoundsExcludeOverflowExactly`
  and `FactoryHandoff.SettersAllowOverflow`.
- `docs/adr/002-cancel-settles-atomically.md:38` has the balance zero after `cancel`. That needs recipient and
  sender to be other than the stream's own address: `StreamInvariants.SettlementEmptiesTheStream` says what stays
  otherwise, and `StreamInvariants.SettlementCanStrandTheShare` is a run in which half of the tokens do.
- `contracts/stream/src/lib.rs:353` calls the view the current withdrawable balance. It can exceed what the stream
  holds, and then withdrawing that much traps: `StreamAccounting.ViewIsWhatWithdrawPays` says exactly when, and
  `StreamAccounting.ViewOutrunsTheBalance` is a run.
- `contracts/stream/src/lib.rs:364-366`, `docs/security.md:81` and `docs/architecture.md:96` have `force_cancel` end
  any pause of thirty days. One pause is enough to defeat it: a stream paused before its start makes the accrual
  formula err once the start has passed, and with it `force_cancel` (`StreamForceCancel.PauseBeforeStartDefeatsForceCancel`).
  Until the sender resumes, nothing can be taken out before the end, and never if there is none
  (`StreamForceCancel.CaughtUntilResumed`, `StreamForceCancel.OpenEndedIsCaughtForGood`).
  `StreamInvariants.ForceCancelSucceedsExactly` is the exact condition in every state. Resuming for no time at all
  also restarts the thirty days: `StreamForceCancel.StallIsForcedExactly` says exactly when such a stall can be ended
  at some instant of it, and `StreamForceCancel.StallIsForcedByALongPause` that on a started stream it takes one pause
  of thirty days.
- `contracts/factory/src/storage.rs:45` says the recipient index lists the ids where an address is the recipient. It
  lists those created for it: `FactoryDirectory.IndicesFollowStreams` says exactly when that is still the recipient.

## Model

| member | source | states |
|---|---|---|
| StreamTime.PausedTimeNeverHappened | contracts/stream/src/lib.rs:189-247 | Inserting "pause, wait, resume" into any history of a live unpaused stream delays it and changes nothing else: every later sequence of calls gets the same replies, balances and views that many seconds later, if and only if the delayed instants fit a u64 |
| StreamTime.LaterRun | contracts/stream/src/math.rs:8-43 | Two streams that differ by a time shift answer every run alike and stay shifted, exactly as long as each successful step of the earlier one leaves room in a u64 |
| StreamTime.LaterStep | contracts/stream/src/lib.rs:216-247 | One step of that simulation: same reply if and only if the twin failed or the new start, end and clock fit |
| StreamTime.PauseWaitResumeIsDelay | contracts/stream/src/lib.rs:226-243 | Pause, wait d, resume turns a stream into itself moved d seconds later, flags and counters restored |
| StreamPauses.PausedInterludeNeverHappened | contracts/stream/src/lib.rs:189-247 | The pause may be busy: any withdrawals, top-ups, extensions, clawbacks and recipient transfers between pause and resume, those that ask for the accrued amount made before it moves, and then every later sequence of calls is answered, if the delayed schedule fits, as by the twin that made those calls in one instant and never paused, that much later |
| StreamPauses.InterludeTakesNoTime | contracts/stream/src/lib.rs:216-247 | Each call made during such a pause is answered as if made at the instant of the pause; the resume succeeds exactly when the delayed schedule fits a u64, and leaves the delayed twin |
| StreamPauses.FrozenReadsExactly | contracts/stream/src/math.rs:11-31 | While a stream is paused the formula answers as at the instant of the pause exactly as long as a start that was ahead is still ahead, or an end that was ahead has not passed |
| StreamForceCancel.StallIsForcedExactly | contracts/stream/src/lib.rs:361-385 | When a live stream with room in its schedule is paused and at once re-paused any number of times, there is an instant, inside a pause or between two, at which a force_cancel goes through if and only if the recipient signs and one of the pauses lasts thirty days and could by itself be ended after thirty days or at its end |
| StreamForceCancel.ForceableAtAnEndpoint | contracts/stream/src/math.rs:11-31 | A pause that force_cancel can end at any instant is one it can end after thirty days or at the end of the pause |
| StreamForceCancel.StallIsForcedByALongPause | contracts/stream/src/lib.rs:361-385 | On a started stream within the default rate bound there is such an instant if and only if one of the pauses lasts thirty days |
| StreamForceCancel.StallingIsNeverForced | contracts/stream/src/lib.rs:369-385 | A stall of shorter pauses accrues nothing, and at no instant of it, inside a pause or between two, can anybody force a cancellation |
| StreamForceCancel.CaughtUntilResumed | contracts/stream/src/math.rs:19-27 | A stream paused before a start that has passed refuses, until the sender resumes it and while its end has not passed, every call but top-ups, extensions of a fixed length and recipient transfers, and its balance never shrinks |
| StreamForceCancel.OpenEndedIsCaughtForGood | contracts/stream/src/math.rs:19-27 | Without an end it stays so through every run in which the sender does not resume it |
| StreamForceCancel.ResumeReleases | contracts/stream/src/lib.rs:226-243 | The sender's resume ends it: the start lies ahead again and the formula answers zero |
| StreamForceCancel.PauseBeforeStartDefeatsForceCancel | contracts/stream/src/lib.rs:369-394 | A run in which an open-ended stream is paused before its start and, more than thirty days later, the recipient's force_cancel returns the overflow error |
| StreamHistory.StreamedIsUnpausedTime | contracts/stream/src/math.rs:8-32 | In every reachable unpaused state the formula is rate times the time since the original start less completed pauses, clipped to the declared length plus extensions, or the overflow error when that does not fit |
| StreamHistory.PausedStreamIsFrozenExactly | contracts/stream/src/math.rs:16-23 | When paused at or after the start the same holds at the instant of the pause, overflow error included, if and only if not pausedAt < end < now or that product overflows already; once the end has passed the whole contracted length counts |
| StreamHistory.PauseDoesNotFreezePastTheEnd | contracts/stream/src/math.rs:16-23 | A concrete run in which a paused stream pays out in full after its end and, once resumed, has withdrawn more than it reports as streamed |
| StreamHistory.RunMatchesHistory | contracts/stream/src/lib.rs:226-243 | Over any run the stored start, end and pause instant equal the values computed from the trace of pauses, resumes and extensions |
| StreamAccounting.FundingOverRuns | contracts/stream/src/lib.rs:281-324 | A fully funded fixed-length stream without clawback keeps balance + withdrawn at least rate x (end - start) through every run that does not cancel it, and what is withdrawable never exceeds the balance |
| StreamAccounting.FundedMeansSolvent | contracts/stream/src/math.rs:39-43 | On a fully funded stream what is withdrawable is at most the balance |
| StreamAccounting.FundedWithdrawSucceedsExactly | contracts/stream/src/lib.rs:108-138 | On a fully funded stream a withdrawal fails only for a bad amount, cancellation, a missing signature, an error of the formula or nothing accrued; it pays the smaller of request and withdrawable |
| StreamAccounting.ViewIsWhatWithdrawPays | contracts/stream/src/lib.rs:353-360 | The withdrawable view equals what withdrawing everything would pay if and only if the balance covers it, as on every fully funded stream; otherwise that withdrawal traps. It is the streamed-total view less withdrawn, never below zero |
| StreamAccounting.ViewOutrunsTheBalance | contracts/stream/src/lib.rs:353-360 | A run of an open-ended stream whose view reports more than the balance, withdrawing it all traps, and withdrawing the balance pays |
| StreamAccounting.ValueIsConserved | contracts/stream/src/lib.rs:256-351 | In every reachable state funding + top-ups + rate x extended seconds + tokens sent in = paid to successive recipients + returned to the sender + balance |
| StreamAccounting.WithdrawnIsTheSumOfPayouts | contracts/stream/src/lib.rs:118-134 | The withdrawn counter is the sum of what withdraw paid, over any run |
| StreamAccounting.NoDoublePay | contracts/stream/src/math.rs:39-43 | Withdrawals never exceed rate x (end - start) on a fixed-length stream, nor the current streamed amount on an open-ended one |
| StreamAccounting.FreshStreamNeverOverpays | contracts/stream/src/lib.rs:118-134 | Over the whole life of a stream the sum of its withdraw payouts stays within those bounds |
| StreamAccounting.LifetimePayout | contracts/stream/src/lib.rs:150-186 | After any history of a fresh, fully funded stream without clawback, the settlement brings the recipients' total to exactly max(withdrawn, streamed) |
| StreamSettlement.SettlementIsConfluent | contracts/stream/src/lib.rs:337-347 | Any sequence of withdraw and clawback attempts at one instant, then cancel or force_cancel: succeeds exactly when it would have at once, and pays the recipient min(owed, balance) in total and the sender the rest |
| StreamSettlement.ClawbackLeavesTheShare | contracts/stream/src/lib.rs:327-351 | A clawback returns everything but min(owed, balance) and leaves exactly that |
| StreamInvariants.CallSucceedsExactly | contracts/stream/src/lib.rs:108-429 | In every well-formed state each of the nine calls succeeds exactly under its stated conditions; no transfer or subtraction traps otherwise |
| StreamCalls.CallAnswersExactly | contracts/stream/src/lib.rs:108-429 | In every well-formed state each of the nine calls has its whole effect, down to the amounts and every field of the record, if all its checks pass, and otherwise fails with the error of the first check in order that does not, changing nothing |
| StreamCalls.WithdrawPaysExactly | contracts/stream/src/lib.rs:118-137 | A successful withdrawal pays the smaller of the request and rate x counted seconds less withdrawn, on every stream, funded or not, and counts exactly that |
| StreamCalls.RefusalsAreGenuine | contracts/stream/src/lib.rs:108-429 | A call goes through exactly if all its checks pass; an error it returns is that of a check that really fails |
| StreamCalls.ErrorsAreTrue | contracts/stream/src/lib.rs:108-429 | No error says what is not so: cancelled only on a cancelled stream, not paused only on an unpaused one, threshold not met only while paused for less than 2,592,000 seconds, nothing to withdraw only with nothing due, and so on |
| StreamCalls.CancelledStreamSaysSo | contracts/stream/src/state.rs:87-93 | A cancelled stream answers StreamCancelled to every call whose argument and earlier checks pass |
| StreamCalls.ViewsExactly | contracts/stream/src/lib.rs:353-360 | The views are zero on a cancelled stream or where the formula errs, and otherwise the accrued and the due amount |
| StreamCalls.InitializedExactly | contracts/stream/src/lib.rs:50-104 | initialize accepts exactly a positive rate and an end, if any, after the start, and stores each argument in its own field |
| StreamInvariants.StreamedFailsExactly | contracts/stream/src/math.rs:11-31 | The formula errs exactly for a stream paused before a start that has passed (with no end reached) or a product over i128; otherwise it is rate x counted seconds |
| StreamInvariants.ForceCancelSucceedsExactly | contracts/stream/src/lib.rs:361-410 | In every well-formed state force_cancel succeeds exactly for the recipient of a live stream, paused for thirty days, not paused before a start that has passed with no end reached, and with an accrued amount within i128 |
| StreamInvariants.SettlementIsAlwaysReachable | contracts/stream/src/lib.rs:369-394 | With the default rate bound and pauses only after the start, in every reachable live state an authorised cancel succeeds, and force_cancel does after thirty paused days |
| StreamInvariants.SettlementEmptiesTheStream | docs/adr/002-cancel-settles-atomically.md:33-43 | A settlement marks the stream cancelled, pays out the whole balance, and leaves in it only shares addressed to the stream itself |
| StreamInvariants.SettlementCanStrandTheShare | docs/adr/002-cancel-settles-atomically.md:33-39 | A run in which the recipient hands its role to the stream's own address and the sender's cancel leaves half of the tokens behind |
| StreamInvariants.CancelledIsForever | docs/adr/002-cancel-settles-atomically.md:41-43 | After cancellation the record never changes and every call fails; any run, whatever other holders transfer meanwhile, ends as if its calls had not been made |
| StreamInvariants.ReachableWorlds | contracts/stream/src/lib.rs:30-105 | Every run keeps the record well-formed, the token supply, and the sender, token, rate and clawback terms |
| StreamInvariants.StepKeepsInv | contracts/stream/src/lib.rs:108-429 | Every step keeps the record well-formed: positive rate, start before end, a pause instant exactly while paused and never in the future |
| StreamInvariants.InitializedIsWellFormed | contracts/stream/src/lib.rs:50-104 | A record accepted by initialize is well-formed, live, unpaused, and carries the given schedule and clawback choice |
| StreamInvariants.SettleSucceedsExactly | contracts/stream/src/lib.rs:157-182 | A settlement succeeds exactly when the accrual formula does; its transfers cannot fail |
| StreamInvariants.CallMovesAsReplied | contracts/stream/src/lib.rs:166-182 | Every call changes the balances of recipient, sender and stream by exactly what it replies, and nobody else's |
| StreamInvariants.TransferRecipientHandsOver | contracts/stream/src/lib.rs:417-429 | The new recipient has access to everything earned so far, and without its signature nobody withdraws |
| StreamContract.DripStream.Initialize | contracts/stream/src/lib.rs:30-105 | Panics on a second call, a non-positive rate or an empty time range; otherwise stores the fresh record in both layouts |
| StreamContract.DripStream.Withdraw | contracts/stream/src/lib.rs:108-138 | Store, books and result are those of the machine's step, with the early write undone when the transfer traps |
| StreamContract.DripStream.SettleNow | contracts/stream/src/lib.rs:157-182 | The settlement marks, pays recipient then sender, and undoes all of it on a trap |
| StreamContract.DripStream.Cancel | contracts/stream/src/lib.rs:150-186 | Store, books and result are those of the machine's cancel |
| StreamContract.DripStream.Pause | contracts/stream/src/lib.rs:189-213 | Store and result are those of the machine's pause |
| StreamContract.DripStream.Resume | contracts/stream/src/lib.rs:216-247 | Store and result are those of the machine's resume, including both overflow traps |
| StreamContract.DripStream.TopUp | contracts/stream/src/lib.rs:256-275 | Books and result are those of the machine's top-up; the store is untouched |
| StreamContract.DripStream.ExtendDuration | contracts/stream/src/lib.rs:281-324 | Store, books and result are those of the machine's extension; an end overflow undoes the deposit already moved |
| StreamContract.DripStream.Clawback | contracts/stream/src/lib.rs:327-351 | Books and result are those of the machine's clawback; the store is untouched |
| StreamContract.DripStream.ForceCancel | contracts/stream/src/lib.rs:369-410 | Store, books and result are those of the machine's force_cancel |
| StreamContract.DripStream.TransferRecipient | contracts/stream/src/lib.rs:417-429 | Store and result are those of the machine's recipient transfer |
| StreamContract.SystemRefinesMachine | contracts/stream/src/state.rs:12-69 | Every run of calls served from the stored layouts and the token books is a run of the machine with the same replies |
| StreamContract.LayoutsAgreeOverRuns | contracts/stream/src/state.rs:12-93 | From initialize on an empty store or from a legacy store, the consolidated record and the record rebuilt from individual keys agree after every sequence of calls |
| StreamContract.ServeKeepsAgreement | contracts/stream/src/state.rs:48-60 | No call clears the clawback or cancelled bit, so each keeps the two layouts in agreement |
| StreamStorage.LegacyStoreAgrees | contracts/stream/src/state.rs:22-45 | A store with individual keys only reads the same either way, whatever its old booleans say |
| StreamStorage.LegacyReadsEveryKey | contracts/stream/src/state.rs:22-45 | A legacy store reads each part of the record from its own key, with zero for an absent counter, pause instant or flag word, and the two bits from the word or the old booleans |
| StreamStorage.SaveWritesEveryKey | contracts/stream/src/state.rs:48-60 | A save leaves the record in the consolidated key and each part in its own, and the old booleans alone |
| StreamContract.ServeTouchesOnly | contracts/stream/src/lib.rs:108-429 | A failed call changes nothing stored; a top-up and a clawback leave the store; no call touches another token's book |
| StreamContract.UninitializedIsRefused | contracts/stream/src/state.rs:33-45 | Before a record is stored every call traps, unless its argument is refused first |
| StreamStorage.SaveAgreesExactly | contracts/stream/src/state.rs:26-60 | After a save the layouts agree exactly when the saved flags cover the two old booleans that save never writes |
| StreamContract.InitializeAgreesExactly | contracts/stream/src/lib.rs:40-104 | After initialize the layouts agree exactly when leftover old booleans claim no more than the new flags |
| FactoryHandoff.CreateHandsOver | contracts/factory/src/lib.rs:88-162 | A successful creation yields a well-formed live stream on the requested terms holding at least the deposit, fully funded if it has an end, within the governor's bounds; no other stream changes and only the sender paid |
| FactoryHandoff.CreateMovesOnlyDeposit | contracts/factory/src/lib.rs:128-162 | A creation moves exactly the deposit from the sender to the new stream; the factory's balance, every other holder, every other token and all supplies stay the same |
| FactoryHandoff.CreateSucceedsExactly | contracts/factory/src/lib.rs:61-162 | A ready factory creates exactly when the sender signed, the request is admissible and the sender can pay; the stream's initialize never traps |
| FactoryHandoff.AdmittedExactly | contracts/factory/src/governance.rs:25-44 | The admission checks pass exactly for an unpaused, governed factory and a request within the rate and length bounds, not backdated and funded for its length |
| FactoryHandoff.RefusalsAreGenuine | contracts/factory/src/lib.rs:79-122 | The error reported for a refused request names something really wrong with it, whichever checks came before |
| FactoryCalls.CreationAnswersExactly | contracts/factory/src/lib.rs:61-224 | A creation has its whole effect if its eighteen checks pass: the next id, the requested record with the clawback choice, registration under sender and recipient, the deposit moved, and no other change; otherwise the error of the first check in order that fails |
| FactoryCalls.CreateStreamAnswers | contracts/factory/src/lib.rs:61-224 | The same of the call on the contract, clawback choice included |
| FactoryCalls.DefaultGovernorAdmits | contracts/factory/src/governance.rs:25-44 | Under a governor that was only deployed, a funded fixed-length request is admitted exactly from 3,600 to 315,360,000 seconds and up to a rate of 10^15 |
| FactoryHandoff.CreatedStreamStaysSolvent | contracts/factory/src/lib.rs:103-114 | A fixed-length stream created without clawback can pay what it reports as withdrawable after any run that does not cancel it |
| FactorySystem.ProjectionIsARun | docs/architecture.md:66-68 | Any run of the factory and all its streams together, in any interleaving over shared token books, is for each stream a run of that stream alone |
| FactorySystem.SeenCallsAreOwn | docs/architecture.md:66-68 | The calls in that run are the calls made on the stream itself; all else it sees is time and transfers by others |
| FactorySystem.EveryStreamIsSolvent | contracts/factory/src/lib.rs:103-114 | In every state the whole deployment can reach, each live fixed-length stream without clawback holds or has paid its contracted amount and can pay what it reports as withdrawable |
| FactoryDirectory.RegistryStaysInOrder | contracts/factory/src/lib.rs:134-227 | Over every run of the whole deployment, calls on streams included, addresses and both indices stay exactly those of the streams created |
| FactoryDirectory.PartiesFollowCreation | contracts/stream/src/lib.rs:417-429 | After any such run each stream's record names the sender it was created by, and as recipient the last successful handover's or else the original one |
| FactoryDirectory.IndicesFollowStreams | contracts/factory/src/storage.rs:35-49 | An id is listed under its stream's sender and nobody else; it is listed under its stream's current recipient exactly if the stream was never handed over, or last back to the recipient it was created for |
| FactoryHandoff.BoundsExcludeOverflowExactly | contracts/governor/src/lib.rs:131-143 | For every setting of the bounds, requests within them are free of the overflow error exactly when none is long enough to be admitted or max rate x the longest possible duration fits an i128 |
| FactoryHandoff.SettersAllowOverflow | contracts/governor/src/lib.rs:150-169 | A governor reached by deployment and one accepted rate change lets through, within all its bounds, a request that overflows |
| FactoryContract.DripFactory.CreateStream | contracts/factory/src/lib.rs:61-228 | Result and new state are those of the machine's creation; any later failure undoes the deposit, the deployment and the writes |
| FactoryContract.DripFactory.CreateBatchStreams | contracts/factory/src/lib.rs:244-273 | Result and new state are those of the fold over the requests; the first error restores the state before the batch |
| FactoryContract.DripFactory.Admit | contracts/factory/src/lib.rs:79-122 | No error is returned exactly for an admissible request, and an error that is returned names something really wrong with the request, the factory or the governor |
| FactoryContract.DripFactory.RegisterStream | contracts/factory/src/lib.rs:174-220 | Writes the address, the next count and both indices, or traps when the counter is full |
| FactoryContract.DripFactory.Initialize | contracts/factory/src/lib.rs:40-53 | Sets the code hash, the governor and a zero count once; a second call changes nothing |
| FactoryContract.DripFactory.Pause | contracts/factory/src/lib.rs:352-376 | Result and new state are those of the machine: walk, then the flag |
| FactoryContract.DripFactory.Unpause | contracts/factory/src/lib.rs:381-401 | Result and new state are those of the machine: walk, then the flag |
| FactoryContract.DripFactory.UpgradeStreamWasm | contracts/factory/src/lib.rs:328-342 | Result and new state are those of the machine: walk, then the code hash |
| FactoryCalls.MaintenanceAnswersExactly | contracts/factory/src/lib.rs:328-402 | Pause, unpause and upgrade are refused exactly for an unknown governor, its missing signature or nothing to switch, in this order; otherwise each writes its own key and moves the cursor eight further round the count |
| FactoryCalls.SetupAnswersExactly | contracts/factory/src/lib.rs:40-53 | Setup goes through once and stores code, governor and a zero count |
| FactoryCalls.HaltedRefuses | contracts/factory/src/lib.rs:75-82 | While the factory is halted every creation fails, with ContractPaused once the sender signed |
| FactoryCalls.HaltStopsCreation | contracts/factory/src/lib.rs:344-376 | From a halt on nothing is created in any run in which no unpause goes through |
| FactoryCalls.HaltFollowsSwitches | contracts/factory/src/lib.rs:354-410 | After any run the factory is halted exactly if the last accepted switch was a pause |
| FactoryContract.DripFactory.StreamsBySender | contracts/factory/src/lib.rs:281-288 | The page of the sender's index, empty for an unknown sender |
| FactoryContract.DripFactory.StreamsByRecipient | contracts/factory/src/lib.rs:290-297 | The page of the recipient's index, empty for an unknown recipient |
| FactoryContract.DripFactory.BumpPersistentBucket | contracts/factory/src/ttl.rs:56-99 | Moves the cursor to the last of the eight visited ids and extends and counts exactly the visited entries that exist |
| FactoryRegistry.RegistryStaysInOrder | contracts/factory/src/lib.rs:134-227 | In every reachable state addresses are recorded for exactly ids 0..count-1, each index list is exactly the ids created with that sender or original recipient, list lengths add up to the count, and the walker's cursor is below a non-zero count |
| FactoryRegistry.IdsOfExactly | docs/architecture.md:60-64 | The list of an owner's ids is strictly increasing and holds exactly the ids with that owner |
| FactoryRegistry.EveryIdHasOneOwner | contracts/factory/src/lib.rs:187-220 | Each id is in exactly one sender list and one recipient list, and the next address to deploy is free |
| FactoryRegistry.AddressesNeverChange | docs/architecture.md:60-64 | A recorded address stays recorded and unchanged through every later run |
| FactoryRegistry.BatchIsAFold | contracts/factory/src/lib.rs:257-272 | A batch that goes through ends in the state its requests reach as separate calls in order |
| FactoryRegistry.BatchSucceedsExactly | contracts/factory/src/lib.rs:239-243 | It goes through exactly when each of those calls, made in turn, succeeds |
| FactoryRegistry.BatchIdsAreConsecutive | contracts/factory/src/lib.rs:257-272 | It returns the ids count..count+n-1 |
| FactoryCalls.BatchAnswersExactly | contracts/factory/src/lib.rs:244-273 | The batch call goes through exactly with one to a hundred requests each of which would go through as a call of its own in order, with the same clawback choice, and ends where those calls end; an empty or oversized batch has its own error |
| FactoryCalls.BatchRefusalIsTheFirst | contracts/factory/src/lib.rs:257-272 | A batch that does not go through returns the error of its first request that would not |
| FactoryCalls.BatchReturnsNextIds | contracts/factory/src/lib.rs:257-272 | It returns the next ids, in order |
| FactoryCalls.BatchRecordsTerms | contracts/factory/src/lib.rs:257-272 | Stream number i of a batch has request i's recipient, token, rate and times and the clawback choice asked for |
| FactoryRegistry.BatchMovesDeposits | contracts/factory/src/lib.rs:128-162 | Per token it takes exactly the sum of the deposits out of the sender, keeps the supply, and leaves the factory's balance unchanged |
| FactoryRegistry.WalkTouchesLiveEntries | contracts/factory/src/ttl.rs:80-98 | In a registry in order a walk extends and counts all eight visited ids |
| FactoryWalks.WalkedExactly | contracts/factory/src/ttl.rs:11-16 | From any reachable state and through any run, a registered id is visited by the run's maintenance calls if and only if the counts they find keep it in reach |
| FactoryWalks.RunIsWalked | contracts/factory/src/ttl.rs:56-99 | The maintenance calls of a run find growing counts, leave the cursor where the walker's calls on those counts leave it, and visit the same ids |
| FactoryWalks.RoundsStarveZero | contracts/factory/src/ttl.rs:11-16 | For every n: a run from deployment with nine creations before each of n maintenance calls, all successful, in which id 0 is never visited |
| Walker.WalkerCoversEveryId | contracts/factory/src/ttl.rs:72-93 | With a stable count, k calls with 8k >= count visit every id |
| Walker.CursorAdvances | contracts/factory/src/ttl.rs:72-97 | With a stable count the cursor after k calls is the start plus 8k modulo the count |
| Walker.CallVisitsNextEight | contracts/factory/src/ttl.rs:75-93 | One call visits the eight ids after the cursor modulo the count, in order, and stops at the last |
| Walker.AheadIsVisitedInTime | contracts/factory/src/ttl.rs:75-93 | An id x ahead of the cursor is visited within ceil(x/8) calls, however many streams are created in between |
| Walker.OneCallCovers | contracts/factory/src/ttl.rs:75-93 | With at least eight streams one call visits eight different ids exactly when its additions do not saturate; with at most eight it visits all |
| Walker.VisitedExactly | contracts/factory/src/ttl.rs:11-16 | While streams are created, an id ahead of the cursor is visited exactly once the calls suffice to get there; an id behind it exactly if some call finds the count within eight ids a call of the start and the calls suffice to go round that count and on to the id |
| Walker.SlowGrowthCoversEveryId | contracts/factory/src/ttl.rs:11-16 | With at most g new streams between two calls, n calls with 8n >= count + g(n - 1) visit every id there was at the first of them |
| Walker.ZeroVisitedExactly | contracts/factory/src/ttl.rs:75-93 | At id 0 that condition is that some call finds the count within eight ids a call of where the cursor started |
| Walker.GrowthStarvesTheBehind | contracts/factory/src/ttl.rs:11-16 | While every call finds more than eight new ids ahead, no id behind the cursor is ever visited |
| Query.Paginate | contracts/factory/src/query.rs:3-14 | For every offset and limit the page is exactly the in-range slice, without overflow |
| Query.PageExactly | contracts/factory/src/query.rs:3-14 | For any offset and limit a page holds up to limit consecutive elements from the offset, and fewer only where the list ends |
| Query.PagesTileTheIndex | contracts/factory/src/lib.rs:281-297 | Consecutive pages of any positive size, concatenated, give the list back whole, and every offset needed is a u32 |
| Signature.StructRoundTrip | contracts/factory/src/signature.rs:67-90 | Every payload is recovered from its struct bytes |
| Signature.DecodesExactlyEncodings | contracts/factory/src/signature.rs:67-90 | The byte strings that decode are exactly the encodings of payloads |
| Signature.FieldsRoundTrip | contracts/factory/src/signature.rs:40-48 | Every i128 and u64 is recovered from its big-endian bytes |
| Signature.FieldsRoundTripBack | contracts/factory/src/signature.rs:40-48 | Every 16 or 8 bytes are the encoding of the number they decode to |
| Signature.EncodingDigits | contracts/factory/src/signature.rs:30-48 | Numbers are written most significant byte first, in 16 or 8 bytes, negative ones in two's complement, and flags as 0 or 1 |
| Signature.DomainLayout | contracts/factory/src/signature.rs:61-65 | The domain bytes are the 26 characters of the tag followed by the factory's address |
| Signature.StructLayout | contracts/factory/src/signature.rs:67-90 | Each field lies at its own offset of the struct bytes |
| Signature.FinalLayout | contracts/factory/src/signature.rs:92-97 | What is hashed last is the domain's hash followed by the payload's |
| Signature.HashPayload | contracts/factory/src/signature.rs:60-98 | The digest is the hash of the two hashed pre-images, in that order |
| Signature.DigestBindsFactoryAndPayload | contracts/factory/src/signature.rs:50-59 | Two different (factory, payload) pairs with one digest exhibit a collision of the hash function itself |
| Rebate.SplittingNeverGains | contracts/stream/src/yield_integration.rs:103-125 | Splitting an interval into n pieces never gains and loses at most n - 1 units, and every piece succeeds where the whole does |
| Rebate.RebateAnswersExactly | contracts/stream/src/yield_integration.rs:88-133 | The rebate is the whole quotient of principal x basis points x seconds by 10,000 years of 31,557,600 seconds; the rate, the principal and the products are refused in this order |
| Rebate.SplitOnce | contracts/stream/src/yield_integration.rs:103-125 | One cut loses at most one unit and never gains |
| Rebate.RebateIsMonotone | contracts/stream/src/yield_integration.rs:88-133 | Smaller principal, rate or time succeeds wherever the larger does and pays no more |
| Rebate.RebateIsBounded | contracts/stream/src/yield_integration.rs:12-14 | A rebate never exceeds ten percent a year of the principal |
| Governor.AdminCountIsCardinality | contracts/governor/src/role.rs:40-82 | In every reachable state after initialization the admin counter equals the number of accounts holding Admin, is at least 1, and stays so through every continuation; max rate x min duration fits an i128 |
| GovernorCalls.RolesFollowCalls | contracts/governor/src/role.rs:40-82 | After any history an account holds a role exactly if the last accepted call that gave or took that pair gave it |
| GovernorCalls.ConfigFollowsSetters | contracts/governor/src/config.rs:23-43 | After any history every field of the configuration is the argument of the last accepted setter for it, or else the deployment value: 30, 3,600, 315,360,000 and 10^15 |
| GovernorCalls.CallAnswersExactly | contracts/governor/src/lib.rs:30-179 | In every reachable state each governor call writes exactly its parameter or its grants if all its checks pass, the role it asks for among them, and otherwise fails with the error of the first that does not |
| Governor.TransferAuthorityExactly | contracts/governor/src/lib.rs:92-105 | A transfer to another account never meets the last-admin guard and leaves the new account in and the caller out; a transfer to oneself is a revocation, refused to the only admin |
| Governor.SoleAdminCannotTransferToItself | contracts/governor/src/lib.rs:92-105 | Right after deployment the account in charge meets the last-admin guard when it transfers to itself |
| Governor.LastAdminExactly | contracts/governor/src/role.rs:62-82 | Revoking Admin is refused exactly when it would remove the only holder |
| Governor.InitializeOrders | contracts/governor/src/lib.rs:30-52 | Initialization leaves one admin, holding all three roles, and parameters within their bounds |
| Governor.DripGovernor.TransferAuthority | contracts/governor/src/lib.rs:97-105 | Result and new state are those of the step, with the grant undone when the revoke is refused |
| Governor.DripGovernor.Initialize | contracts/governor/src/lib.rs:30-52 | Sets the defaults and grants all roles once; a second call or a trap changes nothing |
| Governor.DripGovernor.GrantRole | contracts/governor/src/lib.rs:68-77 | Result and new state are those of the step |
| Governor.DripGovernor.RevokeRole | contracts/governor/src/lib.rs:82-90 | Result and new state are those of the step, which GovernorCalls.CallAnswersExactly says removes the named pair whatever the role |
| Governor.DripGovernor.SetMaxRate | contracts/governor/src/lib.rs:150-169 | Result and new state are those of the step, including the cross-check with the minimum duration |
| Governor.DripGovernor.SetMinDuration | contracts/governor/src/lib.rs:126-148 | Result and new state are those of the step, including the cross-check with the maximum rate |
| Token.TransferConserves | contracts/stream/src/lib.rs:130-134 | A token transfer moves exactly its amount between the two holders and keeps the supply |
| Token.TransferSucceedsExactly | contracts/stream/src/lib.rs:130-134 | While the supply fits an i128 a transfer fails only for a negative amount or missing funds |
| Token.Bank.TransferTokens | contracts/stream/src/lib.rs:130-134 | A transfer either updates the two holders in one token's book or changes nothing |

## Left out

- Authorization is the set `signers`; signatures, ed25519 verification and SHA-256 itself are not modelled. `Signature.HashPayload` takes the hash as a parameter.
- Deployment is an address derived from the factory and the id plus the call to `initialize`; WASM code and the salt's hash are not modelled.
- Ledger TTL, archival, budget and gas: entries do not expire, and the walker is modelled by the ids it visits and extends.
- Events and the event sequence number.
- The token is a set of balances with a checked transfer; issuer powers, allowances and minting are not modelled.
- Factory fee reads (`protocol_fee_bps`) and the nonce key for signed creation.
- The mock rebate and the vault stubs in `contracts/stream/src/yield_integration.rs`.
- `src/oracle.rs` and `src/batch_transfer_processor.rs`, which no contract uses.
- The unused `set_paused` helper of `contracts/stream/src/state.rs`.
- Other contracts do not act between the token calls of one invocation, as the host forbids re-entry.
- StreamAccounting.ValueIsConserved: the sender is not the stream's own address, since a stream cannot sign for its creation.
- StreamSettlement.SettlementIsConfluent: sender and recipient are not the stream's own address; a recipient can hand its role to that address, and `StreamInvariants.SettlementEmptiesTheStream` says what then stays in the stream.
- Query.Paginate: the list is no longer than a u32 counts, as any host vector.
- Walker.WalkerCoversEveryId: the stream count is at most 2^64 - 8, so that the walker's additions do not saturate.
- Walker.VisitedExactly: likewise, as is FactoryWalks.WalkedExactly; an id created later is covered from the call on that first finds it.
- StreamPauses.PausedInterludeNeverHappened: no withdrawal or clawback of the interlude comes after a start or end that passes during the pause; `StreamPauses.FrozenReadsExactly` shows that the formula then answers differently.
- FactorySystem.EveryStreamIsSolvent: the streams are those of one factory; contracts it did not deploy act only by moving their own tokens.
- FactoryRegistry.RegistryStaysInOrder: between steps the environment may change the clock, the governor and the token books in any way, but not the set of contracts deployed by the factory.
