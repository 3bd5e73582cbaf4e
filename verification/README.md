# Verified models of the Nexus governance, staking, vesting and airdrop contracts

Four CosmWasm contracts move PSI tokens under floor-rounded fixed-point arithmetic. This project states
what they do in Dafny and proves what they promise over whole runs. Check it with
`dafny verify dfyconfig.toml`.

Each contract has a specification module (functions from storage to storage and what is proved about them)
and a module with the contract as a class, whose methods change its fields in place, loop as the source loops, and are
proved against the specification.

| modules | subject |
|---|---|
| `Governance`, `GovernanceContract` | stakes, polls, votes, withdrawals, execution of polls through a message to itself, rollback and reply |
| `GovernanceInvariant` | what each command keeps: polls numbered and indexed by status, shares and deposits add up, votes match locks and tallies, each poll's messages committed once, solvency |
| `GovernanceRuns` | transactions with executions nested to any depth: every moment of them, and what a failure leaves |
| `GovernanceResults` | solvency, share price, vote locks, exact verdicts, message order |
| `GovernanceOutcomes` | when each command succeeds and what it leaves, in products instead of rounded quotients |
| `GovernanceStuck` | polls snapshotted while nobody had staked |
| `PollPaging` | `read_polls`: byte ranges over big-endian keys against numeric order |
| `Staking`, `StakingContract` | reward index, settlement, migration |
| `StakingOutcomes` | what each call leaves and transfers |
| `StakingRuns`, `StakingFunds`, `StakingRecords` | when calls succeed, bounds on what is paid from above and below, whether the scheduled tokens suffice, deleted records |
| `Vesting`, `VestingContract` | schedules with cliffs, claims, registrations |
| `Airdrop`, `AirdropContract` | sorted-pair Merkle proofs, stages, claims |
| `FixedPoint`, `MapSums`, `Bytes`, `Outcomes` | arithmetic, sums over maps, byte strings and hex, options and results |

Conventions. A decimal is a natural number scaled by 10^18; `from_ratio`, the product of a decimal and an
amount, and `multiply_ratio` round down. An `Err`, a panic and an arithmetic abort are all an `Err` here: the
transaction fails and leaves no trace. Block times are parameters and never decrease within a run.

A governance transaction is a `Script`: what other contracts do, as far as this contract can see it. A script
may call any entry point in any order, run parts whose failure is caught and rolled back, make gifts of
tokens, and fail. The script attached to an execution is what the poll's messages turn out to do, so
executions nest. `World` holds the contract's storage with its token balance and three histories that are
rolled back with it: commits of poll messages, payments, and whether a withdrawal ever took more than all
stakes together (`overdrawn`). `Inv` in `GovernanceInvariant` is the invariant of reachable worlds; its solvency part
says that the balance exceeds the open deposits while anybody holds a share, and covers them with no share left
unless `overdrawn`.

Five properties fail in corner cases; for each the project says exactly when it holds, and shows the failure:

- A withdrawal of an explicit amount can take deposits of open polls along (`LastWithdrawalCanOverdraw`). It
  leaves them covered if and only if the amount is at most the balance less the open deposits; otherwise it has
  burned the last share (`ExplicitWithdrawalSolventIff`). While a share is left deposits are covered (`DepositsCovered`).
- A poll snapshotted while nobody had staked cannot be ended once somebody has (`EmptySnapshotBlocksEnd`). An
  expired poll can be ended if and only if neither this holds nor an overdraft without a share left took its
  refund (`EndSucceedsIff`, `OverdraftBlocksRefund`). Such a poll keeps its deposit and the votes on it for as long as shares
  remain (`StuckWhileSharesRemain`).
- A second migration in the same second can cut a slot below what it has emitted (`CutAgainFallsShort`). The
  new amount covers the emissions if and only if the slot is not cut again in that second or divides evenly
  (`CutCoversIff`); a run loses nothing so if and only if all its migrations meet this (`LosesNothingIff`). On
  every run with slots of at most 10^18 seconds the loss is at most one token for each such cut
  (`FundsSufficeButForRecuts`).
- The contract accepts staking slots without duration. Calls succeed if and only if they pass their checks and
  no such slot takes part while something is bonded (`StepSucceedsIff`); after that all but the addition of
  schedules fails for good (`SlotWithoutDurationBlocks`, `BlockedForGood`).
- Registration accepts vesting schedules whose claims lose seconds: those whose cliff lies more than one second
  past the end, or whose recorded genesis lies past both start and cliff, and no others (`NeverLosesIff`). None
  ever pays more than its amount (`PaidAtMostAmount`).

Where comments and code differ, the model follows the code. The comment at
contracts/governance/src/commands.rs:252 speaks of more than 50% of the votes; the code compares with the
configured threshold. The comment at contracts/governance/src/commands.rs:247 speaks of the stakes at the end
of the voting period; the code prefers the snapshot when there is one. The comment at
contracts/governance/src/state.rs:44 calls the share a balance; it is a number of shares.

## Model

| member | source | states |
|---|---|---|
| `GovernanceInvariant.InstantiatedInv` | contracts/governance/src/contract.rs:27-58 | A freshly instantiated contract satisfies the invariant `Inv` described above. |
| `GovernanceInvariant.StakeKeepsInv` | contracts/governance/src/commands.rs:65-102 | Staking keeps the invariant: in particular the total of shares stays the sum of the bank shares. |
| `GovernanceInvariant.NewPollTallied` | contracts/governance/src/commands.rs:172-193 | A new poll starts with empty tallies, and no vote recorded earlier can be counted for it. |
| `GovernanceInvariant.CreateKeepsInv` | contracts/governance/src/commands.rs:104-201 | Creating a poll keeps the invariant: its deposit joins the sum of open deposits, and it is listed once in the index. |
| `GovernanceInvariant.PollChangeKeeps` | contracts/governance/src/commands.rs:277-284 | Moving a poll between non-executed statuses with the matching index update keeps the numbering, the index, the votes, the tallies and the commits, and changes the sum of open deposits by exactly this poll. |
| `GovernanceInvariant.EndEffect` | contracts/governance/src/commands.rs:203-294 | Ending a poll changes its status (to Passed or Rejected), its recorded weight, the deposits, the index and at most one payment of its deposit, and nothing else. |
| `GovernanceInvariant.EndKeepsInv` | contracts/governance/src/commands.rs:203-294 | Ending a poll keeps the invariant, solvency included, whatever the verdict. |
| `GovernanceInvariant.SnapshotKeepsInv` | contracts/governance/src/commands.rs:389-424 | A snapshot keeps the invariant. |
| `GovernanceInvariant.FailKeepsInv` | contracts/governance/src/commands.rs:372-387 | Marking a passed poll failed always succeeds and keeps the invariant. |
| `GovernanceInvariant.StartKeepsInv` | contracts/governance/src/commands.rs:296-328 | An execution that starts has only noted the poll, which is passed, has messages and is past its timelock. |
| `GovernanceInvariant.CommitsExtend` | contracts/governance/src/commands.rs:330-370 | Committing the messages of a passed poll keeps every commit unique, tied to an executed poll, and every executed poll committed. |
| `GovernanceInvariant.SendKeepsInv` | contracts/governance/src/commands.rs:330-370 | Sending the messages of a passed poll past its timelock succeeds and keeps the invariant: at most one commit for a poll, with all its messages. |
| `GovernanceInvariant.VoteKeepsLocks` | contracts/governance/src/commands.rs:475-485 | A vote keeps the correspondence between recorded votes and locks: each recorded vote occurs exactly once among its voter's locks. |
| `GovernanceInvariant.VoteKeepsTallies` | contracts/governance/src/commands.rs:468-473 | After a vote, each open poll's tallies are again the sums of its voters' balances by option. |
| `GovernanceInvariant.VoteEffect` | contracts/governance/src/commands.rs:426-503 | A vote appends one lock, one recorded vote and one tally entry (with perhaps a snapshot), and changes nothing else. |
| `GovernanceInvariant.VoteKeepsInv` | contracts/governance/src/commands.rs:426-503 | Voting keeps the invariant. |
| `GovernanceInvariant.StillLockedKeeps` | contracts/governance/src/commands.rs:588-597 | The in-place filter keeps exactly the locks of open polls, without duplicates. |
| `GovernanceInvariant.WithdrawKeepsLocks` | contracts/governance/src/commands.rs:580-605 | Every locked poll exists, so the unwrap never panics; dropping the locks of finished polls together with their vote entries keeps votes and locks in correspondence and leaves the tallies of open polls alone. |
| `GovernanceInvariant.WithdrawalUsesTerms` | contracts/governance/src/commands.rs:547-578 | A withdrawal burns the shares and pays the tokens of its terms, computed from the votes still locked, drops the locks of finished polls with their votes, and changes nothing else. |
| `GovernanceInvariant.TermsSolvent` | contracts/governance/src/commands.rs:537-551 | A withdrawal that leaves a share takes less than the balance behind the shares, explicit amounts included; one of everything unlocked takes at most that balance. |
| `GovernanceInvariant.WithdrawKeepsInv` | contracts/governance/src/commands.rs:517-578 | Withdrawing keeps the invariant: in particular deposits stay covered while any share is left. |
| `GovernanceRuns.PlainCallKeeps` | contracts/governance/src/contract.rs:71-132 | Every dispatched command other than an execution keeps the invariant. |
| `GovernanceRuns.PlainCallDevelops` | contracts/governance/src/contract.rs:71-132 | Every dispatched command other than an execution only moves poll statuses forward and only extends the histories. |
| `GovernanceRuns.ExecutionSteps` | contracts/governance/src/commands.rs:296-387 | Corollary of how an execution is composed: its internal message and the reply to its failure both act on the poll just noted. |
| `GovernanceRuns.ExecutionOutcome` | contracts/governance/src/commands.rs:296-387 | A started execution either carries all the poll's messages through, or leaves the world before it with the poll marked failed; there is no third outcome. |
| `GovernanceRuns.ExecKeeps` | contracts/governance/src/contract.rs:71-132 | One message with everything it sets off, nested executions included, keeps the invariant and develops the world. |
| `GovernanceRuns.ScriptKeeps` | contracts/governance/src/commands.rs:296-387 | Any sequence of calls, nested, caught and rolled back in any way, keeps the invariant and moves statuses only forward. |
| `GovernanceRuns.TransactionKeeps` | contracts/governance/src/commands.rs:296-387 | A whole transaction, successful or not, keeps the invariant and develops the world. |
| `GovernanceRuns.ReplySound` | contracts/governance/src/contract.rs:60-69 | Corollary of the same: the reply finds the world in which the poll was noted, and there it is Passed and the only one marked; `EveryMomentSound` extends this to every nesting. |
| `GovernanceRuns.ExecutionSound` | contracts/governance/src/commands.rs:296-387 | All moments inside an execution, at any nesting depth, satisfy the invariant, and every reply inside it finds the right poll. |
| `GovernanceRuns.TraceSound` | contracts/governance/src/commands.rs:296-387 | All moments of a whole transaction, including those whose effects are rolled back later, satisfy the invariant, only develop the world it began in, and have every reply find the right poll. |
| `GovernanceRuns.HistoryKeeps` | contracts/governance/src/contract.rs:27-132 | Every world reachable by transactions from instantiation satisfies the invariant. |
| `GovernanceRuns.EveryMomentSound` | contracts/governance/src/contract.rs:60-132 | In every reachable world and at every moment inside every further transaction the invariant holds and every reply finds the right poll. |
| `GovernanceRuns.FailedExecutionOnlyMarksPoll` | contracts/governance/src/commands.rs:372-387 | Corollary of the same: after a failed submessage nothing remains but the noted id and the failed poll. |
| `GovernanceRuns.ExecutionCommits` | contracts/governance/src/commands.rs:330-370 | A successful execution adds the commit of the poll's messages in dispatch order and leaves the poll executed, even if executions nest inside. |
| `GovernanceRuns.ExecutedForGood` | contracts/governance/src/commands.rs:307-309 | An executed poll stays executed under all later transactions, its commit stays, and no later execution of it can start. |
| `GovernanceRuns.HistoryDevelops` | contracts/governance/src/commands.rs:203-387 | Over any later history no poll goes back in its life cycle and nothing recorded is lost. |
| `GovernanceRuns.InternalMessageSafeIff` | contracts/governance/src/contract.rs:120-130 | The internal message checks nothing itself: on a reachable world it keeps the invariant if and only if the guards of the execution command hold. |
| `GovernanceResults.ExplicitWithdrawalSolventIff` | contracts/governance/src/commands.rs:540-557 | A withdrawal of an explicit amount leaves deposits covered if and only if the amount is at most the balance behind the shares; otherwise it has burned the last share. |
| `GovernanceResults.FullWithdrawalSolvent` | contracts/governance/src/commands.rs:540-557 | A withdrawal of everything unlocked never touches deposits and pays at most its share of the stakes. |
| `GovernanceResults.LastWithdrawalCanOverdraw` | contracts/governance/src/commands.rs:540-557 | The exception is real: with 2 shares worth 3 tokens, a withdrawal of 4 succeeds and leaves a deposit of 5 backed by 4. |
| `GovernanceResults.DepositsCovered` | contracts/governance/src/commands.rs:65-578 | In every reachable world, and at every moment inside every transaction, the balance exceeds the open deposits while anybody holds a share; with no share left it covers them unless something was overdrawn. |
| `GovernanceResults.StakeAlwaysSucceeds` | contracts/governance/src/commands.rs:80-82 | A positive stake through the token succeeds if and only if the deposits are covered, hence always while anybody holds a share or if nothing was overdrawn. |
| `GovernanceResults.EndSucceedsIff` | contracts/governance/src/commands.rs:203-294 | In every reachable world a poll can be ended if and only if it is open and expired, and neither shares are outstanding while it was snapshotted at a stake of 0, nor no share is left and an overdraft took the deposit of a quorate poll. |
| `GovernanceResults.OverdraftBlocksRefund` | contracts/governance/src/commands.rs:260-275 | The second case is reached: a withdrawal by the last staker, who has voted, leaves a refund of 5 without cover and the poll cannot be ended. |
| `GovernanceResults.DepositSettled` | contracts/governance/src/commands.rs:228-284 | The deposit goes back to the creator exactly when the unrounded quorum is reached and otherwise joins the balance behind the shares; the poll records the snapshot or else the balance less open deposits, or 0 with no shares. |
| `GovernanceResults.StakeKeepsPrice` | contracts/governance/src/commands.rs:80-91 | With shares outstanding and the deposits covered, staking never lowers the tokens behind a share, compared without dividing. |
| `GovernanceResults.FullWithdrawalKeepsPrice` | contracts/governance/src/commands.rs:529-557 | A full withdrawal never lowers the tokens behind a share. |
| `GovernanceResults.ExplicitWithdrawalPrice` | contracts/governance/src/commands.rs:529-557 | An explicit withdrawal of v burning w of TS shares satisfies v * TS < (w + 1) * TB, so the price falls by less than one share's worth. |
| `GovernanceResults.EndKeepsPrice` | contracts/governance/src/commands.rs:203-294 | Ending a poll never lowers the tokens behind a share. |
| `GovernanceResults.CommandKeepsPrice` | contracts/governance/src/contract.rs:71-132 | In a reachable world with shares, no command but an explicit withdrawal lowers the tokens behind a share. |
| `GovernanceResults.ScriptKeepsPrice` | contracts/governance/src/contract.rs:71-132 | A whole transaction without explicit withdrawals never lowers the tokens behind a share, however its executions nest, fail and are rolled back, as long as a share remains after each call whose effects last. |
| `GovernanceResults.PatientNeverOverdraws` | contracts/governance/src/commands.rs:518-578 | A transaction without explicit withdrawals never uses up deposits, however it nests and fails inside. |
| `GovernanceResults.LargestLockIsLargest` | contracts/governance/src/commands.rs:599-604 | The computed lock is an upper bound of the locked balances and is one of them, or 0 if there are none. |
| `GovernanceResults.LockIsLargestOpenVote` | contracts/governance/src/commands.rs:580-605 | In a reachable world the lock a withdrawal computes is the largest vote of the sender in a poll still open. |
| `GovernanceResults.TermsRespectLock` | contracts/governance/src/commands.rs:537-557 | The shares left after a withdrawal are at least floor(L * TS / TB), exactly that for a full withdrawal, and worth more than L minus one share. |
| `GovernanceResults.WithdrawalCoversLock` | contracts/governance/src/commands.rs:535-552 | What a withdrawal leaves covers the lock it computed, exactly so for a full withdrawal. |
| `GovernanceResults.WithdrawalRespectsLocks` | contracts/governance/src/commands.rs:518-605 | In a reachable world, what any successful withdrawal leaves covers the largest vote of the sender in an open poll: at least floor(L * TS / TB) shares, worth more than L minus one share, and exactly that floor for a full withdrawal. |
| `GovernanceResults.QuorumExact` | contracts/governance/src/commands.rs:228-249 | The rounded quorum test equals the exact one: tallied * 10^18 < quorum * staked. |
| `GovernanceResults.ThresholdExact` | contracts/governance/src/commands.rs:251-256 | Rounding never passes a poll that is not above the threshold; for a threshold a/b with tallied * b <= 10^18 it is above exactly when yes * b > a * tallied. |
| `GovernanceResults.PollPassesIff` | contracts/governance/src/commands.rs:215-258 | An ended poll is passed if and only if somebody voted, tallied * 10^18 is at least the quorum times the snapshot or else the balance less open deposits (the quorum is 0, when no shares are left), and yes * 10^18 >= (threshold + 1) * tallied; for a threshold a/b with tallied * b <= 10^18 the last condition is yes * b > a * tallied. |
| `GovernanceResults.SortIsStable` | contracts/governance/src/commands.rs:339-361 | Messages go out by ascending order number, none lost or repeated, those of one number in their proposed order. |
| `GovernanceOutcomes.StakeOutcome` | contracts/governance/src/commands.rs:65-102 | A stake succeeds exactly for a positive amount through the token with deposits covered; the shares minted are amount * TS / TB rounded down, or the amount when there is no price; only the staker's record, the total and the balance change. |
| `GovernanceOutcomes.ProposalOutcome` | contracts/governance/src/commands.rs:104-201 | A proposal succeeds exactly for a large enough deposit through the token; it opens one poll that ends after the voting period, with the given messages and deposit, and changes nothing else. |
| `GovernanceOutcomes.ConfigurationOutcome` | contracts/governance/src/commands.rs:22-63 | Only the owner changes the configuration; each given field takes its new value, and no other changes. |
| `GovernanceOutcomes.RegistrationOutcome` | contracts/governance/src/commands.rs:505-515 | The token can be registered once. |
| `GovernanceOutcomes.VoteAcceptedIff` | contracts/governance/src/commands.rs:434-466 | In a reachable world a vote is accepted if and only if the poll is open and not over, the voter has not voted on it, and amount * TS <= share * TB for the voter's share. |
| `GovernanceOutcomes.VoteOutcome` | contracts/governance/src/commands.rs:468-494 | A vote adds its amount to one tally, one lock and one recorded vote; it snapshots the balance less deposits exactly if it is the first within the snapshot period, and changes nothing else. |
| `GovernanceOutcomes.SnapshotOutcome` | contracts/governance/src/commands.rs:389-424 | A snapshot succeeds exactly for an open poll without one, within the snapshot period before its end, and stores the balance less open deposits. |
| `GovernanceOutcomes.EndOutcome` | contracts/governance/src/commands.rs:203-294 | Everything that ending a poll changes, with verdict, refund and recorded weight in exact terms. |
| `GovernanceOutcomes.ExecutionStartsIff` | contracts/governance/src/commands.rs:296-316 | An execution starts if and only if the poll has passed, proposes some message, and its timelock has run out. |
| `GovernanceOutcomes.DispatchIsComplete` | contracts/governance/src/commands.rs:339-365 | All messages are sent, executions before migrations, each kind sorted by order number and stably. |
| `GovernanceOutcomes.ReplyOutcome` | contracts/governance/src/contract.rs:60-69 | A reply succeeds exactly for the known id with an existing poll noted, and marks that poll failed. |
| `GovernanceOutcomes.OnlyItselfSends` | contracts/governance/src/contract.rs:120-123 | The internal message succeeds for no sender but the contract. |
| `GovernanceOutcomes.ProposalIsWhatExecutes` | contracts/governance/src/commands.rs:104-370 | Over any later history, whatever is committed for a poll is what was proposed for it, complete and sorted, and not before its voting period and timelock have passed. |
| `GovernanceOutcomes.WithdrawalSucceedsIff` | contracts/governance/src/commands.rs:517-578 | In a reachable world a withdrawal succeeds if and only if the sender's shares suffice for those burned on top of those covering the largest open vote, and the contract holds the tokens; an explicit amount burns its worth rounded down, but at least one share, and a full withdrawal everything above the cover, paid at its worth rounded down. |
| `GovernanceOutcomes.WithdrawalOutcome` | contracts/governance/src/commands.rs:517-578 | What any successful withdrawal burns and pays, in products, and leaves: the sender's record, exactly the votes on open polls, the totals and one payment. |
| `GovernanceStuck.EmptySnapshotBlocksEnd` | contracts/governance/src/commands.rs:228-232 | A proposal and its snapshot before the first stake leave a poll that cannot be ended when it expires: the turnout is divided by 0. |
| `GovernanceStuck.StuckCannotEnd` | contracts/governance/src/commands.rs:203-244 | While shares are outstanding such a poll can at no time be ended, snapshotted again or executed. |
| `GovernanceStuck.ScriptKeepsStuck` | contracts/governance/src/contract.rs:71-132 | No transaction in which shares remain, however nested, changes its status, snapshot or deposit, or removes a vote on it. |
| `GovernanceStuck.StuckWhileSharesRemain` | contracts/governance/src/commands.rs:203-294 | Over any history in which shares remain it stays open, cannot be ended at any time, keeps its deposit among the open ones, and keeps every vote on it locked. |
| `GovernanceContract.Contract.constructor` | contracts/governance/src/contract.rs:27-58 | Instantiation leaves the state of an empty contract without a token. |
| `GovernanceContract.Contract.QueryStaked` | contracts/governance/src/commands.rs:236-238 | The balance less the open deposits, or the failure of the subtraction. |
| `GovernanceContract.Contract.ReceiveStake` | contracts/governance/src/commands.rs:65-102 | The storage writes of a stake realise the stake function proved about above, or fail with its error. |
| `GovernanceContract.Contract.ReceivePoll` | contracts/governance/src/commands.rs:104-201 | The storage writes of a poll creation realise its specification. |
| `GovernanceContract.Contract.MeasureTurnout` | contracts/governance/src/commands.rs:228-244 | The three-way choice of turnout and weight. |
| `GovernanceContract.Contract.FinishPoll` | contracts/governance/src/commands.rs:203-294 | The branches and writes of ending a poll realise its specification, deposit refund included. |
| `GovernanceContract.Contract.NoteExecution` | contracts/governance/src/commands.rs:296-328 | The checks of an execution, in order, and the note of the poll id. |
| `GovernanceContract.Contract.ExecutePollMessages` | contracts/governance/src/commands.rs:330-370 | The index and status writes of sending a poll's messages. |
| `GovernanceContract.Contract.MarkFailed` | contracts/governance/src/commands.rs:372-387 | The index and status writes of failing a poll. |
| `GovernanceContract.Contract.HandleReply` | contracts/governance/src/contract.rs:60-69 | A reply fails the noted poll; an unknown reply id is refused. |
| `GovernanceContract.Contract.TakeSnapshot` | contracts/governance/src/commands.rs:389-424 | The checks and the write of a snapshot. |
| `GovernanceContract.Contract.RecordVote` | contracts/governance/src/commands.rs:426-503 | The checks and writes of a vote: lock, recorded vote, tally and snapshot. |
| `GovernanceContract.Contract.ComputeLockedBalance` | contracts/governance/src/commands.rs:580-605 | The filter loop with its deletions and the maximum loop yield the remaining locks, the remaining votes and the largest lock. |
| `GovernanceContract.Contract.PayOut` | contracts/governance/src/commands.rs:517-578 | The loads, checks, burn and transfer of a withdrawal realise its specification. |
| `GovernanceContract.Contract.PriceWithdrawal` | contracts/governance/src/commands.rs:537-551 | The two cases of a withdrawal's shares and tokens, with their failures, and never more shares than held. |
| `GovernanceContract.Contract.Reconfigure` | contracts/governance/src/commands.rs:22-63 | Each given field replaces the current one, and only the owner may do so. |
| `GovernanceContract.Contract.Dispatch` | contracts/governance/src/contract.rs:71-171 | Dispatch of every entry point, with the self-call guard, realises one step of the specification. |
| `GovernanceContract.Contract.RunExecution` | contracts/governance/src/commands.rs:296-387 | Note, internal message, rollback of the fields to those before it, and reply, as the specification composes them. |
| `GovernanceContract.Contract.ProcessTransaction` | contracts/governance/src/contract.rs:71-132 | A whole transaction moves the state as specified, and a failing one leaves it unchanged; it keeps the invariant, moves poll statuses only forward and loses nothing recorded. |
| `Bytes.BigEndianOrders` | contracts/governance/src/state.rs:312-313 | Big-endian keys of one width are ordered like the numbers they encode. |
| `PollPaging.ExtendedKeyOrders` | contracts/governance/src/state.rs:310-317 | A key with a 0 byte appended sorts before exactly the keys of the larger ids. |
| `PollPaging.ListingIsNumeric` | contracts/governance/src/state.rs:300 | The byte order in which the store iterates is the numeric order of the ids. |
| `PollPaging.RangeIsRemaining` | contracts/governance/src/state.rs:276-287 | The byte bounds cut out exactly the ids after (or before) the given one. |
| `PollPaging.RangeIsNumeric` | contracts/governance/src/state.rs:276-287 | A bounded range runs through exactly those ids in ascending or descending numeric order. |
| `PollPaging.PageIsNumeric` | contracts/governance/src/state.rs:268-308 | A page holds the next ids in numeric order, up to the limit. |
| `PollPaging.ArrangedContinues` | contracts/governance/src/state.rs:268-308 | What follows the first n ids is the arrangement of the ids remaining after the n-th. |
| `PollPaging.PagesContinue` | contracts/governance/src/state.rs:268-308 | For any positive limit, the pages concatenated are the whole numeric arrangement. |
| `PollPaging.PagesListEachOnce` | contracts/governance/src/state.rs:268-308 | For any positive limit, the pages together list every id exactly once, in strict numeric order. |
| `PollPaging.CandidatesExact` | contracts/governance/src/state.rs:289-300 | With or without a filter, a query ranges over exactly the polls of that status: the index misses none and adds none. |
| `PollPaging.QueryNeverFails` | contracts/governance/src/state.rs:268-308 | On a reachable world a query always succeeds; its page holds the next polls of the status asked for in the numeric order asked for, as many as remain up to the limit, which is 10 by default and at most 30. |
| `PollPaging.EveryPollReadOnce` | contracts/governance/src/state.rs:268-308 | Querying again with the id of the last poll received, with no limit given or any but 0, returns every poll (of the status asked for) exactly once in numeric order. |
| `Staking.EmissionChargesElapsed` | contracts/staking/src/contract.rs:371-382 | One update charges a slot for exactly the seconds of the slot between the two updates. |
| `Staking.EmissionSplits` | contracts/staking/src/contract.rs:371-382 | Charging an interval in two parts loses at most one token against charging it at once. |
| `Staking.EmissionCap` | contracts/staking/src/contract.rs:359-387 | However a slot's time is cut into updates, with or without bonds, it never emits more than its amount. |
| `Staking.SplitUpdateRefines` | contracts/staking/src/contract.rs:359-387 | Whenever the single update succeeds, an additional one at an intermediate time succeeds too, never raises the reward index and lowers it by less than n * 10^18 / T + 2 raw units; the update time and the total bond are the same. |
| `Staking.MigrationConserves` | contracts/staking/src/contract.rs:287-325 | What migration counts as distributed is what the kept slots then hold, at most the old total, so the checked subtraction never fails. |
| `Staking.RecutLosesIff` | contracts/staking/src/contract.rs:304-317 | Cutting again a slot that already ends now keeps its amount if and only if the amount divides evenly over its seconds. |
| `Staking.RecutLosesAtMostOne` | contracts/staking/src/contract.rs:304-317 | Such a cut of a slot of at most 10^18 seconds loses at most one token. |
| `Staking.KeptUnchangedIff` | contracts/staking/src/contract.rs:294-318 | Cutting slots that are over changes none if and only if each of those ending now divides evenly. |
| `Staking.SpentEmitsNothing` | contracts/staking/src/contract.rs:359-387 | Slots behind the last update emit nothing more and abort nothing. |
| `Staking.RemigrationSendsNothingIff` | contracts/staking/src/contract.rs:275-342 | A second migration succeeds and sends exactly 0 if it is at a later time, and in the same second if and only if every slot cut then divides evenly. |
| `Staking.RemigrationCanLose` | contracts/staking/src/contract.rs:304-317 | A slot of 12 over 7 seconds has emitted 5 after 3, a cut then leaves 5 in it, and a second cut in the same second leaves 4; `CutAgainFallsShort` reaches this by calls. |
| `Staking.StepKeepsSpent` | contracts/staking/src/contract.rs:275-387 | No call but adding schedules revives spent slots or moves the index. |
| `Staking.IndexFrozenUntilSchedules` | contracts/staking/src/contract.rs:275-387 | After a migration the reward index stands still until schedules are added, whatever else is called. |
| `StakingRuns.AccrueExact` | contracts/staking/src/contract.rs:359-387 | An update credits all stakers together with what was released, short by less than one raw unit for each bonded token; without a bond or new seconds it credits nothing. |
| `StakingRuns.AccrueCovered` | contracts/staking/src/contract.rs:359-387 | Moving the index raises the unrounded claims of all stakers together by exactly what is credited. |
| `StakingRuns.SettleConserves` | contracts/staking/src/contract.rs:389-397 | Settling at a later index never fails, leaves the unrounded claim untouched, and makes pending what was claimable. |
| `StakingRuns.CreditsTelescope` | contracts/staking/src/contract.rs:389-397 | However often a staker with a constant bond is settled, the credits are exactly those of one settlement. |
| `StakingRuns.RebondAddsLessThanOne` | contracts/staking/src/contract.rs:344-357 | A change of bond after a settlement moves the unrounded claim by less than one token, either way. |
| `StakingRuns.BondConserves` | contracts/staking/src/contract.rs:128-152 | A bond keeps the books: unrounded claims move by what is credited, up to less than one token either way. |
| `StakingRuns.UnbondConserves` | contracts/staking/src/contract.rs:154-198 | An unbond keeps the books in the same sense, whether the record is deleted or kept. |
| `StakingRuns.WithdrawConserves` | contracts/staking/src/contract.rs:204-245 | A withdrawal takes from the unrounded claims exactly what it pays, with nothing lost and nothing added beyond what is credited. |
| `StakingRuns.StepConserves` | contracts/staking/src/contract.rs:128-342 | Every call conserves the claims in this sense and keeps the total bond the sum of the bonds and no staker ahead of the index. |
| `StakingRuns.PayoutsBounded` | contracts/staking/src/contract.rs:359-397 | On every run, rewards paid plus rewards still claimable are at most what the index released plus one token for each bond or unbond. |
| `StakingRuns.PayoutsNearlyComplete` | contracts/staking/src/contract.rs:359-397 | On every run they fall short of what the index released by less than one token for each bond, unbond and staker, and one raw unit for each token bonded at each update. |
| `StakingRuns.StepSucceedsIff` | contracts/staking/src/contract.rs:60-342 | With balanced books every call succeeds if and only if its caller, amounts and times pass the checks and no slot without duration blocks an update of the index; no checked subtraction ever fails. |
| `StakingRuns.SlotWithoutDurationBlocks` | contracts/staking/src/contract.rs:365-387 | A slot from 5 to 5 blocks a contract with a bond at time 5. |
| `StakingRuns.BlockedForGood` | contracts/staking/src/contract.rs:365-387 | Once a slot without duration takes part in an update while something is bonded, every later call but the addition of schedules fails for good, and bonds and rewards stay as they are. |
| `StakingFunds.ChargeBacked` | contracts/staking/src/contract.rs:371-382 | An update keeps a running slot's emissions within its amount and charges nothing to a slot that a migration has cut. |
| `StakingFunds.CutCoversIff` | contracts/staking/src/contract.rs:300-318 | The new amount of a kept slot covers everything that can have been emitted from it if and only if it is not cut again in the second of the last cut, or divides evenly. |
| `StakingFunds.CutBacked` | contracts/staking/src/contract.rs:300-318 | Any cut leaves a slot short of what it has emitted by no more than before and, if it is cut again, the tokens it loses. |
| `StakingFunds.DroppedEmittedNothing` | contracts/staking/src/contract.rs:294-297 | A slot that migration drops has emitted nothing. |
| `StakingFunds.TrackKeepsFunded` | contracts/staking/src/contract.rs:128-387 | Every call, whatever its time, keeps emissions within what the slots hold and what was lost by cutting slots again, and the scheduled total equal to the tokens migrated away plus the current slots. |
| `StakingFunds.FundsSuffice` | contracts/staking/src/contract.rs:275-397 | On every run, paid, claimable and migrated tokens together exceed the amounts ever scheduled by at most one for each bond or unbond and the tokens lost by cutting slots again; and the index released at most what the slots hold and those tokens. |
| `StakingFunds.NothingLostIff` | contracts/staking/src/contract.rs:299-318 | A migration in the second of the last one loses nothing if and only if all slots cut then divide evenly. |
| `StakingFunds.LosesNothingIff` | contracts/staking/src/contract.rs:275-342 | A run loses nothing so if and only if each of its migrations is at a new time or meets only slots cut then that divide evenly. |
| `StakingFunds.GuardedFundsSuffice` | contracts/staking/src/contract.rs:275-397 | On the runs that lose nothing, both bounds hold without that slack. |
| `StakingFunds.FundsSufficeButForRecuts` | contracts/staking/src/contract.rs:275-397 | On every run with slots of at most 10^18 seconds, the slack is at most one token for each slot cut again. |
| `StakingFunds.CutAgainFallsShort` | contracts/staking/src/contract.rs:275-342 | One bond and two migrations in one second leave 4 tokens for 5 released, with 13 owed or sent away of 12 ever scheduled. |
| `StakingRecords.SettleSame` | contracts/staking/src/state.rs:66-77 | A missing record settles like a kept empty one, whatever index the latter holds. |
| `StakingRecords.StepSame` | contracts/staking/src/contract.rs:128-245 | A call has the same outcome, transfer and effect on bonds and pending rewards whether or not empty records were deleted. |
| `StakingRecords.DeletionInvisible` | contracts/staking/src/state.rs:61-77 | On every run the contract makes exactly the payments of one that never deletes a record, with the same bonds and pending rewards. |
| `StakingOutcomes.EmissionInProportion` | contracts/staking/src/contract.rs:371-382 | What one update releases from a slot of at most 10^18 seconds is amount * seconds / period, short by less than two tokens. |
| `StakingOutcomes.BondOutcome` | contracts/staking/src/contract.rs:128-152 | A bond adds exactly its amount to the staker's bond and the total, makes the claimable reward pending, and touches no other record. |
| `StakingOutcomes.UnbondOutcome` | contracts/staking/src/contract.rs:154-198 | An unbond transfers exactly its amount and takes it from bond and total, makes the claimable reward pending, deletes exactly an empty record, and touches no other. |
| `StakingOutcomes.WithdrawOutcome` | contracts/staking/src/contract.rs:204-245 | A withdrawal transfers exactly what is claimable at the updated index, leaves nothing pending and the bond as it is, and touches no other record. |
| `StakingOutcomes.SchedulesOutcome` | contracts/staking/src/contract.rs:247-265 | The given schedules are appended, and nothing else changes. |
| `StakingOutcomes.MigrationOutcome` | contracts/staking/src/contract.rs:275-342 | A migration keeps the started slots in order, finished ones untouched and running ones ended now with their amount in proportion, and transfers the whole rest of the schedule total. |
| `StakingContract.ComputeReward` | contracts/staking/src/contract.rs:359-387 | The accumulation loop realises the index update of the specification, aborting exactly on a slot without duration that takes part. |
| `StakingContract.ComputeStakerReward` | contracts/staking/src/contract.rs:389-397 | The in-place settlement realises the settlement function. |
| `Staking.CutInTwoPasses` | contracts/staking/src/contract.rs:294-318 | Dropping exactly the slots that have not started and then cutting the rest equals cutting in one pass. |
| `StakingContract.RetainStarted` | contracts/staking/src/contract.rs:287-297 | The sum of the schedule and the slots that have started. |
| `StakingContract.CutSlots` | contracts/staking/src/contract.rs:299-318 | The rewriting loop cuts every slot as specified and adds up what was distributed. |
| `StakingContract.Contract.constructor` | contracts/staking/src/contract.rs:26-51 | Instantiation starts with index 0, no bond, the given schedule and the current time. |
| `StakingContract.Contract.ReceiveBond` | contracts/staking/src/contract.rs:106-152 | A bond through the staking token realises its specification or changes nothing. |
| `StakingContract.Contract.UnbondTokens` | contracts/staking/src/contract.rs:154-198 | An unbond realises its specification, deleting the record exactly when nothing is left in it, or changes nothing. |
| `StakingContract.Contract.WithdrawRewards` | contracts/staking/src/contract.rs:204-245 | A withdrawal realises its specification or changes nothing. |
| `StakingContract.Contract.AppendSchedules` | contracts/staking/src/contract.rs:247-265 | Schedules are appended only if none starts in the past. |
| `StakingContract.Contract.MigrateStaking` | contracts/staking/src/contract.rs:275-342 | A migration realises its specification or changes nothing. |
| `StakingContract.Contract.Execute` | contracts/staking/src/contract.rs:52-96 | A whole call realises a step of the specification, succeeds exactly when it is admissible, and keeps the books. |
| `StakingContract.Contract.QueryStakerInfo` | contracts/staking/src/contract.rs:632-654 | Without a time the stored record is reported; for a time, the bond and exactly what could be withdrawn then, with failure only where the index cannot be updated. Nothing is stored. |
| `Vesting.ClaimCountsTheDifference` | contracts/vesting/src/contract.rs:167-181 | With a cliff at most one second past the end, each claim counts exactly the seconds that fell due since the last one. |
| `Vesting.UnderflowsIffTimeRunsBack` | contracts/vesting/src/contract.rs:174-176 | The unsigned subtraction aborts if and only if the claim is dated before the last one, past the cliff and with the last claim not past the end. |
| `Vesting.ClaimsTelescope` | contracts/vesting/src/contract.rs:164-191 | Any sequence of claims counts the seconds of one claim: 0 before the cliff, min(end, last claim) - start after it. |
| `Vesting.NothingCountedTwice` | contracts/vesting/src/contract.rs:164-191 | No schedule that registration accepts, and no order of claims, ever counts more seconds than are due. |
| `Vesting.NeverLosesIff` | contracts/vesting/src/contract.rs:90-127 | Which of the schedules that registration accepts never lose seconds: exactly those whose cliff is at most one second past the end and whose recorded genesis is not past both start and cliff. |
| `Vesting.PaidTracksSeconds` | contracts/vesting/src/contract.rs:183-187 | Payments stay below their exact value by less than one token for each claim that counted seconds. |
| `Vesting.PaidAtMostAmount` | contracts/vesting/src/contract.rs:130-191 | Whatever is claimed and whenever, no accepted schedule ever pays more than its amount. |
| `Vesting.UnpaidAtMostLost` | contracts/vesting/src/contract.rs:183-187 | What a schedule of at most 10^18 seconds keeps back is worth less than the seconds not counted, one token, and one for each claim that counted seconds. |
| `Vesting.PaidInFull` | contracts/vesting/src/contract.rs:130-191 | After a claim past the end, a schedule of at most 10^18 seconds has paid all but one token for each claim that counted seconds. |
| `Vesting.RegisteredResets` | contracts/vesting/src/contract.rs:108-128 | Registration is accepted if and only if every schedule is acceptable; it gives each address the schedules of its last entry and the genesis time, and leaves the other records alone. |
| `Vesting.LatestIsLast` | contracts/vesting/src/contract.rs:113-125 | The schedules an address ends up with are those of the last entry that names it. |
| `Vesting.RegistrationOutcome` | contracts/vesting/src/contract.rs:51-54 | Only the owner registers; the records are then exactly those given, and nothing is paid. |
| `Vesting.ClaimOutcome` | contracts/vesting/src/contract.rs:130-162 | A claim succeeds if and only if the account exists and no schedule would count back in time; it pays what it adds to the payments of the schedules, moves the last claim time and touches nothing else. |
| `Vesting.ClaimExtendsPayments` | contracts/vesting/src/contract.rs:164-191 | A claim's amount is what it adds to the payments of all schedules of the account. |
| `Vesting.RegisterKeepsInv` | contracts/vesting/src/contract.rs:108-128 | A registration keeps the agreement between storage and what has been paid since each account's latest registration. |
| `Vesting.ClaimKeepsInv` | contracts/vesting/src/contract.rs:130-162 | A claim keeps the agreement between storage and what has been paid since each account's latest registration. |
| `Vesting.RunKeepsInv` | contracts/vesting/src/contract.rs:38-162 | Every run of registrations and claims with a clock that never goes back keeps that agreement. |
| `Vesting.TotalsBounded` | contracts/vesting/src/contract.rs:164-191 | Over all schedules of an account the payments stay within the sum of the amounts; past all ends, if no schedule loses seconds, they lack at most one token for each counting claim. |
| `Vesting.PaymentsBoundedOnRuns` | contracts/vesting/src/contract.rs:108-191 | On every run no account is paid more than the schedules it was last registered with add up to; if they lose no seconds, a claim past all their ends leaves at most one token for each counting claim; and claims succeed once one has, or if the genesis time fits. |
| `Vesting.ClaimsDoNotAbort` | contracts/vesting/src/contract.rs:174-176 | A later claim never meets a subtraction below zero, whatever the schedules; a first one does not if the genesis time fits. |
| `VestingContract.AssertVestingSchedules` | contracts/vesting/src/contract.rs:90-106 | The loop accepts a list if and only if every schedule in it is acceptable. |
| `VestingContract.ComputeClaimAmount` | contracts/vesting/src/contract.rs:164-191 | The accumulation loop computes the claim amount of the specification, or its abort. |
| `VestingContract.Contract.RegisterVestingAccounts` | contracts/vesting/src/contract.rs:108-128 | The loop stores the records of the specification or fails on the same bad schedule. |
| `VestingContract.Contract.Claim` | contracts/vesting/src/contract.rs:130-162 | A claim pays the specified amount and moves the last claim time, or changes nothing. |
| `VestingContract.Contract.Execute` | contracts/vesting/src/contract.rs:38-56 | A whole call realises a step of the specification, and a failing one, with accounts already written, leaves no trace. |
| `Airdrop.NodeInputInjective` | contracts/airdrop/src/contract.rs:141-151 | The sorted pair determines its two hashes up to their order. |
| `Airdrop.NodeInputSymmetric` | contracts/airdrop/src/contract.rs:141-151 | A node's input does not depend on which child is left. |
| `Airdrop.HonestProofAccepted` | contracts/airdrop/src/contract.rs:134-158 | For any hash function the honest proof of every leaf of every tree leads to its root. |
| `Airdrop.TopOfProof` | contracts/airdrop/src/contract.rs:134-152 | The last hash of an accepted proof is a child of the root, and the rest leads to the other child. |
| `Airdrop.AcceptedProofIsReal` | contracts/airdrop/src/contract.rs:134-158 | Every accepted proof is the honest proof of a real leaf with the claimed input. |
| `Airdrop.LeafInputInjective` | contracts/airdrop/src/contract.rs:128 | With addresses of one length, the concatenated input determines address and amount. |
| `Bytes.DigitsDenote` | contracts/airdrop/src/contract.rs:128 | The decimal text hashed for an amount denotes the amount, without a leading zero. |
| `Bytes.HexDecodeIff` | contracts/airdrop/src/contract.rs:92-96 | A text decodes if and only if it has two hexadecimal digits of either case for each byte, and each byte is their value. |
| `Airdrop.DecodeProofIff` | contracts/airdrop/src/contract.rs:134-139 | A proof is readable if and only if each entry is a hexadecimal hash, and it is read in order. |
| `Airdrop.RegistrationOutcome` | contracts/airdrop/src/contract.rs:82-109 | A registration succeeds exactly for the owner, with a readable root, before stage 255, and stores the given root as the next stage. |
| `Airdrop.StepKeepsRoots` | contracts/airdrop/src/contract.rs:82-178 | Stages are numbered without gaps, a stored root can always be read, and no call changes a root or forgets a claim. |
| `Airdrop.RootsAreWriteOnce` | contracts/airdrop/src/contract.rs:98-102 | No run changes a registered root or forgets a claim. |
| `Airdrop.ClaimsAreUnique` | contracts/airdrop/src/contract.rs:123-126 | After a successful claim every later one of the same user and stage is refused. |
| `Airdrop.HonestClaimSucceeds` | contracts/airdrop/src/contract.rs:111-178 | A leaf's owner who has not claimed gets exactly the leaf's amount with the honest proof, hex-encoded. |
| `Airdrop.ProofRoundTrip` | contracts/airdrop/src/contract.rs:134-139 | Decoding the hex form of a proof gives the proof back. |
| `Airdrop.ClaimIsOfALeaf` | contracts/airdrop/src/contract.rs:111-178 | A successful claim is of a leaf of the stage's tree: the sender's own address and its exact amount. |
| `Airdrop.ClaimSucceedsIff` | contracts/airdrop/src/contract.rs:111-178 | In a stage with a trusted tree a claim succeeds if and only if the sender has not claimed and the proof is the honest one of a leaf with the sender and the amount; it pays the amount and records only the claim. |
| `Airdrop.StepKeepsCap` | contracts/airdrop/src/contract.rs:82-178 | Each call keeps the total paid in a stage within what the leaves of its claimants add up to. |
| `Airdrop.StagePayoutCapped` | contracts/airdrop/src/contract.rs:82-178 | On every run the total paid in a stage is at most the sum of its leaf amounts. |
| `AirdropContract.BytesCmp` | contracts/airdrop/src/contract.rs:180-191 | The index loop decides the lexicographic order of two hashes, all three ways. |
| `AirdropContract.ClimbProof` | contracts/airdrop/src/contract.rs:134-152 | The loop that overwrites the hash computes the specified climb, or fails on the first unreadable entry. |
| `AirdropContract.Contract.RegisterMerkleRoot` | contracts/airdrop/src/contract.rs:82-109 | A registration realises its specification or changes nothing. |
| `AirdropContract.Contract.ClaimTokens` | contracts/airdrop/src/contract.rs:111-178 | A claim realises its specification or changes nothing. |
| `AirdropContract.Contract.Execute` | contracts/airdrop/src/contract.rs:43-61 | A whole call realises a step of the specification, changes no root, forgets no claim and never meets an unreadable root. |

## Left out

- ScriptKeeps: poll messages do not send the contract's internal message themselves and do not move its tokens, as do all theorems over `Tame` scripts; `InternalMessageSafeIff` says exactly when the internal message would be safe.
- StagePayoutCapped: assumes the hash collision-free on the inputs of the tree and of the claims, no leaf input equal to a node input, and addresses of one length; the hash function itself is a parameter.
- EveryPollReadOnce: the pages are read from one state; polls created or moved between two pages are not followed.
- RegisterVestingAccounts: a payment record starts anew at each registration of an account, so the bounds hold for the payments since the latest one.
- Integer widths: amounts and times are unbounded naturals. Subtraction below zero, division by zero and the limit of 255 stages fail as in the source; an overflow of the other integers is not modelled, so results speak about calls that do not overflow.
- The token contract is a balance that transfers reduce. A transfer of 0 is taken to succeed; one that fails would only undo its transaction. The balance found when the governance token is registered is a parameter.
- Address validation and canonical forms: an address is one value, compared for equality.
- ReceivePoll: does not check the lengths of title, description and link, and does not store them; nothing else reads them.
- GovernanceContract.Contract.constructor: does not refuse a quorum or threshold above 1, so the results hold for those too.
- Response attributes, serialization and storage encodings other than the poll keys.
- Owner and configuration updates of staking, vesting and airdrop; a genesis time changed between registrations is covered only through the record kept for each account.
- `auto_stake` and its message building; `auto_stake_hook` amounts to a bond.
- `read_poll_voters` and the paging of vesting accounts: their range helpers are not part of this model.
- The community contract, `migrate` entry points and plain getters: no hard property.
