# Verified protocols of the agent backend

The Convex backend is a set of atomic mutations over shared tables. Several of its features are protocols
in which retries, crashes, lost answers and concurrent callers interleave, and each of them rests on a
property that no single mutation states. This project models those mutations in Dafny and proves the
properties for every input, every interleaving and every run.

A mutation is one step: it commits all its writes or none, so concurrency is interleaving. Every protocol
is written twice. A specification gives the next state as a function of the state, the arguments and the
time, and a transition system over sequences of actions is built from it; the theorems are about that. A
class then holds the tables as fields and updates them in place with the loops and branches of the
mutation, and every method is proved equal to its specification on the whole state. Time is an argument
that is fixed within a mutation.

## Components

| files | protocol |
|---|---|
| `CommandQueue`, `CommandStream`, `CommandHost`, `CommandDelivery`, `CommandEffects`, `CommandOutcomes`, `CommandIds`, `CommandTable` | commands to a remote host: dense numbers, leased delivery through truncated index reads, held commands, stop, acknowledgement, the resolution floor, the host that refuses whatever follows a missing number, and what each poll, fact, tick and verdict does to runs and commands |
| `Events`, `EventAnswers` | events from a host: its outbox with rewritable checkpoints, packing under a byte budget, lost and repeated batches, and the session's cursor |
| `ComputerLifecycle`, `ComputerFencing`, `ComputerActivity` | the tokened maintenance intent of a computer, its transitions, and the activity sessions it excludes |
| `LeaseClaims` | the meter claim queue that repairs its index lazily |
| `Metering`, `MeteringLedger`, `MeteringGuards` | the version-checked debit that moves a hold between a lease and a wallet, and when it is applied |
| `Reservations`, `ReservationRules`, `WalletLedger`, `WalletSolvency` | the other users of that wallet (budget reservations, recorded usage), what all of them conserve together, and when a wallet is overdrawn |
| `McpJournal`, `McpGuarantees`, `McpCleanup`, `McpRuns`, `McpRequests`, `McpExecution`, `McpTransfer`, `McpTable` | the MCP call journal: one call and one execution per request, ordered chunks, quotas, bounded self-rescheduling cleanup, and the client that saves and reads results |
| `Scheduler`, `SchedulerTick`, `SchedulerIdle`, `SchedulerSkip`, `SchedulerDue`, `SchedulerTable` | the automation scheduler: round robin under limits, work left behind, skip policy, stale runs |
| `TopUp`, `TopUpOnce` | settlement of automatic top-ups |
| `Artifacts` | the artifact byte counter |
| `Projection` | the workflow event projector |
| `Drive`, `DriveNames`, `DriveWrites`, `DrivePlacement`, `DriveRules`, `DriveStorage`, `DriveObjects`, `DriveRetention`, `DriveTree`, `DriveTable` | the agent drive: optimistic uploads, metadata receipts, conflict copies, storage accounting and cleanup of retired versions |
| `Common` | options, truncated index pages and ordered scans |

## Properties that hold only under a condition

Some expected properties are false of the code as it stands. Each is stated with the exact condition under
which it holds and a run, or for a single step a concrete case, that breaks it.

- A fresh host that adopts the numbering of the first command it sees can skip an open lower command for good
  (`CommandHost.FreshHostSkipsACommand`, `CommandHost.SkippedByAdoptionStaysAGap`; exact in
  `CommandHost.LowestOpenIsAGapExactly` and `CommandHost.AdoptionSkipsExactly`).
- A host that skipped nothing can still report a gap while an acknowledgement is on its way
  (`CommandHost.GapWhileAcknowledgementIsLost`; exact in `CommandHost.GapExactly`).
- The legacy retry can lower the resolution floor (`CommandHost.RetryLowersFloor`; exact in
  `CommandHost.RetryLowersFloorExactly`).
- A scheduler tick can end with free work of a user behind a busy automation of the same user
  (`SchedulerTick.FreeWorkCanWait`; exact in `SchedulerIdle.LeftBehindExactly`).
- Usage recorded after the fact can spend what a reservation holds, so a wallet is overdrawn and the reservation
  cannot be settled (`WalletSolvency.RecordedUsageEatsHold`; exact in `WalletSolvency.SolventThroughoutExactly` and
  `WalletSolvency.SettlementFailsExactly`).
- Canceling a plan can leave a top-up that nothing was bought with unspendable (`WalletSolvency.CancellationTakesTopUp`;
  exact in `WalletSolvency.TrimTakesCreditExactly`).
- The ledger's allocation check throws for an unlimited wallet (`MeteringLedger.UnlimitedCannotSettle`; exact in
  `MeteringLedger.AllocationFailsExactly`).
- A hold on a released lease is never given back by metering (`WalletLedger.ReleasedWithHold`,
  `WalletLedger.StrandedHold`; exact in `WalletLedger.HoldComesBackExactly`).
- A forced stop that succeeds against a live intent is refused once the intent has run out
  (`ComputerFencing.ForcedStopFailsOnceExpired`; exact in `ComputerFencing.ForcedStopExactly`).
- An event that fits no upload and is no text checkpoint holds up everything behind it
  (`Events.LargeEventHoldsUp`; exact in `Events.EverythingArrives`).
- The artifact counter counts an artifact that is created with an inactive status
  (`Artifacts.RejectedOnArrivalIsCounted`; exact in `Artifacts.CreateIsExactlyRight`).
- A claim can be credited twice if a payment id is empty (`TopUpOnce.CreditedTwice`; exact in
  `TopUpOnce.CreditedAgainExactly`); the run theorems ask for named payments (`TopUpOnce.Named`).
- A user's edit in the millisecond of an agent's write can be overwritten unseen (`DriveWrites.EditIsLost`; exact in
  `DriveWrites.EditSurvivesExactly` and `DriveWrites.StepGrows`).
- The bytes of a text that a user empties stay charged (`DriveStorage.EmptiedNoteStaysCharged`; exact in
  `DriveStorage.UsageIsExact`).
- A replaced version of a drive file can be given out for deletion before its day of grace is over, by the ticket
  that its own upload left (`DriveRetention.VersionGoesEarly`; exact in `DriveRetention.ReplacedIsKeptExactly`).
- Two live entries of a folder can come to share a name (`DriveTree.GuessedRevisionClashes`, `DriveTree.ArrivalsClash`,
  `DriveTree.RenameClashes`; exact in `DriveTree.TreeThroughoutExactly`).

## Layout and conventions

`dafny verify dfyconfig.toml` checks the whole project. Rows of a table are kept in creation order and known
by their position unless the source looks them up by an id; an index read with a limit is a `Page` of a set,
ordered by the index key and then by creation. A refusal is a value; where the source throws, the
specification says that nothing changed.

## Model

| member | source | states |
|---|---|---|
| `CommandQueue.StopLeavesNothingHeld` | convex/agents/remoteRunModel.ts:104-119 | After a stop released the run's held commands and queued the single stop command, no command of the run's page is held any more, which is why the nested stopped fact ends. |
| `CommandStream.ApplyFactIsCalm` | convex/agents/remoteRunModel.ts:97-120 | Applying any fact under any reducer only turns held commands of the run into sendable ones and appends fresh unsent ones with the next numbers; it resolves, renumbers and delivers nothing. |
| `CommandStream.AdvanceIsCalm` | convex/agents/remoteRuns.ts:75-103 | A coordinator advance (refuse, wake, observe, dispatch, probe, stop) has no other effect on the command table either. |
| `CommandStream.AcknowledgeIsQuiet` | convex/agents/connectedAgents.ts:1021-1097 | An acknowledgement or rejection resolves commands or leaves them, delivers nothing and reopens nothing. |
| `CommandStream.CandidatesShape` | convex/agents/connectedAgents.ts:2750-2765 | The merged page of the lowest pending rows and the earliest-expiring claims is in sequence order, and contains every pending row below any pending row in it although both reads are truncated. |
| `CommandStream.NoHoleDelivered` | convex/agents/connectedAgents.ts:2750-2818 | Whenever a poll hands out a command, every lower command was handed out before, comes earlier in the same batch, or is resolved. |
| `CommandStream.StepKeepsInv` | convex/agents/connectedAgents.ts:2722-2831 | Every step (enqueue, session start, run fact, advance, ack, reject, stop, terminal event, poll) keeps dense numbering and hole-freeness; resolution and delivery only grow. |
| `CommandStream.NoHoleInAnyRun` | convex/agents/connectedAgents.ts:2750-2818 | Over every run from an empty environment, sequence numbers are exactly 1..n across all producers and no poll delivers past a hole. |
| `CommandStream.FloorIsExact` | convex/agents/connectedAgents.ts:2840-2867 | The three first-row lookups return exactly the largest k with every command up to k acknowledged or cancelled, in both directions. |
| `CommandStream.FloorNeverFalls` | convex/agents/connectedAgents.ts:2840-2867 | The resolution floor never falls over any run of the protocol steps. |
| `CommandHost.LowestOpenIsAGapExactly` | packages/overlay-agent-host/src/process-host-command.ts:19-33 | In every reachable state of server and host, with messages lost, delayed, reordered or repeated and the host crashing, the lowest open command sent with the current floor is refused as a sequence gap exactly when the host adopted a numbering above it. |
| `CommandHost.AdoptionSkipsExactly` | packages/overlay-agent-host/src/process-host-command.ts:19-33 | After the first command a fresh host takes, the lowest open command is refused exactly when the floor of the server lies below the number the host adopted. |
| `CommandHost.SkippedByAdoptionStaysAGap` | packages/overlay-agent-host/src/process-host-command.ts:19-33 | What a host skipped by adopting a numbering it refuses for good: after any later run and at any reported floor. |
| `CommandHost.FreshHostSkipsACommand` | packages/overlay-agent-host/src/process-host-command.ts:19-22 | A run from the empty table in which that happens: the answer with command 1 is lost and command 2 is the first one the host sees. |
| `CommandHost.GapExactly` | packages/overlay-agent-host/src/process-host-command.ts:21-33 | A host that has a cursor refuses an open command under the current floor exactly when it was skipped by adoption, or is not the next one and something below it is still open. |
| `CommandHost.GapWhileAcknowledgementIsLost` | convex/agents/connectedAgents.ts:3259-3264 | A run from the empty table with a refusal although nothing was skipped: an acknowledgement is lost and the next command was resolved by a terminal event before the host saw it. |
| `CommandHost.GapReplyKeepsCommand` | convex/agents/connectedAgents.ts:1041-1049 | A gap refusal leaves the command table unchanged, so the command stays claimable. |
| `CommandHost.RoundTripRaisesFloor` | convex/agents/connectedAgents.ts:1087-1091 | Processing the lowest open command and recording its acknowledgement raises the floor. |
| `CommandHost.RetryLowersFloorExactly` | convex/agents/connectedAgents.ts:856-868 | The legacy retry, the one step that reopens rows, lowers the floor exactly when it reopens a cancelled command at or below it. |
| `CommandHost.RetryLowersFloor` | convex/agents/connectedAgents.ts:856-868 | A run from the empty table after which the retry lowers the floor. |
| `CommandTable.Table.Insert` | convex/agents/connectedAgents.ts:1000-1010 | Appends a command one above the highest number of the environment. |
| `CommandTable.Table.InsertOnce` | convex/agents/remoteRuns.ts:83-101 | Inserts a stop or probe command unless its id exists. |
| `CommandTable.Table.ReleaseHeld` | convex/agents/remoteRunModel.ts:107-111 | The loop over the run's first hundred commands turns exactly the held ones into sendable shutdowns. |
| `CommandTable.Table.DispatchHeld` | convex/agents/remoteRuns.ts:77-81 | The dispatch loop releases exactly the held commands of the current attempt. |
| `CommandTable.Table.ApplyRemoteFact` | convex/agents/remoteRunModel.ts:60-120 | In-place application of a fact equals the specification on the whole state, nested stopped fact included. |
| `CommandTable.Table.AdvanceRun` | convex/agents/remoteRuns.ts:44-105 | The coordinator step in place equals its specification. |
| `CommandTable.Table.StopEnvironmentCommands` | convex/agents/connectedAgents.ts:2432-2436 | Cancels the open commands among the first thousand of the environment. |
| `CommandTable.Table.AcknowledgeFinished` | convex/agents/connectedAgents.ts:3259-3264 | A terminal event acknowledges the commands of the finished run as specified. |
| `CommandTable.Table.AcknowledgeCommand` | convex/agents/connectedAgents.ts:1021-1097 | Acknowledge, reject and gap branches in place equal the specification. |
| `CommandTable.Table.ExamineCandidate` | convex/agents/connectedAgents.ts:2766-2818 | One candidate of the claim loop: drop, cancel, stop the batch, or take it. |
| `CommandTable.Table.ClaimCommands` | convex/agents/connectedAgents.ts:2722-2831 | The whole poll (two truncated reads, merge, scan, in-place marking) equals the specification about which no-hole is proved. |
| `CommandTable.Table.ResolutionFloor` | convex/agents/connectedAgents.ts:2840-2867 | The three lookups in place return the specified floor. |
| `McpGuarantees.InvGivesQuota` | convex/agents/mcpCalls.ts:92-103 | At any time at most 1000 live calls and 64 MiB of live arguments and results per run. |
| `McpGuarantees.RegisterKeepsInv` | convex/agents/mcpCalls.ts:80-107 | Registering keeps the quota invariant: a new budget may only start when no live call depends on the old one. |
| `McpGuarantees.AppendKeepsInv` | convex/agents/mcpCalls.ts:146-167 | Appending keeps the quota, chunk ownership and result integrity. |
| `McpCleanup.CleanOneKeepsInv` | convex/agents/mcpCalls.ts:204-212 | Cleaning one retired call never strands a chunk: the call row goes only with its last chunks. |
| `McpCleanup.TickKeepsInv` | convex/agents/mcpCalls.ts:197-217 | A cleanup tick keeps every live call and result, deletes at most 64 chunks, leaves no orphan, and either everything retired is gone or it schedules another tick on a strictly smaller journal. |
| `McpCleanup.ChainDrains` | convex/agents/mcpCalls.ts:213-215 | The self-rescheduling chain ends with all retired calls, chunks and budgets gone and everything live as it was. |
| `McpRuns.QuotaInEveryRun` | convex/agents/mcpCalls.ts:92-217 | The quota and the absence of orphans hold in every run at every time, although cleanup deletes budget rows and later registrations start new ones. |
| `McpRuns.ClaimedAtMostOnce` | convex/agents/mcpCalls.ts:124-138 | Over any run, interleaving and retries, claim answers true at most once per call. |
| `McpRuns.ResultIsWhatWasAppended` | convex/agents/mcpCalls.ts:146-183 | The stored result of an unretired call is what it was plus exactly the chunks newly accepted since, in order; replays add nothing and a finished result never changes. |
| `McpRuns.StoredResultIsAppendedSequence` | convex/agents/mcpCalls.ts:146-167 | From an empty journal the stored result is exactly the sequence of accepted chunks. |
| `McpTransfer.SplitIsTheBytes` | src/server/agents/McpCallJournal.ts:50-56 | The client's chunks are non-empty, at most 64 KiB, and concatenate to the bytes. |
| `McpTransfer.PageIsTheNextIndices` | convex/agents/mcpCalls.ts:185-193 | Each page of a finished result is exactly the next eight indices, or all that are left. |
| `McpTransfer.FetchReturnsTheRest` | src/server/agents/McpCallJournal.ts:61-69 | Paging from any start succeeds and returns the rest of the result. |
| `McpTransfer.SaveResult` | src/server/agents/McpCallJournal.ts:50-59 | The saving loop issues the split of the bytes, chunk by chunk with its number, and a completion with their count. |
| `McpTransfer.SavedResultComesBack` | src/server/agents/McpCallJournal.ts:50-73 | End to end: whenever a call is complete after a run in which its result was written only by that loop, with any of its mutations lost, repeated, delayed or reordered, what reading returns is byte for byte what was saved, and the recorded size is its length. |
| `McpTransfer.LoopComesBack` | src/server/agents/McpCallJournal.ts:50-73 | In particular after any run whose writes to the call are calls that the saving loop returned, each any number of times and in any order. |
| `McpTable.Table.RegisterCall` | convex/agents/mcpCalls.ts:80-107 | Idempotent registration against call table and budget, refusals included. |
| `McpTable.Table.ClaimCall` | convex/agents/mcpCalls.ts:124-138 | The single execution claim. |
| `McpTable.Table.Append` | convex/agents/mcpCalls.ts:146-166 | Ordered, idempotent chunk append with its three refusals. |
| `McpTable.Table.CompleteCall` | convex/agents/mcpCalls.ts:169-182 | Completion, its idempotent repeat and its refusals. |
| `McpTable.Table.DeleteBudgets` | convex/agents/mcpCalls.ts:213-214 | Deletes a page of retired budgets, all of them if fewer than ten. |
| `McpTable.Table.CleanNext` | convex/agents/mcpCalls.ts:207-211 | Deletes a page of one call's chunks and the call when fewer than allowed were left. |
| `McpTable.Table.CleanupExpired` | convex/agents/mcpCalls.ts:197-217 | The cleanup loop with its shrinking chunk budget equals the specified tick, rescheduling answer included. |
| `SchedulerTick.TickIsBounded` | convex/automations/automations.ts:886-983 | A tick reports at most `limit` runs and at most five of one user; they are exactly the runs it queued, each once. |
| `SchedulerTick.TickServesOnce` | convex/automations/automations.ts:891-980 | A tick adds at most one run per automation, at the due time the automation showed when the tick began, and touches no automation that was not due. |
| `SchedulerTick.TickIsFair` | convex/automations/automations.ts:920-981 | A user who still has work and room under the cap had at least as many turns as anyone else less one, and no fewer when the batch did not fill; skipped and disabled items included. |
| `SchedulerIdle.LeftBehindExactly` | convex/automations/automations.ts:920-981 | Told from the desk the tick starts with: the batch does not fill and a user under the cap keeps candidates exactly if, in some round before the batch is full, the candidate of every user who still takes part is paused or busy and this user's lane is longer. The plan policy is taken to read the rows of the automation's own user. |
| `SchedulerIdle.ServesAsAlone` | convex/automations/automations.ts:925-980 | Within a tick a user's candidate is paused, skipped or queued exactly as if that user's lane were served alone from the starting desk. |
| `SchedulerIdle.RoundsEnd` | convex/automations/automations.ts:920-924 | The rounds end with the first one that is idle on the starting desk, or with a full batch before any idle one. |
| `SchedulerTick.FreeWorkCanWait` | convex/automations/automations.ts:920-924 | A concrete tick: one busy automation at the head hides the same user's free one for the whole tick. |
| `SchedulerTick.IdleRound` | convex/automations/automations.ts:922-981 | A round that queues nothing takes exactly one candidate from every user who can go and changes no count. |
| `SchedulerSkip.BusyExactly` | convex/automations/automations.ts:844-877 | The two first-row lookups decide exactly whether some queued or running run of the automation is not yet stale, and change nothing when one is. |
| `SchedulerSkip.IdleIsFree` | convex/automations/automations.ts:844-877 | When the check lets an automation through, none of its runs is queued or running any more, stale ones included. |
| `SchedulerSkip.ServeOutcome` | convex/automations/automations.ts:929-980 | A due automation is disabled without a run, or gets one run at its due time, skipped exactly when an earlier run blocks, and a next due time after both the tick and the one just served. |
| `SchedulerSkip.TickKeepsInv` | convex/automations/automations.ts:942-980 | A whole tick keeps at most one active run per automation and increasing scheduled times. |
| `SchedulerSkip.StepKeepsInv` | convex/automations/automations.ts:1037-1125 | So does every status step of a run and every owner switch, at any time. |
| `SchedulerSkip.OneActiveRunAlways` | convex/automations/automations.ts:844-980 | In every run under the skip policy no automation has two runs queued or running, and the scheduled times of its runs strictly increase. |
| `SchedulerTable.Table.HasQueuedOrRunningRun` | convex/automations/automations.ts:844-877 | The busy check with its stale expiry, in place. |
| `SchedulerTable.Table.ServeNext` | convex/automations/automations.ts:925-980 | Disables, skips or queues one due automation as specified. |
| `SchedulerTable.Table.DealOut` | convex/automations/automations.ts:900-906 | The loop that deals the page out gives every user exactly their due automations in page order. |
| `SchedulerTable.Table.DueLanes` | convex/automations/automations.ts:888-916 | The truncated due page, grouped and with users in order of earliest due time. |
| `SchedulerTable.Table.TakeTurn` | convex/automations/automations.ts:923-980 | One user's turn in a pass. |
| `SchedulerTable.Table.OnePass` | convex/automations/automations.ts:922-981 | One for-loop over the users equals one specified round. |
| `SchedulerTable.Table.ClaimDue` | convex/automations/automations.ts:879-983 | The nested loops end and equal the specified tick. |
| `SchedulerTable.Table.MarkRunStarted` | convex/automations/automations.ts:1037-1056 | Only a queued run starts. |
| `SchedulerTable.Table.RequestRunCancellation` | convex/automations/automations.ts:493-512 | A queued run is cancelled, a running one asked to. |
| `SchedulerTable.Table.SettleManualRun` | convex/automations/automations.ts:692-735 | Compare-and-set settlement. |
| `LeaseClaims.ClaimIsExact` | convex/agents/connectedAgents.ts:1880-1917 | A claim takes due leases only, at most a batch and each once, and leaves the due time and token of every other lease as it was, however many index times it repairs. |
| `LeaseClaims.ArrangeSorted` | convex/agents/connectedAgents.ts:1884-1885 | Candidates are examined in order of meter time, then of last update. |
| `LeaseClaims.ClaimProgresses` | convex/agents/connectedAgents.ts:1888-1911 | With the clock fixed a claim strictly shrinks the part of the index that still looks due, although it reads only the first rows of every status. |
| `LeaseClaims.EveryDueLeaseIsClaimed` | convex/agents/connectedAgents.ts:1873-1917 | With the clock fixed, as many claims as the index shows rows take every due lease exactly once and no other. |
| `LeaseClaims.OnlyLatestClaimFinishes` | convex/agents/connectedAgents.ts:1921-1945 | In any run the stored token is that of the latest unfinished claim, so an overtaken worker's finish is refused and changes nothing. |
| `LeaseClaims.Table.SortOut` | convex/agents/connectedAgents.ts:1886-1902 | The first loop repairs exactly the rows that only look due and collects the batch. |
| `LeaseClaims.Table.ClaimLeases` | convex/agents/connectedAgents.ts:1873-1917 | The two loops equal the specified claim, with the exact `deferred` answer. |
| `LeaseClaims.Table.FinishClaim` | convex/agents/connectedAgents.ts:1921-1945 | Finishing, urgent cleanup included. |
| `MeteringLedger.FinalizeIsExact` | convex/platform/usage.ts:1018-1046 | The ledger moves hold and charge exactly, its clamp never fires, and it keeps a wallet consistent and solvent, also when a canceled plan's credit is trimmed. |
| `MeteringLedger.DebitKeepsDifference` | convex/agents/connectedAgents.ts:2510-2651 | In any world whatever a debit leaves what a wallet has reserved beyond the leases' holds, and used beyond the recorded charges, as it was, and keeps a consistent or solvent wallet so. |
| `WalletLedger.WalletsBalanceAlways` | convex/platform/usage.ts:1018-1110 | In every run of metering and all other users of a wallet (reservations taken, settled, given back, reconciled and corrected; usage charged after the fact; top-ups; plan changes), its reserved amount is exactly what leases and open reservations hold, and its used amount exactly what all of them charged. |
| `WalletLedger.StepKeepsInv` | convex/billing/accountModel.ts:12-24 | Every one of those steps keeps that, with the trim of a canceled plan, and no clamp of the ledger at zero ever fires. |
| `WalletLedger.VersionChargesOnce` | convex/agents/connectedAgents.ts:2510-2512 | Whatever retries race, a debit for one expected version of a lease is applied at most once. |
| `WalletSolvency.SolventThroughoutExactly` | convex/platform/usage.ts:422-453 | In any run a budgeted wallet never commits more than it was given exactly when no charge that was not held for (recorded usage, a raised cost) goes beyond what is neither used nor reserved. |
| `WalletSolvency.StepSolventExactly` | convex/platform/usage.ts:1347-1355 | Step by step: every debit, reservation, settlement, release, refund, top-up and plan change keeps a solvent wallet so; the two other charges do exactly unless they overdraw it. |
| `WalletSolvency.SettlementFailsExactly` | convex/platform/usage.ts:1262-1281 | Settling a reservation within its hold fails exactly when the cost exceeds what the wallet has unspent, which in a solvent budgeted wallet it never does. |
| `WalletSolvency.RecordedUsageEatsHold` | convex/platform/usage.ts:427-443 | A run from the empty world: usage recorded after the fact takes what a reservation holds, the wallet is overdrawn, and the settlement fails. |
| `WalletSolvency.TrimTakesCreditExactly` | convex/billing/accountModel.ts:11-24 | After the trim of a canceled plan a wallet can spend its unreserved top-up less what its allowance was charged beyond the grant, so the trim takes unspent purchased credit exactly when there is such a top-up and included credit was used before. |
| `WalletSolvency.CancellationTakesTopUp` | convex/billing/accountSubscriptions.ts:311-314 | A run from the empty world in which a cancellation leaves a top-up with nothing to spend. |
| `MeteringLedger.RefusedKeepsMoney` | convex/agents/connectedAgents.ts:2521-2526 | A debit that is not applied moves no money, hold or version; a refusal keeps at most the provider evidence and a throw nothing. |
| `MeteringLedger.AllocationFailsExactly` | convex/platform/usage.ts:1029-1035 | The allocation check cannot fail for a funded budgeted wallet; for an unlimited one it fails exactly when the charge beyond the allowance exceeds the top-up left. |
| `MeteringLedger.UnlimitedCannotSettle` | convex/platform/usage.ts:1029-1035 | A concrete unlimited wallet with no allowance cannot settle one micro. |
| `WalletLedger.HoldComesBackExactly` | convex/agents/connectedAgents.ts:2503-2509 | For any lease with a hold in any reachable world, some debit gives the hold back exactly while the lease is neither released nor deleted. |
| `WalletLedger.ReleasedWithHold` | convex/agents/connectedAgents.ts:2503-2509 | A run from the empty world that ends in a released lease with a hold. |
| `WalletLedger.StrandedHold` | convex/agents/connectedAgents.ts:2503-2509 | Such a hold stays on the lease and stays reserved in every run that does not revive the lease. |
| `Metering.Table.FinalizeLedger` | convex/platform/usage.ts:1018-1046 | The ledger write in place, refusing exactly when the allocation does not fit. |
| `Metering.Table.DebitWallet` | convex/agents/connectedAgents.ts:2552-2640 | The wallet checks in their order, then ledger and operation record. |
| `Metering.Table.MeterDebit` | convex/agents/connectedAgents.ts:2476-2651 | The whole debit in place, including what a throw undoes and what a refusal keeps. |
| `ComputerFencing.StopExcludesUse` | convex/agents/connectedAgents.ts:1994-2225 | In every reachable state a stop, idle or delete intent means the lease is stopping or its cleanup failed and no session can start, an idle intent means nobody uses the machine, and at most 64 sessions exist. |
| `ComputerFencing.NoSessionBesideIntent` | convex/agents/connectedAgents.ts:2200-2225 | While an intent is held no session starts and none is renewed, except the one its holder starts by reporting the machine ready, which ends the intent. |
| `ComputerFencing.HandoverNeedsForceOrName` | convex/agents/connectedAgents.ts:2126-2142 | A held intent passes to another token only by a forced stop or delete over an unexpired non-delete intent, or by a takeover naming the old token after it ran out; a delete intent is replaced only by a delete. |
| `ComputerFencing.TransitionsCarryLatestToken` | convex/agents/connectedAgents.ts:2002-2006 | Every transition that succeeds in any run carries the token of the latest successful claim. |
| `ComputerFencing.ReleasedIsFinal` | convex/agents/connectedAgents.ts:2006-2075 | A released lease stays released and its machine is never claimed or moved again. |
| `ComputerFencing.StatusMovesOnlySo` | convex/agents/connectedAgents.ts:1983-2099 | Which act by which holder brings a lease into each status. |
| `ComputerFencing.ForcedStopExactly` | convex/agents/connectedAgents.ts:2126-2142 | When a forced stop gets through, in both directions. |
| `ComputerFencing.ForcedStopFailsOnceExpired` | convex/agents/connectedAgents.ts:2141 | The same forced stop that takes over a live intent is refused once that intent has run out, unless it names the token. |
| `ComputerFencing.AllocationIsFixed` | convex/agents/connectedAgents.ts:2264-2276 | The allocation recipe and the time of the first request never change, and every success reports that time. |
| `ComputerLifecycle.Machine.ClaimIntent` | convex/agents/connectedAgents.ts:2101-2182 | The claim's checks in order and its writes. In place, equal to the specification on the whole state. |
| `ComputerLifecycle.Machine.Advance` | convex/agents/connectedAgents.ts:1983-2099 | All seven transitions. In place, equal to the specification on the whole state. |
| `ComputerLifecycle.Machine.ReleaseIntent` | convex/agents/connectedAgents.ts:2185-2197 | Release by the holder. In place, equal to the specification on the whole state. |
| `ComputerLifecycle.Machine.StartActivity` | convex/agents/connectedAgents.ts:2200-2226 | Session start. In place, equal to the specification on the whole state. |
| `ComputerLifecycle.Machine.EndActivity` | convex/agents/connectedAgents.ts:2229-2244 | Session end. In place, equal to the specification on the whole state. |
| `ComputerLifecycle.Machine.Allocate` | convex/agents/connectedAgents.ts:2247-2278 | Allocation request. In place, equal to the specification on the whole state. |
| `ComputerLifecycle.Machine.StopForBilling` | convex/agents/connectedAgents.ts:2395-2421 | The billing stop. In place, equal to the specification on the whole state. |
| `Events.ConsumedIsTheStream` | convex/agents/connectedAgents.ts:2908-2974 | Whatever is lost, repeated or delayed, a session has taken in exactly the host's events 1..cursor, in order, once each and with the content the host still has; the host drops only events the session has. |
| `Events.FittingIsLongest` | packages/overlay-agent-host/src/outbox-packing.ts:25-38 | Packing takes the longest prefix of the list whose encoding fits the byte budget. |
| `Events.BatchFits` | packages/overlay-agent-host/src/outbox-packing.ts:20-38 | A packed batch is never empty, has at most a hundred events, and is never refused by the session for its size. |
| `Events.RewriteKeepsAttempted` | packages/overlay-agent-host/src/state.ts:278-316 | Rewriting unsent checkpoints never touches anything that was handed to an upload. |
| `Events.AcknowledgementsFit` | packages/overlay-agent-host/src/runtime.ts:242-249 | An accepting answer always covers the batch and never exceeds what was sent, so the host's check on it never fails. |
| `Events.ExchangeProgressesExactly` | packages/overlay-agent-host/src/runtime.ts:242-257 | An answered exchange moves the outbox on exactly unless the events carry an execution and the batch straddles the cursor, which no run comes to (see `Events.RetriesRepeatTheBatch`). |
| `Events.ResumePassesCursorCheck` | convex/agents/connectedAgents.ts:2942-2947 | If a batch did straddle the cursor, a host without an execution that resumes from the expected number would pass the cursor check. |
| `Events.RetriesRepeatTheBatch` | packages/overlay-agent-host/src/state.ts:330-337 | After any run a retry is the attempted batch again, event for event, so no batch ever straddles the cursor: the session has all of it or none. |
| `Events.RejectionIsFinal` | packages/overlay-agent-host/src/runtime.ts:252-257 | Hence a host never has to resume from an expected number: its batch is rejected only for its text, and then it stops with an error. |
| `Events.EverythingArrives` | packages/overlay-agent-host/src/runtime.ts:214-259 | Once answers come through, enough passes of the upload loop (two for each queued event) deliver everything, with or without an execution, exactly when every queued event fits an upload or is a text checkpoint; the session then has the stream, in which only oversized checkpoints were shortened. |
| `Events.EverythingArrivesAfterAnyRun` | packages/overlay-agent-host/src/runtime.ts:214-259 | The same after any run from the start. |
| `Events.LargeEventHoldsUp` | packages/overlay-agent-host/src/runtime.ts:221-228 | A run in which a large event that is no checkpoint keeps everything behind it from arriving, however often the loop runs. |
| `Events.PackEventBatch` | packages/overlay-agent-host/src/outbox-packing.ts:25-38 | The packing loop. |
| `Events.RemoteSession.ApplyEvents` | convex/agents/connectedAgents.ts:2897-2974 | The cursor part of event application. |
| `Events.HostOutbox.AppendOrReplaceCheckpoint` | packages/overlay-agent-host/src/state.ts:278-300 | Replace the newest unsent checkpoint, or append. |
| `Events.HostOutbox.NextBatch` | packages/overlay-agent-host/src/runtime.ts:214-239 | One pass up to the upload: the packed batch, marked as attempted before it leaves, or an oversized checkpoint shortened. |
| `Events.HostOutbox.HandleReply` | packages/overlay-agent-host/src/runtime.ts:242-257 | Acknowledged, rejected and failed answers. |
| `TopUpOnce.CreditedExactlyOnce` | convex/billing/autoTopUpSettlement.ts:25-126 | Over any run of settlements, what an account has purchased is exactly its succeeded rows; a payment has at most one row and so has a claim, whatever payments were reported for it. |
| `TopUpOnce.CreditIsAuthorised` | convex/billing/autoTopUpSettlement.ts:28-125 | A credit goes to the reported account, a billable workspace, for exactly the reported cents, nobody else's balance changes, and a keyed call has a claim that agrees in every field. |
| `TopUpOnce.SettledRowsNeverChange` | convex/billing/autoTopUpSettlement.ts:75-83 | A row that is no longer pending never changes again. |
| `TopUpOnce.ReplayIsRefused` | convex/billing/autoTopUpSettlement.ts:75-83 | After a payment was settled every later call for it, in any run, is refused and changes nothing. |
| `TopUpOnce.CreditedAgainExactly` | convex/billing/autoTopUpSettlement.ts:42 | After a claim was credited for one payment, the same call for another payment credits it again exactly if the first payment's id was empty. |
| `TopUpOnce.CreditedTwice` | convex/billing/autoTopUpSettlement.ts:42 | A run from the empty state in which one authorised charge is credited twice. |
| `TopUpOnce.StepKeepsInv` | convex/billing/autoTopUpSettlement.ts:25-126 | Settling, authorising and recording keep rows and claims paired one to one and the balance equal to the rows. |
| `TopUp.Table.SettlePending` | convex/billing/autoTopUpSettlement.ts:25-126 | Both branches in place equal the specification. |
| `Artifacts.CounterEqualsRecount` | convex/agents/connectedAgents.ts:3435-3469 | Wherever a usage row exists it equals the recount of active artifacts, in every run of create, verdict, link, delete, purge and lazy first computation, when artifacts are created with an active status. |
| `Artifacts.CreateIsExactlyRight` | convex/agents/connectedAgents.ts:1504-1519 | Creation counts the bytes whatever the status argument is, so the counter stays exact exactly when that status is active or the artifact empty. |
| `Artifacts.RejectedOnArrivalIsCounted` | convex/agents/connectedAgents.ts:1504-1519 | A concrete artifact created as rejected is counted though it takes up nothing. |
| `Artifacts.RetireIsExact` | convex/agents/connectedAgents.ts:1631-1635 | Taking an artifact off the counter is exact and never meets the clamp at zero. |
| `Artifacts.LimitHolds` | convex/agents/connectedAgents.ts:1509-1514 | The byte limit bounds the real bytes when every creation is checked against it. |
| `Artifacts.Table.EnsureUsage` | convex/agents/connectedAgents.ts:3435-3469 | The lazy first computation sums up exactly the active artifacts. In place. |
| `Artifacts.Table.CreateArtifact` | convex/agents/connectedAgents.ts:1504-1520 | Creation against the limit. In place. |
| `Artifacts.Table.FinalizeArtifact` | convex/agents/connectedAgents.ts:1609-1644 | Verdict. In place. |
| `Artifacts.Table.DeleteArtifact` | convex/agents/connectedAgents.ts:1665-1678 | Deletion. In place. |
| `Artifacts.Table.LinkArtifact` | convex/agents/connectedAgents.ts:3112-3119 | Link. In place. |
| `Projection.StoredIsOnePass` | convex/automations/workflowEventProjector.ts:50-69 | Under any overlap, retry and split of pages the stored events are those of one in-order pass over a prefix of the log, resolved step names included, with distinct source ids; once complete, of the whole log. |
| `Projection.OverlapAddsTheRest` | convex/automations/workflowEventProjector.ts:52-63 | A page that starts inside what was seen adds only what is beyond it. |
| `Projection.StoredNeverChanges` | convex/automations/workflowEventProjector.ts:50 | Stored events never change or move, and nothing changes after completion. |
| `Projection.FirstNameIsStable` | convex/automations/workflowEventProjector.ts:56-61 | Events of one step without a name of their own all get the name of the step's first stored event. |
| `Projection.Table.RecordProjectionPage` | convex/automations/workflowEventProjector.ts:34-71 | The page loop in place equals the specification, with the inserted count. |
| `DriveWrites.ChangesAreAgainstCurrent` | convex/agents/agentDriveUploads.ts:146-155 | In every step, a file's content, place or existence changes only through a request that names exactly the file's current revision, or through a user's edit that names none. |
| `DriveWrites.StepGrows` | convex/files/files.ts:1171-1187 | A step leaves a file alone or gives it a strictly higher revision, exactly unless it is a user's edit at or before the time the file's revision stands for. |
| `DriveWrites.WinnerMovesPastBase` | convex/agents/agentDriveUploads.ts:146-188 | A replace that goes in place was made against the current revision, moves the file past it, and leaves the uploaded bytes there. |
| `DriveWrites.LoserBecomesCopy` | convex/agents/agentDriveUploads.ts:148-197 | Once a file has moved past a base, a pending replace from that base ends, whatever timely steps came in between, as a copy with the uploaded bytes and leaves the file as it is. |
| `DriveWrites.EditSurvivesExactly` | convex/agents/agentDriveUploads.ts:154-188 | A user's edit survives a replace that was opened before it exactly unless the edit happens in the millisecond of the replaced revision; then the replace overwrites it. |
| `DriveWrites.EditIsLost` | convex/files/files.ts:1171-1187 | A run from the empty drive in which a user's edit is overwritten so. |
| `DriveWrites.CommitTakesEffectOnce` | convex/agents/agentDriveUploads.ts:142 | After an upload was committed, in any run, committing it again changes nothing and returns the same result whenever the caller is still authorised. |
| `DriveWrites.ChangeTakesEffectOnce` | convex/agents/agentDriveMetadata.ts:28-32 | After a metadata change was made, in any run, the same request is answered from its receipt and changes nothing. |
| `DriveWrites.MoveShape` | convex/agents/agentDriveMetadata.ts:43-66 | A move changes the named row only, at its current revision and path, to the new name and folder. |
| `DriveWrites.RemoveShape` | convex/agents/agentDriveMetadata.ts:67-76 | A removal marks the named row only, never a folder with live entries, and keeps its bytes. |
| `DriveStorage.UsageIsExact` | convex/agents/agentDriveUploads.ts:171-194 | In every run an owner's storage usage is exactly the bytes charged to their files, the retired versions whose deletion is not confirmed, and the bytes of texts that users emptied; its clamp never fires. |
| `DriveStorage.StepKeepsBalance` | convex/agents/agentDriveCleanup.ts:37-84 | Upload commits, metadata changes, cleanup claims, confirmations and users' edits each keep that balance. |
| `DriveStorage.EmptiedNoteStaysCharged` | convex/files/files.ts:1227-1236 | A run: a user who empties a note stays charged for what it held. |
| `DriveObjects.DeletedIsNeverReferenced` | convex/agents/agentDriveCleanup.ts:28-66 | A stored object that was deleted or given out for deletion is not referenced by any file, live or tombstone, then or ever after. |
| `DriveObjects.PublishKeepsInv` | convex/lib/agentDriveRetiredObjects.ts:15-25 | A commit can still publish its object because cleanup of it waits a day past the execution's hard deadline. |
| `DriveTree.TreeThroughoutExactly` | convex/agents/agentDriveUploads.ts:154-170 | Each live entry sits in a live folder, every path reaches the root and no two live entries of a folder share a portable name in every state of a run, exactly when the names that replaces in place, files from elsewhere and users' edits bring are free and their folders good. |
| `DriveTree.StepKeepsTreeExactly` | convex/agents/agentDriveUploads.ts:146-197 | The same for one step from any drive that is a tree. |
| `DriveTree.CommitKeepsTreeExactly` | convex/agents/agentDriveUploads.ts:163-170 | A commit keeps the tree exactly unless it goes in place and the name it was opened with is taken by another entry, which it does not check. |
| `DriveTree.ReplacesExactly` | convex/agents/agentDriveUploads.ts:134-170 | The guards, read before the call, that let a pending upload replace its file in place. |
| `DriveTree.AppendKeepsTreeExactly` | convex/lib/agentDriveFiles.ts:24-54 | A new entry keeps the tree exactly when its folder is a live folder and its name is free. |
| `DriveTree.DriveStaysATree` | convex/lib/agentDriveFiles.ts:24-54 | In particular every run stays a tree in which replaces name revisions they have seen and names from elsewhere are free. |
| `DriveTree.MoveKeepsRooted` | convex/lib/agentDriveFiles.ts:24-39 | The walk up from a move's target is enough to keep folders out of themselves. |
| `DriveTree.GuessedRevisionClashes` | convex/agents/agentDriveUploads.ts:148-170 | A run from the empty drive: a replace that names a later revision brings an old name back beside a file that has it by then. |
| `DriveTree.ArrivalsClash` | convex/files/files.ts:822-829 | A run in which other parts of the product bring in two files of one name. |
| `DriveTree.RenameClashes` | convex/files/files.ts:1188-1191 | A run in which a user renames a file to the name of another one. |
| `DriveNames.SearchIsExact` | convex/agents/agentDriveUploads.ts:118-131 | The search gives the first free candidate, and fails exactly when all hundred are taken or an unsafe one comes first. |
| `DriveNames.CandidateShape` | convex/agents/agentDriveUploads.ts:119-124 | Every candidate fits 255 UTF-16 units, keeps the extension and starts with as much of the name as fits: with one character more it would be too long. |
| `DriveNames.FindConflictName` | convex/agents/agentDriveUploads.ts:118-131 | The nested loops, popping one character at a time, equal the specified search. |
| `DriveTable.Table.RequestUpload` | convex/agents/agentDriveUploads.ts:38-103 | The idempotent upload intent with its two tickets. In place, equal to the specification. |
| `DriveTable.Table.PromoteDuplicate` | convex/lib/agentDriveFiles.ts:70-82 | The first duplicate takes over and the others point to it. In place, equal to the specification. |
| `DriveTable.Table.Place` | convex/agents/agentDriveUploads.ts:146-170 | Where a commit goes: in place, under its name, or to a free one. In place, equal to the specification. |
| `DriveTable.Table.Store` | convex/agents/agentDriveUploads.ts:171-197 | The writes of a commit. In place, equal to the specification. |
| `DriveTable.Table.CommitUpload` | convex/agents/agentDriveUploads.ts:133-199 | The whole upload commit. In place, equal to the specification. |
| `DriveTable.Table.MoveRow` | convex/agents/agentDriveMetadata.ts:43-66 | Move. In place, equal to the specification. |
| `DriveTable.Table.RemoveRow` | convex/agents/agentDriveMetadata.ts:67-76 | Remove. In place, equal to the specification. |
| `DriveTable.Table.MakeFolder` | convex/agents/agentDriveMetadata.ts:34-42 | New folder. In place, equal to the specification. |
| `DriveTable.Table.CommitChange` | convex/agents/agentDriveMetadata.ts:17-84 | A metadata change with its receipt. In place, equal to the specification. |
| `DriveTable.Table.ClaimDue` | convex/agents/agentDriveCleanup.ts:37-69 | The cleanup loop over due tickets. In place, equal to the specification. |
| `DriveTable.Table.ConfirmDeletion` | convex/agents/agentDriveCleanup.ts:72-84 | Confirmation releases the bytes. In place, equal to the specification. |
| `Common.PageSize` | convex/agents/connectedAgents.ts:2750-2760 | A truncated index read never exceeds its limit and is the whole range when it falls short of it. |
| `CommandDelivery.ShutdownsAreExact` | convex/agents/connectedAgents.ts:2787-2809 | For every poll: a delivered command goes out as a shutdown exactly when its run, as it stood before the poll, had ended or lost its lease, was over or being cancelled, left its first start unclaimed past the deadline, or has a lifecycle the host cannot follow; cancels, shutdowns and probes are exempt where the source exempts them. |
| `CommandDelivery.BatchStopsExactly` | convex/agents/connectedAgents.ts:2787-2810 | The batch is the longest run of candidates within the limit in which none lies above a held command and none belongs to a live run that no coordinator has taken up. |
| `CommandDelivery.PollTellsRuns` | convex/agents/connectedAgents.ts:2792-2804 | After a poll a run has moved exactly if a delivered command of it brought a fact that its reducer applies (a host that cannot follow it, a start that came too late), and then to what that fact leads to; every other run is as it was. |
| `CommandDelivery.BatchIsClaimed` | convex/agents/connectedAgents.ts:2811-2818 | Every delivered command was pending or an expired claim, is claimed until the end of the lease, and is otherwise unchanged. |
| `CommandDelivery.OpenCommandsAreCandidates` | convex/agents/connectedAgents.ts:2750-2765 | A pending command, and a claimed one whose claim ran out, is a candidate whenever fewer commands than the limit are in its state. |
| `CommandDelivery.NotRedeliveredEarly` | convex/agents/connectedAgents.ts:2757-2765 | In any run no poll hands a claimed command out again before its claim has run out, and a resolved one never. |
| `CommandDelivery.DispatchReleasesExactly` | convex/agents/remoteRuns.ts:74-82 | Dispatching a waiting run sends out every command held for its attempt on the run's page and holds none back; unless the run is stopped at the same time nothing else changes. |
| `CommandEffects.FactRows` | convex/agents/remoteRunModel.ts:97-117 | Held commands of a run go out as shutdowns exactly when a fact stops the run or finds its command unclaimed; a stop also leaves the run's stop command in the table; no other command changes. |
| `CommandEffects.FactRuns` | convex/agents/remoteRunModel.ts:63-66 | A fact moves its own run, and no other, to the lifecycle it reduces to, or to that of the stop of a start that never went out, with a coarse status that follows the phase; a fact that is not applied changes nothing. |
| `CommandEffects.OthersDoNotAdvance` | convex/agents/remoteRuns.ts:49-52 | A tick of anyone but the run's own coordinator of the current generation changes nothing. |
| `CommandEffects.TickReduces` | convex/agents/remoteRuns.ts:65-82 | A tick leaves the run with what the brought fact (refusal, wake-up or observation) reduces it to, or, if that leaves it waiting and it is not being woken, with what the dispatch reduces that to. |
| `CommandEffects.TickReachesHost` | convex/agents/remoteRuns.ts:83-102 | After a tick of its coordinator a run that is being cancelled has its stop command in the table, and one whose process must show itself has the probe of this attempt and minute. |
| `CommandOutcomes.VerdictsAreExact` | convex/agents/connectedAgents.ts:1021-1097 | A verdict is taken exactly while its command is not cancelled and, unless it accepts, not acknowledged; an acceptance acknowledges the command, a gap leaves every command as it is, any other verdict cancels it. |
| `CommandOutcomes.VerdictsTellTheRun` | convex/agents/connectedAgents.ts:1021-1097 | The run of a taken verdict is told by exactly the fact that fits: a delivered decision for its current attempt, or an unknown health for a refusal. |
| `CommandOutcomes.VerdictsFollowUp` | convex/agents/connectedAgents.ts:1021-1097 | A claimed preparation that is to be retried is queued once more as a new command and its run takes the given lifecycle; a refusal fails a run without lifecycle that was not over. |
| `CommandOutcomes.StoppingCancelsOpen` | convex/agents/connectedAgents.ts:2432-2436 | Stopping an environment leaves none of its first thousand commands pending or claimed and touches no other command. |
| `CommandOutcomes.FinishAcknowledges` | convex/agents/connectedAgents.ts:3259-3264 | A terminal event acknowledges exactly what the host was given on the run's page. |
| `CommandIds.IdsAreUnique` | convex/agents/remoteRunModel.ts:104-117 | In every run in which enqueued commands bring ids that are not in use, no two commands carry one id: at most one stop command per attempt, one probe per attempt and minute, one retry per command, however facts, ticks and verdicts interleave. |
| `MeteringGuards.AppliedExactly` | convex/agents/connectedAgents.ts:2476-2640 | A debit is applied exactly when the lease is meterable at this version, amounts are valid, a hold stays with its payer and provider reference, and the payer can pay: a workspace by plan, standing, funds, preview budget and spend limits, told from the fields of request, lease and account; anyone else only for nothing. |
| `MeteringGuards.RestrictedDebit` | convex/agents/connectedAgents.ts:2576-2603 | What is applied against a workspace account without a paid plan leaves no hold and charges only for a confirmed stop; against an inactive one it leaves no hold and charges no more than was held. |
| `MeteringGuards.EvidenceIsKept` | convex/agents/connectedAgents.ts:2520-2535 | Provider evidence survives an applied debit and a refusal alike and is lost only with a throw; the provider reference moves only with an applied debit. |
| `MeteringGuards.UnpaidTakesNoHold` | convex/agents/connectedAgents.ts:2576-2582 | In any run in which a workspace account stays without a paid plan no lease takes a hold against it: each hold stays as it is or is given back. |
| `MeteringGuards.InactivePaysFromHolds` | convex/agents/connectedAgents.ts:2596-2603 | In any run in which a workspace account stays inactive, what metering charged it and what leases hold against it never grow together, and no lease takes a new hold. |
| `ReservationRules.ReservesExactly` | convex/platform/usage.ts:547-678 | A reservation is taken exactly on the workspace's own account, with every outside leave and enough free credit, and then holds exactly its amount. |
| `ReservationRules.ReservationMovesOnlySo` | convex/platform/usage.ts:1200-1530 | How a reservation moves in any step: begun work is remembered, a settlement never exceeds what was reserved, a correction happens at most once, and what is given back or settled is over. |
| `ReservationRules.PendingComesTo` | convex/platform/usage.ts:1425-1520 | Beginning marks a pending reservation, suspending it or settling it beyond its amount leaves it to reconciliation, and a release gives it back only if no work began. |
| `ReservationRules.BegunWorkIsNotGivenBack` | convex/platform/usage.ts:1455-1505 | In any run a reservation on which work began is never given back but by a reconciliation that found no cost. |
| `ReservationRules.CorrectsExactly` | convex/platform/usage.ts:1317-1370 | A correction replaces the charge by the exact cost: downwards in full, upwards as far as the spend limit and the unreserved rest of the wallet reach, and not at all outside the billing period. |
| `ReservationRules.RefundsExactly` | convex/platform/usage.ts:1059-1085 | A refund restores the allowance first and the top-up with the rest. |
| `McpRequests.RequestsAreUnique` | convex/agents/mcpCalls.ts:85-89 | In every run no two calls of the journal share session and JSON-RPC id. |
| `McpRequests.RetryNamesTheSameRow` | convex/agents/mcpCalls.ts:85-89 | Once a registration returned a call, in any later run until 24 hours after the call expired, an authorised registration of the same session and id changes nothing: it returns that row when run, attempt, tool and arguments agree and the call has not expired, and refuses the id as reused otherwise. |
| `McpRequests.RequestExecutesOnce` | convex/agents/mcpCalls.ts:77-138 | From its registration until 24 hours after its expiry, over any run, retries and callers, at most one claim is won for a JSON-RPC request. |
| `McpExecution.RegistersExactly` | convex/agents/mcpCalls.ts:80-97 | A registration is answered exactly for a live authority and a well-formed request: with the row it repeats, or with a new one when request and call id are free and the run has quota left. |
| `McpExecution.ClaimsExactly` | convex/agents/mcpCalls.ts:124-138 | A claim is won exactly for a waiting call, by a named execution, with the approval it needs and a live authority of the call's own session, run and attempt; later claims are told no. |
| `McpExecution.AppendsExactly` | convex/agents/mcpCalls.ts:146-166 | A chunk is taken exactly from the execution that holds the call, as the next one within the quota or as a repeat of a stored one. |
| `McpExecution.CompletesExactly` | convex/agents/mcpCalls.ts:169-182 | A call is completed exactly by the execution that holds it with the counts it has stored, or again with the same result. |
| `McpExecution.CallMovesOnlySo` | convex/agents/mcpCalls.ts:124-182 | In any step a stored call changes only by its claim, its next chunk or its completion, each under a live authority of its own session, run and attempt and by the execution that holds it; cleanup and other callers change no row that stays. |
| `LeaseClaims.ClaimsEarliestFirst` | convex/agents/connectedAgents.ts:1884-1902 | A claim takes the earliest of the due rows it read, in order of meter time and last update, and leaves one only when the batch is full. |
| `LeaseClaims.ClaimedRests` | convex/agents/connectedAgents.ts:1903-1911 | A claimed lease is out of reach for two minutes and until the end of the claim. |
| `LeaseClaims.FinishExactly` | convex/agents/connectedAgents.ts:1931-1944 | A finish succeeds exactly for the holder of the claim on a lease that is not over; it ends the claim, and the lease is next due at the given time, or at once when its machine is being taken down. |
| `LeaseClaims.UrgentIsClaimedAtOnce` | convex/agents/connectedAgents.ts:1935-1938 | Such an urgent lease is taken again by the next claims at that time, whatever next time was asked for. |
| `LeaseClaims.FinishedRests` | convex/agents/connectedAgents.ts:1937-1944 | Any other finished lease is taken by no claim before its next time, in any run. |
| `ComputerActivity.StartedSessionProtects` | convex/agents/connectedAgents.ts:2200-2226 | After a successful start, in every later run in which the session is not ended, renewed, cleared by a forced claim or pruned after its time, it is there with its end, and until then every idle claim and every named unforced stop is refused. |
| `ComputerActivity.SessionMovesOnlySo` | convex/agents/connectedAgents.ts:2143-2244 | Each step of the protocol ends a session, renews it or leaves it exactly as it is; these are all the steps that end or renew one. |
| `ComputerActivity.StartRecords` | convex/agents/connectedAgents.ts:2217-2225 | A start records the session with its end and keeps every other one that has not run out. |
| `ComputerActivity.EndLeavesOthers` | convex/agents/connectedAgents.ts:2229-2244 | Ending one session leaves every other one, and all the rest of the machine, as it was. |
| `ComputerActivity.StartsExactly` | convex/agents/connectedAgents.ts:2204-2222 | When a session starts, in both directions: length, status, intent, machine reference and the number of sessions. |
| `ComputerActivity.ClaimsExactly` | convex/agents/connectedAgents.ts:2101-2182 | When a maintenance claim of any kind succeeds, in both directions: status, machine seen, who may take the intent as it stands, and which sessions stand against it. |
| `ComputerActivity.MovesExactly` | convex/agents/connectedAgents.ts:1983-2099 | When each of the seven transitions succeeds, in both directions. |
| `ComputerActivity.MoveTakesEffect` | convex/agents/connectedAgents.ts:2008-2099 | What a successful transition leaves of status, intent and computer row. |
| `ComputerActivity.StoppingIsNotRevived` | convex/agents/connectedAgents.ts:2008-2099 | A machine that is being stopped, by its intent or by billing, is never put back to work: the holder can only pause, release or fail it. |
| `ComputerActivity.AllocatesExactly` | convex/agents/connectedAgents.ts:2247-2278 | An allocation is granted exactly to the holder of a provisioning intent for the recipe the lease already has, if any, and fixes recipe and time. |
| `ComputerActivity.ReleaseEndsIntent` | convex/agents/connectedAgents.ts:2185-2197 | A release ends exactly the intent of its token. |
| `ComputerActivity.BillingStops` | convex/agents/connectedAgents.ts:2404-2416 | Billing stops every machine that is neither released nor failed, whoever holds the intent. |
| `TopUpOnce.SettlesExactly` | convex/billing/autoTopUpSettlement.ts:25-126 | A report settles its payment exactly when it matches, in every field and on a paying account, the pending row of the payment or an authorised charge without one, and credits exactly when it is also paid. |
| `TopUpOnce.PaidReportCredits` | convex/billing/autoTopUpSettlement.ts:75-125 | A matching paid report turns the pending row into a succeeded one and raises the account's purchased and remaining credit, and no other, by its cents. |
| `TopUpOnce.RowSettlementEnds` | convex/billing/autoTopUpSettlement.ts:84-125 | How each ending leaves the row and the claim it was made for; nothing else changes, and without payment no balance does. |
| `TopUpOnce.ClaimSettlementEnds` | convex/billing/autoTopUpSettlement.ts:28-74 | A charge reported before it was recorded becomes one row that agrees with its claim, which takes the payment and ends with it. |
| `TopUpOnce.RecordsExactly` | convex/billing/accountSubscriptions.ts:404-480 | A pending charge of a valid amount is recorded, as one row, exactly when its payment has no row yet and, if it has a key, it is the first of that key and for its claim's cents; the claim takes the payment and waits, unless it was paid already. |
| `Artifacts.VerdictsExactly` | convex/agents/connectedAgents.ts:1609-1644 | A verdict falls only on an uploaded or scanning artifact and makes it clean or rejected, the latter only where its workspace can be counted. |
| `Artifacts.DeletionsAndLinksExactly` | convex/agents/connectedAgents.ts:1665-1678 | An artifact is deleted at most once and linked only while clean or linked. |
| `Artifacts.UncountableExactly` | convex/agents/connectedAgents.ts:3435-3469 | The usage row can be computed exactly unless more than ten thousand artifacts have one active status. |
| `Projection.NamesAreResolved` | convex/automations/workflowEventProjector.ts:55-63 | An event is stored exactly when its source is new: under its own name, else under the name its step was first stored with, else under the step's id. |
| `Projection.PagesMoveTheCursor` | convex/automations/workflowEventProjector.ts:46-69 | A page is taken exactly when it is small enough and starts where the projection stands; it then moves the cursor and completes the projection as it says. |
| `SchedulerDue.OnlyDueAutomationsRun` | convex/automations/automations.ts:891-905 | Every run a tick adds is of an automation that was enabled, not deleted and due when the tick began. |
| `SchedulerDue.LanesHoldTheDue` | convex/automations/automations.ts:890-906 | The users of a tick have only due work, and all of it when the index read is not cut short. |
| `SchedulerDue.LanesInOrder` | convex/automations/automations.ts:908-915 | Each user's work comes up in the order of its due times, and users in the order of their earliest one. |
| `SchedulerDue.RunsMoveOnExactly` | convex/automations/automations.ts:1037-1125 | Between ticks a run moves on only by a step that names it, exactly along the status steps; a settlement wins only from the status it expects. |
| `EventAnswers.AnswersExactly` | convex/agents/connectedAgents.ts:2893-2974 | What a session answers to any batch and when it takes it in, in both directions; a rejection always names the number it waits for. |
| `EventAnswers.HearsExactly` | packages/overlay-agent-host/src/runtime.ts:242-257 | Which answers the host goes on with, and what it then drops from its queue. |
| `EventAnswers.CheckpointsCoalesceExactly` | packages/overlay-agent-host/src/state.ts:278-300 | A checkpoint takes the place of the newest event exactly when that is a queued checkpoint that no upload has or had; otherwise it is one more event. |
| `EventAnswers.ShortensExactly` | packages/overlay-agent-host/src/runtime.ts:221-228 | Exactly an oversized checkpoint at the head of the queue is shortened. |
| `DrivePlacement.CommitPlaces` | convex/agents/agentDriveUploads.ts:146-197 | Where a committed upload ends up: a new file is a conflict exactly when another live entry of its folder has its portable name, a replace exactly when it is stale; without a conflict the result and the row carry exactly the upload's own name, with one the first free candidate; the row is exactly as written. |
| `DrivePlacement.CreatesExactly` | convex/agents/agentDriveUploads.ts:134-175 | When a pending upload of a new file is committed, in both directions. |
| `DrivePlacement.FolderIsMadeExactly` | convex/agents/agentDriveMetadata.ts:34-42 | When a folder is made, in both directions, and the one row it becomes. |
| `DrivePlacement.WritesNeedTheRight` | convex/agents/agentDriveUploads.ts:134-197 | An agent's request changes a row only with leave to edit it and adds one only with leave to create, before the execution's deadline. |
| `DriveRules.IntentsBind` | convex/agents/agentDriveUploads.ts:42-103 | What an upload intent is bound to: the run, execution, bytes and operation it names, the name and folder the caller may write; a repeat returns the upload as it is, or renewed if it ran out. |
| `DriveRules.RequestsHaveOneUpload` | convex/agents/agentDriveUploads.ts:48-62 | In every run a request of a run has at most one upload. |
| `DriveRules.CommitIsAnsweredOnce` | convex/agents/agentDriveUploads.ts:142 | From the commit itself on, in any run, repeating it returns the first answer and changes nothing. |
| `DriveRules.ChangeIsAnsweredOnce` | convex/agents/agentDriveMetadata.ts:28-84 | From a metadata change itself on, in any run, repeating it returns the first answer and changes nothing. |
| `DriveRules.FoldersHoldExactly` | convex/lib/agentDriveFiles.ts:24-39 | An entry may go into a folder exactly when the root is at most 64 levels up through live folders that the caller may edit and that are not the entry itself, and the path stays within 4096 units. |
| `DriveRules.MovesExactly` | convex/agents/agentDriveMetadata.ts:43-66 | When a row is moved, in both directions. |
| `DriveRules.RemovesExactly` | convex/agents/agentDriveMetadata.ts:67-76 | When a row is removed, in both directions. |
| `DriveRules.PromotionIsExact` | convex/lib/agentDriveFiles.ts:70-82 | When a file's bytes go, the first live duplicate of its owner stands on its own, the others point to it, each at a higher revision, and nothing else changes. |
| `DriveRules.ConfirmsExactly` | convex/agents/agentDriveCleanup.ts:72-84 | A deletion is confirmed exactly for a ticket that is gone, or that this claim gave out and no file points to. |
| `DriveRules.CleanedWaits` | convex/agents/agentDriveCleanup.ts:48-66 | A ticket that cleanup leaves in the table is not due again for ten minutes. |
| `DriveRules.RowsAreKept` | convex/agents/agentDriveCleanup.ts:9-26 | Uploads and receipts are kept for two days past the deadline of their execution. |
| `DriveRetention.ReplacedIsKeptExactly` | convex/lib/agentDriveRetiredObjects.ts:5-25 | A replaced version is kept for a day in every run exactly when no other ticket for its bytes, such as the one its own upload left, comes due within that day. |
| `DriveRetention.VersionGoesEarly` | convex/lib/agentDriveRetiredObjects.ts:15-25 | A run from the empty drive in which a replaced version is given out for deletion before a day has passed. |

## Left out

- Authentication, membership, binding and participant checks are one boolean argument each, except where a property depends on them.
- One environment, one computer, one workflow run or one host stream is modelled at a time; steps of others touch other rows.
- Ids that the source draws at random (commands, claims, uploads, storage keys) are taken to be unique and never reused, and empty ids do not occur where the source would treat them as absent: payment ids are named in `TopUpOnce.Named`.
- Transcript projection, messages, parts, stream statistics, liveness, alerts and webhooks are presentation or I/O.
- The remote-run reducer is an arbitrary function, as are the automation schedule (its result is after its argument) and the plan policy, which reads automation rows; billing does not change within a tick.
- The `overlay_cloud` branch of the command poll is a retired runtime, and the repair jobs overwrite protocol state by design; neither is a step.
- The legacy retry is a step of its own in `CommandHost`, outside the run theorems, because it reopens rows.
- The session's `commandCursor` and the host's record of claimed but unfinished commands are not modelled; a crash before a result is recorded is.
- `updateSandboxLeaseByServer`, `patchSandboxLeaseUsageByServer` and `createSandboxLeaseByServer` write lease fields freely and are not steps; billing and timing fields of a computer's lease are not part of `ComputerLifecycle`.
- LeaseClaims.MeterKey: does not tell an undefined meter time from a null one, which the index sorts differently.
- The funding of a billing period, which resets a wallet that has nothing reserved, is not a step of `WalletLedger`; a reservation is known by its position, so its repeated creation under one id is not modelled.
- The operations of `Reservations` and the users' edit in `Drive` are specifications only, without a class beside them.
- Spend limits and the preview budget are answers given to `Metering.Meter`; account ids are taken to be trimmed already.
- Amounts are whole micros after rounding; cents that round to zero micros are not told apart from a zero floor.
- McpJournal.BudgetPage: lets the page of retired budgets be any ten, because the order of that index does not matter to what is proved.
- JSON validity and well-formed text are boolean arguments, and a digest is only checked for its form.
- The scheduler's users are numbered in the order in which their names compare; manual and retried runs bypass the skip check by design and are not in `SchedulerSkip`.
- Text and native checks on an accepted event batch are one `Fate` argument; rate limits only refuse.
- The encoded length of an event is given with it, and what a checkpoint is shortened to is an argument; `Events.Clean` takes it to fit, as it does while the batch without events is at most 512 bytes and the checkpoint's other fields are small.
- `recordTopUpByServer` is modelled only where it inserts the first pending row of a payment; its other branches, reversals and period renewals change purchased credit by other rules.
- The projector's cursor is the position in the workflow's log that it stands for, and each page is taken to be cut from that log.
- Drive uploads do not carry the per-run write budget, and the limit of 10000 entries per folder is not modelled; the scan of a moved folder's entries is one boolean.
- Of the users' own changes to a drive only edits and renames of inline text files are steps; their moves and removals are not.
- Knowledge indexing, growth statistics and file extensions of the drive are not modelled.
- Profiles, asks, spend-limit administration, webhook reservation and onboarding are single-branch table access.
