# BlockWatch: a verified model

BlockWatch polls blockchain nodes, pushes their blocks through a pipeline of goroutines and
tells the owners of watched wallets about their transactions. This project models its hard
core in Dafny and proves what the core keeps. `dafny verify dfyconfig.toml` checks everything.

| files | what they model |
|---|---|
| `HexNumbers`, `HexOrder` | heights as Go strings: strconv's parsing and its int64 limits, wrap-around addition, Go's string order |
| `Polling` | `pollNewBlocks` and `Subscribe` of both clients, over whole runs of polls |
| `Checkpoints` | the Redis and the PostgreSQL checkpoint store |
| `Chflow`, `Pipeline`, `PipelineSafety`, `PipelineTheorems`, `LossWindowWitness`, `RetryWitness`, `PipelineAnswers`, `PipelineDrain` | the chainstream goroutines and blockproc's consumer as a step system: every receive, send, store write and foreign call is a step, any number of networks, any interleaving |
| `PipelineService` | the same goroutines in the source's own form, as loops over channels, each proved to move by steps of that system |
| `Delivery` | from the node to the consumer: a subscription that loses no fetch |
| `Restart`, `RestartWitness` | polling, pipeline and stores together over any number of crashes and restarts |
| `GuardSpec`, `RedisGuard`, `PostgresGuard` | the idempotency guard: one abstract guard that claims, refuses and is marked, and the two stores refining it, answers included, over all interleavings of their commands |
| `Collections`, `WalletWatch`, `Solana` | the wallet index over shared heap sets, notification, claim-notify-mark, and the flattening of Solana blocks |
| `Lifecycle` | Start and Close of chainstream and blockproc, and the channels they open and close |

## How to read the model

The pipeline theorems rest on one idea: everything on its way, read from the consumer back to
the dispatcher's hand, is a single line (`Line`), and a step can only add at its far end
(`LineIsFifo`). Conservation, order, the loss window and delivery all follow from what that
line is equal to. `Item.origin`, `outcomes`, `saves`, `handled` and `reported` are histories;
no step looks at them.

The guard theorems rest on a window: each claim under way keeps the kinds of status (free,
claimed, done) its block has had since the call began, and every refusal is recorded with its
window. A refusal is right if what it says is in there. `ClaimIsARun` ties the window, the
answer and the store to one call of the client's method.

Assumptions appear as predicates: `MonotoneNode` (a node's latest height never decreases),
`Faithful` (a block that arrives without an error has the valid height that was asked for),
`Canonical` (lower-case quantities without leading zeros; compactness is the "Quantity"
section of EIP-1474, lower case is an extra assumption), `Usable` (a latest height below
2^63-1), `Timely` (a guard holder returns before its deadline), `Prompt` (an upsert runs less
than its ttl after its clock reading), `SignedApart` (no two transactions of a Solana block
share their first signature). The contiguity of a run of polls needs no `Canonical`.

What foreign calls answer is always a parameter: the node's answers to a poll (`Poll`) and to
a retry, the store's to a save (`Outside`), the arrival of a claim's and of a mark's reply
(`net`, `mark`; a command whose reply is lost may have run), the wallet storage's and the
notification sink's answers, and whether a launch succeeds. Commands of other clients between
two store commands of one call are parameters too (`others`, `before`, `between`,
`meanwhile`), so a claim is not atomic here either.

## Where the code and its description differ

The model follows the code; each point is a theorem below.

- The poller's comment promises a numeric comparison; the code compares strings. A poll can
  stall across a change of digit count, and `Polling.StallsExactly` says when.
- The `Retry` interface promises an empty slice on success, the retry worker expects nil. With
  the repository's own retrier every retried failure is reported, the recovered ones included
  (`PipelineTheorems.RetryCounts`, and a run that does so, `RetryWitness.RecoveredAndReported`).
- The Redis guard can answer that a block is still in progress although at no instant of the
  call it is (`RedisGuard.MisledAnswer`); `RedisGuard.StillInProgressExactly` gives the exact
  condition, and with timely holders it never happens (`RedisGuard.AnswersAreTrue`).
- A claim is described as exclusive. It is while holders keep their deadlines; for one that
  does not, `SecondHolderExactly` says when a second holder joins it, for either store.
- Redis keys join network and hash by a colon: `RedisGuard.KeysCollideExactly` says which
  pairs of network names can share a key.
- The wallet index is keyed by transaction hash, and all transfers of one Solana transaction
  have the same one. `WalletWatch.NaiveExactly` says when the index is the naive filter and
  `ToldOnlyOwnExactly` when a wallet is told only what it takes part in;
  `Solana.SharedSignatureLosesTransfers` and `Solana.ToldAnothersTransfer` show it is not always.
- Closing chainstream is described as always safe; right after a launch that failed it closes
  the same channels again (`Lifecycle.ChainstreamService.Close`). Blockproc never does that.
- Saving a checkpoint is described as overwriting; PostgreSQL keeps the maximum. On the
  histories the pipeline produces the two agree (`Restart.StoresAgreeOnPipelineHistories`).

## Model

| member | source | states |
|---|---|---|
| HexNumbers.IntOfHexFromInt | internal/pkg/x/types/hex.go:22-73 | parsing inverts formatting on every int64, the smallest included |
| HexNumbers.HexFromIntValidExactly | internal/pkg/x/types/hex.go:22-38 | what HexFromInt prints is accepted back as a Hex exactly for non-negative numbers |
| HexNumbers.DigitValueExactly | internal/pkg/x/types/hex.go:22-73 | the sixteen digits of either case, by value; lower case is printed |
| HexNumbers.ValidHexExactly | internal/pkg/x/types/hex.go:28-38 | the accepted strings are exactly a 0x or 0X prefix and at least one hex digit, of a value below 2^64 |
| HexNumbers.IntOfValidHex | internal/pkg/x/types/hex.go:70-73 | Int of an accepted string is its value clamped to 2^63-1 |
| HexNumbers.IntOfAdd | internal/pkg/x/types/hex.go:62-66 | Add is addition with two's-complement wrap-around |
| HexNumbers.AddIsAnAction | internal/pkg/x/types/hex.go:62-66 | adding a then b is adding a+b modulo 2^64, for every string and whatever overflows in between |
| HexOrder.SameLengthOrder | internal/infra/blockchain/ethereum/block.go:163-165 | on lower-case digits of one length string order is numeric order |
| HexOrder.LessOnCanonical | internal/infra/blockchain/ethereum/block.go:163-165 | Go's string order on canonical heights of any lengths, in numbers: the shorter is compared with the longer's leading digits |
| Polling.EventsChannel.Send | internal/infra/blockchain/ethereum/block.go:169-173 | a send appends one event to the subscription's channel |
| Polling.PollNewBlocks | internal/infra/blockchain/ethereum/block.go:156-177 | one poll sends exactly the events of the closed form, in order, and returns the next height; it terminates |
| Polling.Subscribe | internal/infra/blockchain/ethereum/block.go:193-220 | a subscription sends the polls' events one after the other, from the given or the latest height, or fails with the latest-height error |
| Polling.PollContiguity | internal/infra/blockchain/solana/block.go:179-200 | one poll of a node at most one block behind is a contiguous stretch of fetches, or one error event at the height due |
| Polling.RunContiguity | internal/infra/blockchain/ethereum/block.go:193-220 | over any run of polls of a monotone node the fetches are start, start+1, ... without gap or repetition, errors sit at the height due, and nothing beyond the node's report is asked |
| Polling.RunTellsTheNode | internal/infra/blockchain/ethereum/block.go:156-177 | over any run of polls every fetched height is told with exactly the block and the error its poll got for it, and every failed latest-height call with one event that carries its error |
| Delivery.NothingIsMissed | internal/infra/blockchain/ethereum/block.go:193-220 | if no fetch fails, a run of polls delivers the fetched blocks of start, start+1, ... up to its next height, with none missing |
| Delivery.EveryHeightIsHandled | internal/blockproc/wallet.go:39-50 | and once the pipeline is at rest the consumer has handled exactly these, in that order |
| Polling.StallsExactly | internal/infra/blockchain/ethereum/block.go:163-176 | a poll that is behind emits nothing exactly if the node's height has more digits and smaller leading digits; otherwise it emits all latest-from+1 heights; it never skips one |
| Polling.RunStaysCanonical | internal/infra/blockchain/ethereum/block.go:167-176 | over a whole run on canonical reports every height asked for is canonical, although after the first the poller prints them itself |
| Polling.QuietPollsExactly | internal/infra/blockchain/ethereum/block.go:193-220 | so at every poll of a run nothing is emitted exactly if the subscription has caught up or the node's height has more digits and smaller leading ones |
| Polling.CaughtUpIsQuiet | internal/infra/blockchain/solana/block.go:186-199 | a poll at or one past the node's height emits nothing and keeps its height, although string order may let it through |
| Polling.StallEnds | internal/infra/blockchain/ethereum/block.go:163-176 | the poll that sees a height of all f's catches up in full from any lower height |
| Polling.StallWitness | internal/infra/blockchain/ethereum/block.go:163-165 | at 0xff with the node at 0x100 a poll emits nothing |
| Polling.RewindsExactly | internal/infra/blockchain/ethereum/block.go:163-176 | a poll moves backwards exactly if string order lets it past a node two or more blocks behind; in digits, if the node's height has fewer of them and exceeds as many leading ones of the caller's |
| Polling.LoopCannotEndAtTheTop | internal/infra/blockchain/ethereum/block.go:167-174 | with the latest height at 2^63-1 the loop guard never fails, and the height wraps |
| Checkpoints.CheckpointKeysDiffer | internal/infra/storage/redis/chainstream.go:21-23 | networks have the same key exactly if they are the same |
| Checkpoints.RedisCheckpoints.SaveCheckpoint | internal/infra/storage/redis/chainstream.go:37-40 | replaces the network's value and nothing else |
| Checkpoints.RedisCheckpoints.LoadLatestCheckpoint | internal/infra/storage/redis/chainstream.go:53-66 | the stored value if it is a valid Hex; not found, invalid, and a failing query are told apart |
| Checkpoints.PostgresCheckpoints.SaveCheckpoint | internal/infra/storage/postgresql/chainstream.go:26-32 | inserts the height under the upper-cased network unless present, keeping rows unique |
| Checkpoints.PostgresCheckpoints.LoadLatestCheckpoint | internal/infra/storage/postgresql/chainstream.go:46-57 | a scan of the table finds the row that ordering by height would put first; not found and a failing query are told apart |
| Checkpoints.ToUpperExactly | internal/infra/storage/postgresql/chainstream.go:29 | two names are stored as one exactly if they differ in the case of ASCII letters only |
| Checkpoints.ToUpperFixes | internal/infra/storage/postgresql/chainstream.go:29 | exactly the names without a lower-case letter are stored as they are |
| Checkpoints.PgKeepsNetworksApart | internal/infra/storage/postgresql/chainstream.go:26-57 | a save under a name that differs in more than case does not change a network's checkpoint |
| Checkpoints.PgLoadsOwnCheckpoint | internal/infra/storage/postgresql/chainstream.go:46-57 | a loaded checkpoint has been saved under the network's own name, but for case |
| Checkpoints.LatestByNetwork | internal/infra/storage/postgresql/querier/chainstreamcheckpoint/chainstream_checkpoint.sql.go:14-22 | the result is a row of the network and no row of the network is higher; none means there is no row |
| Checkpoints.RedisLoadsTheLast | internal/infra/storage/redis/chainstream.go:37-66 | after any history of saves Redis loads the last height saved for the network |
| Checkpoints.PgRowsExactly | internal/infra/storage/postgresql/querier/chainstreamcheckpoint/chainstream_checkpoint.sql.go:40-44 | after any history the rows are exactly the saves, upper-cased, as numbers |
| Checkpoints.PgLoadsTheMaximum | internal/infra/storage/postgresql/chainstream.go:26-57 | after any history PostgreSQL loads the maximum saved for the upper-cased network, and not-found exactly if there is none |
| Checkpoints.PgForgetsOrder | internal/infra/storage/postgresql/querier/chainstreamcheckpoint/chainstream_checkpoint.sql.go:14-44 | order and repetition of saves do not change what is loaded |
| Checkpoints.StoresAgreeExactly | internal/infra/storage/redis/chainstream.go:53-66 | Redis never loads more than PostgreSQL, and as much exactly if the last save is the maximum |
| Chflow.Channel.Receive | internal/pkg/x/chflow/chflow.go:10-18 | takes the oldest item, if any |
| Chflow.Channel.Send | internal/pkg/x/chflow/chflow.go:22-29 | appends exactly if there is room |
| Chflow.FirstNonNil | internal/pkg/x/chflow/chflow.go:34-42 | returns the first non-nil channel, nil exactly if there is none |
| Pipeline.ForwardedIsFifo | internal/chainstream/checkpoint.go:73-76 | only the checkpoint worker adds to finalOut; consuming neither drops nor reorders |
| Pipeline.LineIsFifo | internal/chainstream/checkpoint.go:56-78 | every step of every goroutine leaves the line of blocks as it is or adds one at the end |
| Pipeline.ReportsAreFifo | internal/chainstream/block.go:55-71 | the same for failures on their way to the notifier |
| Pipeline.RetriesAreFifo | internal/chainstream/blockchain.go:65-97 | the same for failures on their way through the retry worker |
| PipelineSafety.StepKeepsInv | internal/chainstream/blockchain.go:65-138 | every step of every goroutine keeps the whole invariant: capacities, both conservation laws, retry accounting, registered names, save accounting |
| PipelineSafety.ReachableInv | internal/chainstream/service.go:77-105 | every state of every run from Start satisfies the invariant |
| PipelineTheorems.Conservation | internal/chainstream/blockchain.go:113-138 | place by place from consumer to dispatcher, a network's dispatched blocks are its successful events so far, each in exactly one place |
| PipelineTheorems.FailureConservation | internal/chainstream/blockchain.go:120-128 | the same for failed events, with and without retry |
| PipelineTheorems.NetworkOrder | internal/chainstream/checkpoint.go:56-78 | what a network gets forwarded is a prefix of its successful events in source order; without retry that is everything forwarded for it |
| PipelineTheorems.LossWindow | internal/chainstream/checkpoint.go:63-76 | the blocks with an attempted save are the handled ones followed by at most 12 |
| PipelineTheorems.FailureWindow | internal/chainstream/block.go:55-71 | at most six failures wait for their report, and at most six for their retry or its end |
| LossWindowWitness.LossWindowIsTight | internal/chainstream/service.go:17-21 | a state with exactly 12 is reachable |
| PipelineTheorems.RetryCounts | internal/chainstream/blockchain.go:87-96 | with nil on success each finished retry is a recovery or a report, never both; with an empty slice every finished retry is reported |
| RetryWitness.RecoveredAndReported | internal/chainstream/blockchain.go:72-95 | for any failed event and any block there is a run in which the event is both recovered and reported |
| PipelineAnswers.RetriesAreAnswered | internal/chainstream/blockchain.go:72-86 | over every schedule, the k-th retry holds the errors its fetches were answered, in order, all attempts of them when it gives up, or the block it was answered first |
| PipelineAnswers.ErrorsSinceReceive | internal/chainstream/blockchain.go:72-86 | the worker's errors are exactly those of the fetches since it received its failure |
| PipelineAnswers.SavesAreAnswered | internal/chainstream/checkpoint.go:63-69 | every recorded save has the result the store answered it |
| PipelineAnswers.ReportsAreTraced | internal/chainstream/blockchain.go:88-95 | each report is one failed event with the event's own error followed by the errors the node answered all attempts of its retry, in order; none follow exactly if there is no retry or it got its block |
| PipelineTheorems.RecoveredAtMostOnce | internal/chainstream/blockchain.go:72-86 | recovered blocks are, in order, those of the settled retries, one each |
| PipelineDrain.StuckExactlyWhenQuiescent | internal/chainstream/blockchain.go:65-138 | no step is enabled exactly if nothing is left anywhere: there is no deadlock |
| PipelineDrain.StepLowersMeasure | internal/chainstream/service.go:94-105 | every step lowers one measure, although a retried event can become both a block and a report |
| PipelineDrain.SchedulesAreBounded | internal/chainstream/service.go:94-105 | no schedule is longer than the measure of its first state |
| PipelineDrain.Drain | internal/chainstream/service.go:94-105 | every reachable state can be driven to rest |
| PipelineDrain.DrainedBlocks | internal/blockproc/wallet.go:39-50 | at rest every successful event of every network has been handled once, in order, after one save attempt |
| PipelineDrain.DrainedFailures | internal/chainstream/block.go:55-71 | at rest every failed event has been reported or its retry finished, in order |
| PipelineDrain.DrainedRetries | internal/chainstream/blockchain.go:65-97 | at rest what retries recovered has been handled and what they owe has been reported |
| PipelineService.Service.constructor | internal/chainstream/service.go:77-105 | the channels, their capacities and the choice of the error channel give the initial state |
| PipelineService.Service.DispatchStep | internal/chainstream/blockchain.go:113-138 | one statement of the dispatcher is one enabled step of the system; None exactly while it blocks |
| PipelineService.Service.RetryStep | internal/chainstream/blockchain.go:65-97 | one statement of the retry worker is one enabled step; a fetch asks the failure's network for the failure's height and records the answer, until all attempts have failed |
| PipelineService.Service.CheckpointStep | internal/chainstream/checkpoint.go:56-78 | one statement of the checkpoint worker is one enabled step; a save records what the store answered and the block goes on either way |
| PipelineService.Service.NotifierStep | internal/chainstream/block.go:55-71 | one statement of the failure sink is one enabled step |
| PipelineService.Service.ConsumerStep | internal/blockproc/wallet.go:39-50 | one statement of the consumer is one enabled step |
| PipelineService.Service.Loop | internal/chainstream/blockchain.go:65-138 | the loop of each of the five goroutines moves by its own steps only, with the answers it is given, terminates when left to itself, and leaves the goroutine blocked |
| PipelineService.Service.Run | internal/chainstream/service.go:94-111 | any interleaving of the goroutines is a run of the system whose steps record the answers of their turns, so every theorem on reachable states and schedules applies to it |
| Restart.LaunchAllNetworkSubscriptions | internal/chainstream/blockchain.go:149-169 | each network is subscribed one above its checkpoint modulo 2^64, or empty without one; the first load error of another kind, or the first subscription that fails at that height, ends the launch, and nothing else does |
| Restart.StartHeightExactly | internal/chainstream/blockchain.go:151-158 | the start height by the four outcomes of a load, as the restart theorems use it |
| Restart.SavedBeforeForwarded | internal/chainstream/checkpoint.go:63-76 | without retry a network's forwarded blocks are a prefix of its saved ones, those of its delivered ones |
| Restart.GenerationSaves | internal/infra/blockchain/ethereum/block.go:193-220 | the heights one run saves are valid, ascending, not below its start and not above the node's report |
| Restart.LoadsTheLast | internal/chainstream/checkpoint.go:28-35 | on an ascending history both stores load the last height saved, and not-found exactly without one |
| Restart.ResumesAfterTheLast | internal/chainstream/blockchain.go:151-160 | a restart begins exactly one above the last height saved |
| Restart.ForwardedAscends | internal/chainstream/blockchain.go:149-169 | from any good store state on, over any number of crashes, forwarded heights are strictly increasing and above everything saved before |
| Restart.AtMostOnceAcrossRestarts | internal/chainstream/checkpoint.go:63-76 | with retry off and saves succeeding, no height of a network is forwarded twice or out of order over any crashes and restarts, with either store |
| Restart.StoresAgreeOnPipelineHistories | internal/infra/storage/postgresql/querier/chainstreamcheckpoint/chainstream_checkpoint.sql.go:14-22 | after any number of crashes and restarts on PostgreSQL a Redis store given the same saves would hold the same checkpoint |
| RestartWitness.RestartsForward | internal/chainstream/blockchain.go:149-169 | such runs exist: with either store, n generations of one block each forward exactly the heights 0 to n-1, for every n up to 255 |
| GuardSpec.RunKeepsApart | internal/walletwatch/idempotency.go:29-43 | in every run a granted claim comes no earlier than the deadline of any earlier one |
| GuardSpec.DoneIsTerminal | internal/walletwatch/idempotency.go:45-58 | done stays done and no further claim is granted |
| GuardSpec.MutualExclusion | internal/walletwatch/idempotency.go:23-26 | if holders keep their deadlines there is never more than one, and all but one worker that return nil owe it to a mark without effect |
| GuardSpec.AnswersExactly | internal/walletwatch/idempotency.go:27-29 | in every run a refusal was true at an instant of its call, but for "in progress" of a block that went from free straight to done |
| GuardSpec.HonestRunsAreTruthful | internal/walletwatch/idempotency.go:27-29 | without that one step every refusal is true |
| RedisGuard.RedisClient.ClaimBlockForTxWatch | internal/infra/storage/redis/walletwatch.go:44-66 | GET, others' commands, SETNX, each answered or failing: the answer and the whole store afterwards |
| RedisGuard.RedisClient.MarkBlockTxWatchComplete | internal/infra/storage/redis/walletwatch.go:72-75 | sets the key to done without expiry and touches no other key |
| RedisGuard.ClaimTakesEffect | internal/infra/storage/redis/walletwatch.go:44-66 | nil: free just before the SETNX, claimed for one ttl just after; finished: done at the GET; in progress: not done at the GET and not free at the SETNX; an error: at most a free block has been claimed |
| RedisGuard.StillInProgressExactly | internal/infra/storage/redis/walletwatch.go:52-63 | the answer is false at every instant of the call exactly if the claim had expired before the GET and a mark came before any new claim |
| RedisGuard.StillInProgressWhenMarksAreInTime | internal/walletwatch/idempotency.go:27-31 | the answer is true at some instant of the call whenever no mark comes after its claim expired |
| RedisGuard.KeysDiffer | internal/infra/storage/redis/walletwatch.go:26-28 | two blocks of one network, or of networks without a colon in their names, share a key exactly if they are the same |
| RedisGuard.KeysCollideExactly | internal/infra/storage/redis/walletwatch.go:26-28 | blocks of two networks can share a key exactly if one name continues the other after a colon |
| RedisGuard.NotACheckpoint | internal/infra/storage/redis/walletwatch.go:26-28 | no guard key is the key of a checkpoint kept in the same Redis |
| RedisGuard.RunRefines | internal/infra/storage/redis/walletwatch.go:44-75 | every interleaving of GETs, SETNXs, SETs, lost replies and time is a run of the abstract guard with the same grants and the same answers |
| RedisGuard.AnswersExactly | internal/infra/storage/redis/walletwatch.go:52-63 | over all runs AlreadyFinished was true during its call, and so was StillInProgress unless the block went from free straight to done |
| RedisGuard.AnswersAreTrue | internal/walletwatch/idempotency.go:27-31 | if every holder returns within its ttl, every StillInProgress and AlreadyFinished of the run was true at an instant of its call |
| RedisGuard.ClaimIsARun | internal/infra/storage/redis/walletwatch.go:44-66 | one call of the client, with steps of other workers between GET and SETNX, is a run of its steps: same answer, same store, and the recorded window is the set of statuses the block had in between |
| RedisGuard.KindsAlongExactly | internal/walletwatch/idempotency.go:27-31 | that set holds a kind of status exactly if the block has it at some instant |
| RedisGuard.StillInProgressIsRightExactly | internal/infra/storage/redis/walletwatch.go:52-63 | a recorded StillInProgress is right exactly if the block was claimed at an instant between the call's GET and SETNX |
| RedisGuard.MisledAnswer | internal/infra/storage/redis/walletwatch.go:52-75 | from any fresh block and for every ttl, a run of claims and marks in which StillInProgress is false at every instant of its call |
| RedisGuard.ClaimsAreATtlApart | internal/infra/storage/redis/walletwatch.go:56-65 | two successful claims on a block are at least the first one's ttl apart, and after a ttl of zero there is none |
| RedisGuard.DoneIsTerminal | internal/infra/storage/redis/walletwatch.go:52-75 | after a mark no stale holder, late SETNX or repeated mark undoes it and no claim succeeds |
| RedisGuard.MutualExclusion | internal/walletwatch/wallet.go:192-211 | if every holder returns within its ttl no two are ever between claim and return, the key shows the holder's claim, and if marks take effect at most one returns nil |
| RedisGuard.SecondHolderExactly | internal/walletwatch/wallet.go:192-211 | in any state with a holder, another worker's claim makes a second one exactly if the key has expired and is not done |
| RedisGuard.TwoHolders | internal/walletwatch/wallet.go:192-211 | for every ttl that expires, a run from a fresh block to two holders |
| PostgresGuard.PostgresClient.ClaimBlockForTxWatch | internal/infra/storage/postgresql/walletwatch.go:25-65 | clock, upsert, read, each answered or failing, with others' commands in between: the answer and the whole table afterwards |
| PostgresGuard.PostgresClient.Execute | internal/infra/storage/postgresql/querier/walletwatchidempotency/walletwatch_idempotency.sql.go:15-25 | no row is affected exactly if the row is finished or its deadline has not passed |
| PostgresGuard.PostgresClient.MarkBlockTxWatchComplete | internal/infra/storage/postgresql/walletwatch.go:77-82 | finishes the block's row if there is one and touches no other |
| PostgresGuard.RowsStay | internal/infra/storage/postgresql/querier/walletwatchidempotency/walletwatch_idempotency.sql.go:93-101 | no command deletes a row or reopens a finished one |
| PostgresGuard.KeysDiffer | internal/infra/storage/postgresql/walletwatch.go:27 | two blocks share a row exactly if their hashes are equal and their networks' names differ in case at most |
| PostgresGuard.ClaimsStayApart | internal/infra/storage/postgresql/walletwatch.go:25-82 | no claims or marks of one block change another's |
| PostgresGuard.ClaimLinearises | internal/infra/storage/postgresql/walletwatch.go:25-65 | every answer is true of the block at an instant of the call: claims and refusals at the upsert, finished at the read; an error: at most a free block has been claimed |
| PostgresGuard.FallbackExactly | internal/infra/storage/postgresql/walletwatch.go:46-64 | the unexpected branch is taken exactly if the refused row is unfinished and its deadline equals the caller's clock reading |
| PostgresGuard.RunRefines | internal/infra/storage/postgresql/walletwatch.go:25-82 | every interleaving of clock readings, upserts, reads, updates and lost replies is a run of the same abstract guard with the same grants and answers, none misleading |
| PostgresGuard.AnswersAreTrue | internal/walletwatch/idempotency.go:27-31 | over all runs, timely or not, every StillInProgress and AlreadyFinished was true at an instant of its call |
| PostgresGuard.ClaimIsARun | internal/infra/storage/postgresql/walletwatch.go:25-65 | one call of the client, with steps of other workers around its upsert, is a run of its steps: same answer, same table, and the recorded window is the set of statuses the block had meanwhile |
| PostgresGuard.KindsAlongExactly | internal/walletwatch/idempotency.go:27-31 | that set holds a kind of status exactly if the block has it at some instant |
| PostgresGuard.ClaimsAreATtlApart | internal/infra/storage/postgresql/querier/walletwatchidempotency/walletwatch_idempotency.sql.go:15-25 | a later claim succeeds only after an earlier one's clock reading plus its ttl, strictly |
| PostgresGuard.DoneIsTerminal | internal/infra/storage/postgresql/querier/walletwatchidempotency/walletwatch_idempotency.sql.go:22-24 | a finished block is never claimed again |
| PostgresGuard.MutualExclusion | internal/walletwatch/wallet.go:192-211 | the same exclusion as with Redis, shown by the row, the deadline counted from the clock reading |
| PostgresGuard.SecondHolderExactly | internal/walletwatch/wallet.go:192-211 | in any state with a holder, another worker's claim makes a second one exactly if the deadline has passed and the row is not finished |
| PostgresGuard.TwoHolders | internal/walletwatch/wallet.go:192-211 | for every ttl, a run from a fresh block to two holders |
| Collections.Set.Add | internal/pkg/x/types/set.go:37-41 | the set grows by exactly the values given |
| Collections.Set.ToSlice | internal/pkg/x/types/set.go:71-73 | all elements, each once |
| Collections.DefaultMap.Get | internal/pkg/x/types/default_map.go:41-50 | inserts the default on a miss and changes nothing else |
| Collections.DefaultMap.Put | internal/pkg/x/types/default_map.go:57-59 | replaces one value |
| Collections.SetMap.Get | internal/pkg/x/types/default_map.go:41-50 | on a miss a new set no other key has; different keys keep different sets |
| Collections.SetMap.AddUnder | internal/walletwatch/wallet.go:99-103 | adding to the set of one key is not seen under any other |
| WalletWatch.IndexTransactions | internal/walletwatch/wallet.go:78-104 | the first loop builds all wallets, the last transaction per hash, and the hashes per wallet |
| WalletWatch.HashIndexIsHashesOf | internal/walletwatch/wallet.go:99-103 | a wallet's set is the set of hashes of the transactions that involve it |
| WalletWatch.GetTransactionsByWallet | internal/walletwatch/wallet.go:77-126 | the storage's error, or exactly the watched wallets of the block, each with the block's last transaction per distinct hash among those that involve it, once each |
| WalletWatch.LatestHasOnePerHash | internal/walletwatch/wallet.go:115-122 | one entry per hash, and none missing |
| WalletWatch.NaiveExactly | internal/walletwatch/wallet.go:77-126 | a wallet's result is the filter by sender or recipient exactly if each of its transactions is the last of the block with its hash |
| WalletWatch.NaiveWhenHashesIdentify | internal/walletwatch/wallet.go:77-126 | so it is for every wallet when equal hashes mean equal transactions |
| WalletWatch.ToldOnlyOwnExactly | internal/walletwatch/wallet.go:115-122 | a wallet is told only transactions it takes part in exactly if, for each of its transactions, the last of the block with that hash involves it too |
| WalletWatch.NotifyAll | internal/walletwatch/wallet.go:147-153 | every watched wallet of the block is told once, exactly its transactions, up to the first error of the sink, which is returned |
| WalletWatch.NotifyWatchedWalletTransactions | internal/walletwatch/wallet.go:141-154 | matching and notifying: an error is the storage's, with nobody told, or the sink's first one |
| WalletWatch.NotifyWatchedTransactions | internal/walletwatch/wallet.go:192-211 | nothing is sent without a claim; a claimed block fails only with the storage's or the sink's error and is then not marked; otherwise every watched wallet was told and the key is done, unless the mark had no effect |
| WalletWatch.NotifyWatchedTransactionsOnPostgres | internal/walletwatch/wallet.go:192-211 | the same against the PostgreSQL guard |
| Solana.ToStreamTransactions | internal/infra/blockchain/solana/block.go:99-121 | the transfers in order under the first signature; none without a signature |
| Solana.ToStreamBlock | internal/infra/blockchain/solana/block.go:125-136 | the concatenation over the block |
| Solana.TransfersExactly | internal/infra/blockchain/solana/block.go:108-118 | exactly the parsed transfer instructions survive |
| Solana.TransfersConcat | internal/infra/blockchain/solana/block.go:108-118 | the transfers keep the order of the instructions, one for one |
| Solana.FlattenedConcat | internal/infra/blockchain/solana/block.go:125-136 | and the flattened block keeps the order of its transactions |
| Solana.FlattenedExactly | internal/infra/blockchain/solana/block.go:125-136 | the flattened block holds exactly the transfers of its signed transactions, under their first signatures |
| Solana.SharedSignatureLosesTransfers | internal/walletwatch/wallet.go:96-103 | a wallet with two different transfers in one Solana transaction is never told both |
| Solana.ToldOnlyOwnExactly | internal/walletwatch/wallet.go:115-122 | a wallet of a Solana block is told only its own transfers exactly if it takes part in the last transfer of every transaction it takes part in |
| Solana.ToldAnothersTransfer | internal/walletwatch/wallet.go:115-122 | a recipient can be told a transfer it has no part in |
| Lifecycle.Generation.CloseFunc | internal/chainstream/service.go:84-92 | closes each channel once, the retry channel too if it has been assigned by then; panics exactly on closed channels |
| Lifecycle.ChainstreamService.MakeChannels | internal/chainstream/service.go:77-99 | the closeFunc is there before the retry channel and covers it all the same |
| Lifecycle.ChainstreamService.Start | internal/chainstream/service.go:67-112 | makes one generation of channels, with all of them open if the launch succeeds and all closed if it fails; refuses exactly when started |
| Lifecycle.ChainstreamService.Close | internal/chainstream/service.go:118-127 | panics exactly right after a failed launch; either way every channel of every generation is closed afterwards |
| Lifecycle.BlockprocService.Start | internal/blockproc/service.go:62-86 | started exactly if the launch did not fail, in step with chainstream |
| Lifecycle.BlockprocService.Close | internal/blockproc/service.go:91-101 | stops both, never panics, and leaves every channel closed |
| Lifecycle.BlockprocService.Drive | internal/blockproc/service.go:62-101 | over any sequence of calls the service runs exactly if it should after the last one, no channel is closed twice, and exactly the channels of the running generation are open |

## Left out

- Cancellation: the pipeline model stops when the context is cancelled; a send racing with the closing of its channel is not modelled.
- PipelineService.Service.RetryStep: retry-go's delays are not modelled, nor errors marked unrecoverable, which no client of the repository makes; its number of attempts is at least one, because zero means retrying without end.
- Restart.AtMostOnceAcrossRestarts: says nothing about retry on, or about blocks lost in a crash; the code aims at neither.
- RedisGuard.RedisClient.ClaimBlockForTxWatch: a negative duration, which the Redis client library treats by rules of its own, is excluded.
- Polling.EventsChannel.Send: the buffer of 200 events is not modelled, nor how long a poller waits for room in it.
- Checkpoints.ToUpper covers ASCII letters; Go's ToUpper also maps other scripts.
- WalletWatch.WalletStorage: only the contract of FilterWatchedWallets; the wallet registry and its stores would add easy members.
- The field-by-field copies toWatcherBlock, toWatcherTransaction and mapObservedToWalletBlock.
- JSON-RPC, HTTP, Redis, pgx and AMQP transport, JSON encoding, UUIDs, logging, telemetry, configuration, the command line and the message publishers.
