# ZenForge, modelled and verified in Dafny

ZenForge runs agents: a run calls a model, queues the tool calls the model asks for, stops for
approvals, saves checkpoints, and publishes its events to whoever is watching. This project models
the parts of it whose correctness cannot be seen from one branch of one function, and proves what
they promise for every input, every interleaving and every history.

Run `dafny verify dfyconfig.toml` to check everything.

## How the models are built

Code that changes objects in place is a `class` with the source's fields, or a method with the
source's loop, and its `ensures` equates the new state with a specification function of the old one.
Where several goroutines or several processes take part, a value-level state machine says what one
uninterrupted piece of code does (`Next`), an invariant is kept by every step, and the main results
hold of every sequence of steps. Clocks, fresh ids, the replies of tools and models, the answers of
operators, failing saves and crashes are parameters or arbitrary choices.

| Area | Modules | What is proved |
|---|---|---|
| Live events | `EventBus`, `FanoutStore` | In every interleaving nobody sends on or closes a closed channel, and what a reader gets is one contiguous piece of the run's events, and exactly which piece or pieces of the durable log; a cancelled subscription is over for good. |
| Approvals | `Approval`, `ApprovalReuse`, `ApprovalMeaning`, `PendingBroker`, `GrantStore` | What decisions and grants mean in terms of an operator's choice and of the texts in a request; a submitted decision reaches exactly the waiter whose registration it took; a decision is used again exactly for the requests it covers; a store that deletes lazily answers like one that deletes nothing, and exactly when such an answer is outdated. |
| The tool queue | `ToolLoop`, `ToolApprovals`, `ToolRunner` | Through pauses, refusals, crashes and reloads of any checkpoint, every checkpoint holds the calls of the turn in order, and no call runs under an approval that was not given for it or does not cover it; a rejected call is never invoked, and its message is the refusal. |
| The model step | `ModelAttempts` | The number of attempts is bounded and each retry is one the failure allows, the attempts form one doubly linked chain, and the answer is what the last stream said, in its order, with what every event said in a checkpoint. |
| Time travel | `TimeTravel` | By how much the newest checkpoint can be ahead of the event log, exactly when a revert is refused, that a revert only appends and can be undone, and what a fork begins with and keeps. |
| Patches | `PatchParser`, `PatchGrammar`, `PatchErrors`, `PatchReader`, `PatchApply`, `PatchSplice`, `PatchOverlap`, `PatchFile` | The parser accepts exactly the texts of a grammar, as the hunks they mean, and says exactly what is wrong with all others, and at which line; replacements keep apart exactly under a condition on the lines and the chunks; the in-place splice is the one-pass splice; a patch written from a change, rendered, parsed and applied makes the new file of the old. |
| Configuration | `ConfigLayer`, `ConfigPaths`, `ConfigChain`, `ConfigStack`, `ConfigMerge`, `ConfigRemerge`, `ConfigAlias`, `ConfigProfile`, `ConfigRequirements` | A merge over shared, mutable documents fails exactly on a disagreement and otherwise gives each leaf to the highest layer; what a second merge gives with a profile that is itself an object of the merged document; what enforced values do to a document. |
| Command arguments | `CommandArguments` | Which words every argument text has and what every placeholder is replaced by; the quoting printer and the splitter are inverse exactly for the values named by a condition, and two independent scanners agree on every body. |
| Compaction | `Compaction` | Where a history is cut, that no tool result loses its turn, what pruning keeps, and that a successful compaction makes the history smaller. |
| Served runs | `ServedRuns` | Eviction takes exactly the oldest ended records and never a running one. |
| Workspaces | `Workspaces`, `WorkspaceReplay` | The table stays consistent, a replica that applies every change has the table of the host, exactly when one that read its baseline late does, and when the console's own client does. |

`Options`, `Sequences` and `Strings` hold what several modules share.

## What turned out false

Six promises hold only under a condition. For each the model keeps the code as it is, states the
exact condition, and has a case in which the promise fails.

* *With a profile selected, every key has the value of the highest layer that sets it.* The profile is
  added to the stack after a first merge, and it is an object of that merge: the second merge reaches
  it both as a layer and below `profiles`. `ConfigProfile.ProfileExactly` says what each path has then,
  and the profile wins over a layer above it in exactly two cases. Either a layer above has lent its
  object to one below in the first merge (`ProfileOverwrites` is such a case, and
  `ConfigRemerge.RemergeExactly` the same for any layer that shares nothing with the others). Or the
  profile's own object has become part of the document and the `profiles` of a later layer are written
  into it (`ProfileOfAnotherFileWins`); where one document sets both the leaf and its profile's leaf,
  the order in which a Go map is iterated decides (`KeyOrderDecides`). `OnTopIsFresh` says that a
  profile with no layer above it is safe: its object is linked in too, but nothing writes into it later.
  Where the first merge succeeds, the second one fails on a path exactly when a layer and the profile of
  a layer disagree about its kind (`SecondMergeFailsExactly`).
* *The newest checkpoint is never ahead of the newest event, so a revert is never stale.* A process
  whose context has ended before it starts saves before it has said anything; if it is lost before it
  reports that save, the checkpoint is ahead. `TimeTravel.CheckpointsStayBehind` counts such losses,
  `LossMakesRevertStale` is such a run, and `RevertIsRefused` says exactly when a revert is refused.
* *A live subscriber sees what the durable log has.* Exactly when no publication was lost between its
  subscription and the last event it was sent, and up to now exactly when none was lost since it
  subscribed: `FanoutStore.LiveDeliveryFollowsTheLog`. An append whose publication fails after its
  write makes such a hole: `LostPublicationLeavesAHole`.
* *The lazily deleting grant store answers as one that never deletes.* Whatever others do in between,
  `Get` does at some moment between reading the store and looking at the clock, exactly unless the grant
  that it read was live and has expired when it looks (`GrantStore.AnswerIsRight`): then that grant may
  have been replaced by one that lasts (`WrongIsReplaced`, `LiveGrantIsMissed`). `List` reads the clock
  before the store, and is exact whatever has been deleted exactly when no grant of the namespace
  expires in between (`ListIsExact`, `ListMayMiss`).
* *Replacements of a patch never overlap.* They keep apart exactly when `PatchOverlap.StayApart` holds
  of the lines and the chunks; `PatchFile.OverlapLosesLines`, `InsertionInsideIsLost` and
  `OrderDecidesInsertion` are patches that lose lines. In the parser, a kept line that looks like a file
  header is read as one, and carriage returns at the end of lines are dropped
  (`PatchGrammar.LineRoundTrips`). A file written back unchanged keeps its text exactly as
  `PatchFile.UnchangedText` says.
* *A workspace change that is both in the baseline and in the stream is harmless*, says the stream of the
  console (`internal/dshstream/workspace.go:118-122`). It is, for rows and archived sessions. The order
  is that of the host exactly as `WorkspaceReplay.LateBaseline` says: not when, among rows that no order
  has placed, one that was removed and is back stands before one that was not removed (`RemovedAndBack`,
  `EarlierOrderDoesNotHelp`), until a later change sets the order or one of the two goes. The follower
  sorts by a new order like the console's own client, unnamed rows last; where a new row goes and what
  becomes of one that was removed it does like the host, and the client does not (`Workspaces.ClientFollows`).

Where comments and code disagree the model follows the code: `compaction/compactor.go:207-212` says
that the boundary may be the length of the history, which it never is for a history that is not empty;
`compaction/policy.go:27` says that pruning never rewrites retained context, but `Compact` prunes
every message before it cuts; `configlayer/layer.go:150-151` promises that precedence alone decides,
which holds of the first merge. The console's own client puts a new workspace first, while the host
puts it last, so that every new workspace diverges (`Workspaces.NewRowDiverges`).

## Model

| member | source | states |
|---|---|---|
| `EventBus.NextKeeps` | `eventlog/bus.go:26-124` | every locked section, every single turn of the publish and close loops and every receive keeps the invariant: registrations, open channels, buffers and the log agree |
| `EventBus.RunKeeps` | `eventlog/bus.go:26-124` | and so does every interleaving of such steps |
| `EventBus.EveryInterleavingIsSafe` | `eventlog/bus.go:15-124` | in every interleaving nobody sends on or closes a closed channel, a channel is closed at most once and is open exactly while registered, and what it was sent is one contiguous piece of the run’s published events from its subscription on, complete while it is open or when its run closed it, cut short only where its buffer was full |
| `EventBus.PublishIsARun` | `eventlog/bus.go:67-90` | a publication done in one piece is a run of single steps, in whatever order its loop takes the channels |
| `EventBus.CloseIsARun` | `eventlog/bus.go:92-103` | the same of closing a run |
| `EventBus.DropEmptyKeeps` | `eventlog/bus.go:113-124` | forgetting an empty inner map keeps the invariant and every registration |
| `EventBus.SubscribeBegins` | `eventlog/bus.go:26-65` | subscribing makes one channel, registered and open unless the run is closed |
| `EventBus.ReceiveDelivers` | `eventlog/bus.go:15-24` | a receive hands the reader the next event it was sent, and nothing else changes |
| `EventBus.UnsubscribeEnds` | `eventlog/bus.go:113-124` | cancelling a registered channel closes it once and takes its registration; cancelling one that is not registered does nothing |
| `EventBus.CancelledForGood` | `eventlog/bus.go:113-124` | in every interleaving a cancelled channel is closed from then on and is sent nothing more, whatever is published later |
| `EventBus.PublishReaches` | `eventlog/bus.go:67-90` | who is sent a published event, who is dropped and who is left alone |
| `EventBus.CloseReaches` | `eventlog/bus.go:92-103` | whom the closing of a run closes |
| `EventBus.Bus.Subscribe` | `eventlog/bus.go:26-65` | fails exactly for an ended context, a missing run id or a negative buffer; otherwise one new channel, empty, open and registered, or closed at once when the run is closed, and nothing else changes |
| `EventBus.Bus.Publish` | `eventlog/bus.go:67-90` | every open channel of the run with room is sent the event and keeps its registration, every one without is closed and loses it, no other channel or run changes, and every error leaves the bus alone |
| `EventBus.Bus.OfferToEach` | `eventlog/bus.go:78-89` | the loop, in any order of the map: the state after it is the same whatever the order |
| `EventBus.Bus.CloseRun` | `eventlog/bus.go:92-103` | closes each registered channel once, sends nothing, forgets the run’s registrations and leaves all others alone; an empty id does nothing |
| `EventBus.Bus.Unsubscribe` | `eventlog/bus.go:113-124` | a registered channel is closed once and registered nowhere, what it was sent and every other channel and registration stay; one that is not registered changes nothing |
| `FanoutStore.DoKeeps` | `eventlog/bus.go:141-167` | append-then-publish keeps: what a run has published are those of its appended events whose publication was not lost, up to the terminal event that closed it, and each channel began where the log was when it subscribed |
| `FanoutStore.FanoutRunKeeps` | `eventlog/bus.go:141-190` | in every interleaving with subscribers and readers |
| `FanoutStore.LiveDeliveryFollowsTheLog` | `eventlog/bus.go:126-190` | what a reader was sent are the published events of the durable log from the place of its subscription on, none but the last terminal; they are a contiguous piece from that place exactly when nothing was lost up to the last of them, and all of the rest of the log exactly when nothing was lost since |
| `FanoutStore.LostPublicationLeavesAHole` | `eventlog/bus.go:152-162` | a history with one lost publication in which an open reader has the first and third event of a log of three |
| `FanoutStore.Store.Append` | `eventlog/bus.go:141-167` | which of the three calls may fail and what each failure leaves behind; the number given to an unnumbered event; the bus after a success |
| `PendingBroker.NextKeeps` | `approval/broker.go:173-238` | a waiter is registered, or exactly one submission has consumed its registration and travels to it, or it removed itself: kept by every step, the send after the unlock included |
| `PendingBroker.RunKeeps` | `approval/broker.go:145-314` | in every interleaving, each claimed decision also fits the request it answers |
| `PendingBroker.SubmitReachesItsWaiter` | `approval/broker.go:211-238` | a submission that returns without error cannot block in its send and answers exactly the one waiter whose registration it took |
| `PendingBroker.WaiterEndsOnce` | `approval/broker.go:191-208` | a waiter that returned has exactly the decision submitted to it; one that gave up had no submission; one that could not remove itself has a decision in its channel or about to be sent |
| `PendingBroker.CancelSparesOthers` | `approval/broker.go:305-314` | a cancelled waiter takes away nobody else’s registration, under whatever reused id |
| `PendingBroker.IdsAreReusable` | `approval/broker.go:173-190` | an id can be registered exactly when no living registration has it |
| `PendingBroker.Broker.Register` | `approval/broker.go:173-190` | each error exactly in its case, in the order of the code; otherwise the request as it is with a fresh channel, registered under its id, and nothing else changes |
| `PendingBroker.Broker.Claim` | `approval/broker.go:211-233` | a submission succeeds exactly for a valid decision that fits a pending request, which it takes out, and is then on its way with the decision as given but for an unset scope and time |
| `PendingBroker.Broker.Send` | `approval/broker.go:234-238` | the decision goes into the claimed channel, which has room |
| `PendingBroker.Broker.Remove` | `approval/broker.go:305-314` | compares channels, so that only the own entry goes; whether it went decides if the waiter gives up or waits on |
| `PendingBroker.Broker.Receive` | `approval/broker.go:191-208` | a waiter returns what its channel holds |
| `ApprovalMeaning.AskedMeans` | `approval/request.go:119-153` | a request is asked exactly if its id, run, operation, title and captions have something to see, its risk, actions and scopes are known ones, and it does not expire before it was made |
| `ApprovalMeaning.NormalizedMeans` | `approval/broker.go:316-324` | what is passed on of a decision: once where no scope is given, now where no time is, and the rest as it was |
| `ApprovalMeaning.FittingMeans` | `approval/request.go:164-198` | a decision fits a request exactly if it names it, is one of the four answers in one of the scopes, and, when it says yes for a run or a rule, the request carries the fingerprint or the rule |
| `ApprovalMeaning.KeyMeans` | `approval/request.go:264-281` | the key of a run scope is the visible text under `fingerprint`, that of a rule scope the one under `ruleKey` |
| `ApprovalMeaning.MetadataMeans` | `approval/request.go:248-261` | what goes with an approved call: the request, the answer, and the texts of the payload under their names |
| `ApprovalMeaning.CoversMeans` | `agent.go:2773-2794` | an accepted decision speaks for a later request exactly if it is a yes for the run and both carry the same fingerprint, or a yes for the rule and both carry the same rule |
| `ApprovalMeaning.ReusedMeans` | `agent.go:2740-2794` | a run answers a request itself exactly if it has accepted a decision that speaks for it, and the answer is that of such a decision |
| `ApprovalMeaning.PersistedMeans` | `agent.go:2885-2921` | what is put into the lasting store: exactly a yes for a rule that is no reuse itself, for the rule the request carries |
| `ApprovalMeaning.AuthorizesMeans` | `agent.go:2842-2883` | a lasting grant authorises a request exactly if it is of the namespace, says yes, has not expired, and is for the rule the request carries, or pinned to its fingerprint as well |
| `ApprovalMeaning.StorableMeans` | `approval/store.go:60-91` | which grants may be stored: with a namespace and a rule, a yes, a scope that fits the fingerprint, and a time before it expires |
| `ApprovalReuse.AddApprovalGrant` | `harness/approval.go:23-33` | the loop overwrites the grant of the same scope and keys or appends |
| `ApprovalReuse.ReusedApprovalDecision` | `agent.go:2773-2794` | the loop from the end finds what `Reused` says, which `ReusedFinds` and `ApprovalMeaning.ReusedMeans` describe |
| `ApprovalReuse.ReusedFinds` | `agent.go:2773-2794` | an answer is found exactly if a grant matches, and it is that of the last one that does |
| `ApprovalReuse.GrantReaches` | `agent.go:2740-2771` | the grant a decision leaves matches exactly the requests the decision covers |
| `ApprovalReuse.GrantsCover` | `agent.go:2740-2794` | the grants of a run cover exactly what its accepted decisions cover: replacing a grant loses nothing |
| `ApprovalReuse.ReusedExactly` | `agent.go:2740-2794` | a request is answered from the run’s grants if and only if an approving decision of run or rule scope with the same scope key was accepted before; what such a key is, `ApprovalMeaning.KeyMeans` says |
| `ApprovalReuse.RebuiltAsksTheSame` | `agent.go:2641-2717` | a waiting request that was stored and rebuilt is the request again but for its options and time; it accepts the same decisions, leaves the same grants and is covered by the same decisions |
| `ApprovalReuse.PersistedReaches` | `agent.go:2885-2921` | a persisted decision authorises, until it expires, exactly the requests of its namespace that have a fingerprint and share its rule |
| `ApprovalReuse.ReusedPersistentApproval` | `agent.go:2842-2883` | finds a decision exactly when one of the two loaded grants applies, the rule’s first; fails only for an invalid namespace or grant |
| `ToolLoop.NextKeeps` | `agent.go:2193-2438` | answered, active and queued calls are the calls of the turn in order, grants are those of the accepted decisions, and every invocation is justified: kept by every step, failed save, crash and reload |
| `ToolLoop.AfterKeeps` | `agent.go:1456-1558` | and so over every history |
| `ToolLoop.EveryCheckpointKeepsTheQueue` | `harness/runner.go:167-194` | in every checkpoint of every history the answers so far, the active call and the queue are the turn’s calls in order, so answers are a prefix and no call has two |
| `ToolLoop.EveryApprovalWasGiven` | `agent.go:2225-2334` | a call is invoked under an approval only after a decision about its own request and this very call, or one that covers it, was accepted, or with a stored grant that authorises it; `ToolApprovals.EveryInvocationRestsOnYes` says that it was a yes |
| `ToolLoop.EveryCheckpointReusesExactly` | `agent.go:2740-2794` | a run taken up from any checkpoint reuses decisions exactly as `ReusedExactly` says of those it had accepted |
| `ToolApprovals.EveryInvocationRestsOnYes` | `agent.go:2225-2334` | over every history whatever is invoked under an approval rests on an `Approve` or `Always`: of the request of this very call, of an earlier request with the same fingerprint or rule in that scope, or of a lasting grant that has not expired |
| `ToolApprovals.EveryQueuedApprovalIsYes` | `agent.go:1514-1524` | a call that waits in the queue of any checkpoint with an approval has it from such a yes |
| `ToolApprovals.EveryRefusalWasGiven` | `agent.go:2327-2332` | in every checkpoint a message that says a call was refused stands for a `Reject` of a request of this very call |
| `ToolApprovals.ApprovedIsInvoked` | `agent.go:2316-2326` | in the loop an approved call is invoked once, under that approval |
| `ToolApprovals.RejectedIsRefused` | `agent.go:2327-2332` | a rejected one is not invoked and stays out of the queue; its message is the refusal |
| `ToolApprovals.ApprovedIsQueued` | `agent.go:1514-1524` | on resume an approved call goes to the front of the queue under its approval |
| `ToolApprovals.RejectedIsAnswered` | `agent.go:1525-1544` | and a rejected one gets its refusal as its message and is not in the queue |
| `ToolApprovals.AbortEndsTheRun` | `agent.go:2297-2315` | an abort, or an answer that cannot be saved, ends the run: nothing is invoked or answered |
| `ToolApprovals.QueuedIsInvoked` | `agent.go:2193-2230` | a call taken with an approval is invoked under it |
| `ToolApprovals.CoveredIsNotAsked` | `agent.go:2231-2262` | a request is answered from the run’s own grants exactly if an earlier accepted yes speaks for it |
| `ToolApprovals.ReusedIsInvoked` | `agent.go:2231-2262` | and the call is then invoked under that answer, once it is saved |
| `ToolApprovals.FittingIsTaken` | `agent.go:2289-2298` | an answer is taken exactly if it fits the request |
| `ToolApprovals.BoundMeans` | `agent.go:2669-2680` | what is asked belongs to this run and this call; only a missing id and time are filled in |
| `ToolRunner.Run.ResolveApproval` | `agent.go:2740-2771` | clears the waiting request, appends the decision and adds its grant |
| `ToolRunner.Run.Invoke` | `agent.go:2217-2262` | the first invocation, the binding of a request to its call and the look into the run’s own grants are steps of the machine |
| `ToolRunner.Run.Judge` | `agent.go:2231-2288` | a request no grant of the run covers goes to the stored grants and then to the operator, as steps of the machine |
| `ToolRunner.Run.LookUp` | `agent.go:2842-2883` | the stored grants answer, and the run notes the answer as a reuse, or the request is stored as waiting |
| `ToolRunner.Run.Decide` | `agent.go:2289-2334` | an `Approve` or `Always` invokes the call once under that decision; a `Reject` invokes nothing and its content is the refusal |
| `ToolRunner.Run.Accept` | `agent.go:2289-2298` | a decision takes effect only if it is valid and bound to this request |
| `ToolRunner.Run.Settle` | `agent.go:2342-2418` | the active call is cleared, its one result appended and saved |
| `ToolRunner.Run.RunPendingTools` | `agent.go:2193-2460` | the whole loop is a run of the machine; when it ends well every call of the turn has its answer, in order |
| `ToolRunner.Run.ResumeWaitingApproval` | `agent.go:1456-1558` | after an `Approve` or `Always` the call is at the front of the queue with its approval; after a `Reject` its refusal is the next message and the queue is as it was |
| `ModelAttempts.HistoryValidates` | `harness/state.go:32-125` | a linked history passes the validation a run is loaded with |
| `ModelAttempts.AppendKeepsNewest` | `harness/state.go:455-462` | the newest 64 attempts stay in their order, and only the oldest of them forgets what it replaced |
| `ModelAttempts.AppendKeeps` | `harness/state.go:455-462` | archiving keeps the history linked, also when the oldest attempt is dropped and the link to it cut |
| `ModelAttempts.OpeningKeeps` | `agent.go:1779-1835` | a new attempt and the one it replaces point at each other, and nothing else changes its links |
| `ModelAttempts.ActiveChanges` | `agent.go:1836-1940` | streaming into the active attempt leaves its place in the chain alone |
| `ModelAttempts.CommittingKeeps` | `harness/runner.go:494-503` | committing archives the active attempt at the end of the chain |
| `ModelAttempts.ChainIsLinked` | `agent.go:1761-1803` | of the attempts of a step each superseded one and the next point at each other |
| `ModelAttempts.StreamedInOrder` | `agent.go:1876-1881` | without a final message the answer is the texts of the events one after the other, and their calls one after the other |
| `ModelAttempts.AnswerMeans` | `agent.go:1876-1950` | of every stream: which final text the answer has, and what it is without one |
| `ModelAttempts.ReasoningIsLeftOut` | `agent.go:1862-1872` | reasoning anywhere in a stream changes nothing |
| `ModelAttempts.TurnsGrow` | `agent.go:1668-1724` | how many overflows and retries are left after each attempt, and when none is |
| `ModelAttempts.ModelStep.Checkpoint` | `agent.go:1652-1667` | every checkpoint of a step can be loaded again |
| `ModelAttempts.ModelStep.Supersede` | `agent.go:1761-1777` | the active attempt is marked superseded, and nothing else |
| `ModelAttempts.ModelStep.Begin` | `agent.go:1779-1835` | the superseded attempt is archived under the id of the new one |
| `ModelAttempts.ModelStep.Record` | `agent.go:1870-1895` | one stream event into the draft: its text goes behind the text so far and its calls behind the calls, unless a final text or call list takes their place |
| `ModelAttempts.ModelStep.CallAttempt` | `agent.go:1779-1965` | the draft is the last final text with everything streamed since, in the order of the stream, and so for calls; the answer has the text of the last final message, or the draft’s; what the stream had said by each event is in a checkpoint |
| `ModelAttempts.ModelStep.CallModel` | `agent.go:1652-1738` | each attempt but the last overflowed while that could be answered, or was empty or may be retried while retries were left, and it stops only when neither is so or way could not be made; all but the last are archived under the ids this call gave, each superseded by the next; the answer is what the last stream said |
| `ModelAttempts.ModelStep.Commit` | `harness/runner.go:494-503` | the attempt whose answer was taken is archived as committed |
| `TimeTravel.BelowIsNewest` | `checkpoint/interface.go:34-51` | loading at a number finds the newest checkpoint at or below it, or there is none |
| `TimeTravel.StepKeeps` | `agent.go:1183-1214` | how far the newest checkpoint can be ahead of the newest event, kept by every save, report, crash, resume and revert |
| `TimeTravel.AfterKeeps` | `harness/runner.go:112-158` | and so over every history of processes |
| `TimeTravel.CheckpointsStayBehind` | `agent_time_travel.go:159-203` | the newest checkpoint is ahead by no more than the processes lost between an early save and its report; without such a loss no revert is stale |
| `TimeTravel.LossMakesRevertStale` | `harness/runner.go:112-158` | one such loss makes the next revert leave its marker and fail |
| `TimeTravel.RevertIsRefused` | `agent_time_travel.go:159-203` | a revert is refused exactly when the newest checkpoint is as new as its marker; the marker stays |
| `TimeTravel.RevertAppends` | `agent_time_travel.go:159-203` | a revert appends one event and one checkpoint: the target’s state, with its number, the marker’s and the time noted, which is then the newest; every look below the marker finds what it found before |
| `TimeTravel.RevertIsUndone` | `agent_time_travel.go:149-203` | reverting to just below its marker brings back the state before it |
| `TimeTravel.ForkOfReverted` | `agent_time_travel.go:39-80` | a fork of a reverted run begins with what a fork at the place it was reverted to begins with, and forks from below the marker are unchanged |
| `TimeTravel.ForkBegins` | `agent_time_travel.go:39-132` | over every history of a fork the state it began with, the parent’s under its own id, created anew, without approvals and with its origin noted, can be loaded, and reverting to it brings it back; no revert is stale without an early loss |
| `TimeTravel.ForkRun` | `agent_time_travel.go:39-132` | over the stores: the child’s start, then its first checkpoint, and what each failure leaves |
| `TimeTravel.CheckpointStore.Put` | `checkpoint/memory/store.go:25-44` | a number that is not new is refused and nothing changes |
| `TimeTravel.CheckpointStore.Find` | `checkpoint/memory/store.go:47-76` | the backward search finds the newest checkpoint at or below the number |
| `TimeTravel.RevertRun` | `agent_time_travel.go:159-203` | over the two stores: the marker first, then the state, success exactly when it can, and nothing when the marker cannot be written |
| `PatchGrammar.ParseExactly` | `applypatch/parser.go:89-330` | a text is read as given hunks if and only if it is a way of writing edits that mean them: with or without one of the three here-document forms, markers and headers indented or not, an empty kept line as nothing or a blank, the first section with or without its `@@` line, blank lines in front of the first file, behind deletions and behind the end of a file, and nowhere else |
| `PatchGrammar.WrittenParses` | `applypatch/parser.go:89-330` | so every such text gives back exactly the hunks it means |
| `PatchGrammar.LineIsWritten` | `applypatch/parser.go:233-322` | every line of an update that is taken is a blank behind the end of a file, the move line, a `@@` line, the end-of-file line or a change, and does what that does |
| `PatchErrors.ErrorsExactly` | `applypatch/parser.go:89-322` | a text is refused with a problem and a line number if and only if a marker is missing, or what stands behind good files is wrong there: a stray line, an added file or an update without a line, a line of one that has no plus, or a wrong line of an update |
| `PatchErrors.WrongMeans` | `applypatch/parser.go:233-322` | which line of an update is wrong behind which lines, and what is said of it |
| `PatchErrors.RefusedExactly` | `applypatch/parser.go:137-322` | the same of the lines between the markers |
| `PatchGrammar.ParseRendered` | `applypatch/parser.go:89-330` | the text rendered from any well-formed list of edits is one of them, so that it gives back exactly the hunks they mean |
| `PatchGrammar.LineRoundTrips` | `applypatch/parser.go:233-322` | which single lines survive: exactly those that are not kept lines looking like a file header and do not end with a carriage return |
| `PatchGrammar.HeaderLikeLineIsLost` | `applypatch/parser.go:241-242` | a kept line that looks like a file header does not come back |
| `PatchParser.KeptAreOnBothSides` | `applypatch/parser.go:324-330` | each pair of context indices is the place of one line on both sides |
| `PatchParser.EachKeptHasPlace` | `applypatch/parser.go:324-330` | and every kept line has such a pair, behind the lines in front of it |
| `PatchParser.CollectAllMeans` | `applypatch/parser.go:290-330` | collecting operations line by line gives the old lines, new lines and places of kept lines that the operations denote |
| `PatchReader.ReadUpdateLine` | `applypatch/parser.go:233-322` | the tests on one line of an update, in the order of the code; what they take and refuse, `PatchGrammar.LineIsWritten` and `PatchErrors.WrongMeans` say |
| `PatchReader.Parser.ParseAddBody` | `applypatch/parser.go:202-229` | the contents grow in place up to a header; an empty body is an error at its line |
| `PatchReader.Parser.ParseUpdateBody` | `applypatch/parser.go:233-322` | the chunks grow in place up to a header |
| `PatchReader.Parser.ParseUpdate` | `applypatch/parser.go:160-180` | an update without a body is an error |
| `PatchReader.Parser.ParseAll` | `applypatch/parser.go:137-185` | the loop gives the hunks in order, or the error of the first wrong line |
| `PatchReader.ParsePatch` | `applypatch/parser.go:89-114` | the loops over the text give what `Parse` gives, of which `ParseExactly` and `ErrorsExactly` say all |
| `PatchApply.PassesNest` | `applypatch/apply.go:268-311` | each pass of the search accepts every line a stricter one accepts |
| `PatchApply.MatchesNest` | `applypatch/apply.go:268-291` | and so of whole patterns |
| `PatchApply.KeyMeans` | `applypatch/apply.go:268-311` | what the passes leave out of a line: nothing, blanks at its end, white space on both sides, and then typographic runes are plain |
| `PatchApply.PlainMeans` | `applypatch/apply.go:295-311` | which runes are taken for a dash, a quote or a blank |
| `PatchApply.SeekFinds` | `applypatch/apply.go:223-257` | a search gives the first match of the strictest pass that matches anywhere in its range, the end of the file for an anchored pattern, and nothing exactly when no pass does; an empty pattern is found at once |
| `PatchApply.Pass` | `applypatch/apply.go:236-254` | one pass as its loop |
| `PatchApply.SeekSequence` | `applypatch/apply.go:223-257` | the four passes in order, from the end of the file for an anchored pattern |
| `PatchApply.LocateChunk` | `applypatch/apply.go:155-197` | a chunk begins behind its context line; it goes to where its old lines are, or, when they are nowhere and end with an empty line, without it; without old lines it goes to the end of the file, in front of an empty last line unless it is anchored; otherwise what is missing |
| `PatchApply.PlanReplacements` | `applypatch/apply.go:151-199` | the loop over the chunks, or the first chunk that is not found |
| `PatchApply.PlanInBounds` | `applypatch/apply.go:151-199` | every replacement lies in the file; a match begins behind the cursor unless its chunk is anchored at the end, which it then reaches |
| `PatchApply.MatchesInOrder` | `applypatch/apply.go:151-199` | matches that are not anchored follow one another |
| `PatchSplice.SortedSorts` | `applypatch/apply.go:198-198` | sorting keeps the replacements and orders them by start |
| `PatchSplice.SortedIsStable` | `applypatch/apply.go:198-198` | insertions at one place stay in patch order |
| `PatchSplice.ReplacementsApart` | `applypatch/apply.go:151-199` | the sorted replacements keep apart if and only if no anchored match goes back into an earlier match and no insertion falls into a match |
| `PatchOverlap.StepIsExact` | `applypatch/apply.go:155-197` | for one chunk: what it takes out and where, compared with the end of the latest match and the insertions so far, says exactly whether its replacement disturbs an earlier one |
| `PatchOverlap.StayApartIsExact` | `applypatch/apply.go:151-199` | the same condition told from the lines and the chunks: the length of an anchored match against what is left of the lines, an insertion point against the matches |
| `PatchSplice.BackToFrontSplices` | `applypatch/apply.go:203-216` | writing replacements that keep apart back to front in place gives the splice in one pass |
| `PatchSplice.SpliceLength` | `applypatch/apply.go:203-216` | the length is the original’s, less what is removed, plus what is added |
| `PatchSplice.TakeOut` | `applypatch/apply.go:206-210` | the loop that takes lines out, also past the end |
| `PatchSplice.ApplyReplacements` | `applypatch/apply.go:203-216` | the loop as it runs |
| `PatchFile.AppliedInOnePass` | `applypatch/apply.go:151-216` | under that condition on lines and chunks, applying them gives the one-pass splice |
| `PatchFile.OverlapLosesLines` | `applypatch/apply.go:151-216` | an end-of-file chunk inside an earlier match: the patch applies and what the chunk writes is lost |
| `PatchFile.InsertionInsideIsLost` | `applypatch/apply.go:151-216` | an inserted line before an empty last line that a match takes: the inserted line is taken out and the empty one stays |
| `PatchFile.OrderDecidesInsertion` | `applypatch/apply.go:151-216` | when only the empty last line is taken, an insertion after that chunk is lost and one before it is kept |
| `PatchFile.PatchMakesNewFile` | `applypatch/apply.go:124-216` | a patch written from a change, with context lines, anchors and insertions, turns the old lines into the new ones, whenever no section could be taken for another place |
| `PatchFile.WrittenPatchMakesNewFile` | `applypatch/parser.go:89-330` | the same from the text on: the patch rendered, parsed and applied |
| `PatchFile.UnchangedText` | `applypatch/apply.go:126-140` | writing a file back unchanged keeps its text exactly when it is empty or ends with exactly one newline after a rune |
| `PatchFile.DeriveNewContents` | `applypatch/apply.go:126-140` | splitting, applying and joining, or the refusal |
| `ConfigLayer.Documents.MergeInto` | `configlayer/layer.go:173-199` | over shared documents on a heap: fails exactly on a clash of shapes; otherwise every cell of every document and every attribution afterwards, whatever the order of keys |
| `ConfigLayer.Documents.RecordProvenance` | `configlayer/layer.go:202-209` | attributes the path and everything below it |
| `ConfigPaths.MergeWalks` | `configlayer/layer.go:173-199` | along one key path a merge over the heap is a walk along its chain of owners |
| `ConfigChain.MergeTakesTheTop` | `configlayer/layer.go:152-199` | merging freshly read layers gives, at every leaf, the value of the last layer that sets it, though the layers come to share objects |
| `ConfigStack.ProgressStep` | `configlayer/layer.go:160-168` | one more layer merged keeps: whose cells changed, what each path shows and whom it is attributed to |
| `ConfigMerge.Stack.Add` | `configlayer/layer.go:110-112` | appends the layer |
| `ConfigMerge.Stack.Merge` | `configlayer/layer.go:152-169` | fails if and only if two enabled layers disagree on whether a path holds an object |
| `ConfigMerge.MergedLeaf` | `configlayer/layer.go:152-209` | after a success every leaf has the value of the last layer in order of precedence that sets it, and is attributed to that layer |
| `ConfigMerge.LeavesAreShaped` | `configlayer/layer.go:173-199` | every leaf of every layer is such a path when no two layers disagree |
| `ConfigMerge.WinnerIsHighest` | `configlayer/layer.go:152-158` | the layer that wins has the highest precedence of those that set the leaf, and of equals was added last |
| `ConfigMerge.OrderOfAddingIsIrrelevant` | `configlayer/layer.go:152-158` | layers of distinct precedence are merged in the same order however they were added |
| `ConfigRemerge.RemergeExactly` | `configlayer/layer.go:152-169` | merging a second time with a layer added at any place that shares no object with the others gives the fresh merge, except exactly in one case, where the added layer wins over one above it |
| `ConfigRemerge.OnTopIsFresh` | `configlayer/layer.go:152-169` | such a layer added on top is merged as if all were read afresh |
| `ConfigAlias.ProfilesKey` | `configlayer/layer.go:173-199` | the `profiles` of one layer in the second merge: they are written into the profile that was selected, whose objects the document may already have |
| `ConfigAlias.MergeIsJoined` | `cli/config.go:789-812` | the second merge, over objects that are reached at two paths, is along each path a merge over one chain in which the selected profile counts as a layer |
| `ConfigProfile.SharedIs` | `cli/config.go:789-812` | the leaf of a profile whose object has become part of the document, after all layers above have been written into it at both paths |
| `ConfigProfile.ProfileExactly` | `cli/config.go:789-812` | merging again with the selected profile gives at every path what a merge of freshly read layers and a copy of the profile gives, except exactly in two cases, in which the profile’s value stands |
| `ConfigProfile.OnTopIsFresh` | `cli/config.go:789-812` | a profile with no layer above it is merged as if all were read afresh, though its objects are shared |
| `ConfigProfile.LinkedIsNotLent` | `configlayer/layer.go:276-302` | the two cases exclude each other: when the profile’s leaf is the document’s, no layer has lent its object |
| `ConfigProfile.ProfileOverwrites` | `cli/config.go:789-812` | a case in which a profile between two layers wins over the upper one, which has lent its object |
| `ConfigProfile.ProfileOfAnotherFileWins` | `cli/config.go:789-812` | a case in which the profile of a third file, written into the selected one, wins over the layer between |
| `ConfigProfile.KeyOrderDecides` | `configlayer/layer.go:173-174` | a case in which the order of the keys of one document decides |
| `ConfigProfile.MergedShows` | `configlayer/layer.go:173-199` | after a merge without a failure the document shows the value of every layer at a path, and the selected profile that of every layer’s profile |
| `ConfigProfile.SecondMergeFailsExactly` | `cli/config.go:808-811` | after a first merge without a failure, the second one fails on a path if and only if a layer and the profile of a layer disagree about its kind |
| `ConfigProfile.SecondMergeDoesNotFail` | `cli/config.go:808-811` | where all layers and profiles agree about the kind of a path, neither merge fails on it, whatever objects are shared |
| `ConfigRequirements.Settings.Clone` | `configlayer/requirements.go:136-157` | the copy shows what the document shows and owns all its objects |
| `ConfigRequirements.Settings.Set` | `configlayer/layer.go:251-270` | fails exactly when a value is in the way; otherwise it sets the path, makes the objects that lead to it, and changes no other cell |
| `ConfigRequirements.Settings.Apply` | `configlayer/requirements.go:85-108` | succeeds exactly when every allowed set admits the candidate’s value and no enforced path is blocked |
| `ConfigRequirements.EnforcedIsRead` | `configlayer/requirements.go:85-108` | every enforced value is read back; the empty path is the one exception |
| `ConfigRequirements.OthersAreKept` | `configlayer/requirements.go:85-108` | a path that does not overlap an enforced one reads as in the candidate |
| `ConfigRequirements.CandidateIsKept` | `configlayer/requirements.go:85-157` | neither the candidate nor any other document changes |
| `ConfigRequirements.AcceptedAgain` | `configlayer/requirements.go:85-108` | a result is accepted again when enforced values lie in the allowed sets |
| `ConfigRequirements.ApplyingTwice` | `configlayer/requirements.go:85-108` | applying to the result changes no value at any path, also below an enforced object |
| `CommandArguments.SplitArguments` | `commands/expand.go:107-143` | the splitting automaton with its quote and escape flags, as its loop |
| `CommandArguments.SplitIsWords` | `commands/expand.go:107-143` | the words of a text are what is left of its pieces between blanks: runes as they are or behind a backslash, and quoted texts without their quotes, also where a quote stays open |
| `CommandArguments.EveryTextHasPieces` | `commands/expand.go:107-143` | every text is made of such pieces |
| `CommandArguments.PromptArgumentText` | `cli/mcp.go:363-376` | the printer, as its loop over trimmed values |
| `CommandArguments.PrintedMeans` | `cli/mcp.go:370-372` | a value with a blank is printed between double quotes, its quotes and backslashes behind a backslash, and any other as it is |
| `CommandArguments.HasBlankMeans` | `cli/mcp.go:370-372` | which values those are |
| `CommandArguments.PrintedInOrder` | `cli/mcp.go:375-375` | in their order, with one blank between any two |
| `CommandArguments.KeptInOrder` | `cli/mcp.go:366-369` | of all values those that are not blank, trimmed |
| `CommandArguments.NoShift` | `commands/expand.go:107-143` | a value that does not survive also spoils the words behind it: no other text makes up for it |
| `CommandArguments.RoundTrip` | `cli/mcp.go:363-376` | values printed and split come back if and only if each has a blank or is free of quotes and backslashes |
| `CommandArguments.PromptRoundTrip` | `cli/mcp.go:359-376` | the same for arbitrary values, as the printer trims and drops them |
| `CommandArguments.SubstituteArguments` | `commands/expand.go:70-103` | the substitution, as its loop; what it writes the next five say |
| `CommandArguments.PositionIsFilled` | `commands/expand.go:91-98` | behind text without a dollar `$1` to `$9` become the words of the arguments, counted from one, or nothing, and the rest is substituted |
| `CommandArguments.WholeIsFilled` | `commands/expand.go:86-90` | `$ARGUMENTS` becomes the argument text as it was given |
| `CommandArguments.DollarIsEscaped` | `commands/expand.go:81-85` | two dollars become one, and what follows is no placeholder |
| `CommandArguments.OtherDollarIsKept` | `commands/expand.go:99-101` | any other dollar stays |
| `CommandArguments.TextIsKept` | `commands/expand.go:76-80` | and so does text without one |
| `CommandArguments.ValuesAreFilled` | `cli/mcp.go:363-376` | from the values on: when they survive the printing, `$1` to `$9` are the values that were kept |
| `CommandArguments.CommandUsesArguments` | `cli/mcp.go:382-399` | the second scanner, as its loop |
| `CommandArguments.ScannersAgree` | `cli/mcp.go:378-399` | the scanner says yes if and only if some two argument strings make the substitution differ |
| `Compaction.EstimateText` | `compaction/estimator.go:47-53` | the least number of tokens that has room for the text |
| `Compaction.EstimateMessages` | `compaction/estimator.go:56-69` | the loops add up the estimates of the messages, of which the next two say what each is |
| `Compaction.TextsCost` | `compaction/estimator.go:56-61` | a message without calls costs four tokens and the least numbers that have room for its text and its name |
| `Compaction.CallCosts` | `compaction/estimator.go:62-66` | each call costs four more, and the least numbers that have room for its name and its arguments |
| `Compaction.EstimateConcat` | `compaction/estimator.go:56-69` | and messages cost what each costs |
| `Compaction.BudgetBoundary` | `compaction/compactor.go:217-229` | the longest suffix within the budget, or the last message alone |
| `Compaction.RetainBoundary` | `compaction/compactor.go:217-235` | that boundary moved back to the turn it belongs to |
| `Compaction.RetainedIsUnique` | `compaction/compactor.go:217-229` | there is only one such boundary |
| `Compaction.GroupsStayWhole` | `compaction/compactor.go:207-235` | in a history whose tool results follow their turns, no retained result has lost its turn, and what is retained is such a history |
| `Compaction.OverflowCut` | `compaction/compactor.go:133-150` | on overflow exactly the newest turn with its results is retained |
| `Compaction.PruningKeepsShape` | `compaction/prune.go:23-66` | of a long tool result the head and the tail stay around a marker that says how much went, and its lengths are noted; nothing else of any message changes |
| `Compaction.PruningKeepsGroups` | `compaction/prune.go:23-66` | pruning keeps results with their turns |
| `Compaction.PruneToolResults` | `compaction/prune.go:23-66` | the loop counts exactly the long tool results and the removed runes |
| `Compaction.Compact` | `compaction/compactor.go:133-205` | the history is pruned and cut; nothing to do exactly when the cut is at its beginning; otherwise the summarizer is given what is cut off and fails, or its text as a message of the user stands in front of what is retained, if that has a strictly lower estimate |
| `Compaction.CompactedIsGrouped` | `compaction/compactor.go:133-205` | a compacted history can be compacted again: every result in it has its turn |
| `GrantStore.LazyIsLive` | `approval/store.go:129-193` | a store that has deleted nothing but expired grants cannot be told from one that deletes none, now or later |
| `GrantStore.LiveIsKept` | `approval/store.go:129-193` | every live grant is in the store |
| `GrantStore.AnswerMeans` | `approval/store.go:146-155` | a stored grant is given out until it expires, with its scope filled in from whether it pins a fingerprint |
| `GrantStore.KeyMeans` | `approval/store.go:195-206` | which keys are valid, and that a grant is under its namespace, its rule and its fingerprint |
| `GrantStore.AnswerIsRight` | `approval/store.go:129-156` | for every history of puts, revocations and time between reading and looking at the clock an answer of `Get` is right at some moment of it, if and only if the grant that was read is not one that is live then and expires in between |
| `GrantStore.WrongIsReplaced` | `approval/store.go:129-173` | when it is right at no moment, the grant that was read expires in between and was replaced by another one while both were live |
| `GrantStore.LiveGrantIsMissed` | `approval/store.go:129-156` | such a history: read at 5, replaced at 8, expired at 10, looked at at 12 |
| `GrantStore.ListIsBetween` | `approval/store.go:211-235` | a list has all that is live when the store is read, and nothing that was not live when the clock was |
| `GrantStore.ListIsExact` | `approval/store.go:211-235` | a list is exact, whatever has been deleted, if and only if no grant of the namespace expires between the look at the clock and the look at the store |
| `GrantStore.ListMayMiss` | `approval/store.go:211-235` | any grant that expires in between may be missing though it was live when the clock was read |
| `GrantStore.MemoryGrantStore.Put` | `approval/store.go:158-173` | replaces the grant of the key; an invalid one changes nothing |
| `GrantStore.MemoryGrantStore.Revoke` | `approval/store.go:175-193` | removes the grant of the key; what it reports depends on what has been deleted |
| `GrantStore.MemoryGrantStore.Get` | `approval/store.go:129-156` | with the lock let go twice and arbitrary other calls in between, the answer is that of a store that deletes nothing, read at the first and clocked at a later moment of the recorded history, and right at the first unless the grant expires in between |
| `GrantStore.Pick` | `approval/store.go:223-231` | the loop over the map, in any order: the live grants of the namespace, each once |
| `GrantStore.MemoryGrantStore.List` | `approval/store.go:211-244` | what is listed while others change the store, by rule key and then by fingerprint |
| `ServedRuns.DropOldestKeeps` | `cli/mcprun_status.go:197-219` | a running record stays, and an ended one stays exactly when enough ended ones are older |
| `ServedRuns.DropOldestIsOrdered` | `cli/mcprun_status.go:197-219` | what stays keeps its order |
| `ServedRuns.DropOldestShrinks` | `cli/mcprun_status.go:197-219` | how many records and ended records are left |
| `ServedRuns.FinishedIsEvicted` | `cli/mcprun_status.go:109-128` | when a record that has just ended is itself evicted |
| `ServedRuns.HundredStay` | `cli/mcprun_status.go:197-219` | up to a hundred records are left alone; of more, a hundred stay, or more when all that stay are running |
| `ServedRuns.Registry.EvictOne` | `cli/mcprun_status.go:199-217` | one turn: the oldest ended record goes, if there is one |
| `ServedRuns.Registry.Evict` | `cli/mcprun_status.go:197-219` | takes the oldest ended records, as many as there are too many or as many as have ended; the table is then within its bound or holds only running runs |
| `ServedRuns.Registry.Start` | `cli/mcprun_status.go:77-104` | a run that is there is refused and its cancel function called; otherwise it is registered and never evicted at once |
| `ServedRuns.Registry.Finish` | `cli/mcprun_status.go:109-128` | the record, its kept start and detachment, its lost cancel function, and eviction |
| `ServedRuns.Registry.RequestCancel` | `cli/mcprun_status.go:150-168` | calls the cancel function exactly of a running run that has one |
| `Workspaces.MoveMeans` | `cli/consoleworkspaces.go:315-336` | a move is a permutation that keeps the order of all others and puts the element right in front of its anchor, or last |
| `Workspaces.MoveBefore` | `cli/consoleworkspaces.go:315-336` | the loops |
| `Workspaces.UniqueTitle` | `cli/consoleworkspaces.go:411-429` | the title itself or with the least free number; the search ends because every number makes another title |
| `Workspaces.NumberedIsInjective` | `cli/consoleworkspaces.go:411-429` | different numbers make different titles |
| `Workspaces.FollowersGoOn` | `cli/consoleworkspaces.go:468-472` | a change that is sent to every follower keeps all replicas equal to the baseline |
| `Workspaces.RowFollows` | `cli/consoleworkspaces.go:394-406` | a row that was added or changed, in the table and in a replica |
| `Workspaces.DropFollows` | `cli/consoleworkspaces.go:173-198` | a row that was removed, likewise |
| `Workspaces.OrderFollows` | `webui/dsh/plugins/api/workspace-controller/client.js:219-226` | a new order, likewise: a stable sort by the places in it |
| `Workspaces.Registry.Subscribe` | `cli/consoleworkspaces.go:379-390` | every later change is sent, so that the baseline of that moment with them is the table |
| `Workspaces.Registry.ReadBaseline` | `cli/consoleworkspaces.go:368-376` | the table as it is, which is where every follower’s changes so far lead |
| `Workspaces.Registry.Unsubscribe` | `cli/consoleworkspaces.go:379-390` | nothing more is sent to a follower that has gone |
| `Workspaces.Registry.Create` | `cli/consoleworkspaces.go:117-141` | a known path keeps its row; a new one goes last, under its title or that with the least free number from two on, where the console’s own client does not put it |
| `Workspaces.Registry.Rename` | `cli/consoleworkspaces.go:146-168` | not found, a taken title, or the row renamed |
| `Workspaces.Registry.Delete` | `cli/consoleworkspaces.go:173-198` | every row but the host’s own can go |
| `Workspaces.Registry.ArchiveSession` | `cli/consoleworkspaces.go:204-212` | at most once each, and told only when it changed |
| `Workspaces.Registry.UnarchiveSession` | `cli/consoleworkspaces.go:214-225` | likewise |
| `Workspaces.Registry.AttachSession` | `cli/consoleworkspaces.go:231-250` | at most once in a row; without an id in the host’s own |
| `Workspaces.Registry.InsertBefore` | `cli/consoleworkspaces.go:259-276` | not found, nothing to do, or moved |
| `Workspaces.Registry.InsertSessionBefore` | `cli/consoleworkspaces.go:284-308` | sessions within a row, of which none is there twice, with both refusals |
| `Workspaces.ClientFollows` | `webui/dsh/plugins/api/workspace-controller/client.js:227-235` | the console’s own client has the host’s table after a row was sent exactly under a condition on what it has removed and when rows were changed |
| `Workspaces.NewRowDiverges` | `webui/dsh/plugins/api/workspace-controller/client.js:227-235` | since the host’s own row is always there, a client that had the host’s table never has it after a new row |
| `WorkspaceReplay.AfterOverlap` | `internal/dshstream/workspace.go:118-147` | a baseline with the changes it already has applied to it once more: the same rows, those of the last order first, and of the others the removed and returned ones moved behind the rest |
| `WorkspaceReplay.LateBaseline` | `internal/dshstream/workspace.go:118-147` | a follower that subscribes, reads its baseline any number of changes later and applies all changes has the rows of the host, and its order if and only if a later change sets the order or, among rows that no order has placed, no returned one stands before one that was never removed |
| `WorkspaceReplay.RegistryFollower` | `internal/dshstream/workspace.go:118-180` | that of any subscriber of the registry, at every moment and for every place at which it read its baseline |
| `WorkspaceReplay.RemovedAndBack` | `internal/dshstream/workspace.go:118-122` | a row removed, made again and another made before the baseline is read: the last two end the other way round |
| `WorkspaceReplay.EarlierOrderDoesNotHelp` | `internal/dshstream/workspace.go:118-122` | the same after an order that was set before them |

## Left out

- ToolLoop.EveryCheckpointKeepsTheQueue: the phase, status and error fields of a run, its earlier turns and the event log are not modelled; a run is one turn’s queue and its approvals.
- ToolRunner.Run.RunPendingTools: what a tool replies, what an operator decides, what the grant store holds and whether a save succeeds are arbitrary; hooks, tracing, todo lists and sub-agents are not modelled.
- ModelAttempts.ModelStep.CallModel: usage counts, chunk numbers, reasoning text, delays between retries and the events of an attempt are not modelled, nor what is checked and compacted before the first attempt; the classification of failures is arbitrary.
- TimeTravel.CheckpointsStayBehind: a save is either done or not; a save that reports an error and is completed later by the store is not modelled, nor is a revert while a process of the run is alive.
- TimeTravel.ForkRun: that the skills and the model of the parent still exist is not modelled; messages, tools, plans and the other notes of a state are one opaque number.
- FanoutStore.Store.Append: the durable store is a list of events for each run; its files are not modelled.
- EventBus.Bus.Publish: within the class no receive falls inside the loop; the state machine covers those interleavings.
- PendingBroker.Broker.Register: the channel on which requests are announced, `Lookup`, `List` and `Pending` are not modelled, and cloning of requests is the identity on values.
- ApprovalReuse.RebuiltAsksTheSame: a payload is a map of texts and opaque values; its encoding is not modelled.
- GrantStore.MemoryGrantStore.List: the three-part key of the source is a namespace with two texts, and texts are compared rune by rune.
- GrantStore.MemoryGrantStore.Revoke: whether it reports a missing grant is left to what has been deleted, as in the code.
- PatchErrors.ErrorsExactly: the texts of error messages are not modelled, only their line and kind.
- PatchGrammar.ParseRendered: well-formed excludes what the format cannot write: paths that are empty or end in white space, line breaks inside lines, lines of updates that end with a carriage return, kept lines that look like file headers, added files and updates without a line, sections without lines before the last one, and moves or contexts that end in a blank. `ParseExactly` speaks of every text.
- PatchApply.PassesNest: lines are sequences of runes; bytes that are no valid encoding are not modelled.
- PatchFile.PatchMakesNewFile: old lines are in the file as they are written, not only up to blanks or punctuation; files, moves and directories (`Apply` itself) are not modelled.
- ConfigMerge.Stack.Merge: the enabled layers have different documents, as freshly read ones do; keys have no dots, since a path is a list of keys. Leaves are numbers, and arrays are leaves.
- ConfigMerge.MergedLeaf: what a path shows that ends at an object follows from its leaves and is not stated on its own.
- ConfigProfile.ProfileExactly: merges are followed along one path at a time, from the top and below the selected profile, at which no two layers disagree; a profile that has a `profiles` key of its own is not modelled, nor the removal of the profiles at the end.
- ConfigRequirements.Settings.Apply: allowed sets hold no objects, and enforced objects are not looked into.
- CommandArguments.ScannersAgree: includes and shell expansions are not modelled.
- Compaction.Compact: the budget is a number, the summary an arbitrary function of what is cut off, with its prefix, the marker an arbitrary text for each number; pressure ratios, records of compactions and tool estimates are not modelled.
- Workspaces.Registry.Create: an id is an injective function of the path, where the code uses a hash; the canonical form of a path and the check that it is a directory are a parameter.
- Workspaces.Registry.ArchiveSession: archived sessions are sent as a set, since the code sends them sorted.
- WorkspaceReplay.RegistryFollower: the encoding of frames and a stream that breaks off are not modelled; the follower puts a new row last, as the host does.
- Workspaces.ClientFollows: one row sent to the client; the rest of the client’s optimistic state is not modelled.
- ServedRuns.Registry.Finish: waiting for a run to end, shutting down and the tools that report are not modelled; nor that every started run is finished, which the code does not promise for a run without an id.
- The approval broker backed by a store (`approval/store_broker.go`), the settings of the server (`cli/serve.go`), plan execution, goals, schedules, jobs, workflows, sandboxes, model providers, transports, rendering and the stores on files and databases.
