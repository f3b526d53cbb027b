# Verified models of the private-workspace platform

This project models the stateful cores of the platform in Dafny 4.11 and proves
what they promise. `dafny verify dfyconfig.toml` checks all of it.

Most components come in four layers. A **machine** gives the state, the steps
between two awaits, two locks or two file writes, and the runs they form. A
**safety** module proves an invariant of every step and states the results for
every run. A **promises** module says, in terms of requests, files, bytes and
times alone and without naming the functions that compute them, exactly when each
operation does what: nearly all of its results are an if and only if. An
**object** module has the source's own classes and loops, each method's contract
giving its whole new state by the machine's step.

| component | modules |
|---|---|
| Credential broker: per-owner lock, rate window, approvals over a compare-and-set vault | `CallLock`, `UsageWindow`, `CredentialVault`, `ApprovalLedger`, `CredentialBroker`, `BrokerSafety`, `BrokerPromises`, `BrokerAnswers`, `BrokerObject` |
| SDK control pipe: authenticated codec, parent RPC peer, child controller | `SdkCodec`, `SdkControl`, `SdkControlSafety`, `SdkPromises`, `SdkObjects` |
| Session scheduler: units, one round, series of rounds, the controller's round | `KeyOrder`, `RuntimeUnits`, `SessionPlan`, `SessionSafety`, `SessionRounds`, `Sessions`, `SessionPromises` |
| Capacity: planner, crash-prone publication, account allocation | `OrderedDict`, `CapacityPlanner`, `CapacityProtocol`, `CapacitySafety`, `CapacityAccounts`, `CapacityProgress`, `CapacityPromises`, `AccountPromises`, `CapacityController`, `GatewayAccounts` |
| Long-context forwarder: interactive lane, single cleanup, chunked line readers | `ForwarderCleanup`, `ForwarderObjects`, `ForwarderPromises`, `LineSplitter`, `LinePromises` |
| App supervisor | `Supervisor`, `SupervisorPromises` |
| Gradio configuration: JSON syntax and parser, bracket scanner, rewriting | `JsonText`, `JsonNumbers`, `JsonNumberText`, `JsonParsing`, `JsonGrammar`, `JsonScan`, `GradioConfig`, `GradioPromises` |
| DNS relay | `DnsQuestion`, `DnsPromises` |
| Client launch layer and artifact promotion | `ClientInstall`, `Promotion`, `PromotionPromises` |
| Shared | `Outcomes`, `Basics` |

Assumptions. Hashes and MACs are ideal: equal hashes mean equal contents, and a
tag exists only where the key's holder made it (`SdkCodec.Possible`). Random
identifiers are new. Replacing a file is atomic. Operator-provided hosts are
exclusive where a lemma says so. Clocks, networks, the worker, the harness and
failing writes are parameters of the steps, free in every run; a vault write
either succeeds or leaves the vault as it was. The two processes of the capacity
protocol, all requests of the forwarder and all calls of the broker interleave
freely at the points where the source awaits or releases a lock.

Some promises hold only under a condition, and the code is kept as it is:

- Native requests may be answered before they are emitted, because the child
  registers first (container/dsh-sdk-control.py:34-38). `AnswersAgainstRequests`
  gives the exact condition, `AnEagerParentIsAheadOfTheChild` a run,
  `DisciplinedParentNeverOverAnswers` the parent's guard that excludes it.
- The controller publishes any two routes with a passed receipt
  (scripts/capacity_controller.py:101), but the gateway refuses the whole pool
  file unless each is canonical (scripts/capacity_policy.js:60-68):
  `AcceptedExactlyWhenCanonical`, `AnOddWorkerClosesThePool`.
- The limits of 120 calls and 20 executes are of fixed windows: a half-open minute
  may see 239 and 40 (`MinuteBoundIsAttained`).
- `session_plan` starts a spare as often as it is named
  (`ADuplicateSpareStartsTwice`, `StartedOnceExactlyWhen`).
- A response's background cleanup (scripts/context_forwarder.py:449, 468) waits for
  no preparation. A lease granted after cleanup has ended is kept for good:
  `LeaseIsKeptExactlyWhen`, `ALateLeaseIsKept`.
- Bytes a user appends during an install are part of the recorded profile and
  are lost by its rollback unless there were none (`RollbackUndoesInstall`); those
  appended between the rollback's last comparison and its replacement are
  overwritten (`EditsSurviveExactlyWhen`); and a rollback cut off after the profile
  can be run again only if the install changed nothing in it
  (`RerunAfterInterruption`).
- A number that overflows a double is rewritten as null (`OnlyTheRootChanges`,
  `AnOverflowBecomesNull`).
- A promotion that is killed may leave one hidden file in the approved store
  (`InterruptedThenRerun`).
- A DNS label may contain a dot, so the name looked up does not always determine
  the question sent (`NameTellsTheLabels`, `OneNameTwoWires`).

## Model

| member | source | states |
|---|---|---|
| `CallLock.OneBodyPerOwnerInArrivalOrder` | scripts/credential_broker.js:41 | In every run of the lock two running calls of one owner are the same call, a running call is its owner's earliest unfinished one, and an owner's bodies begin in the order of their admission |
| `CallLock.BeginsExactlyWhenFirst` | scripts/credential_broker.js:41 | In every run a waiting call may begin if and only if no unfinished call of its owner was admitted before it |
| `CallLock.SomeCallCanProceed` | scripts/credential_broker.js:41 | While an owner has an unfinished call, one of them is running or may begin: the promise chain never blocks itself |
| `CallLock.InflightIsTheSum` | scripts/credential_broker.js:41 | In every run `inflight` is the sum of `queued` and the number of unfinished calls, at most 64 |
| `CallLock.QueuesCountCalls` | scripts/credential_broker.js:41 | In every run an owner's `queued` counts its own unfinished calls, at most 4 |
| `CallLock.LockedExactlyWhileQueued` | scripts/credential_broker.js:41 | In every run an owner has a `locks` entry exactly while its queue count is positive |
| `CallLock.StepKeepsInv` | scripts/credential_broker.js:41 | Admission, begin and settlement each keep the chain, the tails, the counts and the start order |
| `UsageWindow.MinuteBound` | scripts/credential_broker.js:48-49 | Under a non-decreasing clock any half-open minute admits at most 239 calls and 40 executes of an owner |
| `UsageWindow.MinuteBoundIsAttained` | scripts/credential_broker.js:48-49 | One concrete run reaches 239 calls and 40 executes in one half-open minute, so both bounds are exact |
| `BrokerSafety.BrokerMinuteBound` | scripts/credential_broker.js:47-50 | The bound holds in every run of the whole broker, whatever happens between the calls, and the broker's window is the one counted |
| `ApprovalLedger.ConsumedAreJustified` | scripts/credential_broker.js:85-88 | Every dispatch that consumed an approval names one requested and then approved earlier by the same owner for the same action and grant, and no approval is named by two dispatches |
| `ApprovalLedger.AskedKeepsInv` | scripts/credential_broker.js:85-87 | A new request for approval keeps the ledger's history, its limit of 16 per owner and its link to the stored grants |
| `ApprovalLedger.AllowedKeepsInv` | scripts/credential_broker.js:71-74 | An approval by the owner keeps them too |
| `ApprovalLedger.RedeemedKeepsInv` | scripts/credential_broker.js:88 | Consuming an approval keeps them and spends it for good |
| `ApprovalLedger.FewerKeepsInv` | scripts/credential_broker.js:45-69 | Pruning and purging, in any vault that stores the same grants for what remains, keep them |
| `BrokerSafety.EveryGatedCallIsApprovedOnce` | scripts/credential_broker.js:79-91 | In every interleaving of the broker's awaits every dispatched call had an enabled, unexpired credential bound to its workspace, an operation that the credential and its profile list and parameters within its scopes; a call whose operation is no GET or requires approval consumed an approval; and every consumed approval was given by the owner for that action and grant and is consumed by no other call |
| `BrokerSafety.ConsumedBeforeExpiry` | scripts/credential_broker.js:45-88 | Under a non-decreasing clock an approval that a dispatched call consumed had not expired when that call entered `handle` |
| `BrokerSafety.LiveApprovalsMatchTheVault` | scripts/credential_broker.js:56-70 | In every run a live approval was requested for the very secret, profile and operations still stored, because a successful save, disable or delete purges it; an owner has at most 16 |
| `BrokerSafety.NoVersionConflict` | scripts/credential_broker.js:53-92 | In every run the record a body holds has the vault's version, so its compare-and-set write never meets another's |
| `BrokerSafety.OneBodyPerOwner` | scripts/credential_broker.js:41-50 | In every run of the whole broker at most one call of an owner is past its wait, and bodies start in admission order |
| `BrokerSafety.EveryRunIsAccounted` | scripts/credential_broker.js:41-50 | The lock's counters mean what they say in every run of the whole broker |
| `BrokerSafety.NextKeepsInv` | scripts/credential_broker.js:46-94 | Every continuation between two awaits keeps the whole broker invariant |
| `BrokerPromises.WritesDoAsAsked` | scripts/credential_broker.js:64-69 | In every run an acknowledged write has done exactly what its request asks: a save stores the given credential, enabled, with its profile, workspace, operations, scopes, secret and expiry; a disable sets the flag and nothing else; a delete removes the credential; every other credential and owner stays, and exactly the live approvals of that credential go |
| `BrokerPromises.OnlyWritesChange` | scripts/credential_broker.js:53-92 | In every run nothing else changes what a credential is: without an acknowledged write all credentials stay, but for the time of last use |
| `BrokerPromises.RevokedIsNotUsed` | scripts/credential_broker.js:68-91 | In every run, from an acknowledged disable or delete of a credential until the next acknowledged save of it, no dispatched call names it |
| `BrokerAnswers.SavesExactlyWhen` | scripts/credential_broker.js:55-65 | A save goes to the vault if and only if the request is well formed, its profile known, its expiry in the future and within the limit, its operations some of the profile's, there is room for a new name, and the audit record is kept |
| `BrokerAnswers.RevokesExactlyWhen` | scripts/credential_broker.js:67-69 | A disable or delete goes to the vault if and only if the credential is stored and the audit record is kept |
| `BrokerAnswers.ApprovesExactlyWhen` | scripts/credential_broker.js:71-74 | An approval is given if and only if the owner has that request pending, its credential is in force for its workspace, and the audit record is kept |
| `BrokerAnswers.SendsExactlyWhen` | scripts/credential_broker.js:79-91 | The provider is called if and only if the credential is enabled, unexpired and bound to the workspace, the operation listed, the parameters known, well formed and within the scopes, the approval it needs approved for this owner and action, and the audit record kept |
| `BrokerAnswers.SentIsNoted` | scripts/credential_broker.js:88-91 | What a dispatched call notes, and that it spends its approval |
| `BrokerAnswers.AsksExactlyWhen` | scripts/credential_broker.js:85-87 | An approval is asked for if and only if one is needed, none is named and the owner has fewer than 16; it lives two minutes |
| `BrokerAnswers.RefusedChangesNothing` | scripts/credential_broker.js:53-92 | Otherwise the call ends and vault, approvals and history are as before |
| `BrokerAnswers.CallEnds` | scripts/credential_broker.js:91-92 | A dispatch that fails leaves its approval uncertain and ends the call; one that worked goes on to record the time of use |
| `BrokerAnswers.RecordEnds` | scripts/credential_broker.js:91 | A call is complete if and only if its use was recorded and audited; otherwise its approval is uncertain |
| `BrokerAnswers.ArrivalPrunes` | scripts/credential_broker.js:45-48 | Exactly the expired approvals go when a call arrives |
| `BrokerAnswers.AdmittedExactlyWhen` | scripts/credential_broker.js:41-50 | A call is admitted if and only if its owner's minute has had fewer than 120 calls and 20 executes, the owner has fewer than four unfinished calls and the broker fewer than 64 |
| `BrokerObject.Broker.Prune` | scripts/credential_broker.js:45 | The loop removes exactly the expired approvals |
| `BrokerObject.Broker.Sweep` | scripts/credential_broker.js:48 | The loop removes exactly the expired usage windows |
| `BrokerObject.Broker.Purge` | scripts/credential_broker.js:65-69 | The loop removes exactly the approvals of one owner's credential |
| `BrokerObject.Broker.Charge` | scripts/credential_broker.js:48-49 | The rate window's new state, and whether the call passes |
| `BrokerObject.Broker.Admit` | scripts/credential_broker.js:41 | Admission to the lock as the machine's step, refused exactly at the two limits |
| `BrokerObject.Broker.Release` | scripts/credential_broker.js:41 | The `finally` of the lock as the machine's step |
| `BrokerObject.Broker.Execute` | scripts/credential_broker.js:79-91 | The execute body up to its dispatch as the machine's step |
| `BrokerObject.Broker.WriteDone` | scripts/credential_broker.js:65-69 | What follows a vault write, success and failure, as the machine's step |
| `BrokerObject.Broker.CallDone` | scripts/credential_broker.js:91-92 | What follows the dispatch, success and failure, as the machine's step |
| `SdkCodec.SDKFrameCodec.Encode` | scripts/official_sdk_control_peer.py:22-30 | The sealed frame, or the size error with the counter already advanced |
| `SdkCodec.SDKFrameCodec.Decode` | scripts/official_sdk_control_peer.py:31-51 | Accepts exactly the authentic frame with the next number and the own binding; otherwise changes nothing |
| `SdkCodec.AcceptedIsAPrefix` | scripts/official_sdk_control_peer.py:22-51 | Whatever the channel drops, repeats, reorders or invents, the accepted payloads are a prefix of those encoded, and all of them fitted |
| `SdkCodec.AcceptedExactlyWhen` | scripts/official_sdk_control_peer.py:31-51 | Of the lines a channel can bring, one is accepted if and only if it is the sealed frame of the next payload the other end encoded within the limit |
| `SdkCodec.OversizeEndsTheDirection` | scripts/official_sdk_control_peer.py:24-29 | After an encode failed as oversize, nothing encoded from there on is ever accepted in that direction |
| `SdkControlSafety.StepKeepsInv` | scripts/official_sdk_control_peer.py:78-126 | Every step of parent, child and both pipes keeps the end-to-end invariant |
| `SdkControlSafety.DispatchKeeps` | container/dsh-sdk-control.py:43-82 | Whatever a decoded line asks for, dispatching it keeps the child's fences and what it has invoked |
| `SdkControlSafety.AtMostOnce` | container/dsh-sdk-control.py:27-82 | In every run the harness is started at most once and run at most once, each call id passes the fence at most once, and every entry into the harness is a call the parent made |
| `SdkControlSafety.ResultsComeFromTheirOwnCall` | scripts/official_sdk_control_peer.py:114-126 | A successful `_rpc` got its value from an accepted response frame with its own id, and it is what the harness gave for exactly the command sent under that id |
| `SdkControlSafety.OneRunSucceeds` | scripts/official_sdk_control_peer.py:128-131 | At most one run call ever succeeds |
| `SdkControlSafety.AnswersAgainstRequests` | container/dsh-sdk-control.py:27-41 | For every id, answers stay within emitted requests if and only if the approvals thread does not hold that id already answered; never more than one ahead |
| `SdkControlSafety.DisciplinedParentNeverOverAnswers` | scripts/official_sdk_control_peer.py:136-137 | If the parent answers an id only while it has received it more often than it has sent answers for it, answers never exceed emitted requests in any run |
| `SdkControlSafety.AnEagerParentIsAheadOfTheChild` | container/dsh-sdk-control.py:34-38 | A concrete run without that discipline in which a request is answered before it is emitted: the registration precedes the frame |
| `SdkPromises.OnlyWellMadeIsEntered` | container/dsh-sdk-control.py:43-82 | In every run each entry into the harness is a bare start, a shaped run of the child's own session with a prompt of 1 to 65536 characters after a start, or a shaped answer to a request registered earlier and not answered since |
| `SdkPromises.EntersExactlyWhen` | container/dsh-sdk-control.py:49-82 | In every run a decoded call is entered if and only if its id was in no call decoded before and it is such a command; otherwise the child ends |
| `SdkPromises.PendingIsOutstanding` | container/dsh-sdk-control.py:32-34 | In every run the requests the child takes an answer for are exactly those registered and not answered since |
| `SdkPromises.RegistersExactlyWhen` | container/dsh-sdk-control.py:30-36 | A supported native request is registered if and only if it is not outstanding |
| `SdkPromises.AllElseEndsTheChild` | container/dsh-sdk-control.py:43-82 | Whatever else is decoded, or cannot be, ends the child and enters nothing |
| `SdkPromises.ReturnsAreAnswered` | container/dsh-sdk-control.py:53-80 | A harness call that returns is answered with success under its id; one that raises ends the child; only a start that returned lets native requests be taken |
| `SdkPromises.RepliesAreSent` | container/dsh-sdk-control.py:24-25 | What is emitted goes out as the child's next frame, or ends the child where it cannot |
| `SdkPromises.RunIsAnswered` | container/dsh-sdk-control.py:68-73 | The run's own result is what is answered; if it raised or its answer could not be sent, a failure is |
| `SdkPromises.RequestsAreSent` | container/dsh-sdk-control.py:35-41 | A registered request goes out under its id; where it cannot, a fault does |
| `SdkPromises.CallsAreMade` | scripts/official_sdk_control_peer.py:78-88 | Only the first start makes a call, with bare parameters; every other call is made as given, and each is waited for |
| `SdkPromises.CallsAreSent` | scripts/official_sdk_control_peer.py:118-126 | A call goes out as its own next frame; one that cannot be sent fails at once |
| `SdkPromises.LinesAreHeard` | scripts/official_sdk_control_peer.py:90-107 | The reader hands a response to the call that waits under its id and lets native requests by; any other line closes the peer and fails every waiting call |
| `SdkPromises.RepliesDecide` | scripts/official_sdk_control_peer.py:122-126 | The first reply decides a call, by its `ok` flag alone; waiting too long fails it |
| `SdkPromises.ClosingFailsAll` | scripts/official_sdk_control_peer.py:108-112 | Closing answers every waiting call with a failure |
| `SdkObjects.Controller.Dispatch` | container/dsh-sdk-control.py:43-82 | The method's checks and state changes are the machine's dispatch, or leave what halting turns into it |
| `SdkObjects.Controller.Receive` | container/dsh-sdk-control.py:123-131 | One turn of the main loop as the machine's step |
| `SdkObjects.Controller.Register` | container/dsh-sdk-control.py:27-36 | Registration of a native request as the machine's step |
| `SdkObjects.SDKControlPeer.Read` | scripts/official_sdk_control_peer.py:90-107 | One turn of the reader as the machine's step, closing on anything unexpected |
| `SdkObjects.SDKControlPeer.Close` | scripts/official_sdk_control_peer.py:108-112 | The loop answers every waiting call with a failure exactly once |
| `SdkObjects.SDKControlPeer.Open` | scripts/official_sdk_control_peer.py:114-117 | A fresh operation's queue, refused when closed |
| `KeyOrder.AscendingIsSorted` | scripts/capacity_session.py:94 | Any strictly ascending listing of the keys is the serving order: sorting has one result |
| `KeyOrder.SortedAtRank` | scripts/capacity_session.py:94 | A key stands in the serving order where its number of earlier keys says |
| `KeyOrder.NameBelowMeans` | scripts/capacity_session.py:94 | Names are ordered by the lower character where they first differ, or the one that ends first |
| `RuntimeUnits.RuntimeUnits` | scripts/capacity_session.py:24-48 | For readable measurements the units are the greatest n whose half-pairs fit in processor, memory and pods headroom (to the 1e-9 slack); otherwise none |
| `SessionPlan.SessionPlan` | scripts/capacity_session.py:50-115 | The loops give exactly the decision defined by rank in the queue, the leftover budget and idleness, or the named error; `SessionPromises` says what that decision is in terms of the round alone |
| `SessionPlan.ReadDemand` | scripts/capacity_session.py:66-79 | Reading the report in order: what was read before a bad entry stays, and then the report is not fresh; `SessionPromises.ScanFinds` and `WantedIsAsked` say which entries count and for what time |
| `SessionPromises.ScanFinds` | scripts/capacity_session.py:66-77 | Reading the entries finds, for each known runtime, the request time of its last entry that was active within the idle time, up to the first bad entry |
| `SessionPromises.WantedIsAsked` | scripts/capacity_session.py:65-77 | In a usable round a known runtime is demanded if and only if some entry of it was active within the idle time, and its queue time is the `requestedAt` of the last such entry |
| `SessionPromises.LastAskIsTheLast` | scripts/capacity_session.py:74-75 | There is such a time if and only if some entry is recent, and it is that of the last recent one |
| `SessionPromises.StoppedExactlyWhen` | scripts/capacity_session.py:82-86 | A runtime is scaled to zero if and only if the report is usable, it is up, no spare, and none of its entries was active within the idle time |
| `SessionPromises.StartedExactlyWhen` | scripts/capacity_session.py:93-102 | A stopped runtime in recent use starts if and only if the report is usable and fewer than min(units, 4) of its kind were asked for before it, by request time and then name; otherwise it waits at the position that leaves those out |
| `SessionPromises.QueueComesFirst` | scripts/capacity_session.py:93-100 | The starts begin with those runtimes, the smaller `requestedAt` first |
| `SessionPromises.SparesFollow` | scripts/capacity_session.py:103-107 | After them start the first stopped spares not in recent use, as far as min(units, 4) goes |
| `SessionPromises.NothingWithoutReport` | scripts/capacity_session.py:76-93 | Without a usable report nothing starts and nothing stops |
| `SessionPromises.UpIsShown` | scripts/capacity_session.py:82-90 | An up runtime is shown stopping, running or, before its first ready pod, starting, and as a spare exactly when it is kept as one |
| `SessionPromises.DownIsShown` | scripts/capacity_session.py:91-107 | A down runtime not in recent use is stopped, unless it starts as a spare |
| `SessionPromises.SummaryIsTrue` | scripts/capacity_session.py:108-114 | The running, starting, waiting and warm counts of the summary are the numbers of runtimes shown so, and the starts left are the units not used |
| `SessionPromises.AcceptedExactlyWhen` | scripts/capacity_session.py:60-64 | A round is accepted if and only if the idle time is five minutes to a day and every runtime has a name of the platform and a count of replicas |
| `SessionPromises.MeasuredExactlyWhen` | scripts/capacity_session.py:30-43 | The measurements are read if and only if all four rows are there with nonnegative numbers and positive budgets, storage among them |
| `SessionPromises.UnitsExactlyWhen` | scripts/capacity_session.py:44-45 | What fits, in numbers: n runtimes fit if and only if n half pairs stay within what is left above the reserve of processor, memory and pods, to the 1e-9 slack; storage does not limit |
| `SessionSafety.FirstAskedStart` | scripts/capacity_session.py:93-102 | In a fresh round a demanded stopped runtime starts if and only if fewer than min(units, 4) were asked for before it; otherwise its position counts those ahead that also wait |
| `SessionSafety.PositionsAreDense` | scripts/capacity_session.py:96-102 | Every position from 1 to the number waiting is shown for exactly one runtime |
| `SessionSafety.SparesComeLast` | scripts/capacity_session.py:103-107 | If any spare starts, no demanded runtime waits, and both together are within the budget |
| `SessionSafety.CountsAddUp` | scripts/capacity_session.py:80-115 | Every runtime has exactly one state and running, starting, waiting and stopped add up to their number |
| `SessionSafety.StartsAndStopsAreDisjoint` | scripts/capacity_session.py:83-107 | No runtime both starts and stops; only stopped demanded or spare ones start, only idle running ones stop, and a stale or malformed report causes neither |
| `SessionSafety.StartsWithinBudget` | scripts/capacity_session.py:95-107 | A round starts at most min(units, 4) runtimes |
| `SessionSafety.StartedOnceExactlyWhen` | scripts/capacity_session.py:93-107 | A round on a fresh report starts no runtime twice if and only if the stopped spares it has units left for are named once each |
| `SessionSafety.StartsAreDistinct` | scripts/capacity_session.py:80-107 | So with spares named once each, no runtime is started twice |
| `SessionSafety.ADuplicateSpareStartsTwice` | scripts/capacity_session.py:103-107 | A valid round in which a spare named twice is started twice |
| `SessionRounds.NobodyIsOvertaken` | scripts/capacity_session.py:93-102 | If started runtimes stay up and new demand is later, a waiting runtime's place falls by at least the number started |
| `SessionRounds.PositionNeverGrows` | scripts/capacity_session.py:93-102 | The same for the positions shown |
| `SessionRounds.ServedWithinItsPosition` | scripts/capacity_controller.py:141-170 | Round after round on the cluster, with each round's scale calls made, at least one unit and continued fresh demand, a waiting runtime has a replica within as many further rounds as its position; that what was started stays up follows from the scale calls |
| `Sessions.WarmSpares` | scripts/capacity_controller.py:116-138 | The loop gives exactly the secure runtimes of the unassigned slots, in pool order, up to the count; nothing when a file, or a slot met before the count is reached, cannot be read |
| `Sessions.NeverScaledDown` | scripts/capacity_controller.py:153-170 | However far the scale calls get, no demanded or spare runtime and none hidden from the round ends below its count, and with a stale report none does |
| `Sessions.StartsFit` | scripts/capacity_session.py:24-48 | The starts of a round together fit what its units were measured from |
| `SessionPromises.HiddenExactlyWhen` | scripts/capacity_controller.py:141-150 | Hidden from a round are exactly the two runtimes of each slot that is still being prepared or qualified |
| `SessionPromises.RoundLeaves` | scripts/capacity_controller.py:153-170 | After all its scale calls a round has left one replica of what it starts, none of what it stops, and every other count as it was |
| `Sessions.SparesOf` | scripts/capacity_controller.py:126-136 | The loop over the pool gives the secure runtimes of the free slots it looks at, or nothing if one of them is unreadable |
| `Sessions.EnoughExactlyWhen` | scripts/capacity_controller.py:127-136 | The pool is read up to the fewest slots that give the wanted number of spares, or to its end |
| `SessionPromises.FreeLabelsAreOffered` | scripts/capacity_controller.py:116-138 | The spares are exactly the secure runtimes of the free slots, each as often and in the order as the pool lists them |
| `Sessions.Cluster.Round` | scripts/capacity_controller.py:141-170 | One controller round: slots still preparing or qualifying are hidden, the scale calls are a prefix of the decision's, and the protections above hold of the cluster itself |
| `CapacitySafety.StepKeepsInv` | scripts/capacity_controller.py:65-113 | Every atomic write of controller and gateway, and a crash at any point, keeps the protocol invariant |
| `CapacitySafety.RecoveryPublishesAll` | scripts/capacity_controller.py:71-83 | Recovery finds no differing route, changes no published one and publishes every qualified slot |
| `CapacitySafety.FilesOnlyGrow` | scripts/capacity_controller.py:105-113 | Over any stretch of a run the pool is append-only with no route changed, and no account goes or changes its slot |
| `CapacitySafety.PublishedHaveReceipts` | scripts/capacity_controller.py:97-112 | In every state each published slot that was not installed has a ready record with a passed receipt and equal routes |
| `CapacitySafety.OnePending` | scripts/capacity_planner.py:36-59 | In every state at most one slot is preparing or qualifying |
| `CapacitySafety.GuardsNeverFire` | scripts/capacity_controller.py:77-111 | In every state recovery and publication find no other route in place, and the planner never misses an assigned slot |
| `CapacityProgress.FavourableRound` | scripts/capacity_planner.py:36-59 | From any reachable idle state, a round with fresh enabled inputs and a successful worker adds exactly one ready spare, or the target or the inventory limit is already reached; nothing is left pending or unpublished |
| `CapacityProgress.SparesAreReached` | scripts/capacity_controller.py:65-113 | Over any stretch of any run, with crashes, failed work, sign-ups and projections between and inside the rounds: the ready spares, a slot begun and those since projected as used together reach the spare number, or grow by one for every decision on fresh enabled inputs less one for every interruption, or the inventory is full |
| `CapacityProgress.NothingIsLeftHalfDone` | scripts/capacity_controller.py:71-113 | From such a decision on, until something interrupts, every qualified slot is published and none is pending except the one in hand, whatever an earlier crash left |
| `CapacityController.Files.RecoverPool` | scripts/capacity_controller.py:71-83 | The recovery loop: one write of the pool if anything changed, otherwise none, and refused exactly when the machine's recovery is |
| `CapacityController.Files.Reconcile` | scripts/capacity_controller.py:65-113 | The exact ordered list of the round's atomic writes: recovered pool, preparing record, then what completion writes; the files hold what the machine's own steps leave. The inventory gains the new slot if and only if the policy is well formed, within 0 to 8 and enabled, the projection timely and valid with known slots, nothing pending, the ready spares below the target, both limits with room and all four measurements readable and nonnegative; a disabled policy never calls the worker |
| `CapacityPromises.PlanMeans` | scripts/capacity_planner.py:19-59 | The planner's three answers, each if and only if: provision, resume, or neither, in terms of policy, projection, inventory and measurements |
| `CapacityPromises.ProvisionsExactlyWhen` | scripts/capacity_planner.py:25-59 | A decision begins a slot if and only if the round is enabled and slots are lacking with room and measurements for one more; it writes just a preparing record for the new name |
| `CapacityPromises.WorksExactlyWhen` | scripts/capacity_controller.py:84-96 | It hands a slot to the worker if and only if it begins one or, enabled, finds one unfinished, then the first of the inventory |
| `CapacityPromises.PausedDoesNothing` | scripts/capacity_planner.py:44-45 | A disabled policy, or one out of bounds, writes nothing and calls nobody |
| `CapacityPromises.RecoversExactlyWhen` | scripts/capacity_controller.py:71-83 | Recovery succeeds if and only if every ready slot with a passed receipt has routes, and the pool has those or none for it |
| `CapacityPromises.RoundMeans` | scripts/capacity_controller.py:65-96 | Which slot a round works on, of recovery and planning together |
| `CapacityPromises.WaitsBecause` | scripts/capacity_planner.py:25-58 | Each reason the planner gives stands under exactly its own condition, in terms of the round's inputs, and the counts it reports are the ready spares and the unfinished slots |
| `CapacityPromises.ShortOf` | scripts/capacity_planner.py:54-58 | The measurement named is the first that is missing or negative, in the order processor, memory, pods, storage |
| `CapacityPromises.RaisesExactlyWhen` | scripts/capacity_planner.py:19-37 | A round raises if and only if the policy is malformed or out of bounds, the projection is not one, or it names a slot the inventory lacks |
| `CapacityPromises.ReceiptExactlyWhen` | scripts/capacity_controller.py:97-104 | The receipt is written if and only if the result passed with routes for the two environments, over that slot's record alone |
| `CapacityPromises.RouteExactlyWhen` | scripts/capacity_controller.py:105-113 | The route goes to the end of the pool unless the slot has another there already |
| `CapacityController.Files.Complete` | scripts/capacity_controller.py:97-113 | The receipt is written before the route, and the route only if it conflicts with none: the exact list of writes |
| `CapacityAccounts.NoSlotIsShared` | scripts/auth_proxy.js:872-882 | Across all interleavings of sign-up, admin creation, directory sign-in and publication, no two accounts hold one slot |
| `CapacitySafety.NewSlotIsFree` | scripts/auth_proxy.js:852-882 | A new account's slot is in the pool and held by nobody |
| `CapacityAccounts.AcceptedExactlyWhenCanonical` | scripts/capacity_policy.js:52-69 | In every state the gateway accepts the pool file if and only if every route the controller published is the canonical one for its slot |
| `CapacityAccounts.AnOddWorkerClosesThePool` | scripts/capacity_controller.py:101-112 | A concrete run in which the controller publishes a passed but not canonical result, the gateway then refuses the pool and an account's destination goes |
| `CapacityAccounts.DestinationStays` | scripts/auth_proxy.js:839-846 | An account's destination never changes, and is unavailable exactly while the pool file is refused |
| `CapacityAccounts.DestinationsAreForGood` | scripts/auth_proxy.js:839-846 | If the worker returns canonical routes only, a destination never disappears either |
| `CapacityAccounts.AccountsDoNotClash` | scripts/capacity_policy.js:57-68 | Accounts with destinations share no host and no token file, given collision-free slot hashes and exclusive operator routes |
| `CapacityAccounts.StartupCheck` | scripts/auth_proxy.js:769-783 | The startup loop passes if and only if no pool route shares a host or token file with a provisioned or an earlier pool route |
| `GatewayAccounts.AccountStore.Register` | scripts/auth_proxy.js:1859-1870 | Local sign-up's new account file, exactly when it succeeds, and the named refusal otherwise |
| `GatewayAccounts.AccountStore.AdminCreate` | scripts/auth_proxy.js:2094-2115 | An administrator's creation, exactly when it succeeds, and the named refusal otherwise |
| `GatewayAccounts.AccountStore.Authenticate` | scripts/identity_auth.js:15-35 | After its await a directory sign-in works on the reloaded accounts: it refuses exactly the names a local account or another letter case holds, signs in exactly the enabled account made for that subject, and reports a new account exactly when one was stored |
| `AccountPromises.SignsUpExactlyWhen` | scripts/auth_proxy.js:1859-1870 | Signing up adds an account if and only if storage admits it, the name is available and not provisioned, the password strong, the pool trusted with a free slot, and the file is kept; the account gets the first free slot of the pool, and nothing else changes |
| `AccountPromises.AdminAddsExactlyWhen` | scripts/auth_proxy.js:2094-2115 | An administrator adds one under the same conditions, provisioned names included, which take no slot |
| `AccountPromises.DirectoryAddsExactlyWhen` | scripts/identity_auth.js:15-35 | A directory sign-in adds one if and only if creation is wanted and allowed, no account clashes with the name in any letter case, and one may be added |
| `AccountPromises.RefusedBecause` | scripts/auth_proxy.js:852-882 | Why an account is refused: the first reason that applies |
| `AccountPromises.OnlyTheFlagChanges` | scripts/auth_proxy.js:2094-2115 | Enabling or disabling an account changes that flag of that account and nothing else |
| `AccountPromises.ProjectsTheAccounts` | scripts/auth_proxy.js:839-850 | The projection names the time, the number of accounts, and each held slot exactly once |
| `AccountPromises.GoesWhere` | scripts/auth_proxy.js:839-846 | A request goes to the provisioned routes, or to those of the slot that the account alone holds in a trusted pool, and nowhere else |
| `AccountPromises.TrustedExactlyWhen` | scripts/capacity_policy.js:40-69 | A pool file is taken if and only if it has at most 400 rows, holds the first pool unchanged, and every other row has a slot name of the right form and that slot's own two routes |
| `ForwarderCleanup.StepKeepsInv` | scripts/context_forwarder.py:223-322 | Every stretch between two awaits, preparation going on after cleanup was asked for included, keeps the lane count and each request's cleanup order |
| `ForwarderCleanup.LaneIsExact` | scripts/context_forwarder.py:90-111 | In every state `active` is the number of tokenizing and ordinary requests still owning the lane, `idle` is set exactly at zero, and a request about to leave finds it positive |
| `ForwarderCleanup.CleanupAtMostOnce` | scripts/context_forwarder.py:285-319 | Whatever is asked, cancelled, repeated and prepared meanwhile, each effect of cleanup happens at most once |
| `ForwarderCleanup.CallersSeeItDone` | scripts/context_forwarder.py:305-319 | A caller returns only once the cleanup task is over, raises exactly when it failed, and otherwise finds every effect done, a connection closed exactly if it was not opened behind the back of cleanup |
| `ForwarderCleanup.LeaseOutlivesItsCache` | scripts/context_forwarder.py:300-303 | The long lease is released only after the cache reference it came with was closed, in every order of preparation and cleanup |
| `ForwarderCleanup.LeaseIsKeptExactlyWhen` | scripts/context_forwarder.py:285-303 | Once cleanup is over the lease is still held if and only if both attempts to close its cache reference failed or it was granted after cleanup had ended |
| `ForwarderCleanup.KeptForGood` | scripts/context_forwarder.py:285-319 | A lease held after cleanup stays held to the end of the run: cleanup runs once |
| `ForwarderCleanup.ALateLeaseIsKept` | scripts/context_forwarder.py:332-449 | A concrete run in which the response's background cleanup ends while preparation still waits for the guard, which then grants the lease for good |
| `ForwarderCleanup.CleanupEnds` | scripts/context_forwarder.py:285-319 | Once asked for, the cleanup task ends after at most six stretches, however its calls fail, and nothing sets it back |
| `ForwarderObjects.DirectIsCompleted` | scripts/context_forwarder.py:285-303 | The straight-line cleanup is the machine's cleanup task, stretch by stretch, for every way its awaited calls go |
| `ForwarderPromises.CleanupDoes` | scripts/context_forwarder.py:285-303 | The whole cleanup for every way its calls go: the client is closed only if the upstream's close went well, the abort comes only if both did, the cache reference is tried twice, and the lease goes unless both attempts fail; it succeeds exactly if the abort and the release happened |
| `ForwarderPromises.InOrder` | scripts/context_forwarder.py:285-303 | In every state of every run the client is closed only after an upstream that was open, the abort only after both, the lease only after its cache reference |
| `ForwarderPromises.StartedWhenAsked` | scripts/context_forwarder.py:305-319 | In every run the cleanup task exists if and only if somebody has asked for it |
| `ForwarderPromises.CallersAreTold` | scripts/context_forwarder.py:305-319 | In every run a caller that returned learns of cleanup's failure, however often it was cancelled; otherwise of its own cancellation if and only if it was cancelled while waiting |
| `ForwarderObjects.Completion.PerformCleanup` | scripts/context_forwarder.py:285-303 | The cleanup task's body: lane left once, closes up to the first failure, then cache reference and lease in that order |
| `ForwarderObjects.Completion.CloseCache` | scripts/context_forwarder.py:146-163 | The loop tries twice and reports whether the reference closed |
| `ForwarderObjects.InteractiveLane.LeaveLane` | scripts/context_forwarder.py:106-111 | Leaving, or the error for a lane nobody holds |
| `LineSplitter.SplitAnywhere` | scripts/context_forwarder.py:456-458 | Splitting a text into lines may stop at any byte and go on with what was left |
| `LineSplitter.Collector.Feed` | scripts/context_forwarder.py:451-464 | After any chunks the packets and the failure are those of the complete lines of all bytes so far |
| `LineSplitter.ChunksDoNotMatter` | scripts/context_forwarder.py:451-464 | What is collected depends on the bytes alone, not on how they were cut |
| `LineSplitter.StreamIsCollected` | scripts/context_forwarder.py:451-464 | A well-formed event stream is collected packet by packet |
| `LineSplitter.FirstOutput.Feed` | scripts/context_forwarder.py:367-395 | The handoff flag is set if and only if some complete line of the bytes so far shows model output |
| `LineSplitter.RequestTiming.Observe` | scripts/context_forwarder.py:55-77 | The oversize flag is set exactly when some chunk took the pending bytes over 131072, and until then the lines looked into are all complete lines |
| `LineSplitter.TimingAgrees` | scripts/context_forwarder.py:55-77 | While nothing overflowed the timing parser has looked into exactly what the collector read |
| `LinePromises.LinesExactlyWhen` | scripts/context_forwarder.py:456-458 | The lines and the rest are the only way to write the bytes as lines ending in a newline each and a last part without one |
| `LinePromises.DataExactlyWhen` | scripts/context_forwarder.py:459-460 | A line is taken as data if and only if it is `data: ` and a body other than `[DONE]` with white space around it |
| `LinePromises.CollectorHas` | scripts/context_forwarder.py:451-464 | After any chunks the packets are those of the data lines in order, up to the first that is unreadable or carries an error, which is the failure |
| `LinePromises.FitsExactlyWhen` | scripts/context_forwarder.py:55-59 | The timing parser gives up if and only if some chunk, with what was left before it, passes 128 KiB |
| `Supervisor.Supervisor.Tick` | container/app-supervisor.py:62-103 | After a tick every child belongs to a present, enabled, allowed service with an identical definition, an invalid control file leaves none, and every name's new state is the tick's function, which `SupervisorPromises` pins from both sides |
| `Supervisor.Supervisor.StopUnwanted` | container/app-supervisor.py:75-78 | The first loop stops exactly the unwanted children and forgets their failures |
| `Supervisor.RestartsAreSpaced` | container/app-supervisor.py:79-102 | While a definition stays unchanged and allowed, a restart comes at least the backoff of the failures counted by then after the start before it, and the count has grown unless the process ran for over two minutes |
| `Supervisor.StartsAreBounded` | container/app-supervisor.py:79-102 | So starts in any span are at most one more than its two-second pieces |
| `Supervisor.RestartAfterFailure` | container/app-supervisor.py:82-98 | While a definition stays unchanged and allowed: if a tick records an exit or a failed start as the k-th failure in a row at time t, every start from then on comes at least min(60, 2^min(k,6)) seconds after t, whatever has the port meanwhile |
| `Supervisor.ExitIsRecorded` | container/app-supervisor.py:82-84 | An exit is counted and starts that wait, also for a start in the same tick |
| `Supervisor.FailedStartIsRecorded` | container/app-supervisor.py:98 | A failed start is counted and starts that wait |
| `Supervisor.UnforgivenStartsRamp` | container/app-supervisor.py:79-102 | While no process runs for over two minutes, the starts of a stretch are as far apart as the growing backoffs together, and each has raised the count |
| `Supervisor.SixRestartsTakeTwoMinutes` | container/app-supervisor.py:79-102 | Whatever is forgiven, any six restarts take more than two minutes |
| `Supervisor.BackoffValues` | container/app-supervisor.py:84 | The backoff is 2, 4, 8, 16, 32 and then 60 seconds |
| `SupervisorPromises.ComesBack` | container/app-supervisor.py:79-100 | While a definition stays enabled, allowed and unchanged: a tick that finds no process and a free port, a minute after the last recorded failure and ten seconds after the last taken port, ends with the process running if it can be started, however many failures came before |
| `SupervisorPromises.FirstTickStarts` | container/app-supervisor.py:81-95 | A service new to the supervisor is started by the first tick that finds its port free |
| `SupervisorPromises.StaysDownFor` | container/app-supervisor.py:85-98 | What keeps a service down: a taken port for ten seconds, a start that fails for the backoff of one failure more |
| `SupervisorPromises.ForgivenExitIsTheFirst` | container/app-supervisor.py:82-100 | An exit after the process was seen running for over 120 seconds is counted as failure 1, so the next start is allowed two seconds later |
| `SupervisorPromises.ExitCountsOneMore` | container/app-supervisor.py:82-84 | Any other exit counts one more |
| `SupervisorPromises.RunsOnExactlyWhen` | container/app-supervisor.py:75-83 | A process that has not exited is left running if and only if its service is listed with this very definition, enabled, and services are allowed |
| `SupervisorPromises.UnwantedRests` | container/app-supervisor.py:75-85 | A name not listed or not to run has no process, and only a removed child's failures are forgotten |
| `JsonParsing.TextParses` | scripts/gradio_alias.js:47-51 | Every text of the JSON grammar, in any spacing and any escapes, is parsed to its meaning, numbers as written; `JsonNumbers.Read` then converts them |
| `JsonGrammar.ParsesExactlyTheGrammar` | scripts/gradio_alias.js:49 | The parser gives a meaning to a text if and only if the text is white space, a value of the grammar with that meaning, and white space |
| `JsonGrammar.OneMeaning` | scripts/gradio_alias.js:49 | So a text has at most one meaning |
| `JsonGrammar.EscapesAreRead` | scripts/gradio_alias.js:49 | The two-character escapes are exactly the eight of section 7 of RFC 8259, with their values |
| `JsonGrammar.HexIsRead` | scripts/gradio_alias.js:49 | After a backslash and u four hexadecimal digits of either case are read as the unit they write; any other four are refused |
| `JsonGrammar.SpacesAreRead` | scripts/gradio_alias.js:49 | White space around a value is exactly blank, tab, line feed and return |
| `JsonGrammar.WordsAreRead` | scripts/gradio_alias.js:49 | The texts of null, true and false, character by character |
| `JsonGrammar.CommaIsRead` | scripts/gradio_alias.js:49 | An array's text, character by character, and what it is read as |
| `JsonGrammar.ColonIsRead` | scripts/gradio_alias.js:49 | The same of an object |
| `JsonNumberText.NumberExactlyWhen` | scripts/gradio_alias.js:49 | The number texts are exactly a minus or none, digits without a leading zero, a point and digits or neither, an exponent or none (section 6 of RFC 8259) |
| `JsonNumberText.NumberIs` | scripts/gradio_alias.js:49 | A text of such parts has the value of its digits read as one number, scaled by the exponent less the places after the point |
| `JsonNumberText.ReachesExactlyWhen` | scripts/gradio_alias.js:49-54 | A value reaches the limit of the doubles if and only if, as a real number, it is at least the power of two less half the last place |
| `JsonScan.ObjectEnds` | scripts/gradio_alias.js:35-46 | For every object text and any continuation, counting braces and brackets together ends exactly at the object's own brace |
| `JsonScan.JsonEnd` | scripts/gradio_alias.js:35-46 | The loop answers where the counted object ends, or the named refusal |
| `JsonNumbers.NulledExactly` | scripts/gradio_alias.js:48-54 | Writing a value that was read changes it if and only if one of its numbers overflows a double |
| `GradioConfig.EscapedReadsBack` | scripts/gradio_alias.js:52-55 | A written and escaped value reads back to the same value, infinities as null, and holds no `<`, U+2028 or U+2029 |
| `GradioConfig.OnlyTheRootChanges` | scripts/gradio_alias.js:47-55 | A rewritten configuration reads back with `root` changed from the pinned origin to the alias and is safe in a script element; every other property reads back as it was if and only if no number of the configuration overflows a double |
| `GradioConfig.AnOverflowBecomesNull` | scripts/gradio_alias.js:47-55 | With a property 1e400 the rewriting is accepted, and what was read as an infinity reads back as null |
| `GradioConfig.ValueReplaced` | scripts/gradio_alias.js:54 | Replacing in the text is escaping in the string characters and nowhere else |
| `GradioConfig.Spliced` | scripts/gradio_alias.js:66-74 | The method's result is the splice's function, refusals included |
| `GradioConfig.SplicedExactlyWhen` | scripts/gradio_alias.js:66-74 | The splice succeeds if and only if the counted object ends inside the script, the statement ends after it and the configuration is accepted; all else stays as it was |
| `GradioConfig.OnlyTheObjectIsReplaced` | scripts/gradio_alias.js:66-74 | For an object text with the pinned root between any two texts, the second ending the statement, the splice succeeds, puts in the rewritten object alone, and that reads back with its root changed and infinities null |
| `GradioPromises.SplicesExactlyWhen` | scripts/gradio_alias.js:35-74 | Without scanner or parser in the condition: the splice succeeds if and only if an object text with the pinned root stands at the position and what follows it in the script ends the statement |
| `GradioPromises.EndsExactlyWhen` | scripts/gradio_alias.js:72 | A statement ends if and only if after white space of the language the text is over or goes on with a semicolon |
| `GradioPromises.SafeInScript` | scripts/gradio_alias.js:47-54 | A rewritten text holds no character 60, U+2028 or U+2029 and reads back as an object whose `root` is the alias |
| `GradioPromises.PlainExactlyWhen` | scripts/gradio_alias.js:54 | A character is written as itself if and only if it is no control character, quote or backslash and no half of a surrogate pair alone |
| `GradioPromises.RewrittenIsPaired` | scripts/gradio_alias.js:54 | Whatever the configuration's strings hold, the rewritten text has no half of a surrogate pair alone, so its encoding as UTF-8 loses nothing |
| `DnsQuestion.ParseQuestion` | scripts/internal_dns_allowlist.py:27-44 | The label loop terminates with the question or the named error |
| `DnsQuestion.WireIsTheQuestion` | scripts/internal_dns_allowlist.py:31-44 | The re-encoded question of every accepted query is the packet's own question bytes with ASCII letters lowered and nothing after them |
| `DnsQuestion.WellFormedIsAccepted` | scripts/internal_dns_allowlist.py:27-44 | Every well-formed uncompressed question of type 1, 28 or 33 and class IN within the size limit is accepted as itself in lower case (sections 3.1 and 4.1.2 of RFC 1035) |
| `DnsPromises.AcceptedExactlyWhen` | scripts/internal_dns_allowlist.py:27-44 | A packet is accepted if and only if it has 12 to 512 bytes, is a standard query with exactly one question, and that question is uncompressed labels of 1 to 63 ASCII bytes, the type 1, 28 or 33 and class IN; it is read as its own labels in lower case and its own type |
| `DnsPromises.NameIsDotted` | scripts/internal_dns_allowlist.py:44 | The looked-up name is the labels with a dot between each two |
| `DnsPromises.RebuiltIs` | scripts/internal_dns_allowlist.py:65-66 | The relay's own query is its nonce, recursion desired, one question, and nothing else |
| `DnsQuestion.RebuiltParsesBack` | scripts/internal_dns_allowlist.py:65-66 | The relay's rebuilt query parses back to the same name and wire |
| `DnsQuestion.NameTellsTheLabels` | scripts/internal_dns_allowlist.py:44 | The dotted name that is looked up determines the labels that are sent if and only if no label holds a dot |
| `DnsQuestion.OneNameTwoWires` | scripts/internal_dns_allowlist.py:44 | Two packets that are both accepted, with one looked-up name and different wires |
| `DnsQuestion.Relay.Answer` | scripts/internal_dns_allowlist.py:56-82 | Every reply carries the query's identifier and moves exactly one counter; only a listed name is ever sent on, as the relay's own query for it; the datagram reply is passed on if and only if its flags lack bit 0x0200, else the stream's; the answer is the upstream's exactly when its exchange holds |
| `ClientInstall.ClientLayer.Install` | scripts/install_live_client_layer.py:84-158 | An install stopped at any of its five changes has made exactly the first ones, in order; success is exactly all five; a concurrent edit before the last comparison is kept and refused; a short write is refused with the pointer unmoved |
| `ClientInstall.ClientLayer.Rollback` | scripts/install_live_client_layer.py:161-190 | Refuses without change on any drift; keeps and refuses an edit made before its last comparison; otherwise, stopped at any point, it has restored profile and mode first and then the pointer |
| `ClientInstall.InstallsExactlyWhen` | scripts/install_live_client_layer.py:84-131 | An install is accepted if and only if bundle and preflight agree, the profile defines no launcher of the user's and has no managed block but this one anywhere in it, the pointer is none or a link to a release, and a release of this name holds every file of the bundle |
| `ClientInstall.InstalledDisk` | scripts/install_live_client_layer.py:103-158 | What a whole install leaves on disk, the record included; a release that was there stays as it is |
| `ClientInstall.RollsBackExactlyWhen` | scripts/install_live_client_layer.py:161-176 | A rollback is accepted if and only if profile, saved copy and pointer are those the install left |
| `ClientInstall.InstallOnlyAppends` | scripts/install_live_client_layer.py:132-150 | However an install ends, the profile still begins with the old bytes; it changes only once its copy is saved, the copy is saved only once the release is there, and the pointer moves only once the block is in the profile |
| `ClientInstall.RollbackUndoesInstall` | scripts/install_live_client_layer.py:161-190 | A rollback after an install restores profile, mode and pointer exactly; the user's bytes appended during the install survive if and only if there were none |
| `ClientInstall.LaterAppendIsRefused` | scripts/install_live_client_layer.py:168-174 | After any later append to the profile the rollback is refused |
| `ClientInstall.EditsSurviveExactlyWhen` | scripts/install_live_client_layer.py:178-182 | What the user appends during an accepted rollback is on disk afterwards if and only if none of it fell between the last comparison and the replacement |
| `ClientInstall.RerunAfterInterruption` | scripts/install_live_client_layer.py:172-187 | A rollback cut off after its first change can be run again if and only if the install had left the profile as it was; the pointer has not moved |
| `ClientInstall.InstallLeftTheProfile` | scripts/install_live_client_layer.py:141-150 | Which is exactly when the block was there already and the user appended nothing |
| `ClientInstall.SeriesIsUndone` | scripts/install_live_client_layer.py:84-190 | Any series of installs rolled back in reverse is never refused and ends with the first profile, mode and pointer |
| `Promotion.Promoter.Promote` | container/promote_packages.py:44-108 | With new names for the hidden files: no existing artifact is ever changed, nothing is published unless every row verifies, which is the refusal exactly when some incoming file is missing, over 256 MiB or of another digest; no hidden file stays, and the outcome is that of the steps in order |
| `Promotion.Promoter.Stage` | container/promote_packages.py:61-85 | The first loop succeeds if and only if every row verifies |
| `Promotion.Promoter.PublishRow` | container/promote_packages.py:86-105 | One row's directories, hidden file, link and removal, and the removal also where a step raises |
| `Promotion.HiddenFilesAside` | container/promote_packages.py:86-105 | Hidden files aside, the steps do exactly what their directories and links do |
| `Promotion.OneHiddenFile` | container/promote_packages.py:86-105 | After any steps at most the one hidden file in use is there in addition, and none where a step raised |
| `Promotion.InterruptedThenRerun` | container/promote_packages.py:86-105 | A promotion killed after any number of its steps leaves at most one hidden file; run again it shows the store and the verdict of one not killed, and only that file stays besides |
| `Promotion.RerunIsTheSame` | container/promote_packages.py:86-105 | Any sequence of directory and link operations cut off anywhere and run again ends as if not cut off, conflicts included |
| `Promotion.PromotedIsApproved` | container/promote_packages.py:86-105 | After success every approved path holds a file of its digest |
| `PromotionPromises.PathExactlyWhen` | container/promote_packages.py:18-24 | A written path is accepted as these parts if and only if it is they with slashes between, none empty, `.` or `..`, and all characters among the allowed |
| `PromotionPromises.RowsExactlyWhen` | container/promote_packages.py:47-55 | An approval is read if and only if every line is blank or a row with such a path, and then gives the rows as written, in order |
| `PromotionPromises.PublishesExactlyWhen` | container/promote_packages.py:44-108 | A promotion succeeds if and only if every incoming file is there, at most 256 MiB and of its digest, each path is free or holds a file of that digest, only directories stand above it, and no approved path lies below another |
| `PromotionPromises.StoreAfter` | container/promote_packages.py:86-108 | The whole store after any promotion: what was there is unchanged, and all that is new is an approved path with the very bytes that came in or a directory above one; after success every approved path is a file below directories |
| `Promotion.UniqueByCount` | container/promote_packages.py:56-57 | Comparing the size of the set of paths with the number of rows detects exactly the repeated paths |

## Left out

- HTTP and WebSocket proxying, pages, cookies, TLS, LDAP transport, process and Kubernetes calls: plumbing around the modelled decisions.
- CredentialBroker.SaveAccepted: the shape and pattern checks of a request (name patterns, secret length, scope and parameter regular expressions) are one boolean `wellFormed` of the request.
- CredentialBroker.ReadStep: the `list`, `profiles`, `encryption-key` and `result` actions only read and change nothing but the audit log; envelope decryption is part of the request.
- SdkCodec.Possible: both directions share one key, so a frame reflected to its sender would authenticate; each direction is modelled as its own directed pipe.
- SdkControl.Heard: notifications to subscriptions are not modelled; the child sends none.
- SdkControl.Enabled: the peer's `closed` flag is tested before an operation is registered, so a call may still be opened after closing; the machine allows it at any time, which only adds runs.
- SdkControl.Performed: a harness call of the main thread is entered in the step that passes the fence and returns in a later one.
- RuntimeUnits.RuntimeUnits: measurements are real numbers; the rounding of floating-point quotients is not modelled.
- SessionPlan.ReadDemand: times are whole microseconds; text forms of times are read or bad.
- SessionRounds.NextTurn: every scale call of the rounds in between goes through, and nobody else scales existing runtimes.
- Sessions.Cluster.Round: the cluster's counts do not change between being read and being scaled; progress pages and the published status are not modelled.
- CapacityProtocol.Step: the operator's manual retirement of slots is not an event; retired entries may be present from the start. The capacity report and the status file are not modelled.
- CapacityProtocol.PoolAccepted: the format checks of the first pool's hosts and paths are made once at startup and not repeated here; letter case of names is folded for ASCII only.
- CapacityProtocol.NewAccount: password strength and storage admission are inputs of the step; a first pool is installed.
- ForwarderCleanup.MayHappen: the lane's timed wait and the cache deadlines are not modelled; an ordinary request owns the lane before its cleanup can be asked for, as its code does.
- LineSplitter.RequestTiming.Observe: the gap measurements and the fields read from a line are not modelled, only which lines are looked into.
- Supervisor.Supervisor.Tick: the published status rows and a tick in which stopping a process itself fails are not modelled; checking a service again just before its start is part of whether the start works.
- JsonNumbers.Read: the shortest text of a finite double is a parameter, constrained only to read back as itself; the two zeros are one value; integer-like member names keep their place, so the order of members is not the original's.
- GradioConfig.Spliced: finding the script element and the assignment in the page is not modelled; the position is an input.
- DnsQuestion.Relay.Answer: the wait for replies and the bounded thread pool are not modelled.
- ClientInstall.ClientLayer.Install: users only append to the profile meanwhile; permissions, links and inode checks of the file helpers are not modelled, nor is the `.bashrc.dsh-restore-` file that a rollback leaves when its second comparison fails.
- Promotion.Promoter.Promote: a hidden file is written in one step, so one left by a kill may in truth hold less; no approved path has a component that begins with `.promotion-`, where hidden files are told from others; reading the incoming mount gives each path one content or fails.
- container/dsh-task-broker.py, renderers, deployment scripts, source patchers, version checks and the session and password stores: not modelled.
