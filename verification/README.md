# Verification of the stack provisioner

This project models the part of the service that owns stacks: the allocation of node ports on a
shared DynamoDB table, the provisioning of a pod and a service for each stack, the refresh and
cleanup that reconcile the repository with the cluster, batch deletion, the item codecs and the
validation of pod specifications. Run `dafny verify dfyconfig.toml` to check it.

## How it is laid out

| file | what it holds |
|---|---|
| `Types.dfy`, `Text.dfy`, `Decimal.dfy`, `Arithmetic.dfy` | records and sums over maps, text, decimal integers, remainders |
| `PortTable.dfy`, `PortProtocol.dfy` | the conditional writes on stacks and ports, and any number of creators and deleters interleaved over them |
| `Repository.dfy` | the repository as three maps; the in-memory implementation as a class |
| `Keys.dfy`, `Items.dfy`, `DynamoTable.dfy`, `DynamoRepository.dfy` | keys, item codecs, conditional writes and transactions on rows; the DynamoDB implementation as a class over rows |
| `Refinement.dfy` | the table against the three maps, operation by operation and over runs |
| `Kubernetes.dfy` | the cluster and its client as a class, with an oracle that may fail any call |
| `Service.dfy`, `Batch.dfy`, `Worlds.dfy`, `Convergence.dfy`, `Names.dfy` | the service as a class over both; what a batch records; what a cleanup cycle makes of a world; the names given to cluster objects |
| `Reconciliation.dfy`, `StackIdentity.dfy`, `PortConservation.dfy`, `SweepSafety.dfy`, `RemovalEvidence.dfy` | creates, deletes, refreshes and cleanup cycles interleaved call by call, and what every run keeps |
| `Validator.dfy` | validation and normalisation of a parsed pod |

## Modelling choices

- Time is an integer number of nanoseconds on one clock. Locks count whole seconds, as the program does,
  and `lockTTL` is the configured lifetime in whole seconds.
- Each call to DynamoDB, to the in-memory repository or to the API server is one atomic step. In
  `PortProtocol` a call may also fail, with its effect having landed or not. Elsewhere a failed call
  changes nothing. Reads are consistent, and listings of the index are too.
- In `Service` and `Kubernetes`, `Faults` decides which calls fail: `quiet` when none does, `compensates`
  when deletes and releases that undo earlier work succeed. Contracts without `quiet` hold whichever calls fail.
  Nodes do not come and go while one operation runs alone; in `Reconciliation` they do.
- Random probe starts are any start in range; stack and job IDs are any fresh, non-empty ones. `Names` shows
  that generated IDs give every attempt a pod name of its own, which is why `Reconciliation` names pods by stack and attempt,
  and that creates, refreshes and removals keep the stacks so named, which is where the `WellNamed` of `Service` comes from.
- The pods and services of a listing have no order. `Repository.SortByCreation` is a stable sort; where
  creation times are equal the program's order is arbitrary.
- In `Reconciliation` a cleanup cycle may refresh and read back the listed stacks in any order and any number of times, and
  the cycles, refreshes and deletes the program can run are among those. What it keeps is the order
  of the listings: stacks before pods, pods before services, and the last read of the repository before an orphan is deleted.
- The time text of the items is a pair of functions of which one inverts the other, as printing and parsing
  the RFC 3339 profile with nanoseconds does (section 5.6 of RFC 3339). Attribute names are an enumeration;
  `Items.SpellingsDiffer` shows that they are spelled differently.
- Error values keep the kinds a caller can tell apart; the texts are abstract, and "node port already allocated" is a kind.
- Message text is a sequence of bytes, as `truncateError` takes it.

Where the code and its comments or tests could suggest more than holds, the model follows the code:

- Refreshing a stack whose pod is missing removes the record and leaves the Service, and no sweep deletes
  Services. `Convergence.DoomedWithService` says whose Services go.
- `UpdateStatus` with an empty node keeps the node in memory and clears it in DynamoDB.
- Exclusivity of tentative locks rests on two conditions: every creator is done with a port within the lifetime of
  its lock, and no delete takes a stack away while its creator, having lost the reply to its commit, still has ports to
  release. `PortProtocol.ExclusiveInEveryTimelyRun` says that it holds in every run that meets both. Neither can be
  dropped: from every orderly state that fails the first, and by every delete that fails the second, a new creator can
  come to hold a port another one holds (`SlowCreatorSharesItsPort`, `EarlyDeleteSharesAPort`). `SlowRunSharesAPort` and
  `LostReplySharesAPort` are runs from an empty table, the second at a single instant.
- Reported totals of a pod wrap around when the sum of its containers does not fit in 64 bits: `Validator.NeedIsExact`
  says exactly when a total is right, and `Validator.WrappedTotalIsAccepted` is an accepted pod for which it is too small.

## Model

| member | source | states |
|---|---|---|
| PortProtocol.OwnershipInEveryRun | internal/stack/dynamodb.go:66-83 | in every interleaving of reservations, stale reclaims (upserts included), releases, commits and deletes, failed and landed calls included: an owned port names a live stack that lists it, each port of a live stack is owned by it, and no two live stacks share a port |
| PortProtocol.StepIsSafe | internal/stack/dynamodb.go:264-324 | any single step of any actor keeps owned ports and live stacks naming each other |
| PortProtocol.CommitKeepsOwnership | internal/stack/dynamodb.go:66-83 | a create transaction adds exactly its stack and keeps ownership both ways |
| PortProtocol.DeleteKeepsOwnership | internal/stack/dynamodb.go:128-144 | a delete transaction run on an older copy of the record keeps ownership, because the ports of a stack never change |
| PortProtocol.ExactlyOneRemoval | internal/stack/dynamodb.go:118-153 | however many deletes of a stack race, exactly one removes it if it goes, and none otherwise |
| PortProtocol.RemovalTouchesOnlyItsOwnPorts | internal/stack/dynamodb.go:135-151 | a delete that loses changes nothing, and one that wins frees only ports its stack owns at that moment |
| PortProtocol.FinishedDeleteLeavesNoStack | internal/stack/dynamodb.go:118-153 | once a delete that read the stack has run its transaction, the stack is gone and stays gone |
| PortProtocol.ExclusiveInEveryTimelyRun | internal/stack/dynamodb.go:260-303 | in every run in which no creator outlives a lock and no delete takes a stack from a creator that lost the reply to its commit and has ports to release: holds are pairwise different and in range, each port held is locked until the creator's own stack owns it, and no create transaction fails a condition; lost replies included |
| PortProtocol.FreshLockIsUnheld | internal/stack/dynamodb.go:266-304 | a port that a timely probe locks or reclaims is held by no running creator |
| PortProtocol.CommitMeetsItsConditions | internal/stack/dynamodb.go:70-83 | a timely creator's transaction meets every condition it carries |
| PortProtocol.StaleLockIsReclaimed | internal/stack/dynamodb.go:286-304 | a probe takes over a tentative lock exactly when it is older than its lifetime, and otherwise changes nothing |
| PortProtocol.SlowCreatorSharesItsPort | internal/stack/dynamodb.go:286-304 | from every orderly state in which a creator has outlived a lock, some continuation has two creators hold one port |
| PortProtocol.SlowRunSharesAPort | internal/stack/dynamodb.go:260-304 | from an empty table such a state, and so such a run, can be reached |
| PortProtocol.EarlyDeleteSharesAPort | internal/stack/dynamodb.go:118-153 | from every orderly state, a delete that takes a stack from a creator with ports to release has a continuation, at the same instant, in which two creators hold one port |
| PortProtocol.LostReplySharesAPort | internal/stack/service.go:110-117 | from an empty table and within the time limit: a commit lands with its reply lost, the stack is deleted, and a second creator locks the port the first still holds |
| Repository.ProbeVisitsEachPortOnce | internal/stack/dynamodb_mock.go:123-130 | from any start the modular probe meets every port of the range at one step and no other |
| Repository.ProbeFailsIffFull | internal/stack/dynamodb_mock.go:118-132 | the probe fails exactly when every port of the range is taken |
| Repository.InMemoryRepository.Create | internal/stack/dynamodb_mock.go:47-71 | commits exactly when the ID is new and every port is reserved; then the stack is recorded and owns its ports, else nothing changes; which error |
| Repository.InMemoryRepository.Delete | internal/stack/dynamodb_mock.go:81-96 | removes the record and exactly the ports it lists, and returns it; an unknown ID changes nothing |
| Repository.InMemoryRepository.ListAll | internal/stack/dynamodb_mock.go:98-112 | every live stack once, oldest first |
| Repository.InMemoryRepository.ReserveNodePort | internal/stack/dynamodb_mock.go:114-133 | reserves a free port of the range if and only if there is one, the first of a probe from some start, and nothing else |
| Repository.InMemoryRepository.ReleaseNodePort | internal/stack/dynamodb_mock.go:135-144 | frees a reserved port, never an owned one |
| Repository.InMemoryRepository.UpdateStatus | internal/stack/dynamodb_mock.go:153-171 | rewrites status, update time and, when given, node; an unknown ID is an error |
| Repository.InMemoryRepository.CreateBatchDeleteJob | internal/stack/dynamodb_mock.go:173-183 | records a job under a new ID, else an error and no change |
| Repository.InMemoryRepository.UpdateBatchDeleteJob | internal/stack/dynamodb_mock.go:185-195 | replaces a known job, else an error and no change |
| Repository.CreateIsConsistent | internal/stack/dynamodb_mock.go:47-71 | creating keeps stacks and owned ports naming each other |
| Repository.DeleteIsConsistent | internal/stack/dynamodb_mock.go:81-96 | so does deleting |
| Repository.UpdateIsConsistent | internal/stack/dynamodb_mock.go:153-171 | and updating a status |
| Repository.ReservationsAreConsistent | internal/stack/dynamodb_mock.go:114-144 | and reserving or releasing a port |
| Repository.SortIsSorted | internal/stack/dynamodb_mock.go:107-109 | sorting by creation time orders the stacks and keeps each as often as it was |
| Repository.ListingIsListing | internal/stack/dynamodb_mock.go:98-112 | in whatever order the map yields the stacks, the result lists every live stack once, oldest first |
| Repository.ListingHasOrder | internal/stack/dynamodb_mock.go:98-112 | and every such list is the result of some order |
| Keys.KeyIsInjective | internal/stack/dynamodb.go:672-675 | no two stacks, ports or jobs share a key, whatever their kinds and IDs |
| Decimal.NumberOfItoa | internal/stack/dynamodb.go:545-562 | a printed integer parses back to itself exactly when it fits in 64 bits |
| Items.StackRoundTrip | internal/stack/dynamodb.go:429-506 | decoding an encoded stack gives it back, except that an empty public address is read as none |
| Items.JobRoundTrip | internal/stack/dynamodb.go:686-736 | decoding an encoded job gives it back |
| Items.StatusCommutes | internal/stack/dynamodb.go:364-379 | setting status, node and update time on an item is setting them on the stack it decodes to |
| Items.EncodeList | internal/stack/dynamodb.go:638-661 | the loop that encodes a list keeps every entry in order |
| Items.DecodeList | internal/stack/dynamodb.go:573-636 | the loop that decodes one gives all entries in order, or an error when any entry does not decode |
| DynamoRepository.EncodeStackRow | internal/stack/dynamodb.go:53-66 | the item the loops build for a stack stands for the stack as it is kept |
| DynamoRepository.DecodeStack | internal/stack/dynamodb.go:456-506 | decoding by the loops is the decoding of the round trip, errors included |
| DynamoRepository.DecodeJob | internal/stack/dynamodb.go:705-736 | so is that of jobs |
| Items.ListRoundTrip | internal/stack/dynamodb.go:573-661 | a decoder that inverts an encoder on entries inverts it on lists |
| Items.SpellingsDiffer | internal/stack/dynamodb.go:430-447 | no two attributes have the same name |
| DynamoRepository.ConditionsMean | internal/stack/dynamodb.go:67-293 | what each write condition says about the row says the same about the stack or port it stands for |
| DynamoRepository.CreateCommits | internal/stack/dynamodb.go:53-90 | a create transaction on the rows does what it does on stacks and ports |
| DynamoRepository.CreateSucceeds | internal/stack/dynamodb.go:66-88 | it goes through exactly when the ports are distinct and locked and the ID is new |
| DynamoRepository.CreateFails | internal/stack/dynamodb.go:393-412 | a rejected one is reported by the first condition that failed: the stack's, or a port's |
| DynamoRepository.CreateOutcome | internal/stack/dynamodb.go:53-90 | the transaction on the rows of a stack as the item keeps it does what the typed one does, error included |
| DynamoRepository.DeleteOutcome | internal/stack/dynamodb.go:128-153 | a delete transaction on the rows removes the stack and its ports |
| DynamoRepository.DynamoRepository.Create | internal/stack/dynamodb.go:53-90 | rows keep standing for the typed table, which changes as the create transaction says; which error otherwise |
| DynamoRepository.DynamoRepository.Get | internal/stack/dynamodb.go:92-116 | the stack under this ID, if there is one |
| DynamoRepository.DynamoRepository.Delete | internal/stack/dynamodb.go:118-154 | run alone, removes the stack and its ports and returns it; an unknown ID changes nothing |
| DynamoRepository.DynamoRepository.UpdateStatus | internal/stack/dynamodb.go:364-391 | sets status, node (an empty one too) and update time of a known stack |
| DynamoRepository.DynamoRepository.TryPort | internal/stack/dynamodb.go:265-307 | locks a port without an item, else reclaims it if stale, else changes nothing |
| DynamoRepository.DynamoRepository.ReserveNodePort | internal/stack/dynamodb.go:254-313 | the whole probe: the first port from some start that is free or stale, or an error when there is none |
| DynamoRepository.DynamoRepository.ReleaseNodePort | internal/stack/dynamodb.go:315-332 | deletes a tentative lock; a failed condition is no error |
| DynamoRepository.DynamoRepository.CreateBatchDeleteJob | internal/stack/dynamodb.go:156-169 | a job under a new key, else an error and no change |
| DynamoRepository.DynamoRepository.UpdateBatchDeleteJob | internal/stack/dynamodb.go:171-190 | replaces a known job, else not found |
| DynamoRepository.DynamoRepository.GetBatchDeleteJob | internal/stack/dynamodb.go:192-215 | the job under this ID, if there is one |
| DynamoRepository.DynamoRepository.UsedNodePortCount | internal/stack/dynamodb.go:334-362 | however the pages fall, the number of ports with an item |
| DynamoRepository.DynamoRepository.ListAll | internal/stack/dynamodb.go:217-252 | however the pages fall, every live stack once, oldest first |
| DynamoRepository.IndexHoldsStacks | internal/stack/dynamodb.go:432-433 | exactly the items of stacks are in the index over all stacks |
| DynamoRepository.PartitionHoldsPorts | internal/stack/dynamodb.go:339-344 | exactly the items of ports are under the key counted for ports |
| Refinement.StepAgrees | internal/stack/dynamodb.go:53-391 | of the whole repository interface, listings included: an operation on the table agrees with the in-memory one, in state and reply, if and only if: a create lists no port twice, does not combine a taken ID with no ports, and has no empty public address when it succeeds; a probe meets no stale lock before a free port; a status update with an empty node finds an empty node |
| Refinement.ScanAgrees | internal/stack/dynamodb.go:264-312 | the probe on the table picks another port than the in-memory one exactly when a stale lock comes first |
| Refinement.RunsAgree | internal/stack/dynamodb_mock.go:47-203 | over any run of such calls, of all eleven operations, the table and the maps stay in step and every reply is the same |
| Kubernetes.KubernetesClient.CreatePodAndService | internal/stack/kubernetes.go:117-223 | success adds one pod bound to a node and one service on the requested ports, no node port in use before; an error with working compensation leaves pods and services as they were |
| Kubernetes.KubernetesClient.WaitUntilSchedulable | internal/stack/kubernetes.go:476-516 | success binds the pod to a node; an error changes nothing |
| Kubernetes.KubernetesClient.DeletePodAndService | internal/stack/kubernetes.go:225-239 | service first, then pod; absence is no error; a failing service delete keeps the pod |
| Kubernetes.KubernetesClient.GetPodWithRetry | internal/stack/kubernetes.go:241-271 | at least one and at most the given number of reads; all of them before it reports absence |
| Kubernetes.KubernetesClient.GetPodStatus | internal/stack/kubernetes.go:273-288 | the status and node of a present pod, a lost node showing as deleted; not found only when absent |
| Kubernetes.KubernetesClient.NodeExists | internal/stack/kubernetes.go:346-361 | no answer but the truth; the empty name is no node |
| Kubernetes.KubernetesClient.GetNodePublicIP | internal/stack/kubernetes.go:381-402 | the external address, none when the node is unnamed or unknown or the address empty |
| Kubernetes.KubernetesClient.ListPodsWithCreation | internal/stack/kubernetes.go:308-327 | exactly the named pods of the namespace, as they are |
| Kubernetes.KubernetesClient.ListPods | internal/stack/kubernetes.go:290-306 | exactly the named pods of the namespace |
| Kubernetes.KubernetesClient.ListServices | internal/stack/kubernetes.go:329-344 | exactly the named services of the namespace |
| StackService.Service.ReservePorts | internal/stack/service.go:657-677 | one distinct, previously free, in-range port for each target in order, or an error and nothing reserved; without faults it succeeds if and only if enough ports are free |
| StackService.Service.ReleasePorts | internal/stack/service.go:679-685 | frees what was reserved and nothing else |
| StackService.Service.Attempt | internal/stack/service.go:49-120 | whichever call fails, an error with working compensation leaves repository, pods and services exactly as before; success adds one stack, one pod and one service with the same ports |
| StackService.Service.Create | internal/stack/service.go:38-128 | the same over one or two attempts, the second under its retry name; stacks stay named by their IDs; the exit after the loop is unreachable |
| StackService.Service.Drop | internal/stack/service.go:196-203 | deletes pod and service, then the record whatever the cluster answered; what may have gone and what not |
| StackService.Service.RefreshStatus | internal/stack/service.go:181-238 | whichever calls fail, only a stack whose node is gone or whose pod is absent or lost loses its record, pod or service, and nothing of another stack changes; without faults exactly these are removed and the others updated |
| StackService.Service.RefreshAndGet | internal/stack/service.go:267-285 | an entry exactly for a stack that is still there, with its own ID; no other stack is touched |
| StackService.Service.Delete | internal/stack/service.go:240-257 | succeeds exactly when the record goes; not found exactly when there is none; no other stack is touched |
| StackService.Service.ListAll | internal/stack/service.go:259-289 | every entry has a record, no two the same; without faults the view of all stacks that a refresh keeps |
| StackService.Service.StartBatchDelete | internal/stack/service.go:320-342 | an empty request is invalid; otherwise a queued job with all counts zero |
| StackService.Service.DeleteAndTally | internal/stack/service.go:377-393 | the outcome counted is the truth: deleted exactly when the record went, not found only when there was none |
| StackService.Service.RunBatchDelete | internal/stack/service.go:357-405 | the written snapshots are the log of the outcomes; as many stacks are gone as the job counts deleted, whatever fails; alone without faults exactly the live stacks among the requested IDs go, repeats counted once |
| Batch.LogBalances | internal/stack/service.go:376-401 | each snapshot accounts for the IDs processed so far; the last for all, with the first hundred failures in order and bounded messages, and failed exactly when every delete failed |
| Batch.TruncateError | internal/stack/service.go:718-724 | a message of at most 512 bytes is kept, a longer one is cut there and marked |
| StackService.Service.SweepPod | internal/stack/service.go:555-584 | an orphan is deleted only if unregistered, out of its grace, and not its stack's own pod at the last look |
| StackService.Service.SweepOrphans | internal/stack/service.go:555-585 | each listed pod is passed over, cleaned or failed; without faults exactly the orphans go |
| StackService.Service.SweepStacks | internal/stack/service.go:451-471 | each doomed entry is cleaned or failed, and each one cleaned is a record gone; without faults exactly the doomed go, with pod, ports and service |
| StackService.Service.SweepExpired | internal/stack/service.go:451-471 | the targets are the listed stacks whose expiry is not after the cycle's time |
| StackService.Service.SweepMissing | internal/stack/service.go:479-529 | a failed listing sweeps nothing and counts; otherwise the stacks not in both listings are the targets |
| StackService.Service.SweepUnregistered | internal/stack/service.go:531-587 | a failed listing sweeps nothing and counts; otherwise the unregistered pods are swept |
| StackService.Service.CleanupExpiredAndOrphaned | internal/stack/service.go:424-616 | failures = (targets - cleaned) + scan errors whatever fails, and each one cleaned is a record or pod gone; alone without faults the world converges |
| Convergence.CycleOf | internal/stack/service.go:424-588 | the phases of a cycle leave exactly the unexpired stacks with a live node, a present pod that is not lost and a service; exactly the pods of these, of other namespaces, and unregistered ones in their grace |
| Convergence.SecondCycleRemovesNothing | internal/stack/service.go:424-588 | a second cycle at the same time removes nothing |
| Convergence.SurvivorsSurvive | internal/stack/service.go:451-528 | what a cycle leaves would survive the next one |
| Convergence.OrphansSwept | internal/stack/service.go:537-585 | with every live stack's pod registered, the sweep leaves exactly the pods that are no orphans |
| Worlds.RefreshOneMore | internal/stack/service.go:265-286 | refreshing one more stack of a listing changes the world by that stack only |
| Names.PodNamesDiffer | internal/stack/service.go:75-78 | no two attempts, of one stack or two, give their pods the same name |
| Names.NamedIsWellNamed | internal/stack/service.go:618-625 | stacks named as `Create` names them share no pod and no service |
| Names.NewKeepsNames | internal/stack/service.go:75-101 | a record named by its attempt keeps the stacks so named |
| StackService.TouchKeepsNames | internal/stack/service.go:181-257 | refreshing or removing a stack does too |
| StackIdentity.IdentityHolds | internal/stack/service.go:38-588 | in every interleaving a copy of a record keeps the pod, ports and expiry of its stack, and a pod's name tells whose it is |
| PortConservation.PortsAreConserved | internal/stack/dynamodb_mock.go:47-151 | in every interleaving the number of used ports is that of the ports of live stacks plus those held by creates in flight, and none is counted twice |
| PortConservation.StepConserves | internal/stack/service.go:48-120 | each call of a create, refresh, delete or cleanup keeps the balance |
| SweepSafety.OrphanSweepSparesLiveStacks | internal/stack/service.go:531-585 | when creates finish within the grace, no orphan sweep deletes the pod of a live stack or of one about to be committed |
| SweepSafety.GuardPassesUnclaimed | internal/stack/service.go:560-575 | the age test and the last look at the repository, not the listing, let only unclaimed pods through |
| SweepSafety.UnclaimedLasts | internal/stack/service.go:75-117 | a pod no stack has and no create can commit stays so until it is deleted |
| SweepSafety.ServicesUseTakenPorts | internal/stack/service.go:87-116 | with working service deletes, no vanishing pods and timely creates, every node port of every Service is taken in the repository, by its own stack or the create that made it |
| SweepSafety.StepBacksServices | internal/stack/service.go:196-254 | every step keeps each Service backed by its stack or its create |
| RemovalEvidence.RemovalHasEvidence | internal/stack/service.go:451-528 | whatever a cleanup cycle removes, in any interleaving, had expired by the cycle's time, or lacked node, pod or service at a moment of the cycle, while live, before the cycle deleted anything of it |
| RemovalEvidence.MissingIsWitnessed | internal/stack/service.go:473-509 | a stack read before the listings and not in them was really without its pod or service |
| RemovalEvidence.CyclesAreGrounded | internal/stack/service.go:424-528 | in every interleaving a cycle acts on records it read since it began |
| Validator.PortKeyInjective | internal/stack/validator.go:234-236 | on normalised pairs the string key tells pairs apart |
| Validator.NormalizeTargets | internal/stack/validator.go:36-63 | accepts exactly one to 24 in-range targets of known protocols, no two the same after normalising, and returns them normalised in order |
| Validator.TargetKeyTells | internal/stack/validator.go:177-182 | looking a target's key up decides exactly whether a container exposes it |
| Validator.ValidateInitContainers | internal/stack/validator.go:109-132 | accepts exactly init containers with a name, an image, no security context, no ports and resources; equalises them and finds the largest |
| Validator.ValidateContainers | internal/stack/validator.go:134-171 | accepts exactly well-formed containers; equalises them, sums with wrap-around, counts and collects their ports |
| Validator.ValidatePorts | internal/stack/validator.go:149-170 | accepts exactly in-range ports without host port or address of TCP, UDP or no protocol, and adds their keys |
| Validator.ValidateVolumes | internal/stack/validator.go:254-270 | accepts exactly volumes without host path and without projected service account token |
| Validator.ValidatePod | internal/stack/validator.go:70-217 | accepts exactly well-formed pods; the result is the sanitised pod, its computed needs and the targets |
| Validator.ValidatePodSpec | internal/stack/validator.go:31-218 | the whole decision: exactly which inputs are accepted, which error otherwise; accepted targets are 1 to 24, distinct, in range and each exposed by a container of the sanitised pod; every container has requests equal to limits; each total is exact if and only if the sum over containers fits in 64 bits |
| Validator.NeedIsExact | internal/stack/validator.go:184-185 | a computed total is what the sanitised pod needs exactly when the sum over its containers fits in 64 bits |
| Validator.WrappedTotalIsAccepted | internal/stack/validator.go:134-189 | three containers of 9000000000000000000 milli-CPU are accepted, and the reported CPU total is less than what the sanitised pod needs |
| Validator.AcceptedPodIsSound | internal/stack/validator.go:44-218 | the same of any pod and targets that meet the conditions of acceptance |
| Validator.ExposedMeansBySome | internal/stack/validator.go:177-182 | an exposed target is a port of one of the containers of the sanitised pod |
| Validator.SameNeeds | internal/stack/validator.go:119-147 | equalising resources changes no container's need |
| Text.TrimSpaceCuts | internal/stack/validator.go:32 | trimming cuts white space off both ends, all of it, and nothing else |

## Left out

- HTTP handlers, the gRPC server, middleware, the frontend, bootstrap and configuration loading: plumbing around the operations modelled here.
- Leader election: the algorithm is client-go's; only its configuration is in the repository.
- YAML parsing and printing and resource quantities: the model starts from a parsed pod with integer milli-CPUs and bytes, and ends with the sanitised pod as a value. Accepted output is not accepted again as input, because it carries security contexts.
- `Stats`, `GetDetails` and `GetStatusSummary`: reads over listings and records that are modelled.
- Error classification by message text in `mapProvisionError` and `isNodePortAllocatedError`: errors have abstract kinds.
- The in-memory Kubernetes client: it renames pods and deletes services differently from the real one.
- Order of equal creation times in listings, and the difference between nil and empty lists.
- Limits of the service on transaction and item size.
- Namespace creation.
- Kubernetes.KubernetesClient.WaitUntilSchedulable: polling and cancellation are one outcome, bound to a node, saturated, or an error.
- Kubernetes.KubernetesClient.GetNodePublicIP: a node has one external address or none; the choice of the first among several is not modelled.
- Items.StackRoundTrip: times are instants; a time's zone is not kept by the program either.
- DynamoRepository.DynamoRepository.ReserveNodePort: calls that fail for other reasons than their condition are left to `PortProtocol`, which lets any call fail.
- DynamoRepository.DynamoRepository.Delete: run alone; the gap between its read and its transaction is in `PortProtocol`.
- SweepSafety.OrphanSweepSparesLiveStacks: nothing is promised to a create slower than the grace.
