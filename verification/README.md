# K8s-Lite control plane: a Dafny model and its proofs

K8s-Lite runs a small Kubernetes: an API server over a key/value store, a scheduler, kubelets, controllers for
ReplicaSets, Deployments and Services, and leader election between controller managers. They coordinate through
the store alone, and the store checks no versions: `Update` overwrites whatever is there. Every agent lists what it
needs, decides on that ageing list, and then sends one API call at a time. This project models those agents with their
loops, fields and calls, and proves which safety and convergence properties survive stale lists, lost calls and
concurrent peers, and under exactly which conditions.

## How the model is built

* **The API as clients see it** (`Registry`). A `Client` of one resource has the objects by name and the history of
  exchanges. Over an unreliable connection any call may be lost, or served while its reply is lost. Every method
  that sends anything promises `Issued(before, history, after, history', requests)`: exactly these requests were sent, in this order, and
  the objects are what the server made of those that arrived. (`LeaderElector` promises it attempt by attempt, in a `Trace`.) The requests are a function of the list the agent read
  (`Plan`, `Bindings`, `SyncPlan`, `Scaling`, `Write`), and what that function achieves is proved separately. Since the
  requests never depend on what happened between them, the results cover interference as well: the state machines
  below interleave the same requests one by one.
* **Agents** are classes in the form of the source: `ReplicaSetController.Controller`, `Scheduler.Scheduler`,
  `Kubelet.Agent` over `Kubelet.Runtime`, `DeploymentController.Controller`, `ServiceController.Controller`,
  `LeaderElection.LeaderElector`, and `MemoryStore.MemoryStore` with its `Watcher`s and its `File`.
* **State machines** for what happens between agents: `SplitBrain` (several ReplicaSet controllers at once),
  `PodProtocol` (scheduler, kubelets and everyone who creates or deletes pods), `LeaseSafety` (atomic attempts and
  a clock), `LeaseRaces` (read and write of an attempt as separate calls), `WatchBlocking` (the store's lock and the
  watchers' channels).

## What is proved

* **A pass of the ReplicaSet controller has a closed form** when ReplicaSets share a selector, as all revisions of one
  Deployment do: n pods become n + (sum of deficits) - (greatest surplus), because deficits add up while all deletions come from
  the front of the same list. After any history of edits that used two templates this means n becomes max(0, desired - n): over
  further passes the count swings between two values unless it is exactly half the desired count, and a Deployment at its desired
  count loses all its pods in the next pass. With disjoint selectors one pass converges, the next one sends nothing, and under any
  faults the distance to the target never grows from one call to a later one and the target is never crossed.
* **k controllers on one ReplicaSet** never exceed max(initial, k * desired), and that bound is reached.
* **No update of a pod is ever lost**, although nothing is versioned, if and only if no two processes take up the same pods:
  the scheduler alone writes pods without a node, and the kubelet of a node alone writes those bound to it. Pods are
  bound once if and only if there is one scheduler at most and, next to it, no kubelet with an empty node name; they are left alone until
  bound if and only if every kubelet has a node name; and in no cluster whatsoever does a stale write bring a deleted pod back.
* **Leader election**: with two electors or more and atomic attempts, leadership is exclusive if and only if every lease duration is
  at least one second (it is truncated to seconds). With the read and the write as separate calls it is exclusive if and only if there is
  one elector at most: any two have a run in which one renews late while the other takes over. Within a run it is exclusive as long as no
  accepted update is stale or late. The lease is created at most once in every interleaving, and in every interleaving in which the lease
  stays good, leaders in excess are gone once each has ended one attempt. Every attempt of the elector's code, whatever is lost on the
  way, is a step of these machines. The lease of a holder that falls silent is out of reach for exactly its configured duration, cut to seconds.
* **Deployments**: the exact effect of a sync, a quiet second sync, the surge bound under arbitrary faults, one ReplicaSet per
  template over any history of edits, each with that template, rollback by reuse, and the cascade down to the pods, which run what the
  latest template says.
* **Kubelet**: the exact effect of a pass on the containers, whatever their names; every assigned pod has all its containers afterwards if and
  only if no two pods need the same container name, which pods of different names can (`a` with `b-c`, `a-b` with `c`), and no container of
  another pod held a needed name before, since leftovers are stopped only after new containers were started. Every assigned pod is reported
  at the address of its last container that has one.
* **Store**: it refines an abstract map with a log, watchers lose nothing and are told truly what is new, changed and gone, the file is always a whole former map or, after a dump that was
  cut short, unreadable. A write can finish if and only if no watcher has both a full channel and a departed consumer, and such a state
  can be reached if and only if anybody is watching. Listing by prefix is exact if and only if resource names are apart, as the
  registered ones are, and gives each client exactly the list it relies on.
* **Endpoints** list exactly the running pods behind their service, each as often as it is there. They depend on the set of pods alone if and only if no two pods share an address without sharing a node; repeating a
  reconcile is quiet if and only if there is an address.

## Where the code and its words differ

The model follows the code.

* `internal/leaderelection/election.go:132-136` hopes that `Update` fails when the `ResourceVersion` does not match; the store
  (`internal/storage/memory.go:81-97`) never looks at it. `LeaseRaces.TakeoverRace` is the consequence.
* `internal/kubelet/agent.go:150` looks for the prefix `Exit` in a container's state, while `internal/kubelet/runtime.go:24` documents
  the lower-case `exited`. Exited containers are therefore not restarted, and `KubeletPass.ExitedIsNotRestarted` says exactly when they are replaced.
* `internal/controller/replicaset/controller.go:93-97` announces deletion from the end of the list; the code deletes from its front.
* `README.md:19` and `README.md:24` speak of rolling updates and of BadgerDB. The code scales the new ReplicaSet up and the old ones down in
  one sync, and its persistence is one JSON file.

## Model

| member | source | states |
|---|---|---|
| Registry.Client.Send | internal/client/client.go:81-153 | Success means the server has the change; a create succeeds only on a free name, an update only on a used one, a delete of a missing object counts as done; over a reliable connection those are the only errors. |
| Registry.Client.Get | internal/client/client.go:414-440 | A missing object (404) is an answer, not an error. |
| Registry.Client.List | internal/client/client.go:56-79 | Every object exactly once, in some order. |
| ReplicaSetController.LabelsMatch | internal/controller/replicaset/controller.go:128-139 | The strict selector: it is not empty and all its pairs are among the labels. |
| ReplicaSetController.Controller.CreatePod | internal/controller/replicaset/controller.go:103-126 | Exactly one creation is sent: the template's metadata and whole spec, without status, under the ReplicaSet's name and a five-character draw. |
| ReplicaSetController.Controller.ReconcileRS | internal/controller/replicaset/controller.go:61-101 | Whatever calls fail, exactly the plan of the given list is issued: as many creations as pods are missing, or the deletion of the first owned pods in excess, and nothing without a replica count. |
| ReplicaSetController.Controller.ReconcileAll | internal/controller/replicaset/controller.go:55-58 | All ReplicaSets issue their plans on the same, by then stale, pod list, in order. |
| ReplicaSetController.Controller.Reconcile | internal/controller/replicaset/controller.go:39-59 | A pass that cannot list changes nothing; any other issues the plans of all stored ReplicaSets on one listing of all stored pods. |
| PodSets.ServedSets | internal/controller/replicaset/controller.go:80-99 | With fresh names the requests that arrive leave the old pods without those deleted and with those created, each created pod as sent and each survivor unchanged. |
| PodSets.OwnedAreMatching | internal/controller/replicaset/controller.go:67-74 | The owned pods counted on any listing are exactly the stored pods that satisfy the selector, each counted once. |
| ReplicaSetPasses.IssuedIsPass | internal/controller/replicaset/controller.go:39-59 | What the Reconcile method promises is a pass in the sense of the theorems below, once the drawn names are new. |
| ReplicaSetPasses.PassNames | internal/controller/replicaset/controller.go:55-100 | Over all ReplicaSets of a pass, creations for a selector add up to the sum of deficits, while deletions are the longest of several prefixes of one list. |
| ReplicaSetPasses.AfterPass | internal/controller/replicaset/controller.go:55-100 | Under any loss of calls a pass removes at most the greatest surplus, from the front of the list, and adds at most the sum of deficits; without losses exactly so. |
| CreatedPods.NewPodsRunTheTemplate | internal/controller/replicaset/controller.go:76-126 | Whatever calls are lost, every pod a pass adds is made from a ReplicaSet that was short of pods: it runs the whole spec of the template, has its labels, annotations and namespace, is named after the ReplicaSet with a dash and five more characters, and has no status. |
| ReplicaSetConvergence.ClosedForm | internal/controller/replicaset/controller.go:56-100 | A fault-free pass over ReplicaSets sharing a selector turns n pods into n + sum max(0, d_i - n) - max max(0, n - d_i). |
| ReplicaSetConvergence.FirstListedGo | internal/controller/replicaset/controller.go:91-99 | The pods such a pass removes are exactly the first ones listed, as many as the greatest surplus; survivors are unchanged. |
| ReplicaSetConvergence.UnownedUntouched | internal/controller/replicaset/controller.go:67-99 | A pod that no scaled ReplicaSet selects survives every pass unchanged, whatever calls fail. |
| ReplicaSetConvergence.RolloutPassCount | internal/controller/deployment/controller.go:194-198 | With the current revision at r and former ones at 0 behind one selector, a pass turns n pods into max(0, r - n). |
| ReplicaSetConvergence.RolloutNeverSettles | internal/controller/deployment/controller.go:194-198 | Over any run of passes over such revisions the count alternates between two values, rests exactly at r/2, and drops from r to 0: convergence after a rollout is false of the code, with the exact exception. |
| RolloutPods.EditsLeaveRollout | internal/controller/deployment/controller.go:96-166 | After any history of edits and syncs every listing holds one current revision at the desired count and former ones at zero behind one selector if and only if two different templates were used. |
| RolloutPods.EditsIsolated | internal/controller/deployment/controller.go:194-198 | All these revisions make pods for the one selector, and no other ReplicaSet interferes if the foreign ones do not. |
| RolloutPods.PodsAfterEdits | internal/controller/replicaset/controller.go:55-100 | After any such history a fault-free pass turns m pods into the desired number if one template was used, and into max(0, desired - m) otherwise. |
| RolloutPods.PodsNeverSettle | internal/controller/deployment/controller.go:194-198 | After any history with two templates, over any number of passes on what it has left the count alternates between two values, rests exactly at half the desired count, and drops from the desired count to 0. |
| ReplicaSetConvergence.PassConverges | internal/controller/replicaset/controller.go:61-101 | With disjoint selectors one fault-free pass leaves every ReplicaSet exactly the pods it wants. |
| ReplicaSetConvergence.ConvergedPassIsQuiet | internal/controller/replicaset/controller.go:76-100 | Once every ReplicaSet has what it wants, a pass over any listing sends no request. |
| ReplicaSetConvergence.PassKeepsKeyed | internal/controller/replicaset/controller.go:103-126 | A pass leaves every pod stored under its own name, whatever calls fail, so that the next pass finds a well-formed store. |
| ReplicaSetConvergence.SecondPassIsQuiet | internal/controller/replicaset/controller.go:61-101 | After a fault-free pass over disjoint selectors the next pass sends nothing, on any listing of what the first one has left. |
| ReplicaSetConvergence.FaultyPassApproaches | internal/controller/replicaset/controller.go:82-99 | Between any two calls of a pass, whichever were lost, the pod count moves toward the target or stays, and lies between its first value and the target: the distance never grows, the target is never crossed. |
| SplitBrain.ReplicaBound | internal/controller/replicaset/controller.go:39-101 | k controllers interleaved call by call, with faults, restarts and foreign deletions, keep pods plus pending creations within max(initial, k * desired). |
| SplitBrain.ReplicaBoundIsReached | internal/controller/replicaset/controller.go:39-101 | From any store without such pods there is a run of k controllers that ends with exactly k * desired pods. |
| Scheduler.Scheduler.PodFitsResources | internal/scheduler/scheduler.go:121-159 | A node fits exactly if it has a condition Ready with status True, wherever in its list, and the capacity fits. |
| Scheduler.Scheduler.SelectNode | internal/scheduler/scheduler.go:101-119 | The choice is a feasible node whenever there is one, and none otherwise. |
| Scheduler.Scheduler.Bind | internal/scheduler/scheduler.go:161-167 | One PUT of the listed pod, changed in its node name alone. |
| Scheduler.Scheduler.BindAll | internal/scheduler/scheduler.go:83-98 | Every unscheduled pod of the list is tried once, in order, and PUT if a node was chosen. |
| Scheduler.Scheduler.ScheduleOneRound | internal/scheduler/scheduler.go:50-99 | A round PUTs the listed pods without a node, each bound to an eligible node of one listing, and sends nothing else; without nodes or after a failed listing it sends nothing. |
| Scheduler.BindingsServed | internal/scheduler/scheduler.go:83-98 | The PUTs of a round bind exactly the pods they name and touch no other. |
| Scheduler.RoundBinds | internal/scheduler/scheduler.go:50-99 | A fault-free round adds and removes no pod, leaves bound pods alone, and of an unbound one changes nothing but the node name: metadata, containers and status stay. |
| Scheduler.RoundPlaces | internal/scheduler/scheduler.go:50-159 | After a fault-free round a pod that had no node is on a listed one that is Ready and has room for it, or, if there is none, exactly as before. |
| PodProtocol.StepKeepsInv | internal/storage/memory.go:81-97 | Ownership is inductive: whatever step anyone takes, a pod still on an agent's list is in that agent's domain and, if it still exists, is exactly as listed. |
| PodProtocol.NoUpdateIsLost | internal/scheduler/scheduler.go:50-99 | In every interleaving of separate processes each PUT that succeeds overwrites the very version its agent listed. |
| PodProtocol.TwoWritersClash | internal/scheduler/scheduler.go:161-167 | Any two processes that take up the same pods have a run in which one overwrites the other's update. |
| PodProtocol.CleanIffSeparate | internal/kubelet/agent.go:92-97 | All runs of a cluster are free of lost updates if and only if no two processes take up the same pods. |
| PodProtocol.BindingsAreWrites | internal/scheduler/scheduler.go:83-98 | Every PUT of a scheduler's round is a write the protocol allows it, over the pod it listed. |
| PodProtocol.StatusWritesAreWrites | internal/kubelet/agent.go:184-203 | Every status PUT of a kubelet's pass is a write the protocol allows it, over the pod it listed. |
| PodProtocol.NoResurrection | internal/storage/memory.go:81-97 | In every cluster and run a deleted pod never comes back, versions never go back, and metadata and containers never change. |
| PodProtocol.BoundOnceIffSoleBinder | internal/scheduler/scheduler.go:60-65 | A pod once bound keeps its node in every run if and only if there is one scheduler at most and, next to it, no kubelet with an empty node name. |
| PodProtocol.UntouchedIffNodesNamed | internal/kubelet/agent.go:92-97 | Pods without a node are as they were created in every run if and only if no kubelet has an empty node name. |
| PodProtocol.BindOnceNoResurrection | internal/scheduler/scheduler.go:60-65 | With one scheduler and named nodes, over whole runs a pod's node name never changes once set, its containers and metadata never, nothing of it before it is bound, and a deleted pod never comes back. |
| PodProtocol.RebindClash | internal/scheduler/scheduler.go:161-167 | Any scheduler next to any other agent that takes up pods without a node has a run in which a bound pod moves to another node or is unbound. |
| LeaderElection.LeaderElector.TryAcquireOrRenew | internal/leaderelection/election.go:89-146 | The request follows from the lease found and the clock; success means the server holds exactly the lease decided on, failure without faults means nothing changed, and a lease without a duration crashes the process. |
| LeaderElection.LeaderElector.NextAttempt | internal/leaderelection/election.go:81-84 | The elector's trace grows by exactly one attempt, made at this wake-up from where the former one ended. |
| LeaderElection.LeaderElector.RenewLoop | internal/leaderelection/election.go:72-87 | Renewing is one attempt per wake-up, each sending what the lease found calls for; it ends with the first that fails, or with the context, and calls nobody back. |
| LeaderElection.LeaderElector.Term | internal/leaderelection/election.go:46-59 | Every started term consists of such attempts and is stopped, unless the process crashes in it. |
| LeaderElection.LeaderElector.Contend | internal/leaderelection/election.go:41-69 | Attempts go on until the end or a crash, and the callbacks are those the trace gives rise to, plus a last stop. |
| LeaderElection.LeaderElector.Run | internal/leaderelection/election.go:38-70 | Under any faults: one attempt per wake-up, each from where the former ended and sending what its lease calls for, and nothing else sent; the callbacks report exactly when the elector starts and stops leading; undisturbed, every outcome is that of the lease left by the attempts before. |
| LeaderElection.TraceIssued | internal/leaderelection/election.go:38-70 | The requests of a run are those of its attempts, one after the other. |
| LeaderElection.ReliableIsUndisturbed | internal/leaderelection/election.go:89-146 | Without faults every outcome of a run follows from the lease at its start and the times of the attempts alone. |
| LeaseSafety.AttemptIsStep | internal/leaderelection/election.go:89-146 | Every attempt, whatever is lost on the way, is a step of the atomic machine with some fault: same lease afterwards, and the elector leads exactly if the attempt succeeded. |
| LeaderElection.CallbacksAlternate | internal/leaderelection/election.go:38-70 | Starts and stops alternate, beginning with a start, and their parity tells whether the elector leads. |
| LeaseSafety.MutualExclusion | internal/leaderelection/election.go:89-146 | In every run of atomic attempts, with faults, at most one elector leads, and it is the recorded holder of an unexpired lease. |
| LeaseSafety.ExclusiveIffWholeSeconds | internal/leaderelection/election.go:108 | With two electors or more, exclusion holds in every run if and only if every configured duration is at least one second. |
| LeaseSafety.SubSecondClash | internal/leaderelection/election.go:108 | A shorter duration is stored as zero seconds: two attempts at one instant make two leaders. |
| LeaseSafety.LeadershipIsSticky | internal/leaderelection/election.go:114-145 | Over any run the holder changes only by an attempt at or after renew time plus recorded duration, or on a lease without holder or renew time. |
| LeaseSafety.RenewTimeNeverDecreases | internal/leaderelection/election.go:114-145 | Between any two moments of a run the recorded renew time does not go back. |
| LeaseSafety.GoodLeaseStays | internal/leaderelection/election.go:120-131 | While its holder is silent and it has not run out, no attempt of others changes the lease. |
| LeaseSafety.Failover | internal/leaderelection/election.go:120-145 | After the holder falls silent the first other undisturbed attempt acquires if and only if the lease has run out. |
| LeaseTerms.AttemptTells | internal/leaderelection/election.go:89-146 | A fault-free attempt succeeds if and only if there is no lease, or it is the elector's own or nobody's, or its recorded time is over. A new claim then counts as expired exactly from its making plus the configured duration cut to whole seconds, a renewal keeps recorded duration and acquire time, and a failed attempt changes nothing. |
| LeaseTerms.OutcomeTells | internal/leaderelection/election.go:120-131 | The elector crashes if and only if somebody else's lease has a renew time and no duration; otherwise it acquires exactly if it leads afterwards. |
| LeaseTerms.SilentHolderLosesInTime | internal/leaderelection/election.go:108-145 | Over a run in which the holder of a new claim falls silent, nobody takes the lease before its making plus the configured duration cut to whole seconds, and the next fault-free attempt of another elector takes it if and only if that instant has come. |
| LeaseSafety.Recovery | internal/leaderelection/election.go:72-87 | With atomic attempts, from any number of leaders and a good lease, once each has made one attempt or stopped, only the recorded holder is left. |
| LeaseRaces.CreatedOnce | internal/leaderelection/election.go:93-112 | In every interleaving of reads and writes exactly one creation of an absent lease succeeds, and the lease never disappears. |
| LeaseRaces.ExclusiveIffAlone | internal/leaderelection/election.go:93-145 | With reads and writes interleaved, exclusion holds in every run if and only if there is one elector at most. |
| LeaseRaces.LateRenewal | internal/leaderelection/election.go:114-120 | Any two electors of a fresh cluster have a run in which the holder renews late while the other takes over, and both lead. |
| LeaseRaces.ExclusiveUnlessStale | internal/leaderelection/election.go:132-145 | In every interleaving two electors lead at once only after an accepted update overwrote a lease other than the one read, or arrived after its own lease had run out. |
| LeaseRaces.Recovery | internal/leaderelection/election.go:72-87 | In every interleaving, from any number of leaders without an attempt under way, while the lease stays good its holder keeps it, and once each leader has ended an attempt or stopped only the holder is left. |
| LeaseRaces.SerialIsAtomic | internal/leaderelection/election.go:89-146 | An attempt whose read and write have nothing in between does exactly what an atomic attempt does, without a stale update. |
| LeaseRaces.AtomicRunsAreRuns | internal/leaderelection/election.go:89-146 | Every run of atomic attempts is, state by state at its end points, a run of interleaved ones without a stale update. |
| LeaseRaces.TakeoverRace | internal/leaderelection/election.go:114-145 | From every quiet state with an expired lease any two electors, the recorded holder or not, have an interleaving after which both lead. |
| DeploymentController.LabelsMatch | internal/controller/deployment/controller.go:218-225 | The lenient selector: each of its pairs is among the labels, or asks for the empty string and the label is missing; the empty selector matches everything. |
| DeploymentController.Controller.CreateNewReplicaSet | internal/controller/deployment/controller.go:171-210 | One creation is sent: the Deployment's template and selector under the template's labels, with the digest as annotation; it succeeds only on a free name. |
| DeploymentController.Controller.FirstOfRevision | internal/controller/deployment/controller.go:76-83 | The first owned ReplicaSet that carries the digest, if any does. |
| DeploymentController.Controller.Scale | internal/controller/deployment/controller.go:102-166 | The current ReplicaSet is brought to the desired count, one by default, unless it is there; every other owned one that runs is brought to zero; failures stop neither. |
| DeploymentController.Controller.SyncDeployment | internal/controller/deployment/controller.go:55-169 | Requests depend on the listing alone; a sync ends early only when the listing fails or the new revision cannot be created. |
| DeploymentController.Controller.ScaleDownOld | internal/controller/deployment/controller.go:156-166 | Every old ReplicaSet that runs is sent to zero, whatever became of the others. |
| DeploymentController.Controller.SyncNext | internal/controller/deployment/controller.go:47-51 | Under any faults a sync sends nothing because it could not list, or exactly what its listing calls for, or its creation alone. |
| DeploymentController.Controller.Reconcile | internal/controller/deployment/controller.go:40-53 | Every stored Deployment is synced in turn on a listing of its own, whether or not earlier ones failed, and a pass sends the requests of these syncs and no other. |
| DeploymentController.AttemptsIssued | internal/controller/deployment/controller.go:40-53 | Under any faults the requests of a pass are those of its syncs, one after the other. |
| Rollout.SyncRollsOut | internal/controller/deployment/controller.go:55-169 | A fault-free sync leaves the current revision at the desired count, every other owned ReplicaSet that ran at zero, and all others untouched. |
| Rollout.SecondSyncIsQuiet | internal/controller/deployment/controller.go:119-166 | A second sync, on any listing of what the first one left, sends nothing. |
| Rollout.SurgeBounded | internal/controller/deployment/controller.go:119-166 | From the moment the current revision is at the desired count it stays there, and at every later call, whichever calls were lost, the total wanted by owned ReplicaSets is between desired and desired plus the old total. |
| Rollback.OneSetPerTemplate | internal/controller/deployment/controller.go:72-94 | After any history of edits and syncs the Deployment owns exactly one ReplicaSet per template ever used, the current one at its count, the others at zero; foreign ReplicaSets are as at the start. |
| Rollback.RollbackReuses | internal/controller/deployment/controller.go:72-94 | A sync adds no ReplicaSet if and only if its template was used before; either way the template's own ReplicaSet ends at the desired count. |
| NewRevisions.NewRevisionsHoldTheTemplate | internal/controller/deployment/controller.go:171-210 | Whatever is lost of a sync, every ReplicaSet that is there at any of its calls and was not before has the Deployment's own template, selector and namespace, the template's labels, the digest as annotation and in its name, and the count wanted. |
| NewRevisions.CreatedCount | internal/controller/deployment/controller.go:171-180 | It is created at the Deployment's count, or at zero if none is given. |
| NewRevisions.SyncedRevision | internal/controller/deployment/controller.go:102-117 | A fault-free sync leaves it at the Deployment's count, or at one if none is given. |
| NewRevisions.HistoryHoldsTheTemplates | internal/controller/deployment/controller.go:72-94 | After any history of edits the ReplicaSet named for the template of each edit holds that very template and selector; it is at zero unless it is that of the last edit, which is at the count wanted. |
| NewRevisions.NewPodsRunTheLatest | internal/controller/replicaset/controller.go:103-126 | After any history of edits, every pod that a pass of the ReplicaSet controller adds for the Deployment's selector has spec and labels of its latest template, whatever calls are lost. |
| Cascade.DeploymentPassSettles | internal/controller/deployment/controller.go:40-53 | One fault-free pass over Deployments with disjoint selectors and single revisions leaves each with its ReplicaSet at the desired count, whatever other ReplicaSets are stored. |
| Cascade.CascadeConverges | internal/controller/replicaset/controller.go:39-101 | One Deployment pass and one ReplicaSet pass give every Deployment exactly its desired number of pods. |
| Cascade.SettledSyncIsQuiet | internal/controller/deployment/controller.go:137-154 | From then on no sync sends anything, for any of the Deployments and on any listing. |
| Cascade.SettledPassIsQuiet | internal/controller/replicaset/controller.go:76-100 | As long as every Deployment has the pods it wants, no request of a pass is due to one of their ReplicaSets, and the pass is quiet if and only if it has nothing to do for foreign ones. |
| Cascade.CascadeRests | internal/controller/replicaset/controller.go:39-101 | After one fault-free pass of either controller neither sends anything for these Deployments any more, on any listings of what the two have left; without foreign ReplicaSets nothing at all. |
| Kubelet.Runtime.RunContainer | internal/kubelet/runtime.go:36-74 | The engine gains one running container of that name and pod, or, the name being in use or the call lost, does not change. |
| Kubelet.Runtime.StopContainer | internal/kubelet/runtime.go:76-99 | Success means the container existed and is gone, or has stopped and could not be removed; all others are as before. |
| Kubelet.Runtime.ListContainers | internal/kubelet/runtime.go:101-135 | Exactly the containers labelled with a pod, running or not. |
| Kubelet.Agent.ReconcileContainer | internal/kubelet/agent.go:143-182 | The first container of the expected name decides: none means start, an `Exit` state or a failed probe means stop and start, anything else means leave; the address learnt is what inspecting it yields, and none of a missing or `Exit` one. |
| Kubelet.Agent.ReconcileContainers | internal/kubelet/agent.go:143-182 | The calls for a pod depend on the listing alone; every address learnt replaces the one known so far. |
| Kubelet.Agent.ReconcilePod | internal/kubelet/agent.go:135-204 | One status PUT of the listed pod, with phase Running exactly if a container was listed and with the address its containers leave, skipped only if the phase stays and no address is known. |
| Kubelet.Agent.ReconcilePods | internal/kubelet/agent.go:117-121 | Each assigned pod is reconciled with its own listed containers and taken off the map; all others stay on it. |
| Kubelet.Agent.StopOthers | internal/kubelet/agent.go:123-132 | Exactly the containers left on the map are stopped, except those without a pod. |
| Kubelet.Agent.RunSync | internal/kubelet/agent.go:84-133 | A pass carries out the plans of the pods assigned to the node on one listing, stops every labelled container of other pods, and does nothing if a listing fails. |
| PodStatuses.LearntIsReported | internal/kubelet/agent.go:144-157 | An address is learnt of a container if and only if it is what inspecting the first listed one of the pod under the expected name yields, and that one's state does not begin with `Exit`. |
| PodStatuses.LastReportCounts | internal/kubelet/agent.go:143-158 | The address of a pod is that of the last container in its spec that yields one. |
| PodStatuses.NoReportKeeps | internal/kubelet/agent.go:143-158 | If no container yields one, the address known before is kept. |
| PodStatuses.PassReports | internal/kubelet/agent.go:84-204 | A fault-free pass leaves every pod assigned to the node stored as Running exactly if a container of it was listed and as Pending otherwise, at the address of its last container that yields one or else the one known before, with metadata and spec unchanged; no other pod is written. |
| KubeletPass.PassSyncs | internal/kubelet/agent.go:84-182 | Whatever the names, a fault-free pass removes labelled containers of unassigned pods, keeps fit ones under their ids, adds only what assigned pods ask for, and leaves no labelled container of any other pod. |
| KubeletPass.RemovedIff | internal/kubelet/agent.go:123-171 | A fault-free pass removes a container if and only if it belongs to a pod not assigned to the node, or an assigned pod asks for it by name and either its state begins with `Exit` or that pod's probe of it fails. |
| KubeletPass.NameHeld | internal/kubelet/agent.go:150-178 | A name that a sequence of calls provides for is in use after it, since every stop is followed by a run under the same name. |
| KubeletPass.AllServedIffNamesFree | internal/kubelet/agent.go:117-132 | Every assigned pod has all its containers after a pass if and only if no two pods need one container name and no container of another pod, or of none, held a needed name before. |
| KubeletPass.LeftoverBlocks | internal/kubelet/agent.go:117-132 | A leftover container of an unassigned pod is enough: the only assigned pod, whose container needs the same name, is left without it. |
| KubeletPass.ExitedIsNotRestarted | internal/kubelet/agent.go:150-171 | An exited container of an assigned pod is replaced by a pass if and only if a liveness probe fails for it; otherwise it stays, and its pod is reported as Running. |
| KubeletPass.NamesCanCollide | internal/kubelet/agent.go:146 | Different pods with different container names can need the same engine name. |
| KubeletPass.QuietPass | internal/kubelet/agent.go:84-182 | Over what such a pass leaves, with nothing exited and no probe failing, the next pass asks the engine for nothing. |
| StoreModel.FilteredReplay | internal/storage/memory.go:169-175 | Replaying only the changes below a prefix on only the entries below it gives exactly the entries below it. |
| StoreModel.LogExplainsData | internal/storage/memory.go:63-130 | Over any operations, refused ones and failed dumps included, replaying what was logged gives the map. |
| StoreModel.LoggedKinds | internal/storage/memory.go:63-130 | Over any operations a change is logged as Added if and only if its key is new to the replay of those before it, as Modified or Deleted only if it is there, and a deletion carries the very object that was there. |
| StoreModel.FilteredAreTruthful | internal/storage/memory.go:169-175 | The same is true of the changes below a prefix with respect to the entries below it alone. |
| StoreModel.FileIsLastDump | internal/storage/memory.go:49-61 | However dumps end, the file holds the whole map as of the last operation that touched it, or nothing readable if that dump was cut short; never a mixture. |
| StoreModel.RestartReproduces | internal/storage/memory.go:34-47 | If the last change was dumped whole, a restart reproduces exactly the map in memory, whatever became of earlier dumps. |
| MemoryStore.MemoryStore.constructor | internal/storage/memory.go:21-32 | A new store has what its file holds, or starts empty if there is no file, or it cannot be read or parsed. |
| MemoryStore.MemoryStore.NotifyWatchers | internal/storage/memory.go:169-175 | Every watcher has then been sent the changes below its prefix up to and including this one, in order. |
| MemoryStore.MemoryStore.Sync | internal/storage/memory.go:49-61 | The file becomes the whole map, stays as it was, or is cut short; success is reported only in the first case. |
| MemoryStore.MemoryStore.Create | internal/storage/memory.go:63-79 | Refines the abstract store: a used key is refused without any effect; otherwise map, log, watchers and file follow, and a failed dump is an error although the entry is there. |
| MemoryStore.MemoryStore.Update | internal/storage/memory.go:81-97 | Refines the abstract store: a missing key is refused without any effect; otherwise the entry is overwritten unconditionally. |
| MemoryStore.MemoryStore.Delete | internal/storage/memory.go:111-130 | Refines the abstract store: a missing key is refused without any effect; otherwise the watchers are sent the object deleted. |
| MemoryStore.MemoryStore.Get | internal/storage/memory.go:99-109 | What the last logged change of the key has left of it: its object, nothing after a deletion, and what was loaded if it never changed. |
| StoreModel.LatestIsReplayed | internal/storage/memory.go:99-109 | The last change of a key decides what a replay of the log has under it. |
| MemoryStore.MemoryStore.List | internal/storage/memory.go:132-154 | Exactly the entries below the prefix, each once. |
| MemoryStore.MemoryStore.Watch | internal/storage/memory.go:156-167 | A fresh watcher that starts empty and is owed what happens from now on; the others are unchanged. |
| MemoryStore.MemoryStore.Stop | internal/storage/memory.go:183-194 | Removes this watcher and no other, keeps the order of the rest, closes the channel and leaves what is queued. |
| MemoryStore.MemoryStore.WatcherSeesAll | internal/storage/memory.go:156-194 | In every valid state what a watcher has received and has queued is, in order, the changes below its prefix since it registered; at most ten are queued; replaying them gives the present entries, and on the way every Added is of an entry new to the watcher, every Modified and Deleted of one it has, a Deleted with the object it has. |
| MemoryStore.Watcher.Send | internal/storage/memory.go:172 | A send that completes appends the event behind everything sent before, and the channel never holds more than ten. |
| MemoryStore.Watcher.Receive | internal/apiserver/server.go:246-250 | The consumer takes the oldest event, and nothing is lost or reordered by it. |
| WatchBlocking.FinishesIffNotStuck | internal/storage/memory.go:169-194 | A write under way can still finish if and only if no watcher it must notify has both a full channel and a consumer that has left. |
| WatchBlocking.StuckForever | internal/storage/memory.go:183-185 | Once stuck, a write stays stuck in every continuation, for the departing consumer needs the lock the writer holds. |
| WatchBlocking.FullChannelCanStick | internal/apiserver/server.go:224-256 | From any state with a full channel the stuck state is two steps away. |
| WatchBlocking.SticksIffWatched | internal/storage/memory.go:169-194 | From an idle store a state in which the lock is lost for good can be reached if and only if some watcher is registered. |
| KeySpace.ListExactIff | internal/apiserver/server.go:108 | Listing one resource by its bare prefix returns none of another's entries, for all names, if and only if neither resource name gets in the other's way. |
| KeySpace.ResourcesListExactly | internal/apiserver/server.go:69-89 | For the registered resources a listing returns every entry of its own resource and none of another. |
| KeySpace.KeysAreDistinct | internal/apiserver/server.go:291 | The key determines the resource and the name. |
| KeySpace.ServesOwn | internal/apiserver/server.go:69-89 | An operation of the one store is accepted, and changes the resource addressed, exactly as the clients of that resource rely on, whether or not its dump succeeds. |
| KeySpace.ServesNoOther | internal/apiserver/server.go:69-89 | An operation on one resource leaves every other resource as its clients see it. |
| KeySpace.StaysOnlyResources | internal/apiserver/server.go:69-89 | Operations through the server keep every key one of a registered resource. |
| KeySpace.ListIsClientsList | internal/apiserver/server.go:155 | What the store lists below the prefix of a resource is exactly the list the clients of that resource rely on: every object once. |
| ServiceController.IsMatching | internal/controller/service/service_controller.go:154-161 | The lenient selector: each of its pairs is among the labels, or asks for the empty string and the label is missing. |
| ServiceController.Controller.MatchingPods | internal/controller/service/service_controller.go:70-80 | Exactly the running pods of the service's namespace and selector that have an address, in list order. |
| ServiceController.Controller.BuildPorts | internal/controller/service/service_controller.go:95-117 | One endpoint port per service port, TCP by default, the service's own port when no target is given, a named target not looked up. |
| ServiceController.Controller.SortedAddresses | internal/controller/service/service_controller.go:70-93 | Some sorting by IP of the addresses of exactly the pods behind the service. |
| ServiceController.Controller.BuildSubsets | internal/controller/service/service_controller.go:82-129 | One subset with all addresses and ports, or an empty list, not nil, if there is no address. |
| ServiceController.Controller.ReconcileService | internal/controller/service/service_controller.go:56-152 | Whatever fails, at most one write is sent, that of some sorting of the addresses listed, and none before both reads have succeeded; a service without a selector is left alone; without faults it succeeds. |
| EndpointsProperties.SortingIsUnique | internal/controller/service/service_controller.go:90-93 | Any two sortings of the same addresses agree unless two of them share an IP and differ. |
| EndpointsProperties.DeterminedIffUnambiguous | internal/controller/service/service_controller.go:82-93 | The sorted addresses are the same for every order of the pods and every behaviour of the unstable sort if and only if no two pods share an address without sharing a node. |
| EndpointsProperties.EndpointsAreOrderIndependent | internal/controller/service/service_controller.go:82-128 | The endpoints of a service depend on the set of pods, not on the listing order. |
| EndpointsProperties.DistinctIPsAreStrictlySorted | internal/controller/service/service_controller.go:90-93 | Distinct addresses are sorted strictly. |
| EndpointsProperties.RepeatIsQuietIff | internal/controller/service/service_controller.go:130-151 | A reconcile keeps the stored value when repeated, and the repetition writes nothing if and only if there is an address, since an empty list is read back as nil; other endpoints and the metadata are untouched. |
| EndpointsProperties.AtMostIff | internal/controller/service/service_controller.go:91-93 | The order of IPs: at the first difference the smaller byte comes first, and a string after its beginnings. |
| EndpointsContent.EndpointsDescribeService | internal/controller/service/service_controller.go:70-152 | A served reconcile leaves the service's endpoints with no subset if no listed pod of its namespace and labels runs with an address, and otherwise with exactly one: every pair of address and node as often as such pods have it, in the order of the addresses, and one port per service port, by name, protocol or TCP, and target or own number. New endpoints take the service's name, namespace and labels, old ones keep their metadata, and other endpoints are untouched. |

## Left out

* HTTP routing, TLS, authentication, metrics: only what a status code means to a client is kept. A POST with an empty object name, which
  the server refuses, is never sent by the modelled agents.
* JSON encoding and its errors, base64, reflection: an encoded object is the object. Nil and empty label maps are one value; for the subsets
  of endpoints, where the code tells nil from empty, the difference is modelled.
* SHA-256: an abstract function to 64-character digests; that ten-character prefixes of the digests involved do not collide is a hypothesis of
  the `Rollback` results; `Cascade` assumes distinct ReplicaSet names.
* Negative replica counts, which make the code delete beyond the end of its list, and int32 width: excluded by precondition, and modelled with
  unbounded integers.
* uuid and `rand.Intn`: arbitrary draws. That drawn names are new is the hypothesis `Fresh` of the results about passes; names are never reused and
  nobody else PUTs pods in `PodProtocol`.
* The Docker command line, image pulls, labels other than the pod's name, probe kinds and timeouts: an engine with unique container names and a
  probe oracle and an oracle for container addresses, both fixed during a pass. A `docker run` that fails leaves no container behind.
* CPU arithmetic of the scheduler: an abstract capacity predicate next to node readiness.
* Floating point in `Duration.Seconds()`: whole seconds are taken by exact truncation.
* `RenewDeadline`: never used by the code. That leaders renew or stop in time is a condition on the clock step of `LeaseSafety` and `LeaseRaces`.
* Tickers and endless loops: a run is a finite list of wake-ups, or a finite run of a state machine.
* Interference between the calls of one method: the class methods have the resource to themselves apart from lost calls and replies; concurrent
  agents are covered by the state machines, which interleave the same requests.
* MemoryStore.Watcher.Send: promises only what a send that completes does; whether it can complete is the subject of `WatchBlocking`.
* A file cut short by a failed dump is one that does not parse, so that a restart starts empty; other corruption of the file is covered as a
  file that cannot be read at start.
* ServiceController.Controller.ReconcileService: the sort may return any sorted permutation, which is all an unstable sort promises; the loop of
  `syncServices` around it adds nothing but repetition.
* The service proxy, `cmd/`, `hack/`, node registration, `IntOrString` decoding: no property of the kind proved here.
