# ConfigMap replication controller — a Dafny model of its reconciliation pass

The controller watches ConfigMaps in a Kubernetes cluster. When one is added or
deleted, the event handlers enqueue its `namespace/name` key on a work queue. A
worker takes keys off the queue one at a time. For each key, `processQueue`
looks the ConfigMap up in the informer cache. It lists every namespace the API
server knows and makes sure a ConfigMap of the same name exists in each
namespace that is not on a fixed ignore list. Missing ones are created with
the origin's data.

The model has two layers:

- `Reconcile` (reconcile.dfy) states the behaviour as functions on values.
  The cluster, the informer cache, the namespace list and the work queue form
  one `World`. The API server's answers are an input, `Faults`: whether the
  namespace listing fails, and the namespaces whose live read, create or
  update fails. Every path is therefore deterministic. The work queue and the
  API server appear as logs of the calls made on them (`QueueEvent`,
  `ApiCall`), so "no cluster reads or writes" and "marked Done" can be stated
  exactly.
- `Controllers.Controller` (controller.dfy) is the imperative controller: a
  class whose fields are that state. `ProcessQueue` is a `for` loop over the
  listed namespaces with early returns. Each method's postcondition equates
  its result and new state with the matching `Reconcile` function.
- `SweepProofs` (sweep_lemmas.dfy) and `PassProofs` (pass_lemmas.dfy) prove
  what the loop, one pass, the worker and the handlers promise.

The model follows the code as written; the comment at controller.go:121
still lists comparing existing copies as work to do:

- The update is issued only when the existing copy's data already EQUALS the
  origin's data, and it writes that same data. A copy whose data has drifted
  is left alone, so the update never changes data. After a successful create
  the update fires too, because the created object's data equals the origin's.
- The origin namespace is not skipped in the loop. It is read like any other
  namespace, and the copy is created there if the live read reports it missing.
- The error of the update is never checked, so an update error does not stop
  the pass.
- Every failure returns false without re-adding the key. That false also ends
  `worker`. `Forget` is called only on success and on a key that does not
  split; `Done` is called on every pass that took a key.

## Model

| member | source | states |
|---|---|---|
| `Reconcile.Contains` | controller.go:69-77 | true exactly when `str` occurs in the slice |
| `Reconcile.CreateConfigMap` | controller.go:146-154 | no contract of its own: `SweepNamespaceFrame`, `SweepCallsTargetReplicas` and `UpdateOnlyWhenEqual` fix the namespace, name and data of every object created or updated |
| `Reconcile.UpdateIfEqual` | controller.go:136-138 | no contract of its own: `UpdateOnlyWhenEqual` states when the update is issued and that it leaves stored data unchanged |
| `Reconcile.SweepNamespace` | controller.go:123-139 | no contract of its own: `SweepNamespaceFrame`, `UpdateOnlyWhenEqual`, `SweepFailsOnlyOnReadOrCreate` and `ReadOrCreateErrorFailsSweep` carry its promises |
| `Reconcile.SweepAll` | controller.go:122-140 | no contract of its own: `FailedSweepStops`, `FailureSkipsRest`, `SweepOnlyAddsReplicas`, `SweepCallsTargetReplicas` and `SweepCoversListed` carry its promises |
| `Reconcile.Finish` | controller.go:90-96 | no contract of its own: `TakenItemIsDone` states the `Forget`/`Done` order on every path |
| `Reconcile.Run` | controller.go:63-67 | no contract of its own: `ShutDownWorkerStops`, `IdleWorkerDrainedQueue`, `WorkerConsumesQueueInOrder`, `WorkerKeepsExistingData` and `QueuedKeyTakenInTurn` carry its promises |
| `Reconcile.Process` | controller.go:79-144 | a pass never changes the cache, the namespace list or the shutdown flag; when the queue is non-empty it takes exactly its front key; it returns true only if it took a key |
| `Reconcile.Enqueue` | controller.go:156-178 | the handlers make no API call and change neither cluster nor cache; with no derivable key the state is unchanged, otherwise the key goes to the back of the queue and `Add` is logged |
| `Controllers.Controller.ProcessQueue` | controller.go:79-144 | the imperative pass (loop with early returns) returns and leaves exactly what `Reconcile.Process` gives for the old state |
| `Controllers.Controller.Worker` | controller.go:63-67 | calls `ProcessQueue` until it returns false (or the queue is empty and open) and ends as `Reconcile.Run` says |
| `Controllers.Controller.HandleAdd` | controller.go:156-166 | enqueues the derived key and logs `Add`, or drops the event when no key can be derived |
| `Controllers.Controller.HandleDelete` | controller.go:168-178 | same as `HandleAdd`, for delete events |
| `SweepProofs.FailedSweepStops` | controller.go:131-134 | after a failing iteration the remaining namespaces are skipped: the loop state does not change any more |
| `SweepProofs.SweepNamespaceFrame` | controller.go:122-154 | one iteration keeps stored data, may add only the copy `createConfigMap(ns, name, data)` in a non-ignored `ns`, and calls only on that copy |
| `SweepProofs.UpdateOnlyWhenEqual` | controller.go:124-138 | when the live read finds the copy, the update is issued exactly when the copy already holds the origin's data and writes that same data; a differing copy is only read; stored data never changes |
| `SweepProofs.SweepOnlyAddsReplicas` | controller.go:122-140 | on every path, stored ConfigMaps keep their data; new ones are named like the origin, lie in listed non-ignored namespaces and hold the origin's data; copies made before a failure stay |
| `SweepProofs.SweepCallsTargetReplicas` | controller.go:122-154 | the loop only appends calls; each reads, creates or updates the origin's name in a listed non-ignored namespace, and creates/updates carry the origin's data |
| `SweepProofs.SweepCoversListed` | controller.go:122-143 | a loop that does not fail leaves a ConfigMap named `name` in every listed non-ignored namespace |
| `SweepProofs.SweepFailsOnlyOnReadOrCreate` | controller.go:125-138 | the loop fails only for a live-read error, or a create error where no copy existed; update errors never fail it |
| `SweepProofs.ReadOrCreateErrorFailsSweep` | controller.go:125-134 | conversely, a live-read error in a listed non-ignored namespace, or a create error there while it has no copy, fails the loop |
| `SweepProofs.FailureSkipsRest` | controller.go:131-134 | a failing loop equals the loop over the namespaces up to and including the first failing one |
| `SweepProofs.SweepStableWhenPresent` | controller.go:125-138 | when every eligible namespace already holds the name, the loop changes no data and issues no create |
| `SweepProofs.ReconcileTwiceIsStable` | controller.go:122-143 | a second loop right after a successful one, whatever failures it meets, changes no data, creates nothing and only appends calls |
| `PassProofs.ShutdownTouchesNothing` | controller.go:84-88 | when `Get` reports shutdown the pass returns false and the state is unchanged |
| `PassProofs.TakenItemIsDone` | controller.go:84-143 | the taken key is never re-added; the queue log gains `Get`, then `Forget` exactly when the pass succeeds or the key is malformed, then `Done` |
| `PassProofs.MalformedKeyIsForgotten` | controller.go:92-98 | a key that does not split is forgotten, the pass returns false, and the API server is neither read nor written |
| `PassProofs.IgnoredOriginIsForgotten` | controller.go:100-104 | a key in an ignored namespace is forgotten, the pass returns true, and the API server is neither read nor written |
| `PassProofs.CacheMissFails` | controller.go:106-112 | a cache miss returns false without `Forget` and without any API call |
| `PassProofs.ListFailureFails` | controller.go:114-119 | a failed namespace listing returns false without `Forget`; only the listing was called and nothing was written |
| `PassProofs.PassWritesOnlyReplicas` | controller.go:114-154 | a pass that lists namespaces keeps stored data, adds only copies of the cached origin in listed non-ignored namespaces, and after the listing calls only on such copies |
| `PassProofs.PassKeepsExistingData` | controller.go:79-144 | whatever the key and the failures, every stored ConfigMap keeps its data |
| `PassProofs.SuccessfulPassReplicates` | controller.go:122-143 | a pass that returns true leaves a ConfigMap named like the origin in every listed non-ignored namespace |
| `PassProofs.PassFailsIffReadOrCreateError` | controller.go:114-143 | a pass on a cached, non-ignored origin whose namespace listing succeeds returns false exactly when some listed non-ignored namespace fails its live read, or fails the create of a copy it does not hold |
| `PassProofs.ReplicablePassSweeps` | controller.go:114-143 | a pass that lists namespaces runs the loop from the stored ConfigMaps with the origin's cached data and returns true exactly when the loop does not fail |
| `PassProofs.SecondPassChangesNothing` | controller.go:79-143 | processing the same key again right after a successful pass, whatever failures the second pass meets, changes no data and creates nothing |
| `PassProofs.ShutDownWorkerStops` | controller.go:63-67 | on a queue that is shutting down the worker always ends with a pass returning false |
| `PassProofs.IdleWorkerDrainedQueue` | controller.go:63-67 | the worker stops for lack of work only with an empty, open queue |
| `PassProofs.WorkerConsumesQueueInOrder` | controller.go:63-67 | the worker takes keys from the front: what remains is a suffix of the queue |
| `PassProofs.WorkerKeepsExistingData` | controller.go:63-67 | across a whole worker run, stored ConfigMaps keep their data |
| `PassProofs.EnqueuedKeyIsTakenNext` | controller.go:156-166 | a key enqueued on an empty queue is the next one a pass takes, whatever its namespace: the handlers do no filtering |
| `PassProofs.WorkerExtendsQueueLog` | controller.go:63-67 | a worker run only appends to the queue log |
| `PassProofs.QueuedKeyTakenInTurn` | controller.go:63-67 | the key at position `j` of the queue has its `Get` logged once the worker has got past the `j` keys ahead of it |
| `PassProofs.EnqueuedKeyIsTakenInTurn` | controller.go:156-166 | after a worker run, an enqueued key is either still queued at the back or has been taken; a drained queue means it was taken |

## Left out

- main.go is not part of this model: kubeconfig loading, clientset construction and starting the informer factory are process bootstrap.
- `Run` (controller.go:49-61) is not modelled. It waits for cache sync, restarts `worker` every second through `wait.Until`, and blocks on the stop channel; these are concurrency and lifecycle.
- The work queue is a plain FIFO (`pending`) with a shutdown flag. Its de-duplication, rate limiting, backoff and re-delivery of keys added while in flight are library internals. Only the `Add`/`Get`/`Done`/`Forget` calls are logged. The library's `Add` does nothing once the queue is shutting down; `Reconcile.Enqueue` appends the key regardless, so on a shutting-down state `EnqueuedKeyIsTakenInTurn` describes a key the library would have dropped.
- Controllers.Controller.ProcessQueue: requires a non-empty or shut-down queue, because `Get` on an empty, open queue blocks until work arrives, which a terminating model cannot express. `Reconcile.Process` has the same precondition.
- Controllers.Controller.Worker: returns `Idle` where the source would block in `Get` waiting for work.
- `cache.SplitMetaNamespaceKey` and `cache.MetaNamespaceKeyFunc` are library code. They are parameters: the class constant `split` and the handlers' `keyOf`, each returning a result or nothing.
- `reflect.DeepEqual` on the data is map equality. The distinction between a nil and an empty Go map is not modelled.
- Each failure is a fixed property of a namespace for a whole pass or worker run (`Faults`), not of an individual call. Retries inside the client library are not modelled.
- Resource versions, owner references and other ConfigMap metadata are not modelled. Update conflicts are covered only as a generic update failure.
- The update at controller.go:137 sends a fresh object holding only name, namespace and data. On the API server this drops the labels, annotations and `binaryData` of every copy whose data already matches the origin's, and of the origin itself when its live data matches the cache, since its namespace is not skipped. Copies whose data differs draw no update and keep their metadata. The model's ConfigMap holds only data, so this loss is not captured.
- `fmt.Println` logging and `context` arguments are left out.
- External changes to the cluster or cache between passes are not modelled. The properties hold for whatever state a pass starts from.
