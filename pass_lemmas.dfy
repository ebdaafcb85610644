/** What one `processQueue` pass, the `worker` loop and the event handlers
    promise, stated on the functions of module Reconcile. */
module PassProofs {
  import opened ClusterTypes
  import opened Reconcile
  import opened SweepProofs

  /** The next key decodes to `origin`, whose namespace is not ignored and
      which the cache holds: the pass goes on to list the namespaces. */
  ghost predicate Replicable(w: World, split: string -> Option<NamespacedName>, origin: NamespacedName)
  {
    w.pending != [] && split(w.pending[0]) == Some(origin)
    && origin.namespace !in IgnoredNamespaces && origin in w.cache
  }

  /** When `Get` reports shutdown, the pass returns false and touches nothing. */
  lemma ShutdownTouchesNothing(w: World, split: string -> Option<NamespacedName>, f: Faults)
    requires w.pending == [] && w.shuttingDown
    ensures Process(w, split, f) == Outcome(false, w)
  {
  }

  /** A key taken from the queue is never put back, and is marked `Done` on
      every return path, last; it is `Forget`-ed exactly when the pass
      succeeds or the key is malformed. */
  lemma TakenItemIsDone(w: World, split: string -> Option<NamespacedName>, f: Faults)
    requires w.pending != []
    ensures var k := w.pending[0];
      var o := Process(w, split, f);
      && o.world.pending == w.pending[1..]
      && o.world.queueLog ==
           w.queueLog + [Get(k)] + (if o.ok || split(k).None? then [Forget(k)] else []) + [Done(k)]
  {
  }

  /** A key that does not decode is forgotten, the pass returns false, and
      the API server is neither read nor written. */
  lemma MalformedKeyIsForgotten(w: World, split: string -> Option<NamespacedName>, f: Faults)
    requires w.pending != [] && split(w.pending[0]).None?
    ensures var k := w.pending[0];
      var o := Process(w, split, f);
      && !o.ok
      && o.world.cluster == w.cluster && o.world.apiLog == w.apiLog
      && o.world.queueLog == w.queueLog + [Get(k), Forget(k), Done(k)]
  {
  }

  /** A key whose namespace is ignored is forgotten, the pass returns true,
      and the API server is neither read nor written. */
  lemma IgnoredOriginIsForgotten(w: World, split: string -> Option<NamespacedName>, f: Faults)
    requires w.pending != [] && split(w.pending[0]).Some?
    requires split(w.pending[0]).value.namespace in IgnoredNamespaces
    ensures var k := w.pending[0];
      var o := Process(w, split, f);
      && o.ok
      && o.world.cluster == w.cluster && o.world.apiLog == w.apiLog
      && o.world.queueLog == w.queueLog + [Get(k), Forget(k), Done(k)]
  {
  }

  /** A key the cache does not hold fails the pass without `Forget` and
      without any call to the API server. */
  lemma CacheMissFails(w: World, split: string -> Option<NamespacedName>, f: Faults)
    requires w.pending != [] && split(w.pending[0]).Some?
    requires split(w.pending[0]).value.namespace !in IgnoredNamespaces
    requires split(w.pending[0]).value !in w.cache
    ensures var k := w.pending[0];
      var o := Process(w, split, f);
      && !o.ok
      && o.world.cluster == w.cluster && o.world.apiLog == w.apiLog
      && o.world.queueLog == w.queueLog + [Get(k), Done(k)]
  {
  }

  /** A failed namespace listing fails the pass without `Forget`, after the
      listing and no other call. */
  lemma ListFailureFails(w: World, split: string -> Option<NamespacedName>, f: Faults, origin: NamespacedName)
    requires Replicable(w, split, origin) && f.listFails
    ensures var k := w.pending[0];
      var o := Process(w, split, f);
      && !o.ok
      && o.world.cluster == w.cluster && o.world.apiLog == w.apiLog + [ListCall]
      && o.world.queueLog == w.queueLog + [Get(k), Done(k)]
  {
  }

  /** A pass that lists the namespaces keeps every stored ConfigMap and its
      data, adds only copies of the origin's cached data named like the
      origin in listed, non-ignored namespaces, and after the listing calls
      only on those copies. Replicas created before a failure stay. */
  lemma PassWritesOnlyReplicas(w: World, split: string -> Option<NamespacedName>, f: Faults, origin: NamespacedName)
    requires Replicable(w, split, origin)
    ensures var o := Process(w, split, f);
      var data := w.cache[origin];
      && (forall k :: k in w.cluster ==> k in o.world.cluster && o.world.cluster[k] == w.cluster[k])
      && (forall k :: k in o.world.cluster && k !in w.cluster ==>
            k.name == origin.name && k.namespace in w.namespaces &&
            k.namespace !in IgnoredNamespaces && o.world.cluster[k] == data)
      && |w.apiLog| < |o.world.apiLog| && o.world.apiLog[..|w.apiLog| + 1] == w.apiLog + [ListCall]
      && (forall i :: |w.apiLog| < i < |o.world.apiLog| ==>
            IsReplicaCall(o.world.apiLog[i], w.namespaces, origin.name, data))
  {
    if !f.listFails {
      var s0 := Sweep(w.cluster, w.apiLog + [ListCall], false);
      SweepOnlyAddsReplicas(s0, w.namespaces, origin.name, w.cache[origin], f);
      SweepCallsTargetReplicas(s0, w.namespaces, origin.name, w.cache[origin], f);
      var q := SweepAll(s0, w.namespaces, origin.name, w.cache[origin], f);
      assert q.calls[..|w.apiLog| + 1] == q.calls[..|s0.calls|];
    }
  }

  /** Whatever key the pass takes, ConfigMaps already stored keep their data. */
  lemma PassKeepsExistingData(w: World, split: string -> Option<NamespacedName>, f: Faults)
    requires w.pending != [] || w.shuttingDown
    ensures var o := Process(w, split, f);
      forall k :: k in w.cluster ==> k in o.world.cluster && o.world.cluster[k] == w.cluster[k]
  {
    if w.pending != [] && split(w.pending[0]).Some? {
      var origin := split(w.pending[0]).value;
      if origin.namespace !in IgnoredNamespaces && origin in w.cache {
        PassWritesOnlyReplicas(w, split, f, origin);
      }
    }
  }

  /** A pass that returns true for a replicable key leaves a ConfigMap named
      like the origin in every listed namespace that is not ignored. */
  lemma SuccessfulPassReplicates(w: World, split: string -> Option<NamespacedName>, f: Faults, origin: NamespacedName)
    requires Replicable(w, split, origin) && Process(w, split, f).ok
    ensures var o := Process(w, split, f);
      forall ns :: ns in w.namespaces && ns !in IgnoredNamespaces ==>
        NamespacedName(ns, origin.name) in o.world.cluster
  {
    var s0 := Sweep(w.cluster, w.apiLog + [ListCall], false);
    SweepCoversListed(s0, w.namespaces, origin.name, w.cache[origin], f);
  }

  /** A replicable pass that lists the namespaces runs the loop from the
      stored ConfigMaps with the origin's cached data. */
  lemma ReplicablePassSweeps(w: World, split: string -> Option<NamespacedName>, f: Faults, origin: NamespacedName)
    requires Replicable(w, split, origin) && !f.listFails
    ensures var o := Process(w, split, f);
      var q := SweepAll(Sweep(w.cluster, w.apiLog + [ListCall], false), w.namespaces, origin.name, w.cache[origin], f);
      o.ok == !q.failed && o.world.cluster == q.cluster && o.world.apiLog == q.calls
  {
  }

  /** A replicable pass that lists the namespaces returns false exactly when
      a live read failed, or a create failed for a namespace that had no
      copy; update errors are ignored. */
  lemma PassFailsIffReadOrCreateError(w: World, split: string -> Option<NamespacedName>, f: Faults, origin: NamespacedName)
    requires Replicable(w, split, origin) && !f.listFails
    ensures !Process(w, split, f).ok <==> ReadOrCreateError(w.namespaces, origin.name, w.cluster, f)
  {
    var s0 := Sweep(w.cluster, w.apiLog + [ListCall], false);
    var data := w.cache[origin];
    ReplicablePassSweeps(w, split, f, origin);
    if !Process(w, split, f).ok {
      SweepFailsOnlyOnReadOrCreate(s0, w.namespaces, origin.name, data, f);
    }
    if ReadOrCreateError(w.namespaces, origin.name, w.cluster, f) {
      var ns :| ns in w.namespaces && ns !in IgnoredNamespaces &&
        (ns in f.getFails || (ns in f.createFails && NamespacedName(ns, origin.name) !in w.cluster));
      ReadOrCreateErrorFailsSweep(s0, w.namespaces, origin.name, data, f, ns);
    }
  }

  /** Running the pass again on the same key, right after it succeeded and
      with nothing else changed, changes no data and creates nothing,
      whatever failures `f2` the API server reports the second time. */
  lemma SecondPassChangesNothing(w: World, split: string -> Option<NamespacedName>, f: Faults, f2: Faults,
                                 origin: NamespacedName)
    requires Replicable(w, split, origin) && Process(w, split, f).ok
    ensures var o := Process(w, split, f);
      var again := o.world.(pending := [w.pending[0]] + o.world.pending);
      var o2 := Process(again, split, f2);
      && o2.world.cluster == o.world.cluster
      && forall i :: |o.world.apiLog| <= i < |o2.world.apiLog| ==> !o2.world.apiLog[i].CreateCall?
  {
    var o := Process(w, split, f);
    if f.listFails {
      ListFailureFails(w, split, f, origin);
      assert false;
    }
    var data := w.cache[origin];
    ReplicablePassSweeps(w, split, f, origin);
    var again := o.world.(pending := [w.pending[0]] + o.world.pending);
    assert Replicable(again, split, origin);
    if f2.listFails {
      ListFailureFails(again, split, f2, origin);
    } else {
      ReplicablePassSweeps(again, split, f2, origin);
      var calls2 := o.world.apiLog + [ListCall];
      ReconcileTwiceIsStable(Sweep(w.cluster, w.apiLog + [ListCall], false), w.namespaces, origin.name, data, f,
                             calls2, f2);
      var q2 := SweepAll(Sweep(o.world.cluster, calls2, false), w.namespaces, origin.name, data, f2);
      assert q2.calls[|o.world.apiLog|] == q2.calls[..|calls2|][|o.world.apiLog|] == ListCall;
    }
  }

  /** A worker on a queue that is shutting down always ends with a pass that
      returns false. */
  lemma {:induction false} ShutDownWorkerStops(w: World, split: string -> Option<NamespacedName>, f: Faults)
    requires w.shuttingDown
    ensures Run(w, split, f).0 == Stopped
    decreases |w.pending|
  {
    var o := Process(w, split, f);
    if o.ok {
      ShutDownWorkerStops(o.world, split, f);
    }
  }

  /** A worker ends `Idle` only once every pass succeeded and the queue is
      empty and open. */
  lemma {:induction false} IdleWorkerDrainedQueue(w: World, split: string -> Option<NamespacedName>, f: Faults)
    requires Run(w, split, f).0 == Idle
    ensures Run(w, split, f).1.pending == [] && !w.shuttingDown
    decreases |w.pending|
  {
    if w.pending != [] || w.shuttingDown {
      var o := Process(w, split, f);
      IdleWorkerDrainedQueue(o.world, split, f);
    }
  }

  /** The worker takes keys from the front of the queue, in order: what is
      left is a suffix of what was there. */
  lemma {:induction false} WorkerConsumesQueueInOrder(w: World, split: string -> Option<NamespacedName>, f: Faults)
    ensures var r := Run(w, split, f).1;
      |r.pending| <= |w.pending| && r.pending == w.pending[|w.pending| - |r.pending|..]
    decreases |w.pending|
  {
    if w.pending != [] {
      var o := Process(w, split, f);
      if o.ok {
        WorkerConsumesQueueInOrder(o.world, split, f);
        var r := Run(w, split, f).1;
        assert w.pending[1..][|w.pending[1..]| - |r.pending|..] == w.pending[|w.pending| - |r.pending|..];
      }
    }
  }

  /** Over a whole worker run, ConfigMaps already stored keep their data. */
  lemma {:induction false} WorkerKeepsExistingData(w: World, split: string -> Option<NamespacedName>, f: Faults)
    ensures var r := Run(w, split, f).1;
      forall k :: k in w.cluster ==> k in r.cluster && r.cluster[k] == w.cluster[k]
    decreases |w.pending|
  {
    if w.pending != [] || w.shuttingDown {
      var o := Process(w, split, f);
      PassKeepsExistingData(w, split, f);
      if o.ok {
        WorkerKeepsExistingData(o.world, split, f);
      }
    }
  }

  /** The handlers do no filtering: a key enqueued on an empty queue is the
      next one a pass takes, whatever its namespace. */
  lemma EnqueuedKeyIsTakenNext(w: World, k: string, split: string -> Option<NamespacedName>, f: Faults)
    requires w.pending == []
    ensures var w1 := Enqueue(w, Some(k));
      Process(w1, split, f).world.queueLog[..|w.queueLog| + 2] == w.queueLog + [Add(k), Get(k)]
  {
    var w1 := Enqueue(w, Some(k));
    TakenItemIsDone(w1, split, f);
  }

  /** The worker only appends to the queue log. */
  lemma {:induction false} WorkerExtendsQueueLog(w: World, split: string -> Option<NamespacedName>, f: Faults)
    ensures var r := Run(w, split, f).1;
      |w.queueLog| <= |r.queueLog| && r.queueLog[..|w.queueLog|] == w.queueLog
    decreases |w.pending|
  {
    if w.pending != [] {
      var o := Process(w, split, f);
      TakenItemIsDone(w, split, f);
      if o.ok {
        WorkerExtendsQueueLog(o.world, split, f);
        var r := Run(w, split, f).1;
        assert r.queueLog[..|w.queueLog|] == r.queueLog[..|o.world.queueLog|][..|w.queueLog|];
      }
    }
  }

  /** The key at position `j` of the queue is taken (its `Get` is logged)
      once the worker has got past the `j` keys ahead of it. */
  lemma {:induction false} QueuedKeyTakenInTurn(w: World, j: nat, split: string -> Option<NamespacedName>, f: Faults)
    requires j < |w.pending|
    ensures var r := Run(w, split, f).1;
      |r.pending| < |w.pending| - j ==>
        exists i :: |w.queueLog| <= i < |r.queueLog| && r.queueLog[i] == Get(w.pending[j])
    decreases |w.pending|
  {
    var r := Run(w, split, f).1;
    if |r.pending| < |w.pending| - j {
      var o := Process(w, split, f);
      TakenItemIsDone(w, split, f);
      assert o.world.queueLog[|w.queueLog|] == Get(w.pending[0]);
      if !o.ok {
        assert j == 0 && r == o.world;
      } else {
        WorkerExtendsQueueLog(o.world, split, f);
        if j == 0 {
          assert r.queueLog[|w.queueLog|] == r.queueLog[..|o.world.queueLog|][|w.queueLog|];
        } else {
          assert o.world.pending[j - 1] == w.pending[j];
          QueuedKeyTakenInTurn(o.world, j - 1, split, f);
        }
      }
    }
  }

  /** A key the handlers enqueue waits behind the keys already queued: after
      a worker run it is either still queued, at the back, or it has been
      taken; once the queue is drained it has been taken. */
  lemma EnqueuedKeyIsTakenInTurn(w: World, k: string, split: string -> Option<NamespacedName>, f: Faults)
    ensures var w1 := Enqueue(w, Some(k));
      var r := Run(w1, split, f).1;
      && (r.pending != [] ==> r.pending[|r.pending| - 1] == k)
      && (r.pending == [] ==> exists i :: |w1.queueLog| <= i < |r.queueLog| && r.queueLog[i] == Get(k))
  {
    var w1 := Enqueue(w, Some(k));
    WorkerConsumesQueueInOrder(w1, split, f);
    QueuedKeyTakenInTurn(w1, |w.pending|, split, f);
  }
}
