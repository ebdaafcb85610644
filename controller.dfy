/** The controller of controller.go as an object: the cluster it talks to,
    the informer cache it reads, and its work queue are fields that its
    methods update in place. Each method is proved to leave exactly the
    state that the matching function of module Reconcile describes. */
module Controllers {
  import opened ClusterTypes
  import opened Reconcile
  import opened SweepProofs

  class Controller {
    var cluster: map<NamespacedName, Data>
    var namespaces: seq<string>
    var cache: map<NamespacedName, Data>
    var pending: seq<string>
    var shuttingDown: bool
    var queueLog: seq<QueueEvent>
    var apiLog: seq<ApiCall>
    /** Decodes a queue key into namespace and name, or fails. */
    const split: string -> Option<NamespacedName>

    function State(): World
      reads this
    {
      World(cluster, namespaces, cache, pending, shuttingDown, queueLog, apiLog)
    }

    constructor (w: World, split: string -> Option<NamespacedName>)
      ensures State() == w && this.split == split
    {
      cluster, namespaces, cache := w.cluster, w.namespaces, w.cache;
      pending, shuttingDown := w.pending, w.shuttingDown;
      queueLog, apiLog := w.queueLog, w.apiLog;
      this.split := split;
    }

    /** `processQueue`: take one key and replicate its ConfigMap into every
        listed namespace that is not ignored. */
    method ProcessQueue(f: Faults) returns (ok: bool)
      requires pending != [] || shuttingDown
      modifies this
      ensures Outcome(ok, State()) == Process(old(State()), split, f)
    {
      if pending == [] {
        return false;  // Get reported shutdown
      }
      var item := pending[0];
      pending := pending[1..];
      queueLog := queueLog + [Get(item)];

      var origin := split(item);
      if origin.None? {
        queueLog := queueLog + [Forget(item), Done(item)];
        return false;
      }
      var ns, name := origin.value.namespace, origin.value.name;
      if Contains(IgnoredNamespaces, ns) {
        queueLog := queueLog + [Forget(item), Done(item)];
        return true;
      }
      if origin.value !in cache {
        queueLog := queueLog + [Done(item)];
        return false;
      }
      var data := cache[origin.value];

      apiLog := apiLog + [ListCall];
      if f.listFails {
        queueLog := queueLog + [Done(item)];
        return false;
      }
      var nss := namespaces;
      ghost var before := State();
      ghost var final := SweepAll(Sweep(cluster, apiLog, false), nss, name, data, f);
      for i := 0 to |nss|
        invariant State() == before.(cluster := cluster, apiLog := apiLog)
        invariant SweepAll(Sweep(cluster, apiLog, false), nss[i..], name, data, f) == final
      {
        assert nss[i..][0] == nss[i] && nss[i..][1..] == nss[i + 1..];
        var target := nss[i];
        if !Contains(IgnoredNamespaces, target) {
          var key := NamespacedName(target, name);
          apiLog := apiLog + [GetCall(target, name)];
          var current: Data;
          if target in f.getFails {
            FailedSweepStops(Sweep(cluster, apiLog, true), nss[i + 1..], name, data, f);
            queueLog := queueLog + [Done(item)];
            return false;
          } else if key in cluster {
            current := cluster[key];
          } else {
            var cm := CreateConfigMap(target, name, data);
            apiLog := apiLog + [CreateCall(cm)];
            if target in f.createFails {
              FailedSweepStops(Sweep(cluster, apiLog, true), nss[i + 1..], name, data, f);
              queueLog := queueLog + [Done(item)];
              return false;
            }
            cluster := Store(cluster, cm);
            current := cm.data;
          }
          if current == data {
            var cm := CreateConfigMap(target, name, data);
            apiLog := apiLog + [UpdateCall(cm)];
            if target !in f.updateFails {
              cluster := Store(cluster, cm);
            }
          }
        }
      }
      queueLog := queueLog + [Forget(item), Done(item)];
      return true;
    }

    /** `worker`: call `ProcessQueue` until it returns false. Where the
        source would block in `Get` on an empty, open queue, this returns
        `Idle`. */
    method Worker(f: Faults) returns (exit: WorkerExit)
      modifies this
      ensures (exit, State()) == Run(old(State()), split, f)
    {
      while true
        invariant Run(State(), split, f) == Run(old(State()), split, f)
        decreases |pending|
      {
        if pending == [] && !shuttingDown {
          return Idle;
        }
        var more := ProcessQueue(f);
        if !more {
          return Stopped;
        }
      }
    }

    /** `handleAdd`: enqueue the key of an added ConfigMap. */
    method HandleAdd<O>(obj: O, keyOf: O -> Option<string>)
      modifies this
      ensures State() == Enqueue(old(State()), keyOf(obj))
    {
      var key := keyOf(obj);
      if key.Some? {
        pending := pending + [key.value];
        queueLog := queueLog + [Add(key.value)];
      }
    }

    /** `handleDelete`: enqueue the key of a deleted ConfigMap. */
    method HandleDelete<O>(obj: O, keyOf: O -> Option<string>)
      modifies this
      ensures State() == Enqueue(old(State()), keyOf(obj))
    {
      var key := keyOf(obj);
      if key.Some? {
        pending := pending + [key.value];
        queueLog := queueLog + [Add(key.value)];
      }
    }
  }
}
