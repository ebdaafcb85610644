/** The behaviour of controller.go as functions on values: one pass of
    `processQueue`, its loop over the listed namespaces, the `worker` loop
    and the two event handlers. The class in controller.dfy is proved to
    behave exactly as these functions say. */
module Reconcile {
  import opened ClusterTypes

  /** Namespaces whose ConfigMaps are never replicated and never written. */
  const IgnoredNamespaces: seq<string> :=
    ["default", "kube-system", "kube-public", "kube-node-lease", "local-path-storage"]

  /** `contains`: a linear search for `str` in `s`. */
  function Contains(s: seq<string>, str: string): (r: bool)
    ensures r <==> str in s
  {
    if s == [] then false
    else if s[0] == str then true
    else Contains(s[1..], str)
  }

  /** `createConfigMap`: the object written to namespace `ns`. */
  function CreateConfigMap(ns: string, name: string, data: Data): ConfigMap
  {
    ConfigMap(ns, name, data)
  }

  /** The API server storing `cm` under its own namespace and name. */
  function Store(cluster: map<NamespacedName, Data>, cm: ConfigMap): map<NamespacedName, Data>
  {
    cluster[NamespacedName(cm.namespace, cm.name) := cm.data]
  }

  /** The state threaded through the loop over the namespaces: the cluster,
      the calls made so far, and whether the pass has returned false. */
  datatype Sweep = Sweep(cluster: map<NamespacedName, Data>, calls: seq<ApiCall>, failed: bool)

  /** The update at the end of one loop iteration: it is issued only when the
      ConfigMap just read or created already holds the origin's data, and its
      error is ignored. */
  function UpdateIfEqual(cluster: map<NamespacedName, Data>, calls: seq<ApiCall>, current: Data,
                         ns: string, name: string, data: Data, f: Faults): Sweep
  {
    if current == data then
      var cm := CreateConfigMap(ns, name, data);
      Sweep(if ns in f.updateFails then cluster else Store(cluster, cm), calls + [UpdateCall(cm)], false)
    else
      Sweep(cluster, calls, false)
  }

  /** One iteration of the loop over the listed namespaces, for target `ns`,
      replicating the origin ConfigMap `name` with data `data`. */
  function SweepNamespace(s: Sweep, ns: string, name: string, data: Data, f: Faults): Sweep
  {
    if s.failed || Contains(IgnoredNamespaces, ns) then s
    else
      var read := s.calls + [GetCall(ns, name)];
      var key := NamespacedName(ns, name);
      if ns in f.getFails then Sweep(s.cluster, read, true)
      else if key in s.cluster then UpdateIfEqual(s.cluster, read, s.cluster[key], ns, name, data, f)
      else
        var cm := CreateConfigMap(ns, name, data);
        var created := read + [CreateCall(cm)];
        if ns in f.createFails then Sweep(s.cluster, created, true)
        else UpdateIfEqual(Store(s.cluster, cm), created, cm.data, ns, name, data, f)
  }

  /** The whole loop: the iterations in listing order; once an iteration
      fails, the rest are skipped. */
  function SweepAll(s: Sweep, nss: seq<string>, name: string, data: Data, f: Faults): Sweep
    decreases |nss|
  {
    if nss == [] then s
    else SweepAll(SweepNamespace(s, nss[0], name, data, f), nss[1..], name, data, f)
  }

  /** What `processQueue` returns, and the state it leaves. */
  datatype Outcome = Outcome(ok: bool, world: World)

  /** The queue calls made when a pass on `item` returns: `Forget` if asked,
      then the deferred `Done`. */
  function Finish(w: World, item: string, forget: bool): World
  {
    w.(queueLog := w.queueLog + (if forget then [Forget(item)] else []) + [Done(item)])
  }

  /** One call of `processQueue`. `split` stands for the key decoding of the
      informer library, `f` for the failures the API server reports. Only
      states where the queue's `Get` returns are covered: a non-empty queue,
      or one that is shutting down. */
  function Process(w: World, split: string -> Option<NamespacedName>, f: Faults): (o: Outcome)
    requires w.pending != [] || w.shuttingDown
    ensures o.world.namespaces == w.namespaces && o.world.cache == w.cache
    ensures o.world.shuttingDown == w.shuttingDown
    ensures w.pending != [] ==> o.world.pending == w.pending[1..]
    ensures o.ok ==> w.pending != []
  {
    if w.pending == [] then Outcome(false, w)
    else
      var item := w.pending[0];
      var taken := w.(pending := w.pending[1..], queueLog := w.queueLog + [Get(item)]);
      match split(item)
      case None => Outcome(false, Finish(taken, item, true))
      case Some(origin) =>
        if Contains(IgnoredNamespaces, origin.namespace) then Outcome(true, Finish(taken, item, true))
        else if origin !in w.cache then Outcome(false, Finish(taken, item, false))
        else
          var listed := taken.(apiLog := taken.apiLog + [ListCall]);
          if f.listFails then Outcome(false, Finish(listed, item, false))
          else
            var s := SweepAll(Sweep(w.cluster, listed.apiLog, false), w.namespaces,
                              origin.name, w.cache[origin], f);
            Outcome(!s.failed, Finish(listed.(cluster := s.cluster, apiLog := s.calls), item, !s.failed))
  }

  /** How `worker` ends: `processQueue` returned false, or the queue is empty
      and open, so the next `Get` would wait for work. */
  datatype WorkerExit = Stopped | Idle

  /** `worker`: passes until one returns false (or the queue runs dry). */
  function Run(w: World, split: string -> Option<NamespacedName>, f: Faults): (WorkerExit, World)
    decreases |w.pending|
  {
    if w.pending == [] && !w.shuttingDown then (Idle, w)
    else
      var o := Process(w, split, f);
      if o.ok then Run(o.world, split, f) else (Stopped, o.world)
  }

  /** `handleAdd` / `handleDelete`: enqueue the key derived from the event's
      object, or drop the event when no key can be derived. */
  function Enqueue(w: World, key: Option<string>): (r: World)
    ensures r.cluster == w.cluster && r.apiLog == w.apiLog && r.cache == w.cache
    ensures r.pending == w.pending <==> key.None?
    ensures key.None? ==> r == w
    ensures key.Some? ==> r.pending == w.pending + [key.value] && r.queueLog == w.queueLog + [Add(key.value)]
  {
    match key
    case None => w
    case Some(k) => w.(pending := w.pending + [k], queueLog := w.queueLog + [Add(k)])
  }
}
