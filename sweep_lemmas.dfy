/** What the loop over the listed namespaces does, whatever the API server
    answers: it only adds replicas, never changes data already stored,
    touches no ignored namespace, stops at the first read or create error,
    and on success leaves a replica in every listed namespace. */
module SweepProofs {
  import opened ClusterTypes
  import opened Reconcile

  /** `cm` is a copy of origin `name` with data `data`, addressed to a listed
      namespace that is not ignored. */
  predicate IsReplica(cm: ConfigMap, nss: seq<string>, name: string, data: Data)
  {
    cm.name == name && cm.data == data && cm.namespace in nss && cm.namespace !in IgnoredNamespaces
  }

  /** A call the loop may issue: a read, create or update of a replica. */
  predicate IsReplicaCall(c: ApiCall, nss: seq<string>, name: string, data: Data)
  {
    match c
    case ListCall => false
    case GetCall(ns, n) => n == name && ns in nss && ns !in IgnoredNamespaces
    case CreateCall(cm) => IsReplica(cm, nss, name, data)
    case UpdateCall(cm) => IsReplica(cm, nss, name, data)
  }

  /** Once an iteration has failed, the remaining namespaces are skipped. */
  lemma {:induction false} FailedSweepStops(s: Sweep, nss: seq<string>, name: string, data: Data, f: Faults)
    requires s.failed
    ensures SweepAll(s, nss, name, data, f) == s
    decreases |nss|
  {
    if nss != [] {
      FailedSweepStops(s, nss[1..], name, data, f);
    }
  }

  /** One iteration keeps every stored ConfigMap and its data, may add only
      the replica in `ns`, appends to the call log, and calls only on the
      replica in `ns`. */
  lemma SweepNamespaceFrame(s: Sweep, ns: string, name: string, data: Data, f: Faults)
    ensures var t := SweepNamespace(s, ns, name, data, f);
      && (forall k :: k in s.cluster ==> k in t.cluster && t.cluster[k] == s.cluster[k])
      && (forall k :: k in t.cluster && k !in s.cluster ==>
            k == NamespacedName(ns, name) && ns !in IgnoredNamespaces && t.cluster[k] == data)
      && |s.calls| <= |t.calls| && t.calls[..|s.calls|] == s.calls
      && (forall i :: |s.calls| <= i < |t.calls| ==> IsReplicaCall(t.calls[i], [ns], name, data))
  {
    var key := NamespacedName(ns, name);
    if !s.failed && !Contains(IgnoredNamespaces, ns) && ns !in f.getFails && key in s.cluster {
      assert Store(s.cluster, CreateConfigMap(ns, name, data)) == s.cluster[key := data];
    }
  }

  /** When the live read finds the copy, the update is issued exactly when
      the copy already holds the origin's data, and it writes that same
      data; a copy whose data differs is read and left alone. Either way no
      stored data changes. */
  lemma UpdateOnlyWhenEqual(s: Sweep, ns: string, name: string, data: Data, f: Faults)
    requires !s.failed && ns !in IgnoredNamespaces && ns !in f.getFails && NamespacedName(ns, name) in s.cluster
    ensures var t := SweepNamespace(s, ns, name, data, f);
      && !t.failed && t.cluster == s.cluster
      && (s.cluster[NamespacedName(ns, name)] == data ==>
            t.calls == s.calls + [GetCall(ns, name), UpdateCall(ConfigMap(ns, name, data))])
      && (s.cluster[NamespacedName(ns, name)] != data ==> t.calls == s.calls + [GetCall(ns, name)])
  {
    assert Store(s.cluster, CreateConfigMap(ns, name, data)) == s.cluster[NamespacedName(ns, name) := data];
  }

  /** The loop keeps every ConfigMap already stored, with its data, and adds
      only replicas of the origin in listed, non-ignored namespaces. This
      holds on every path, so replicas created before a failure stay. */
  lemma {:induction false} SweepOnlyAddsReplicas(s: Sweep, nss: seq<string>, name: string, data: Data, f: Faults)
    ensures var q := SweepAll(s, nss, name, data, f);
      && (forall k :: k in s.cluster ==> k in q.cluster && q.cluster[k] == s.cluster[k])
      && (forall k :: k in q.cluster && k !in s.cluster ==>
            k.name == name && k.namespace in nss && k.namespace !in IgnoredNamespaces && q.cluster[k] == data)
    decreases |nss|
  {
    if nss != [] {
      var t := SweepNamespace(s, nss[0], name, data, f);
      SweepNamespaceFrame(s, nss[0], name, data, f);
      SweepOnlyAddsReplicas(t, nss[1..], name, data, f);
    }
  }

  /** The loop only appends to the call log, and every call it adds reads,
      creates or updates a replica: ignored namespaces are never read or
      written, and creates and updates carry the origin's data. */
  lemma {:induction false} SweepCallsTargetReplicas(s: Sweep, nss: seq<string>, name: string, data: Data, f: Faults)
    ensures var q := SweepAll(s, nss, name, data, f);
      && |s.calls| <= |q.calls| && q.calls[..|s.calls|] == s.calls
      && (forall i :: |s.calls| <= i < |q.calls| ==> IsReplicaCall(q.calls[i], nss, name, data))
    decreases |nss|
  {
    if nss != [] {
      var t := SweepNamespace(s, nss[0], name, data, f);
      var q := SweepAll(s, nss, name, data, f);
      SweepNamespaceFrame(s, nss[0], name, data, f);
      SweepCallsTargetReplicas(t, nss[1..], name, data, f);
      forall i | |s.calls| <= i < |q.calls|
        ensures IsReplicaCall(q.calls[i], nss, name, data)
      {
        if i < |t.calls| {
          assert q.calls[i] == t.calls[..|t.calls|][i];
          assert IsReplicaCall(t.calls[i], [nss[0]], name, data);
        } else {
          assert IsReplicaCall(q.calls[i], nss[1..], name, data);
        }
      }
    }
  }

  /** A loop that does not fail leaves a ConfigMap named `name` in every
      listed namespace that is not ignored. */
  lemma {:induction false} SweepCoversListed(s: Sweep, nss: seq<string>, name: string, data: Data, f: Faults)
    requires !SweepAll(s, nss, name, data, f).failed
    ensures forall ns :: ns in nss && ns !in IgnoredNamespaces ==>
      NamespacedName(ns, name) in SweepAll(s, nss, name, data, f).cluster
    decreases |nss|
  {
    if nss != [] {
      var t := SweepNamespace(s, nss[0], name, data, f);
      if t.failed {
        FailedSweepStops(t, nss[1..], name, data, f);
      }
      SweepCoversListed(t, nss[1..], name, data, f);
      SweepOnlyAddsReplicas(t, nss[1..], name, data, f);
    }
  }

  /** Some listed, non-ignored namespace answers the live read with an
      error, or rejects the create of a copy it does not hold yet. */
  ghost predicate ReadOrCreateError(nss: seq<string>, name: string, cluster: map<NamespacedName, Data>, f: Faults)
  {
    exists ns :: ns in nss && ns !in IgnoredNamespaces &&
      (ns in f.getFails || (ns in f.createFails && NamespacedName(ns, name) !in cluster))
  }

  /** The loop fails only because a live read failed, or a create failed in
      a namespace that had no replica: an update error never stops it. */
  lemma {:induction false} SweepFailsOnlyOnReadOrCreate(s: Sweep, nss: seq<string>, name: string, data: Data, f: Faults)
    requires !s.failed && SweepAll(s, nss, name, data, f).failed
    ensures ReadOrCreateError(nss, name, s.cluster, f)
    decreases |nss|
  {
    var t := SweepNamespace(s, nss[0], name, data, f);
    if t.failed {
      assert nss[0] in nss;
    } else {
      SweepFailsOnlyOnReadOrCreate(t, nss[1..], name, data, f);
      SweepNamespaceFrame(s, nss[0], name, data, f);
      var ns :| ns in nss[1..] && ns !in IgnoredNamespaces &&
        (ns in f.getFails || (ns in f.createFails && NamespacedName(ns, name) !in t.cluster));
      assert ns in nss;
    }
  }

  /** Conversely, a live-read error in a listed, non-ignored namespace, or a
      create error where that namespace has no copy, fails the loop. */
  lemma {:induction false} ReadOrCreateErrorFailsSweep(s: Sweep, nss: seq<string>, name: string, data: Data, f: Faults, ns: string)
    requires ns in nss && ns !in IgnoredNamespaces
    requires ns in f.getFails || (ns in f.createFails && NamespacedName(ns, name) !in s.cluster)
    ensures SweepAll(s, nss, name, data, f).failed
    decreases |nss|
  {
    var t := SweepNamespace(s, nss[0], name, data, f);
    if t.failed {
      FailedSweepStops(t, nss[1..], name, data, f);
    } else {
      assert ns != nss[0];
      assert ns in nss[1..];
      SweepNamespaceFrame(s, nss[0], name, data, f);
      ReadOrCreateErrorFailsSweep(t, nss[1..], name, data, f, ns);
    }
  }

  /** A failing loop ends at the first namespace whose iteration fails: the
      namespaces listed after it are neither read nor written. */
  lemma {:induction false} FailureSkipsRest(s: Sweep, nss: seq<string>, name: string, data: Data, f: Faults)
    requires !s.failed && SweepAll(s, nss, name, data, f).failed
    ensures exists j :: (0 <= j < |nss| && !SweepAll(s, nss[..j], name, data, f).failed &&
      SweepAll(s, nss[..j + 1], name, data, f) == SweepAll(s, nss, name, data, f))
    decreases |nss|
  {
    var t := SweepNamespace(s, nss[0], name, data, f);
    if t.failed {
      FailedSweepStops(t, nss[1..], name, data, f);
      assert nss[..0] == [] && nss[..1][0] == nss[0] && nss[..1][1..] == [];
      assert SweepAll(s, nss[..1], name, data, f) == t == SweepAll(s, nss, name, data, f);
      assert !SweepAll(s, nss[..0], name, data, f).failed;
    } else {
      FailureSkipsRest(t, nss[1..], name, data, f);
      var j :| 0 <= j < |nss[1..]| && !SweepAll(t, nss[1..][..j], name, data, f).failed &&
        SweepAll(t, nss[1..][..j + 1], name, data, f) == SweepAll(t, nss[1..], name, data, f);
      assert nss[..j + 1][0] == nss[0] && nss[..j + 1][1..] == nss[1..][..j];
      assert nss[..j + 2][0] == nss[0] && nss[..j + 2][1..] == nss[1..][..j + 1];
      assert !SweepAll(s, nss[..j + 1], name, data, f).failed;
    }
  }

  /** When every listed, non-ignored namespace already holds a ConfigMap
      named `name`, the loop changes no data and creates nothing. */
  lemma {:induction false} SweepStableWhenPresent(s: Sweep, nss: seq<string>, name: string, data: Data, f: Faults)
    requires forall ns :: ns in nss && ns !in IgnoredNamespaces ==> NamespacedName(ns, name) in s.cluster
    ensures var q := SweepAll(s, nss, name, data, f);
      && q.cluster == s.cluster
      && |s.calls| <= |q.calls|
      && forall i :: |s.calls| <= i < |q.calls| ==> !q.calls[i].CreateCall?
    decreases |nss|
  {
    if nss != [] {
      var t := SweepNamespace(s, nss[0], name, data, f);
      var q := SweepAll(s, nss, name, data, f);
      SweepNamespaceFrame(s, nss[0], name, data, f);
      assert t.cluster == s.cluster;
      assert forall i :: |s.calls| <= i < |t.calls| ==> !t.calls[i].CreateCall?;
      SweepStableWhenPresent(t, nss[1..], name, data, f);
      SweepCallsTargetReplicas(t, nss[1..], name, data, f);
      forall i | |s.calls| <= i < |q.calls|
        ensures !q.calls[i].CreateCall?
      {
        if i < |t.calls| {
          assert q.calls[i] == q.calls[..|t.calls|][i];
        }
      }
    }
  }

  /** Level-triggered stability: a second loop right after one that did not
      fail changes no data and creates nothing, whatever the API server
      answers the second time. */
  lemma ReconcileTwiceIsStable(s: Sweep, nss: seq<string>, name: string, data: Data, f: Faults,
                               calls2: seq<ApiCall>, f2: Faults)
    requires !SweepAll(s, nss, name, data, f).failed
    ensures var q := SweepAll(s, nss, name, data, f);
      var q2 := SweepAll(Sweep(q.cluster, calls2, false), nss, name, data, f2);
      && q2.cluster == q.cluster
      && |calls2| <= |q2.calls| && q2.calls[..|calls2|] == calls2
      && forall i :: |calls2| <= i < |q2.calls| ==> !q2.calls[i].CreateCall?
  {
    var q := SweepAll(s, nss, name, data, f);
    SweepCoversListed(s, nss, name, data, f);
    SweepStableWhenPresent(Sweep(q.cluster, calls2, false), nss, name, data, f2);
    SweepCallsTargetReplicas(Sweep(q.cluster, calls2, false), nss, name, data, f2);
  }
}
