/** Values the ConfigMap replication controller reads and writes: ConfigMaps,
    the calls it makes to the API server and to its work queue, the failures
    the API server may report, and the whole observable state of one run. */
module ClusterTypes {

  datatype Option<T> = None | Some(value: T)

  /** The data of a ConfigMap: keys are unique, values are opaque strings. */
  type Data = map<string, string>

  /** Identifies one ConfigMap: the namespace it lives in and its name. */
  datatype NamespacedName = NamespacedName(namespace: string, name: string)

  /** The object the controller writes (only metadata name/namespace and data). */
  datatype ConfigMap = ConfigMap(namespace: string, name: string, data: Data)

  /** A call to the API server, in the order the controller issues them. */
  datatype ApiCall =
    | ListCall                                   // list all namespaces
    | GetCall(namespace: string, name: string)   // live read of one ConfigMap
    | CreateCall(cm: ConfigMap)
    | UpdateCall(cm: ConfigMap)

  /** A call to the work queue. Only successful `Get`s are logged: a `Get`
      that reports shutdown hands out no item. */
  datatype QueueEvent = Add(key: string) | Get(key: string) | Done(key: string) | Forget(key: string)

  /** Which API server calls fail during a pass. A namespace in `getFails`
      answers the live read with an error other than "not found"; one in
      `createFails` rejects the create (a conflict, say); one in
      `updateFails` rejects the update. */
  datatype Faults = Faults(
    listFails: bool,
    getFails: set<string>,
    createFails: set<string>,
    updateFails: set<string>)

  /** Everything a reconciliation pass can observe or change. */
  datatype World = World(
    cluster: map<NamespacedName, Data>,  // ConfigMaps stored by the API server
    namespaces: seq<string>,             // namespaces the API server lists, in order
    cache: map<NamespacedName, Data>,    // the informer's local mirror, read by the lister
    pending: seq<string>,                // keys the work queue will hand out, in order
    shuttingDown: bool,                  // the work queue has been shut down
    queueLog: seq<QueueEvent>,           // calls made on the work queue so far
    apiLog: seq<ApiCall>)                // calls made on the API server so far
}
