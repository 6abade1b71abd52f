/**
 The state the watcher works on: runs in the cluster, the informer's cache of them, the records the
 Results server holds, and the clock.
 */
module WatcherState {
  import opened Prelude
  import opened Annotation

  datatype Kind = TaskRun | PipelineRun | CustomRun

  /** What a run is called: its kind, and its name with its namespace. At any time at most one run is called so. */
  datatype Key = Key(kind: Kind, name: string)

  /** A uid belongs to one run for good; it is written as the run's key and which of the runs called so it is. */
  datatype Uid = Uid(key: Key, serial: nat)

  /** A child reference of a PipelineRun; a missing kind counts as TaskRun. */
  datatype RefKind = TaskRunRef | MissingRef | CustomRunRef | OtherRef
  datatype ChildRef = ChildRef(kind: RefKind, name: string)

  /**
   A run: what it is (`uid`, `owners`, `managedByAllowed`, `labelsMatch`), how far it got, and its
   metadata. `mergeOwned` says that the watcher's finalizer was added by a merge patch.
   */
  datatype Obj = Obj(uid: Uid, owners: seq<string>, managedByAllowed: bool, labelsMatch: bool,
                     done: bool, completion: Option<int>, children: seq<ChildRef>,
                     anns: Annotations, finalizer: bool, deleting: bool, mergeOwned: bool)
  {
    predicate Is(kind: Kind) { uid.key.kind == kind }
  }

  /** A run in the cluster, with the owners of its annotations. */
  datatype Live = Live(obj: Obj, mine: set<string>, theirs: set<string>)

  /** What the Results server last stored about a run. */
  datatype Snapshot = Snapshot(done: bool, completion: Option<int>)

  /** The API server and the informer's cache are addressed by key, the Results server by uid. */
  datatype Sys = Sys(cluster: map<Key, Live>, cache: map<Key, Obj>, server: map<Uid, Snapshot>, now: int)

  datatype Requirement = Requirement(exactMatch: bool, value: string)

  datatype Config = Config(
    disableAnnotationUpdate: bool,
    gracePeriod: int,                  // 0 disables deletion
    requeueInterval: int,
    checkOwner: bool,
    storeEvent: bool,
    storeDeadline: Option<int>,
    finalizerRequeueInterval: int,
    forwardBuffer: Option<int>,
    disableStoringIncompleteRuns: bool,
    requiredAnnotations: map<string, Requirement>,
    logsClient: bool)                  // log storage is enabled

  /** What a reconcile or finalize call returns to the queue. */
  datatype Event = Nil | Requeue(after: int) | Failed

  // ---------- what the outside world answers ----------

  /** A failed Put may still have reached the server. */
  datatype PutAnswer = PutOk | PutLost | PutRejected

  datatype EventsAnswer = NoEvents | EventsFailed | EventsStored(name: string)

  datatype DeleteAnswer = Deleted | DeleteFailed

  datatype Answers = Answers(
    kindInferred: bool,
    put: PutAnswer, recordName: string, resultName: string,
    events: EventsAnswer,
    weather: Weather,                  // for the annotation patches
    storedWeather: Weather,            // for the last one
    listerFailsAt: nat,                // the child reference whose lookup fails, if there are that many
    delete: DeleteAnswer,
    mergePatchUp: bool)

  // ---------- marks and archives ----------

  predicate IsStored(anns: Annotations) { Get(anns, STORED) == "true" }

  /** The annotations that let a run go: `stored` is true, or the child mark is present. */
  predicate Marked(anns: Annotations) { IsStored(anns) || CHILD_READY in anns }

  /** The server holds the run in its final state. */
  predicate Archived(s: Sys, u: Uid) { u in s.server && s.server[u].done }
}
