/** The watcher's reconcile, delete and finalize steps: pkg/watcher/reconciler. */
module Watcher {
  import opened Prelude
  import opened Annotation
  import opened WatcherState

  // ---------- specification of the steps ----------

  /** The system and the in-memory copy of the run at hand. */
  datatype Ctx = Ctx(s: Sys, o: Obj)

  function View0(s: Sys, o: Obj): View {
    var k := o.uid.key;
    View(o.anns,
         if k in s.cluster then Remote(s.cluster[k].obj.anns, s.cluster[k].mine, s.cluster[k].theirs)
         else Remote(map[], {}, {}), 0)
  }

  /** A patch that finds no run fails. */
  function Effective(s: Sys, o: Obj, w: Weather): Weather {
    if o.uid.key in s.cluster then w else w.(firstUp := false)
  }

  /** A patch names the run by its key alone: it goes to whatever run is called so now. */
  function PatchRun(c: Ctx, anns: seq<Ann>, w: Weather): (Ctx, bool) {
    var (after, ok) := PatchSpec(View0(c.s, c.o), anns, Effective(c.s, c.o, w));
    var k := c.o.uid.key;
    var s' := if k in c.s.cluster
              then c.s.(cluster := c.s.cluster[k := Live(c.s.cluster[k].obj.(anns := after.remote.anns),
                                                          after.remote.mine, after.remote.theirs)])
              else c.s;
    (Ctx(s', c.o.(anns := after.local)), ok)
  }

  function PutRun(s: Sys, o: Obj, a: PutAnswer): Sys {
    if a.PutRejected? then s else s.(server := s.server[o.uid := Snapshot(o.done, o.completion)])
  }

  function Wanted(kind: RefKind): Option<Kind> {
    match kind
    case TaskRunRef => Some(TaskRun)
    case MissingRef => Some(TaskRun)
    case CustomRunRef => Some(CustomRun)
    case OtherRef => None
  }

  /** The key a reference of a known kind looks up. */
  function Target(ref: ChildRef): Key
    requires Wanted(ref.kind).Some?
  {
    Key(Wanted(ref.kind).value, ref.name)
  }

  /** A referenced child holds deletion back while the lister knows a run called so and it carries no mark. */
  predicate Blocks(cache: map<Key, Obj>, ref: ChildRef) {
    Wanted(ref.kind).Some? && Target(ref) in cache && CHILD_READY !in cache[Target(ref)].anns
  }

  datatype Check = Ready | NotReady | CheckFailed

  /** areAllChildRunsReadyForDeletion from reference `i` on: the first blocked child or failed lookup decides. */
  function CheckChildren(cache: map<Key, Obj>, o: Obj, i: nat, failsAt: nat): (c: Check)
    requires i <= |o.children|
    ensures c.Ready? ==> forall j :: i <= j < |o.children| ==> !Blocks(cache, o.children[j])
    decreases |o.children| - i
  {
    if i == |o.children| then Ready
    else if Wanted(o.children[i].kind).Some? && failsAt <= i then CheckFailed
    else if Blocks(cache, o.children[i]) then NotReady
    else CheckChildren(cache, o, i + 1, failsAt)
  }

  /** Whether deletion must wait for the parent. */
  predicate DeferredToOwner(cfg: Config, o: Obj) {
    "PipelineRun" in o.owners || (cfg.checkOwner && o.owners != [])
  }

  datatype Decision = Keep | Later(after: int) | Broken | DeleteNow

  /** What deleteUponCompletion decides. */
  function DeleteDecision(cfg: Config, s: Sys, o: Obj, a: Answers): Decision {
    if cfg.gracePeriod == 0 || !o.done || DeferredToOwner(cfg, o) then Keep
    else if o.completion.None? then Later(cfg.gracePeriod)
    else if s.now - o.completion.value < cfg.gracePeriod then Later(cfg.gracePeriod - (s.now - o.completion.value))
    else if !o.labelsMatch then Later(cfg.requeueInterval)
    else if !o.Is(PipelineRun) then DeleteNow
    else
      match CheckChildren(s.cache, o, 0, a.listerFailsAt)
      case Ready => DeleteNow
      case NotReady => Later(cfg.requeueInterval)
      case CheckFailed => Broken
  }

  /** Another run is called what this one was. */
  predicate Superseded(s: Sys, o: Obj) {
    o.uid.key in s.cluster && s.cluster[o.uid.key].obj.uid != o.uid
  }

  /** Deletion of a run with a finalizer only marks it. */
  function DeleteKey(s: Sys, k: Key): Sys {
    if k !in s.cluster then s
    else if s.cluster[k].obj.finalizer then
      s.(cluster := s.cluster[k := s.cluster[k].(obj := s.cluster[k].obj.(deleting := true))])
    else s.(cluster := s.cluster - {k})
  }

  /** The result of one reconcile: system, copy, event, and whether a Delete was issued. */
  datatype Outcome = Outcome(s: Sys, o: Obj, event: Event, issued: bool)

  function StoredAnn(o: Obj): Ann { Ann(STORED, if o.done then "true" else "false") }

  function AddStored(cfg: Config, logs: bool, c: Ctx, a: Answers): (Ctx, bool) {
    if logs || cfg.disableAnnotationUpdate then (c, true)
    else PatchRun(c, [StoredAnn(c.o)], a.storedWeather)
  }

  function FinishReconcile(cfg: Config, logs: bool, c: Ctx, a: Answers, issued: bool): Outcome {
    var (last, ok) := AddStored(cfg, logs, c, a);
    Outcome(last.s, last.o, if ok then Nil else Failed, issued)
  }

  /** The request carries the uid, so that it does not touch another run called the same. */
  function IssueDelete(cfg: Config, logs: bool, c: Ctx, a: Answers): Outcome {
    if a.delete.DeleteFailed? || Superseded(c.s, c.o) then Outcome(c.s, c.o, Failed, true)
    else FinishReconcile(cfg, logs, c.(s := DeleteKey(c.s, c.o.uid.key)), a, true)
  }

  function DeleteThenStore(cfg: Config, logs: bool, c: Ctx, a: Answers): Outcome {
    match DeleteDecision(cfg, c.s, c.o, a)
    case Keep => FinishReconcile(cfg, logs, c, a, false)
    case Later(t) => Outcome(c.s, c.o, Requeue(t), false)
    case Broken => Outcome(c.s, c.o, Failed, false)
    case DeleteNow => IssueDelete(cfg, logs, c, a)
  }

  function MarkChild(cfg: Config, c: Ctx, a: Answers): (Ctx, bool) {
    if cfg.disableAnnotationUpdate || c.o.owners == [] || !c.o.done then (c, true)
    else PatchRun(c, [Ann(CHILD_READY, "true")], a.weather)
  }

  function Annotate(cfg: Config, c: Ctx, anns: seq<Ann>, w: Weather): (Ctx, bool) {
    if cfg.disableAnnotationUpdate then (c, true) else PatchRun(c, anns, w)
  }

  function StoreEvents(cfg: Config, c: Ctx, a: Answers): (Ctx, bool) {
    if !cfg.storeEvent || !c.o.done || a.events.NoEvents? then (c, true)
    else if a.events.EventsFailed? then (c, false)
    else Annotate(cfg, c, [Ann(EVENT_LIST, a.events.name)], a.weather)
  }

  /** The names of the record and the result, then the child mark. */
  function NameAndMark(cfg: Config, c: Ctx, a: Answers): (Ctx, bool) {
    var (c', ok) := Annotate(cfg, c, [Ann(RECORD, a.recordName), Ann(RESULT, a.resultName)], a.weather);
    if !ok then (c', false) else MarkChild(cfg, c', a)
  }

  /** The annotations a stored run gets, event list first. */
  function EventsThenMarks(cfg: Config, c: Ctx, a: Answers): (Ctx, bool) {
    var (c', ok) := StoreEvents(cfg, c, a);
    if !ok then (c', false) else NameAndMark(cfg, c', a)
  }

  /** The first half of dynamic.Reconcile: store the run, then annotate it; the first failure ends it. */
  function StoreAndAnnotate(cfg: Config, s: Sys, o: Obj, a: Answers): (Ctx, bool) {
    var c := Ctx(PutRun(s, o, a.put), o);
    if !a.put.PutOk? then (c, false) else EventsThenMarks(cfg, c, a)
  }

  /** dynamic.Reconcile: store, annotate, delete, and only then mark as stored. */
  function DynReconcile(cfg: Config, logs: bool, s: Sys, o: Obj, a: Answers): Outcome {
    if !a.kindInferred then Outcome(s, o, Failed, false)
    else
      var (c, ok) := StoreAndAnnotate(cfg, s, o, a);
      if ok then DeleteThenStore(cfg, logs, c, a) else Outcome(c.s, c.o, Failed, false)
  }

  predicate Skipped(cfg: Config, o: Obj) {
    || (!o.Is(CustomRun) && !o.managedByAllowed)
    || (cfg.disableStoringIncompleteRuns && (!o.done || IsStored(o.anns)))
  }

  /** ReconcileKind of the three reconcilers; a CustomRun never has a logs client. */
  function ReconcileKindSpec(cfg: Config, s: Sys, o: Obj, a: Answers): Outcome {
    if Skipped(cfg, o) then Outcome(s, o, Nil, false)
    else DynReconcile(cfg, cfg.logsClient && !o.Is(CustomRun), s, o, a)
  }

  predicate RequiredReady(cfg: Config, anns: Annotations) {
    forall k :: k in cfg.requiredAnnotations ==>
      k in anns && (cfg.requiredAnnotations[k].exactMatch ==> anns[k] == cfg.requiredAnnotations[k].value)
  }

  /** The ways in which finalize lets a run go without looking at its annotations. */
  datatype Escape = LogsEnabled | UpdatesDisabled | NotDone | NoCompletionTime | DeadlinePassed | NotManaged

  /** The escape finalize takes, if it gets as far as one; a TaskRun first waits for the forward buffer. */
  function EscapeOf(cfg: Config, o: Obj, now: int): Option<Escape> {
    if !o.Is(CustomRun) && cfg.logsClient then Some(LogsEnabled)
    else if cfg.disableAnnotationUpdate then Some(UpdatesDisabled)
    else if !o.done then Some(NotDone)
    else if o.Is(TaskRun) && cfg.forwardBuffer.Some? && o.completion.None? then Some(NoCompletionTime)
    else if Buffering(cfg, o, now) then None
    else if cfg.storeDeadline.Some? && o.completion.None? then Some(NoCompletionTime)
    else if cfg.storeDeadline.Some? && now > o.completion.value + cfg.storeDeadline.value then Some(DeadlinePassed)
    else None
  }

  predicate Buffering(cfg: Config, o: Obj, now: int) {
    && o.Is(TaskRun) && cfg.forwardBuffer.Some? && o.completion.Some?
    && now <= o.completion.value + cfg.forwardBuffer.value
  }

  /** finalize, before the deferred migration of merge-patched finalizers. */
  function Decide(cfg: Config, o: Obj, reconcileFailed: bool, now: int): Event {
    if EscapeOf(cfg, o, now).Some? then Nil
    else if Buffering(cfg, o, now) || STORED !in o.anns || reconcileFailed || !IsStored(o.anns)
            || (!o.Is(CustomRun) && !RequiredReady(cfg, o.anns))
    then Requeue(cfg.finalizerRequeueInterval)
    else Nil
  }

  function Migrate(cfg: Config, o: Obj, e: Event, a: Answers): Event {
    if e.Nil? && o.mergeOwned && !a.mergePatchUp then Requeue(cfg.finalizerRequeueInterval) else e
  }

  function FinalizeKindSpec(cfg: Config, s: Sys, o: Obj, a: Answers): Outcome {
    if !o.Is(CustomRun) && !o.managedByAllowed then Outcome(s, o, Migrate(cfg, o, Nil, a), false)
    else
      var r := ReconcileKindSpec(cfg, s, o, a);
      r.(event := Migrate(cfg, r.o, Decide(cfg, r.o, !r.event.Nil?, s.now), a))
  }

  /** A nil event from a finalize call removes the finalizer; a run being deleted then disappears. */
  function Release(s: Sys, o: Obj): Sys {
    var k := o.uid.key;
    if k !in s.cluster || Superseded(s, o) then s
    else if s.cluster[k].obj.deleting then s.(cluster := s.cluster - {k})
    else s.(cluster := s.cluster[k := s.cluster[k].(obj := s.cluster[k].obj.(finalizer := false))])
  }

  // ---------- the code ----------

  method AreAllChildRunsReady(cache: map<Key, Obj>, o: Obj, failsAt: nat) returns (c: Check)
    ensures c == CheckChildren(cache, o, 0, failsAt)
  {
    var i := 0;
    while i < |o.children|
      invariant 0 <= i <= |o.children|
      invariant CheckChildren(cache, o, 0, failsAt) == CheckChildren(cache, o, i, failsAt)
    {
      var ref := o.children[i];
      if ref.kind != OtherRef {
        if failsAt <= i { return CheckFailed; }
        var k := Key(if ref.kind == CustomRunRef then CustomRun else TaskRun, ref.name);
        if k in cache {
          if CHILD_READY !in cache[k].anns { return NotReady; }
        }
      }
      i := i + 1;
    }
    return Ready;
  }

  class Reconciler {
    const cfg: Config
    var cluster: map<Key, Live>
    var cache: map<Key, Obj>
    var server: map<Uid, Snapshot>
    var now: int
    var issued: bool  // whether the current reconcile has issued a Delete

    constructor (cfg: Config, s: Sys)
      ensures this.cfg == cfg && State() == s && !issued
    {
      this.cfg := cfg;
      cluster, cache, server, now, issued := s.cluster, s.cache, s.server, s.now, false;
    }

    ghost function State(): Sys
      reads this
    {
      Sys(cluster, cache, server, now)
    }

    /** Patches the run called like this one and, on success, the copy. */
    method PatchAnnotations(o: Obj, anns: seq<Ann>, w: Weather) returns (o': Obj, ok: bool)
      modifies this`cluster
      ensures (Ctx(State(), o'), ok) == PatchRun(Ctx(old(State()), o), anns, w)
    {
      var k := o.uid.key;
      if k in cluster {
        var live := cluster[k];
        var run := new Run(o.anns, Remote(live.obj.anns, live.mine, live.theirs));
        ok := run.Patch(anns, w);
        cluster := cluster[k := Live(live.obj.(anns := run.remote.anns), run.remote.mine, run.remote.theirs)];
        o' := o.(anns := run.annotations);
      } else {
        var run := new Run(o.anns, Remote(map[], {}, {}));
        ok := run.Patch(anns, w.(firstUp := false));
        o' := o.(anns := run.annotations);
      }
    }

    method AddAnnotations(o: Obj, anns: seq<Ann>, w: Weather) returns (o': Obj, ok: bool)
      modifies this`cluster
      ensures (Ctx(State(), o'), ok) == Annotate(cfg, Ctx(old(State()), o), anns, w)
    {
      if cfg.disableAnnotationUpdate { return o, true; }
      o', ok := PatchAnnotations(o, anns, w);
    }

    method AddChildReadyForDeletion(o: Obj, a: Answers) returns (o': Obj, ok: bool)
      modifies this`cluster
      ensures (Ctx(State(), o'), ok) == MarkChild(cfg, Ctx(old(State()), o), a)
    {
      if cfg.disableAnnotationUpdate || |o.owners| == 0 || !o.done { return o, true; }
      o', ok := PatchAnnotations(o, [Ann(CHILD_READY, "true")], a.weather);
    }

    method AddStoredAnnotation(logs: bool, o: Obj, a: Answers) returns (o': Obj, ok: bool)
      modifies this`cluster
      ensures (Ctx(State(), o'), ok) == AddStored(cfg, logs, Ctx(old(State()), o), a)
    {
      if logs || cfg.disableAnnotationUpdate { return o, true; }
      var stored := "false";
      if o.done { stored := "true"; }
      o', ok := PatchAnnotations(o, [Ann(STORED, stored)], a.storedWeather);
    }

    method StoreEventList(o: Obj, a: Answers) returns (o': Obj, ok: bool)
      modifies this`cluster
      ensures (Ctx(State(), o'), ok) == StoreEvents(cfg, Ctx(old(State()), o), a)
    {
      if !cfg.storeEvent || !o.done || a.events.NoEvents? { return o, true; }
      if a.events.EventsFailed? { return o, false; }
      o', ok := AddAnnotations(o, [Ann(EVENT_LIST, a.events.name)], a.weather);
    }

    /** deleteUponCompletion; a nil event lets the reconcile go on. */
    method DeleteUponCompletion(o: Obj, a: Answers) returns (event: Event)
      requires !issued
      modifies this`cluster, this`issued
      ensures match DeleteDecision(cfg, old(State()), o, a)
        case Keep => event == Nil && State() == old(State()) && !issued
        case Later(t) => event == Requeue(t) && State() == old(State()) && !issued
        case Broken => event == Failed && State() == old(State()) && !issued
        case DeleteNow =>
          && issued
          && (if a.delete.DeleteFailed? || Superseded(old(State()), o) then event == Failed && State() == old(State())
              else event == Nil && State() == DeleteKey(old(State()), o.uid.key))
    {
      if cfg.gracePeriod == 0 || !o.done { return Nil; }
      if |o.owners| > 0 {
        for i := 0 to |o.owners|
          invariant forall j :: 0 <= j < i ==> o.owners[j] != "PipelineRun"
        {
          if o.owners[i] == "PipelineRun" { return Nil; }
        }
        if cfg.checkOwner { return Nil; }
      }
      if o.completion.None? { return Requeue(cfg.gracePeriod); }
      var since := now - o.completion.value;
      if since < cfg.gracePeriod { return Requeue(cfg.gracePeriod - since); }
      if !o.labelsMatch { return Requeue(cfg.requeueInterval); }
      if o.Is(PipelineRun) {
        var check := AreAllChildRunsReady(cache, o, a.listerFailsAt);
        if check.CheckFailed? { return Failed; }
        if check.NotReady? { return Requeue(cfg.requeueInterval); }
      }
      issued := true;
      if a.delete.DeleteFailed? { return Failed; }
      var k := o.uid.key;
      if k in cluster {
        if cluster[k].obj.uid != o.uid { return Failed; }
        if cluster[k].obj.finalizer {
          cluster := cluster[k := cluster[k].(obj := cluster[k].obj.(deleting := true))];
        } else {
          cluster := cluster - {k};
        }
      }
      return Nil;
    }

    /** dynamic.Reconcile. */
    method Reconcile(logs: bool, o: Obj, a: Answers) returns (o': Obj, event: Event)
      modifies this
      ensures now == old(now) && cache == old(cache)
      ensures Outcome(State(), o', event, issued) == DynReconcile(cfg, logs, old(State()), o, a)
    {
      issued := false;
      if !a.kindInferred { return o, Failed; }
      if !a.put.PutRejected? {
        server := server[o.uid := Snapshot(o.done, o.completion)];
      }
      if !a.put.PutOk? { return o, Failed; }
      var ok;
      o', ok := StoreEventList(o, a);
      if !ok { return o', Failed; }
      o', ok := AddAnnotations(o', [Ann(RECORD, a.recordName), Ann(RESULT, a.resultName)], a.weather);
      if !ok { return o', Failed; }
      o', ok := AddChildReadyForDeletion(o', a);
      if !ok { return o', Failed; }
      event := DeleteUponCompletion(o', a);
      if !event.Nil? { return; }
      o', ok := AddStoredAnnotation(logs, o', a);
      event := if ok then Nil else Failed;
    }

    method ReconcileKind(o: Obj, a: Answers) returns (o': Obj, event: Event)
      modifies this
      ensures now == old(now) && cache == old(cache)
      ensures Outcome(State(), o', event, issued) == ReconcileKindSpec(cfg, old(State()), o, a)
    {
      issued := false;
      if !o.Is(CustomRun) && !o.managedByAllowed { return o, Nil; }
      if cfg.disableStoringIncompleteRuns {
        if !o.done { return o, Nil; }
        if IsStored(o.anns) { return o, Nil; }
      }
      o', event := Reconcile(cfg.logsClient && !o.Is(CustomRun), o, a);
    }

    /** AreRequiredAnnotationsReady, in whatever order the map is walked. */
    method RequiredAnnotationsReady(anns: Annotations) returns (ready: bool)
      ensures ready == RequiredReady(cfg, anns)
    {
      var left := cfg.requiredAnnotations.Keys;
      while left != {}
        invariant left <= cfg.requiredAnnotations.Keys
        invariant forall k :: k in cfg.requiredAnnotations && k !in left ==>
          k in anns && (cfg.requiredAnnotations[k].exactMatch ==> anns[k] == cfg.requiredAnnotations[k].value)
        decreases left
      {
        var key :| key in left;
        if key !in anns { return false; }
        var req := cfg.requiredAnnotations[key];
        if req.exactMatch && anns[key] != req.value { return false; }
        left := left - {key};
      }
      return true;
    }

    /** The branch chain of the three finalize methods. */
    method Finalize(o: Obj, reconcileFailed: bool) returns (event: Event)
      ensures event == Decide(cfg, o, reconcileFailed, now)
    {
      var requeue := Requeue(cfg.finalizerRequeueInterval);
      if !o.Is(CustomRun) && cfg.logsClient { return Nil; }
      if cfg.disableAnnotationUpdate { return Nil; }
      if !o.done { return Nil; }
      if o.Is(TaskRun) && cfg.forwardBuffer.Some? {
        if o.completion.None? { return Nil; }
        if !(now > o.completion.value + cfg.forwardBuffer.value) { return requeue; }
      }
      if cfg.storeDeadline.Some? {
        if o.completion.None? { return Nil; }
        if now > o.completion.value + cfg.storeDeadline.value { return Nil; }
      }
      if STORED !in o.anns { return requeue; }
      if reconcileFailed { return requeue; }
      if o.anns[STORED] != "true" { return requeue; }
      if !o.Is(CustomRun) {
        var ready := RequiredAnnotationsReady(o.anns);
        if !ready { return requeue; }
      }
      return Nil;
    }

    method FinalizeKind(o: Obj, a: Answers) returns (o': Obj, event: Event)
      modifies this
      ensures now == old(now) && cache == old(cache)
      ensures Outcome(State(), o', event, issued) == FinalizeKindSpec(cfg, old(State()), o, a)
    {
      issued := false;
      if !o.Is(CustomRun) && !o.managedByAllowed {
        o', event := o, Nil;
      } else {
        var reconciled;
        o', reconciled := ReconcileKind(o, a);
        event := Finalize(o', !reconciled.Nil?);
      }
      // the deferred function: a released merge-patched finalizer is removed by a merge patch
      if event.Nil? && o'.mergeOwned && !a.mergePatchUp {
        event := Requeue(cfg.finalizerRequeueInterval);
      }
    }
  }
}
