/** Safety of the archive / finalize / delete protocol over every run of the system. */
module WatcherProtocol {
  import opened Prelude
  import opened Annotation
  import opened WatcherState
  import opened Watcher
  import opened WatcherLaws

  // ---------- the system as a state machine ----------

  /**
   Everything that can happen. Watcher steps work on the cached copy of a run, which may be missing, lag
   behind the cluster by any number of steps, or be of a run that is gone; `Refresh` is the informer catching
   up. Runs are created without the watcher's marks and other parties never write them; a finished run's
   status no longer changes.
   */
  datatype Step =
    | Create(obj: Obj)
    | Progress(k: Key, done: bool, completion: Option<int>, children: seq<ChildRef>)
    | Tick(elapsed: nat)
    | Refresh(k: Key)
    | RequestDeletion(k: Key)
    | WriteForeign(k: Key, name: string, value: string)
    | RemoveAnnotation(k: Key, name: string)
    | DoReconcile(k: Key, a: Answers)
    | DoFinalize(k: Key, a: Answers)

  predicate Reconcilable(s: Sys, k: Key) { k in s.cache && !s.cache[k].deleting }
  predicate Finalizable(s: Sys, k: Key) { k in s.cache && s.cache[k].deleting && s.cache[k].finalizer }

  function WithObj(s: Sys, k: Key, obj: Obj): Sys
    requires k in s.cluster
  {
    s.(cluster := s.cluster[k := s.cluster[k].(obj := obj)])
  }

  /** A uid that no part of the system has seen. */
  predicate FreshUid(s: Sys, u: Uid) {
    u !in s.server && (u.key in s.cache ==> s.cache[u.key].uid != u)
  }

  function Next(cfg: Config, s: Sys, step: Step): Sys {
    match step
    case Create(obj) =>
      var k := obj.uid.key;
      if k in s.cluster || !FreshUid(s, obj.uid) || Marked(obj.anns) then s
      else s.(cluster := s.cluster[k := Live(obj, {}, obj.anns.Keys)])
    case Progress(k, done, completion, children) =>
      if k !in s.cluster || s.cluster[k].obj.done then s
      else WithObj(s, k, s.cluster[k].obj.(done := done, completion := completion, children := children))
    case Tick(elapsed) => s.(now := s.now + elapsed)
    case Refresh(k) =>
      if k in s.cluster then s.(cache := s.cache[k := s.cluster[k].obj]) else s.(cache := s.cache - {k})
    case RequestDeletion(k) => DeleteKey(s, k)
    case WriteForeign(k, name, value) =>
      if k !in s.cluster || name == STORED || name == CHILD_READY then s
      else
        var l := s.cluster[k];
        s.(cluster := s.cluster[k := Live(l.obj.(anns := l.obj.anns[name := value]), l.mine - {name}, l.theirs + {name})])
    case RemoveAnnotation(k, name) =>
      if k !in s.cluster then s else WithObj(s, k, s.cluster[k].obj.(anns := s.cluster[k].obj.anns - {name}))
    case DoReconcile(k, a) =>
      if Reconcilable(s, k) then ReconcileKindSpec(cfg, s, s.cache[k], a).s else s
    case DoFinalize(k, a) =>
      if !Finalizable(s, k) then s
      else
        var r := FinalizeKindSpec(cfg, s, s.cache[k], a);
        if r.event.Nil? then Release(r.s, s.cache[k]) else r.s
  }

  function RunSteps(cfg: Config, steps: seq<Step>): Sys {
    if steps == [] then Sys(map[], map[], map[], 0)
    else Next(cfg, RunSteps(cfg, steps[..|steps| - 1]), steps[|steps| - 1])
  }

  // ---------- the invariant ----------

  /** What the cluster and the cache have under one key, and what the server has of these two runs. */
  datatype Slice = Slice(key: Key, live: Option<Live>, cached: Option<Obj>, liveSnap: Option<Snapshot>, cachedSnap: Option<Snapshot>)

  function At(s: Sys, k: Key): Slice {
    Slice(k, Lookup(s.cluster, k), Lookup(s.cache, k),
          if k in s.cluster then Lookup(s.server, s.cluster[k].obj.uid) else None,
          if k in s.cache then Lookup(s.server, s.cache[k].uid) else None)
  }

  predicate Final(snap: Option<Snapshot>) { snap.Some? && snap.value.done }

  /** The cached copy is of the run in the cluster. */
  predicate SameRun(x: Slice) { x.live.Some? && x.cached.Some? && x.live.value.obj.uid == x.cached.value.uid }

  /** The cluster has another run than the cached one under the key. */
  predicate Replaced(x: Slice) { x.live.Some? && x.cached.Some? && x.live.value.obj.uid != x.cached.value.uid }

  /** A mark in the cluster is only on a run the server holds in its final state. */
  predicate LiveMarksEarned(x: Slice) { x.live.Some? && Marked(x.live.value.obj.anns) ==> Final(x.liveSnap) }

  /** Everything else: what the cache holds is a state its run really had, and the server knows only runs the cache has had. */
  predicate Tracked(x: Slice) {
    && (x.live.Some? ==> x.live.value.obj.uid.key == x.key)
    && (x.cached.Some? ==> x.cached.value.uid.key == x.key)
    && (x.cached.Some? && Marked(x.cached.value.anns) ==> Final(x.cachedSnap))
    && (SameRun(x) && x.cached.value.done ==>
          && x.live.value.obj.done
          && x.live.value.obj.children == x.cached.value.children
          && x.live.value.obj.completion == x.cached.value.completion)
    && (x.cached.Some? && Final(x.cachedSnap) ==> x.cached.value.done)
    && (x.live.Some? && x.liveSnap.Some? ==> SameRun(x))
  }

  predicate Sound(x: Slice) { Tracked(x) && LiveMarksEarned(x) }

  ghost predicate Inv(s: Sys) { forall k :: Sound(At(s, k)) }

  /** The invariant, but for marks on a run that has replaced the one at hand. */
  predicate NearlySound(x: Slice) { Tracked(x) && (!Replaced(x) ==> LiveMarksEarned(x)) }

  ghost predicate InvBut(s: Sys, k: Key) {
    NearlySound(At(s, k)) && forall v :: v != k ==> Sound(At(s, v))
  }

  /** A step touches one key, and the uids of runs called so. */
  ghost predicate Elsewhere(s: Sys, s': Sys, k: Key) {
    && (forall v :: v != k ==> Lookup(s'.cluster, v) == Lookup(s.cluster, v) && Lookup(s'.cache, v) == Lookup(s.cache, v))
    && (forall u: Uid :: u.key != k ==> Lookup(s'.server, u) == Lookup(s.server, u))
  }

  lemma OthersStay(s: Sys, s': Sys, k: Key)
    requires Elsewhere(s, s', k) && forall v :: v != k ==> Sound(At(s, v))
    ensures forall v :: v != k ==> Sound(At(s', v))
  {
    forall v | v != k ensures Sound(At(s', v)) {
      assert Sound(At(s, v));
      assert Lookup(s'.cluster, v) == Lookup(s.cluster, v) && Lookup(s'.cache, v) == Lookup(s.cache, v);
      if v in s.cluster { assert Lookup(s'.server, s.cluster[v].obj.uid) == Lookup(s.server, s.cluster[v].obj.uid); }
      if v in s.cache { assert Lookup(s'.server, s.cache[v].uid) == Lookup(s.server, s.cache[v].uid); }
      assert At(s', v) == At(s, v);
    }
  }

  lemma OneKeyChanges(s: Sys, s': Sys, k: Key)
    requires InvBut(s, k) && Elsewhere(s, s', k) && NearlySound(At(s', k))
    ensures InvBut(s', k)
  {
    OthersStay(s, s', k);
  }

  lemma WholeIff(s: Sys, k: Key)
    requires InvBut(s, k)
    ensures Inv(s) <==> LiveMarksEarned(At(s, k))
  {
    if LiveMarksEarned(At(s, k)) {
      forall v ensures Sound(At(s, v)) { if v != k { assert Sound(At(s, v)); } }
    } else {
      assert !Sound(At(s, k));
    }
  }

  lemma WholeIsBut(s: Sys, k: Key)
    requires Inv(s)
    ensures InvBut(s, k)
  {
    assert Sound(At(s, k));
  }

  // ---------- one patch ----------

  predicate SetsMark(anns: seq<Ann>) {
    exists i :: 0 <= i < |anns| && (anns[i].name == CHILD_READY || (anns[i].name == STORED && anns[i].value == "true"))
  }

  lemma {:induction false} LastIsThere(anns: seq<Ann>, k: string)
    ensures Last(anns, k).Some? ==> exists i :: 0 <= i < |anns| && anns[i] == Ann(k, Last(anns, k).value)
    ensures LastNonEmpty(anns, k).Some? ==> exists i :: 0 <= i < |anns| && anns[i] == Ann(k, LastNonEmpty(anns, k).value)
  {
    if anns != [] { LastIsThere(anns[..|anns| - 1], k); }
  }

  /** A patch brings no mark that was not in the copy, in the cluster, or in the patch itself. */
  lemma PatchMarks(v: View, anns: seq<Ann>, w: Weather)
    ensures var (after, _) := PatchSpec(v, anns, w);
      && (Marked(after.local) ==> Marked(v.local) || SetsMark(anns))
      && (Marked(after.remote.anns) ==> Marked(v.local) || Marked(v.remote.anns) || SetsMark(anns))
  {
    var (after, ok) := PatchSpec(v, anns, w);
    if ok && !IsPatchedSpec(v.local, anns) {
      forall k | k == STORED || k == CHILD_READY
        ensures k in after.local ==> (k in v.local && after.local[k] == v.local[k]) || Ann(k, after.local[k]) in anns
        ensures k in after.remote.anns ==>
          || (k in v.local && after.remote.anns[k] == v.local[k])
          || (k in v.remote.anns && after.remote.anns[k] == v.remote.anns[k])
          || Ann(k, after.remote.anns[k]) in anns
      {
        AssignAt(v.local, anns, k);
        OverwriteAt(ManagedPart(v.local), anns, k);
        LastIsThere(anns, k);
      }
    }
  }

  /** Of a run's copy: it is the cached run but for annotations, and its marks are earned. */
  predicate CopyOf(s: Sys, k: Key, o: Obj) {
    && k in s.cache && s.cache[k].uid.key == k
    && o == s.cache[k].(anns := o.anns)
    && (Marked(o.anns) ==> Archived(s, o.uid))
  }

  lemma PatchRunKeeps(c: Ctx, k: Key, anns: seq<Ann>, w: Weather)
    requires InvBut(c.s, k) && CopyOf(c.s, k, c.o)
    requires SetsMark(anns) ==> Archived(c.s, c.o.uid)
    ensures var (c', _) := PatchRun(c, anns, w);
      && InvBut(c'.s, k) && CopyOf(c'.s, k, c'.o) && c'.s == c.s.(cluster := c'.s.cluster) && UidStays(c.s, c'.s, k)
  {
    PatchMarks(View0(c.s, c.o), anns, Effective(c.s, c.o, w));
    var s' := PatchRun(c, anns, w).0.s;
    assert Elsewhere(c.s, s', k);
    PatchKeepsSlice(c, k, anns, w);
    OneKeyChanges(c.s, s', k);
  }

  lemma PatchKeepsSlice(c: Ctx, k: Key, anns: seq<Ann>, w: Weather)
    requires NearlySound(At(c.s, k)) && CopyOf(c.s, k, c.o)
    requires SetsMark(anns) ==> Archived(c.s, c.o.uid)
    ensures NearlySound(At(PatchRun(c, anns, w).0.s, k))
  {
    PatchMarks(View0(c.s, c.o), anns, Effective(c.s, c.o, w));
  }

  lemma MarkNames()
    ensures forall r: string, t: string :: !SetsMark([Ann(RECORD, r), Ann(RESULT, t)])
    ensures forall n: string :: !SetsMark([Ann(EVENT_LIST, n)])
    ensures !SetsMark([Ann(STORED, "false")])
  {
    assert RECORD[19] == 'r' && RESULT[19] == 'r' && STORED[19] == 's' && EVENT_LIST[19] == 'e' && CHILD_READY[19] == 'c';
    assert "false"[0] != "true"[0];
  }

  /** No run takes another's place. */
  predicate UidStays(s: Sys, s': Sys, k: Key) {
    k in s'.cluster ==> k in s.cluster && s'.cluster[k].obj.uid == s.cluster[k].obj.uid
  }

  /** What was archived stays archived. */
  ghost predicate Grows(s: Sys, s': Sys) { forall u :: Archived(s, u) ==> Archived(s', u) }

  lemma PutKeeps(s: Sys, k: Key, a: PutAnswer)
    requires InvBut(s, k) && k in s.cache
    ensures var s' := PutRun(s, s.cache[k], a);
      && InvBut(s', k) && CopyOf(s', k, s.cache[k]) && (a.PutOk? && s.cache[k].done ==> Archived(s', s.cache[k].uid))
      && Grows(s, s')
  {
    var s' := PutRun(s, s.cache[k], a);
    assert Elsewhere(s, s', k);
    OneKeyChanges(s, s', k);
  }

  // ---------- one reconcile ----------

  /** What holds when a reconcile is over. */
  ghost predicate GoodOutcome(s: Sys, k: Key, r: Outcome) {
    && InvBut(r.s, k) && CopyOf(r.s, k, r.o)
    && r.s.now == s.now && r.s.cache == s.cache
    && (r.issued ==> Archived(r.s, r.o.uid))
    && Grows(s, r.s) && UidStays(s, r.s, k)
  }

  lemma DeleteKeyKeeps(s: Sys, k: Key)
    requires InvBut(s, k)
    ensures InvBut(DeleteKey(s, k), k)
  {
    assert Elsewhere(s, DeleteKey(s, k), k);
    OneKeyChanges(s, DeleteKey(s, k), k);
  }

  lemma ReleaseKeeps(s: Sys, k: Key, o: Obj)
    requires InvBut(s, k) && o.uid.key == k
    ensures InvBut(Release(s, o), k)
  {
    assert Elsewhere(s, Release(s, o), k);
    OneKeyChanges(s, Release(s, o), k);
  }

  lemma FinishKeeps(cfg: Config, logs: bool, c: Ctx, k: Key, a: Answers, issued: bool)
    requires InvBut(c.s, k) && CopyOf(c.s, k, c.o) && (c.o.done ==> Archived(c.s, c.o.uid)) && (issued ==> c.o.done)
    ensures GoodOutcome(c.s, k, FinishReconcile(cfg, logs, c, a, issued))
  {
    if !logs && !cfg.disableAnnotationUpdate {
      MarkNames();
      PatchRunKeeps(c, k, [StoredAnn(c.o)], a.storedWeather);
    }
  }

  lemma DeleteThenStoreKeeps(cfg: Config, logs: bool, c: Ctx, k: Key, a: Answers)
    requires InvBut(c.s, k) && CopyOf(c.s, k, c.o) && (c.o.done ==> Archived(c.s, c.o.uid))
    ensures GoodOutcome(c.s, k, DeleteThenStore(cfg, logs, c, a))
  {
    match DeleteDecision(cfg, c.s, c.o, a)
    case Keep => FinishKeeps(cfg, logs, c, k, a, false);
    case Later(_) =>
    case Broken =>
    case DeleteNow => if !a.delete.DeleteFailed? && !Superseded(c.s, c.o) { DeletedThenStoredKeeps(cfg, logs, c, k, a); }
  }

  lemma DeletedThenStoredKeeps(cfg: Config, logs: bool, c: Ctx, k: Key, a: Answers)
    requires InvBut(c.s, k) && CopyOf(c.s, k, c.o) && c.o.done && Archived(c.s, c.o.uid)
    ensures GoodOutcome(c.s, k, FinishReconcile(cfg, logs, c.(s := DeleteKey(c.s, k)), a, true))
  {
    DeleteKeyKeeps(c.s, k);
    FinishKeeps(cfg, logs, c.(s := DeleteKey(c.s, k)), k, a, true);
  }

  ghost predicate GoodCtx(c: Ctx, k: Key, c': Ctx) {
    InvBut(c'.s, k) && CopyOf(c'.s, k, c'.o) && c'.s == c.s.(cluster := c'.s.cluster) && UidStays(c.s, c'.s, k)
  }

  lemma AnnotateKeeps(cfg: Config, c: Ctx, k: Key, anns: seq<Ann>, w: Weather)
    requires InvBut(c.s, k) && CopyOf(c.s, k, c.o) && !SetsMark(anns)
    ensures GoodCtx(c, k, Annotate(cfg, c, anns, w).0)
  {
    if !cfg.disableAnnotationUpdate { PatchRunKeeps(c, k, anns, w); }
  }

  lemma EventsKeep(cfg: Config, c: Ctx, k: Key, a: Answers)
    requires InvBut(c.s, k) && CopyOf(c.s, k, c.o)
    ensures GoodCtx(c, k, StoreEvents(cfg, c, a).0)
  {
    if a.events.EventsStored? {
      MarkNames();
      AnnotateKeeps(cfg, c, k, [Ann(EVENT_LIST, a.events.name)], a.weather);
    }
  }

  lemma MarkChildKeeps(cfg: Config, c: Ctx, k: Key, a: Answers)
    requires InvBut(c.s, k) && CopyOf(c.s, k, c.o) && (c.o.done ==> Archived(c.s, c.o.uid))
    ensures GoodCtx(c, k, MarkChild(cfg, c, a).0)
  {
    if !cfg.disableAnnotationUpdate && c.o.done {
      PatchRunKeeps(c, k, [Ann(CHILD_READY, "true")], a.weather);
    }
  }

  lemma NameAndMarkKeeps(cfg: Config, c: Ctx, k: Key, a: Answers)
    requires InvBut(c.s, k) && CopyOf(c.s, k, c.o) && (c.o.done ==> Archived(c.s, c.o.uid))
    ensures GoodCtx(c, k, NameAndMark(cfg, c, a).0)
  {
    MarkNames();
    var names := [Ann(RECORD, a.recordName), Ann(RESULT, a.resultName)];
    AnnotateKeeps(cfg, c, k, names, a.weather);
    var (c', ok) := Annotate(cfg, c, names, a.weather);
    if ok { MarkChildKeeps(cfg, c', k, a); }
  }

  lemma AnnotatedKeeps(cfg: Config, c: Ctx, k: Key, a: Answers)
    requires InvBut(c.s, k) && CopyOf(c.s, k, c.o) && (c.o.done ==> Archived(c.s, c.o.uid))
    ensures GoodCtx(c, k, EventsThenMarks(cfg, c, a).0)
  {
    EventsKeep(cfg, c, k, a);
    var (c', ok) := StoreEvents(cfg, c, a);
    if ok { NameAndMarkKeeps(cfg, c', k, a); }
  }

  lemma StoreAndAnnotateKeeps(cfg: Config, s: Sys, k: Key, a: Answers)
    requires InvBut(s, k) && k in s.cache
    ensures var (c, ok) := StoreAndAnnotate(cfg, s, s.cache[k], a);
      && InvBut(c.s, k) && CopyOf(c.s, k, c.o) && c.s.cache == s.cache && c.s.now == s.now
      && (ok && c.o.done ==> Archived(c.s, c.o.uid))
      && Grows(s, c.s) && UidStays(s, c.s, k)
  {
    PutKeeps(s, k, a.put);
    if a.put.PutOk? { AnnotatedKeeps(cfg, Ctx(PutRun(s, s.cache[k], a.put), s.cache[k]), k, a); }
  }

  lemma ReconcileKindKeeps(cfg: Config, s: Sys, k: Key, a: Answers)
    requires InvBut(s, k) && k in s.cache
    ensures GoodOutcome(s, k, ReconcileKindSpec(cfg, s, s.cache[k], a))
  {
    var o := s.cache[k];
    if !Skipped(cfg, o) && a.kindInferred {
      StoreAndAnnotateKeeps(cfg, s, k, a);
      var (c, ok) := StoreAndAnnotate(cfg, s, o, a);
      if ok { DeleteThenStoreKeeps(cfg, cfg.logsClient && !o.Is(CustomRun), c, k, a); }
    }
  }

  lemma FinalizeKindKeeps(cfg: Config, s: Sys, k: Key, a: Answers)
    requires InvBut(s, k) && k in s.cache
    ensures GoodOutcome(s, k, FinalizeKindSpec(cfg, s, s.cache[k], a))
  {
    ReconcileKindKeeps(cfg, s, k, a);
  }

  // ---------- every step ----------

  predicate OfEnvironment(step: Step, k: Key) {
    && !step.DoReconcile? && !step.DoFinalize? && !step.Tick?
    && k == if step.Create? then step.obj.uid.key else step.k
  }

  lemma EnvironmentStaysAt(cfg: Config, s: Sys, step: Step, k: Key)
    requires OfEnvironment(step, k)
    ensures Elsewhere(s, Next(cfg, s, step), k) && Next(cfg, s, step).server == s.server
  {
  }

  lemma CreateKeepsSlice(cfg: Config, s: Sys, obj: Obj)
    requires Sound(At(s, obj.uid.key))
    ensures Sound(At(Next(cfg, s, Create(obj)), obj.uid.key))
  {
  }

  lemma RefreshKeepsSlice(cfg: Config, s: Sys, k: Key)
    requires Sound(At(s, k))
    ensures Sound(At(Next(cfg, s, Refresh(k)), k))
  {
  }

  lemma WriteKeepsSlice(cfg: Config, s: Sys, step: Step, k: Key)
    requires OfEnvironment(step, k) && Sound(At(s, k)) && !step.Create? && !step.Refresh?
    ensures Sound(At(Next(cfg, s, step), k))
  {
  }

  lemma EnvironmentKeepsSlice(cfg: Config, s: Sys, step: Step, k: Key)
    requires OfEnvironment(step, k) && Sound(At(s, k))
    ensures Sound(At(Next(cfg, s, step), k))
  {
    match step
    case Create(obj) => CreateKeepsSlice(cfg, s, obj);
    case Refresh(_) => RefreshKeepsSlice(cfg, s, k);
    case _ => WriteKeepsSlice(cfg, s, step, k);
  }

  lemma EnvironmentKeeps(cfg: Config, s: Sys, step: Step, k: Key)
    requires OfEnvironment(step, k) && Inv(s)
    ensures Inv(Next(cfg, s, step)) && Grows(s, Next(cfg, s, step))
  {
    var s' := Next(cfg, s, step);
    assert Sound(At(s, k));
    EnvironmentStaysAt(cfg, s, step, k);
    OthersStay(s, s', k);
    EnvironmentKeepsSlice(cfg, s, step, k);
    forall v ensures Sound(At(s', v)) { if v != k { assert Sound(At(s', v)); } }
  }

  /** The watcher works on this key. */
  predicate Works(s: Sys, step: Step) {
    (step.DoReconcile? && Reconcilable(s, step.k)) || (step.DoFinalize? && Finalizable(s, step.k))
  }

  /** The step works on the copy of a run that is gone, and leaves a mark on the run now called so. */
  predicate MarksNamesake(cfg: Config, s: Sys, step: Step) {
    && Works(s, step) && Superseded(s, s.cache[step.k])
    && var s' := Next(cfg, s, step); step.k in s'.cluster && Marked(s'.cluster[step.k].obj.anns)
  }

  lemma WatcherKeeps(cfg: Config, s: Sys, step: Step)
    requires Inv(s) && Works(s, step)
    ensures InvBut(Next(cfg, s, step), step.k) && Grows(s, Next(cfg, s, step))
    ensures Next(cfg, s, step).cache == s.cache && UidStays(s, Next(cfg, s, step), step.k)
  {
    var k := step.k;
    WholeIsBut(s, k);
    if step.DoReconcile? {
      ReconcileKindKeeps(cfg, s, k, step.a);
    } else {
      FinalizeKindKeeps(cfg, s, k, step.a);
      ReleaseKeeps(FinalizeKindSpec(cfg, s, s.cache[k], step.a).s, k, s.cache[k]);
    }
  }

  /**
   Every step of the environment keeps the invariant. A step of the watcher keeps it if and only if it does
   not, working on the copy of a run that is gone, leave a mark on another run called the same.
   */
  lemma StepKeepsIff(cfg: Config, s: Sys, step: Step)
    requires Inv(s)
    ensures Inv(Next(cfg, s, step)) <==> !MarksNamesake(cfg, s, step)
    ensures Grows(s, Next(cfg, s, step))
  {
    if Works(s, step) {
      var s' := Next(cfg, s, step);
      WatcherKeeps(cfg, s, step);
      WholeIff(s', step.k);
      assert Sound(At(s, step.k));
    } else if !step.Tick? && !step.DoReconcile? && !step.DoFinalize? {
      EnvironmentKeeps(cfg, s, step, if step.Create? then step.obj.uid.key else step.k);
    } else if step.Tick? {
      forall v ensures Sound(At(Next(cfg, s, step), v)) {
        assert Sound(At(s, v));
        assert At(Next(cfg, s, step), v) == At(s, v);
      }
    }
  }

  // ---------- every run ----------

  /** The state before step `i`. */
  function Before(cfg: Config, steps: seq<Step>, i: nat): Sys
    requires i <= |steps|
  {
    RunSteps(cfg, steps[..i])
  }

  /** No step of the run marks a namesake. */
  predicate NoNamesakeMarked(cfg: Config, steps: seq<Step>) {
    forall i :: 0 <= i < |steps| ==> !MarksNamesake(cfg, Before(cfg, steps, i), steps[i])
  }

  lemma PrefixMarksNone(cfg: Config, steps: seq<Step>, n: nat)
    requires NoNamesakeMarked(cfg, steps) && n <= |steps|
    ensures NoNamesakeMarked(cfg, steps[..n])
  {
    forall i | 0 <= i < n ensures !MarksNamesake(cfg, Before(cfg, steps[..n], i), steps[..n][i]) {
      assert steps[..n][..i] == steps[..i];
      assert !MarksNamesake(cfg, Before(cfg, steps, i), steps[i]);
    }
  }

  /** After a run that marks no namesake, `stored` and the child mark are only on runs the server has in their final state. */
  lemma {:induction false} InvariantHolds(cfg: Config, steps: seq<Step>)
    requires NoNamesakeMarked(cfg, steps)
    ensures Inv(RunSteps(cfg, steps))
  {
    if steps != [] {
      var n := |steps| - 1;
      PrefixMarksNone(cfg, steps, n);
      InvariantHolds(cfg, steps[..n]);
      assert !MarksNamesake(cfg, Before(cfg, steps, n), steps[n]);
      StepKeepsIff(cfg, RunSteps(cfg, steps[..n]), steps[n]);
    }
  }

  /** Marks are earned all along a run if and only if no step of it marks a namesake. */
  lemma {:induction false} InvariantHoldsIff(cfg: Config, steps: seq<Step>)
    ensures (forall n :: 0 <= n <= |steps| ==> Inv(Before(cfg, steps, n))) <==> NoNamesakeMarked(cfg, steps)
  {
    if NoNamesakeMarked(cfg, steps) {
      forall n | 0 <= n <= |steps| ensures Inv(Before(cfg, steps, n)) {
        PrefixMarksNone(cfg, steps, n);
        InvariantHolds(cfg, steps[..n]);
      }
    }
    if forall n :: 0 <= n <= |steps| ==> Inv(Before(cfg, steps, n)) {
      forall i | 0 <= i < |steps| ensures !MarksNamesake(cfg, Before(cfg, steps, i), steps[i]) {
        assert Inv(Before(cfg, steps, i)) && Inv(Before(cfg, steps, i + 1));
        assert steps[..i + 1][..i] == steps[..i];
        StepKeepsIff(cfg, Before(cfg, steps, i), steps[i]);
      }
    }
  }

  /** The watcher never works on the copy of a run whose key another run has taken. */
  predicate NeverSuperseded(cfg: Config, steps: seq<Step>) {
    forall i :: 0 <= i < |steps| && Works(Before(cfg, steps, i), steps[i]) ==>
      !Superseded(Before(cfg, steps, i), Before(cfg, steps, i).cache[steps[i].k])
  }

  /** Such runs mark no namesake, whatever else happens in them. */
  lemma NeverSupersededMarksNone(cfg: Config, steps: seq<Step>)
    requires NeverSuperseded(cfg, steps)
    ensures NoNamesakeMarked(cfg, steps)
  {
  }

  // What follows holds in every state of the invariant, hence all along every run that marks no namesake.

  /** A finalizer is released only for an archived run, unless nobody served manages the run or finalizers do not hold it. */
  lemma ReleasedOnlyWhenArchived(cfg: Config, s: Sys, k: Key, a: Answers)
    requires Inv(s) && Finalizable(s, k)
    ensures var r := FinalizeKindSpec(cfg, s, s.cache[k], a); var o := s.cache[k];
      r.event.Nil? ==> Archived(r.s, o.uid) || (!o.Is(CustomRun) && !o.managedByAllowed) || NotHeld(cfg, o, s.now)
  {
    WholeIsBut(s, k);
    FinalizeKindKeeps(cfg, s, k, a);
    ReleasedIff(cfg, s, s.cache[k], a);
  }

  /** A run in the cluster that a reference names. */
  predicate ExistingChild(s: Sys, ref: ChildRef) { Wanted(ref.kind).Some? && Target(ref) in s.cluster }

  /** The lister has seen that very run. */
  predicate Seen(s: Sys, k: Key)
    requires k in s.cluster
  {
    k in s.cache && s.cache[k].uid == s.cluster[k].obj.uid
  }

  /**
   Whenever the watcher issues a Delete, the run's own final state is on the server; and when it does so for a
   PipelineRun in the cluster, a child that it references and that exists is on the server in its final state
   if and only if the lister has seen it.
   */
  lemma DeletesOnlyArchivedIff(cfg: Config, s: Sys, k: Key, a: Answers)
    requires Inv(s) && k in s.cache
    ensures var r := ReconcileKindSpec(cfg, s, s.cache[k], a);
      r.issued ==>
        && Archived(r.s, s.cache[k].uid)
        && (k.kind.PipelineRun? && k in s.cluster && Seen(s, k) ==>
              forall i :: 0 <= i < |s.cluster[k].obj.children| && ExistingChild(s, s.cluster[k].obj.children[i]) ==>
                var v := Target(s.cluster[k].obj.children[i]);
                Archived(s, s.cluster[v].obj.uid) <==> Seen(s, v))
  {
    WholeIsBut(s, k);
    ReconcileKindKeeps(cfg, s, k, a);
    if ReconcileKindSpec(cfg, s, s.cache[k], a).issued && k.kind.PipelineRun? && k in s.cluster && Seen(s, k) {
      assert Sound(At(s, k));
      IssuedMeansReady(cfg, s, k, a);
      forall i | 0 <= i < |s.cluster[k].obj.children| && ExistingChild(s, s.cluster[k].obj.children[i])
        ensures var v := Target(s.cluster[k].obj.children[i]);
          Archived(s, s.cluster[v].obj.uid) <==> Seen(s, v)
      {
        assert !Blocks(s.cache, s.cache[k].children[i]);
        assert Sound(At(s, Target(s.cluster[k].obj.children[i])));
      }
    }
  }

  /** A Delete has been preceded by a check of all children of a PipelineRun, and the run was done. */
  lemma IssuedMeansReady(cfg: Config, s: Sys, k: Key, a: Answers)
    requires InvBut(s, k) && k in s.cache && k.kind.PipelineRun?
    requires ReconcileKindSpec(cfg, s, s.cache[k], a).issued
    ensures s.cache[k].done
    ensures forall i :: 0 <= i < |s.cache[k].children| ==> !Blocks(s.cache, s.cache[k].children[i])
  {
    StoreAndAnnotateKeeps(cfg, s, k, a);
    var (c, ok) := StoreAndAnnotate(cfg, s, s.cache[k], a);
    assert DeleteDecision(cfg, c.s, c.o, a).DeleteNow?;
  }
}
