/** Where the protocol is not safe: a lister that lags, and a run that takes the name of another. */
module WatcherNamesakes {
  import opened Prelude
  import opened Annotation
  import opened WatcherState
  import opened Watcher
  import opened WatcherLaws
  import opened WatcherProtocol

  const NO_ANNOTATIONS: Annotations := map[]
  const UP := Weather(true, true, true)
  const FAIR := Answers(true, PutOk, "rec", "res", NoEvents, UP, UP, 9, Deleted, true)

  // ---------- a lister that lags ----------

  const P := Key(PipelineRun, "ns/p")
  const C := Key(TaskRun, "ns/c")

  const PARENT := Obj(Uid(P, 0), [], true, true, true, Some(-10), [ChildRef(TaskRunRef, "ns/c")],
                      NO_ANNOTATIONS, true, false, false)
  const CHILD := Obj(Uid(C, 0), ["PipelineRun"], true, true, false, None, [], NO_ANNOTATIONS, true, false, false)

  const EAGER := Config(true, 5, 1, false, false, None, 1, None, false, map[], false)

  /** The lister has seen the PipelineRun and not yet its TaskRun. */
  const LAGGING := [Create(PARENT), Refresh(P), Create(CHILD)]

  lemma LaggingState()
    ensures var s := RunSteps(EAGER, LAGGING);
      && s.cache == map[P := PARENT] && s.server == map[] && s.now == 0
      && s.cluster == map[P := Live(PARENT, {}, {}), C := Live(CHILD, {}, {})]
  {
    var one, two := [Create(PARENT)], [Create(PARENT), Refresh(P)];
    assert LAGGING[..2] == two && two[..1] == one && one[..0] == [];
    var s0 := RunSteps(EAGER, []);
    assert !Marked(NO_ANNOTATIONS) && NO_ANNOTATIONS.Keys == {};
    var s1 := RunSteps(EAGER, one);
    assert s1 == Next(EAGER, s0, one[0]);
    assert s1.cluster == map[P := Live(PARENT, {}, {})];
    var s2 := RunSteps(EAGER, two);
    assert s2 == Next(EAGER, s1, two[1]);
    assert s2.cache == map[P := PARENT];
    var s3 := RunSteps(EAGER, LAGGING);
    assert s3 == Next(EAGER, s2, LAGGING[2]);
  }

  lemma LaggingMarksNone()
    ensures NoNamesakeMarked(EAGER, LAGGING)
  {
    forall i | 0 <= i < |LAGGING| ensures !MarksNamesake(EAGER, Before(EAGER, LAGGING, i), LAGGING[i]) { }
  }

  lemma UnseenChildIsReady(s: Sys)
    requires s.cache == map[P := PARENT] && s.now == 0
    ensures DeleteDecision(EAGER, s, PARENT, FAIR).DeleteNow?
  {
    assert !Blocks(s.cache, PARENT.children[0]);
    assert CheckChildren(s.cache, PARENT, 1, FAIR.listerFailsAt) == Ready;
  }

  /** With annotations and events disabled a reconcile stores the run and goes straight to deletion. */
  lemma PlainReconcile(cfg: Config, s: Sys, o: Obj, a: Answers)
    requires cfg.disableAnnotationUpdate && !cfg.storeEvent && a.kindInferred && a.put.PutOk? && !Skipped(cfg, o)
    ensures ReconcileKindSpec(cfg, s, o, a)
         == DeleteThenStore(cfg, cfg.logsClient && !o.Is(CustomRun), Ctx(PutRun(s, o, PutOk), o), a)
  {
    var c := Ctx(PutRun(s, o, PutOk), o);
    assert NameAndMark(cfg, c, a) == (c, true);
    assert StoreAndAnnotate(cfg, s, o, a) == (c, true);
  }

  /**
   The lister's NotFound is taken for "gone": in this reachable state the watcher deletes a PipelineRun whose
   TaskRun exists, is still running and is not on the server.
   */
  lemma LaggingListerDeletesTooEarly()
    ensures NoNamesakeMarked(EAGER, LAGGING)
    ensures var s := RunSteps(EAGER, LAGGING);
      && Reconcilable(s, P) && P in s.cluster && Seen(s, P)
      && s.cluster[P].obj.children == [ChildRef(TaskRunRef, "ns/c")] && ExistingChild(s, s.cluster[P].obj.children[0])
      && var r := ReconcileKindSpec(EAGER, s, s.cache[P], FAIR);
         r.issued && C in r.s.cluster && !Archived(r.s, r.s.cluster[C].obj.uid)
  {
    LaggingMarksNone();
    LaggingState();
    var s := RunSteps(EAGER, LAGGING);
    PlainReconcile(EAGER, s, PARENT, FAIR);
    EagerDeletes(PutRun(s, PARENT, PutOk));
  }

  lemma EagerDeletes(s: Sys)
    requires s.cache == map[P := PARENT] && s.now == 0 && C in s.cluster && P in s.cluster && s.cluster[P].obj.uid == PARENT.uid
    ensures var r := DeleteThenStore(EAGER, false, Ctx(s, PARENT), FAIR);
      r.issued && C in r.s.cluster && r.s.cluster[C] == s.cluster[C] && r.s.server == s.server
  {
    UnseenChildIsReady(s);
  }

  // ---------- a run that takes the name of another ----------

  /** The run in the cluster is the same but for annotations. */
  predicate Reannotated(s: Sys, s': Sys, k: Key) {
    k in s.cluster && k in s'.cluster && s'.cluster[k].obj == s.cluster[k].obj.(anns := s'.cluster[k].obj.anns)
  }

  /** The last patch of a reconcile reaches the run now called so. */
  lemma StoredLands(c: Ctx, w: Weather)
    requires c.o.uid.key in c.s.cluster && c.o.done && !IsStored(c.o.anns) && w == UP
    ensures var (c', ok) := PatchRun(c, [StoredAnn(c.o)], w); var k := c.o.uid.key;
      && ok && k in c'.s.cluster && Reannotated(c.s, c'.s, k)
      && IsStored(c'.s.cluster[k].obj.anns) && c'.s.server == c.s.server
  {
    var anns := [Ann(STORED, "true")];
    assert StoredAnn(c.o) == anns[0];
    assert Get(c.o.anns, anns[0].name) != anns[0].value;
    LastOfOne(anns[0]);
    OverwriteAt(ManagedPart(c.o.anns), anns, STORED);
  }

  lemma LastOfOne(ann: Ann)
    requires ann.value != ""
    ensures LastNonEmpty([ann], ann.name) == Some(ann.value)
  {
  }

  /** Other patches leave `stored` in the copy as it is and, in fair weather, go through. */
  lemma OtherPatchPasses(c: Ctx, anns: seq<Ann>, w: Weather)
    requires c.o.uid.key in c.s.cluster && w == UP && forall i :: 0 <= i < |anns| ==> anns[i].name != STORED
    ensures var (c', ok) := PatchRun(c, anns, w); var k := c.o.uid.key;
      && ok && k in c'.s.cluster && Reannotated(c.s, c'.s, k)
      && c'.o == c.o.(anns := c'.o.anns) && IsStored(c'.o.anns) == IsStored(c.o.anns)
      && c'.s == c.s.(cluster := c'.s.cluster)
  {
    AssignAt(c.o.anns, anns, STORED);
    LastIsThere(anns, STORED);
  }

  /** What a reconcile needs in order to mark: a done run that is not marked, annotations enabled, and no failure. */
  predicate WillMark(cfg: Config, o: Obj, a: Answers) {
    && o.done && !IsStored(o.anns) && !Skipped(cfg, o)
    && !cfg.disableAnnotationUpdate && !(cfg.logsClient && !o.Is(CustomRun)) && !cfg.storeEvent && cfg.gracePeriod == 0
    && a.kindInferred && a.put.PutOk? && a.weather == UP && a.storedWeather == UP
  }

  lemma NamesDiffer()
    ensures RECORD != STORED && RESULT != STORED && CHILD_READY != STORED
  {
    assert RECORD[19] == 'r' && RESULT[19] == 'r' && STORED[19] == 's' && CHILD_READY[19] == 'c';
  }

  lemma NameAndMarkPasses(cfg: Config, c: Ctx, a: Answers)
    requires c.o.uid.key in c.s.cluster && !cfg.disableAnnotationUpdate && a.weather == UP
    ensures var (c', ok) := NameAndMark(cfg, c, a); var k := c.o.uid.key;
      && ok && k in c'.s.cluster && Reannotated(c.s, c'.s, k)
      && c'.o == c.o.(anns := c'.o.anns) && IsStored(c'.o.anns) == IsStored(c.o.anns)
      && c'.s == c.s.(cluster := c'.s.cluster)
  {
    NamesDiffer();
    var names := [Ann(RECORD, a.recordName), Ann(RESULT, a.resultName)];
    OtherPatchPasses(c, names, a.weather);
    OtherPatchPasses(PatchRun(c, names, a.weather).0, [Ann(CHILD_READY, "true")], a.weather);
  }

  /** Such a reconcile marks the run called so, and stores the run it has a copy of. */
  lemma MarkingReconcile(cfg: Config, s: Sys, o: Obj, a: Answers)
    requires o.uid.key in s.cluster && WillMark(cfg, o, a)
    ensures var s' := ReconcileKindSpec(cfg, s, o, a).s; var k := o.uid.key;
      Reannotated(s, s', k) && IsStored(s'.cluster[k].obj.anns) && s'.server == PutRun(s, o, a.put).server
  {
    var c1 := Ctx(PutRun(s, o, a.put), o);
    assert StoreEvents(cfg, c1, a) == (c1, true);
    NameAndMarkPasses(cfg, c1, a);
    var c2 := NameAndMark(cfg, c1, a).0;
    assert StoreAndAnnotate(cfg, s, o, a) == (c2, true);
    assert DeleteDecision(cfg, c2.s, c2.o, a) == Keep;
    StoredLands(c2, a.storedWeather);
  }

  /** The run in the cluster is marked as stored and is not on the server. */
  predicate Mismarked(s: Sys, k: Key) {
    k in s.cluster && IsStored(s.cluster[k].obj.anns) && !Archived(s, s.cluster[k].obj.uid)
  }

  /** The server does not know a run that has taken the name of a cached one. */
  lemma NamesakeIsUnknown(s: Sys, s': Sys, k: Key, put: PutAnswer)
    requires Inv(s) && k in s.cache && Superseded(s, s.cache[k]) && Reannotated(s, s', k)
    requires s'.server == PutRun(s, s.cache[k], put).server
    ensures s.cache[k].uid.key == k && !Archived(s', s'.cluster[k].obj.uid)
  {
    assert Sound(At(s, k));
  }

  /**
   A patch names a run by its key, so every reconcile of a stale copy that would mark its own run marks the
   run that has taken its name, which is not on the server.
   */
  lemma StaleCopyMarksNamesake(cfg: Config, s: Sys, k: Key, a: Answers)
    requires Inv(s) && Reconcilable(s, k) && Superseded(s, s.cache[k]) && WillMark(cfg, s.cache[k], a)
    ensures var s' := ReconcileKindSpec(cfg, s, s.cache[k], a).s; Reannotated(s, s', k) && Mismarked(s', k)
  {
    var s' := ReconcileKindSpec(cfg, s, s.cache[k], a).s;
    assert Sound(At(s, k));
    MarkingReconcile(cfg, s, s.cache[k], a);
    NamesakeIsUnknown(s, s', k, a.put);
  }

  const K := Key(TaskRun, "ns/t")

  const FIRST := Obj(Uid(K, 0), [], true, true, true, Some(0), [], NO_ANNOTATIONS, false, false, false)
  const SECOND := Obj(Uid(K, 1), [], true, true, false, None, [], NO_ANNOTATIONS, true, false, false)

  /** Runs are stored once, when they are done. */
  const THRIFTY := Config(false, 0, 1, false, false, None, 1, None, true, map[], false)

  /** A done run is deleted, and another of its name is created before the informer notices. */
  const REPLACED := [Create(FIRST), Refresh(K), RequestDeletion(K), Create(SECOND)]

  lemma ReplacedState()
    ensures RunSteps(THRIFTY, REPLACED) == Sys(map[K := Live(SECOND, {}, {})], map[K := FIRST], map[], 0)
  {
    var one, two, three := REPLACED[..1], REPLACED[..2], REPLACED[..3];
    assert two[..1] == one && three[..2] == two && one[..0] == [];
    assert !Marked(NO_ANNOTATIONS) && NO_ANNOTATIONS.Keys == {};
    var s1 := RunSteps(THRIFTY, one);
    assert s1 == Next(THRIFTY, RunSteps(THRIFTY, []), one[0]);
    assert s1.cluster == map[K := Live(FIRST, {}, {})];
    var s2 := RunSteps(THRIFTY, two);
    assert s2 == Next(THRIFTY, s1, two[1]);
    assert s2.cache == map[K := FIRST];
    var s3 := RunSteps(THRIFTY, three);
    assert s3 == Next(THRIFTY, s2, three[2]);
    assert s3.cluster == map[];
    assert RunSteps(THRIFTY, REPLACED) == Next(THRIFTY, s3, REPLACED[3]);
  }

  lemma ReplacedIsSound()
    ensures Inv(RunSteps(THRIFTY, REPLACED))
  {
    forall i | 0 <= i < |REPLACED| ensures !MarksNamesake(THRIFTY, Before(THRIFTY, REPLACED, i), REPLACED[i]) { }
    InvariantHolds(THRIFTY, REPLACED);
  }

  /** A reconcile of the first run marks the second, which is running and not on the server, as stored. */
  lemma StaleReconcileMarksARunningRun()
    ensures var s := RunSteps(THRIFTY, REPLACED); var s' := Next(THRIFTY, s, DoReconcile(K, FAIR));
      && MarksNamesake(THRIFTY, s, DoReconcile(K, FAIR)) && !Inv(s')
      && Mismarked(s', K) && s'.cluster[K].obj == SECOND.(anns := s'.cluster[K].obj.anns)
  {
    ReplacedState();
    ReplacedIsSound();
    var s := RunSteps(THRIFTY, REPLACED);
    StaleCopyMarksNamesake(THRIFTY, s, K, FAIR);
    StepKeepsIff(THRIFTY, s, DoReconcile(K, FAIR));
  }

  /** A done run with an unearned mark is skipped by the reconcile and let go by finalize, through no escape. */
  lemma UnearnedMarkReleases(s: Sys, k: Key, a: Answers)
    requires Finalizable(s, k) && s.cache[k].done && IsStored(s.cache[k].anns) && s.cache[k].managedByAllowed
    requires !s.cache[k].mergeOwned && !Archived(s, s.cache[k].uid)
    ensures var r := FinalizeKindSpec(THRIFTY, s, s.cache[k], a);
      r.event.Nil? && !NotHeld(THRIFTY, r.o, s.now) && r.s == s && !Archived(r.s, r.o.uid)
  {
  }

  /** Afterwards the second run finishes, is deleted, and the informer catches up. */
  const AFTERWARDS := [Progress(K, true, Some(1), []), RequestDeletion(K), Refresh(K)]

  /** In the run that goes on so, the second run's finalizer is released and its final state is never stored. */
  lemma NamesakeIsReleasedUnarchived(a: Answers)
    ensures var s := RunSteps(THRIFTY, REPLACED + [DoReconcile(K, FAIR)] + AFTERWARDS);
      && Finalizable(s, K) && s.cache[K].uid == SECOND.uid && s.cache[K].done
      && var r := FinalizeKindSpec(THRIFTY, s, s.cache[K], a);
         r.event.Nil? && !NotHeld(THRIFTY, r.o, s.now) && !Archived(r.s, SECOND.uid)
  {
    StaleReconcileMarksARunningRun();
    var marked := REPLACED + [DoReconcile(K, FAIR)];
    assert marked[..4] == REPLACED;
    var s := RunSteps(THRIFTY, marked);
    FinishesAndGoes(marked);
    UnearnedMarkReleases(RunSteps(THRIFTY, marked + AFTERWARDS), K, a);
  }

  lemma FinishesAndGoes(steps: seq<Step>)
    requires var s := RunSteps(THRIFTY, steps);
      K in s.cluster && s.cluster[K].obj == SECOND.(anns := s.cluster[K].obj.anns)
    ensures var s, s' := RunSteps(THRIFTY, steps), RunSteps(THRIFTY, steps + AFTERWARDS);
      && s'.server == s.server && K in s'.cache
      && s'.cache[K] == s.cluster[K].obj.(done := true, completion := Some(1), children := [], deleting := true)
  {
    var x, y, z := steps + AFTERWARDS[..1], steps + AFTERWARDS[..2], steps + AFTERWARDS;
    assert x[..|steps|] == steps && y[..|steps| + 1] == x && z[..|steps| + 2] == y;
    assert RunSteps(THRIFTY, x) == Next(THRIFTY, RunSteps(THRIFTY, steps), AFTERWARDS[0]);
    assert RunSteps(THRIFTY, y) == Next(THRIFTY, RunSteps(THRIFTY, x), AFTERWARDS[1]);
    assert RunSteps(THRIFTY, z) == Next(THRIFTY, RunSteps(THRIFTY, y), AFTERWARDS[2]);
  }
}
