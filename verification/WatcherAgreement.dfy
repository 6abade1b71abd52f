/** The watcher's copy of a run and the run in the cluster: a reconcile keeps their managed annotations the same. */
module WatcherAgreement {
  import opened Prelude
  import opened Annotation
  import opened WatcherState
  import opened Watcher
  import opened WatcherLaws

  /** The run in the cluster has the copy's managed annotations, and the watcher's field manager owns no others. */
  ghost predicate InStep(s: Sys, o: Obj) {
    o.uid.key in s.cluster ==>
      && ManagedPart(o.anns) == ManagedPart(s.cluster[o.uid.key].obj.anns)
      && forall k :: k in s.cluster[o.uid.key].mine ==> Managed(k)
  }

  /** What the run called `k` has under a name, if it is in the cluster. */
  function AnnotationOf(s: Sys, k: Key, name: string): Option<string> {
    if k in s.cluster then Lookup(s.cluster[k].obj.anns, name) else None
  }

  /** In step, and with the annotation called `name` as it was at first, if the run is still there. */
  ghost predicate Steady(s0: Sys, s: Sys, o: Obj, name: string) {
    var k := o.uid.key;
    InStep(s, o) && (k in s.cluster ==> k in s0.cluster && AnnotationOf(s, k, name) == AnnotationOf(s0, k, name))
  }

  /** The names the Results API gave are not empty. */
  predicate Named(a: Answers) {
    a.recordName != "" && a.resultName != "" && (a.events.EventsStored? ==> a.events.name != "")
  }

  lemma PatchIsSteady(s0: Sys, c: Ctx, anns: seq<Ann>, w: Weather, name: string)
    requires Steady(s0, c.s, c.o, name) && !Managed(name) && ManagedAnns(anns) && NonEmpty(anns)
    ensures var c' := PatchRun(c, anns, w).0; Steady(s0, c'.s, c'.o, name)
  {
    if c.o.uid.key in c.s.cluster { PatchKeeps(View0(c.s, c.o), anns, Effective(c.s, c.o, w)); }
  }

  lemma AllManaged()
    ensures Managed(RECORD) && Managed(RESULT) && Managed(EVENT_LIST) && Managed(STORED) && Managed(CHILD_READY)
  {
  }

  lemma EventsAreSteady(s0: Sys, cfg: Config, c: Ctx, a: Answers, name: string)
    requires Steady(s0, c.s, c.o, name) && !Managed(name) && Named(a)
    ensures var c' := StoreEvents(cfg, c, a).0; Steady(s0, c'.s, c'.o, name)
  {
    AllManaged();
    if a.events.EventsStored? { PatchIsSteady(s0, c, [Ann(EVENT_LIST, a.events.name)], a.weather, name); }
  }

  lemma MarksAreSteady(s0: Sys, cfg: Config, c: Ctx, a: Answers, name: string)
    requires Steady(s0, c.s, c.o, name) && !Managed(name) && Named(a)
    ensures var c' := NameAndMark(cfg, c, a).0; Steady(s0, c'.s, c'.o, name)
  {
    AllManaged();
    var names := [Ann(RECORD, a.recordName), Ann(RESULT, a.resultName)];
    PatchIsSteady(s0, c, names, a.weather, name);
    var c' := Annotate(cfg, c, names, a.weather).0;
    PatchIsSteady(s0, c', [Ann(CHILD_READY, "true")], a.weather, name);
  }

  lemma StoreIsSteady(cfg: Config, s: Sys, o: Obj, a: Answers, name: string)
    requires InStep(s, o) && !Managed(name) && Named(a)
    ensures var c := StoreAndAnnotate(cfg, s, o, a).0; Steady(s, c.s, c.o, name)
  {
    var c := Ctx(PutRun(s, o, a.put), o);
    EventsAreSteady(s, cfg, c, a, name);
    var (c', ok) := StoreEvents(cfg, c, a);
    if ok { MarksAreSteady(s, cfg, c', a, name); }
  }

  lemma FinishIsSteady(s0: Sys, cfg: Config, logs: bool, c: Ctx, a: Answers, issued: bool, name: string)
    requires Steady(s0, c.s, c.o, name) && !Managed(name)
    ensures var r := FinishReconcile(cfg, logs, c, a, issued); Steady(s0, r.s, r.o, name)
  {
    AllManaged();
    PatchIsSteady(s0, c, [StoredAnn(c.o)], a.storedWeather, name);
  }

  lemma DeleteIsSteady(s0: Sys, cfg: Config, logs: bool, c: Ctx, a: Answers, name: string)
    requires Steady(s0, c.s, c.o, name) && !Managed(name)
    ensures var r := DeleteThenStore(cfg, logs, c, a); Steady(s0, r.s, r.o, name)
  {
    match DeleteDecision(cfg, c.s, c.o, a)
    case Keep => FinishIsSteady(s0, cfg, logs, c, a, false, name);
    case DeleteNow => FinishIsSteady(s0, cfg, logs, c.(s := DeleteKey(c.s, c.o.uid.key)), a, true, name);
    case _ =>
  }

  /**
   A reconcile whose copy has the cluster's managed annotations ends that way too, whatever fails in it; so what
   it leaves in its copy is what it leaves in the cluster. It leaves every other annotation in the cluster alone.
   */
  lemma ReconcileIsSteady(cfg: Config, s: Sys, o: Obj, a: Answers, name: string)
    requires InStep(s, o) && !Managed(name) && Named(a)
    ensures var r := ReconcileKindSpec(cfg, s, o, a); Steady(s, r.s, r.o, name)
  {
    if TakenOn(cfg, o) && a.kindInferred {
      StoreIsSteady(cfg, s, o, a, name);
      var (c, ok) := StoreAndAnnotate(cfg, s, o, a);
      if ok { DeleteIsSteady(s, cfg, cfg.logsClient && !o.Is(CustomRun), c, a, name); }
    }
  }

  /** Copy and cluster say the same under every managed name. */
  lemma InStepAt(s: Sys, o: Obj, name: string)
    requires InStep(s, o) && o.uid.key in s.cluster && Managed(name)
    ensures AnnotationOf(s, o.uid.key, name) == Lookup(o.anns, name)
  {
    var anns := s.cluster[o.uid.key].obj.anns;
    assert name in ManagedPart(anns) <==> name in ManagedPart(o.anns);
    assert name in ManagedPart(anns) ==> ManagedPart(anns)[name] == ManagedPart(o.anns)[name];
  }

  /** What a reconcile leaves under a managed name in the cluster. */
  function Left(cfg: Config, o: Obj, a: Answers, name: string): Option<string> {
    if name == STORED then LastNoted(cfg, o, name) else Noted(cfg, o, a, name)
  }

  /**
   So after a reconcile without error that started in step, the run in the cluster, if it is still there, has the
   record and result names, the event list, the child mark and `stored` wherever they are due.
   */
  lemma ClusterIsMarked(cfg: Config, s: Sys, o: Obj, a: Answers, name: string)
    requires InStep(s, o) && Named(a) && TakenOn(cfg, o) && Managed(name)
    requires ReconcileKindSpec(cfg, s, o, a).event.Nil?
    ensures var s' := ReconcileKindSpec(cfg, s, o, a).s;
      o.uid.key in s'.cluster && Left(cfg, o, a, name).Some? && Left(cfg, o, a, name).value != "" ==>
        AnnotationOf(s', o.uid.key, name) == Left(cfg, o, a, name)
  {
    var r := ReconcileKindSpec(cfg, s, o, a);
    ReconcileTouches(cfg, s, o, a);
    ReconcileIsSteady(cfg, s, o, a, "");
    ReconcileLeaves(cfg, s, o, a, name);
    if o.uid.key in r.s.cluster { InStepAt(r.s, r.o, name); }
  }
}
