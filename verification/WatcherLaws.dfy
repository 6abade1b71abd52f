/**
 What a reconcile and a finalize call do, said in the fields of the run, the configuration and the answers:
 which runs are deleted, what the others are told, which annotations are left, which finalizers are released.
 */
module WatcherLaws {
  import opened Prelude
  import opened Annotation
  import opened WatcherState
  import opened Watcher

  // ---------- one patch ----------

  predicate Names(anns: seq<Ann>, k: string) { exists i :: 0 <= i < |anns| && anns[i].name == k }

  lemma {:induction false} LastIffNamed(anns: seq<Ann>, k: string)
    ensures Last(anns, k).Some? <==> Names(anns, k)
  {
    if anns != [] {
      var n := |anns| - 1;
      LastIffNamed(anns[..n], k);
      if Names(anns[..n], k) {
        var i :| 0 <= i < n && anns[..n][i].name == k;
        assert anns[i].name == k;
      }
      if i :| 0 <= i < n && anns[i].name == k { assert anns[..n][i].name == k; }
    }
  }

  lemma AssignSets(m: Annotations, anns: seq<Ann>, k: string)
    requires Consistent(anns)
    ensures forall i :: 0 <= i < |anns| ==> Lookup(Assign(m, anns), anns[i].name) == Some(anns[i].value)
    ensures !Names(anns, k) ==> Lookup(Assign(m, anns), k) == Lookup(m, k)
  {
    AssignAt(m, anns, k);
    LastIffNamed(anns, k);
    forall i | 0 <= i < |anns| ensures Lookup(Assign(m, anns), anns[i].name) == Some(anns[i].value) {
      LastOfConsistent(anns, i);
      AssignAt(m, anns, anns[i].name);
    }
  }

  lemma PatchSpecSets(v: View, anns: seq<Ann>, w: Weather, k: string)
    requires Consistent(anns)
    ensures var (after, ok) := PatchSpec(v, anns, w);
      && (ok ==> forall i :: 0 <= i < |anns| ==> Get(after.local, anns[i].name) == anns[i].value)
      && (!ok ==> after.local == v.local && after.remote == v.remote)
      && (!Names(anns, k) ==> Lookup(after.local, k) == Lookup(v.local, k))
  {
    AssignSets(v.local, anns, k);
  }

  /** Nothing has changed in the copy but annotations. */
  predicate SameCopy(o: Obj, o': Obj) { o' == o.(anns := o'.anns) }

  /** The cluster has the same runs, and the one called `k` differs in its annotations only. */
  ghost predicate SameRuns(s: Sys, s': Sys, k: Key) {
    && s' == s.(cluster := s'.cluster)
    && (forall v :: v != k ==> Lookup(s'.cluster, v) == Lookup(s.cluster, v))
    && (k in s'.cluster <==> k in s.cluster)
    && (k in s.cluster ==> SameCopy(s.cluster[k].obj, s'.cluster[k].obj))
  }

  ghost predicate OnlyAnnotates(c: Ctx, c': Ctx) { SameCopy(c.o, c'.o) && SameRuns(c.s, c'.s, c.o.uid.key) }

  lemma PatchOnlyAnnotates(c: Ctx, anns: seq<Ann>, w: Weather)
    ensures OnlyAnnotates(c, PatchRun(c, anns, w).0)
  {
  }

  lemma AnnotatesOn(c: Ctx, c': Ctx, c'': Ctx)
    requires OnlyAnnotates(c, c') && OnlyAnnotates(c', c'')
    ensures OnlyAnnotates(c, c'')
  {
  }

  /** A patch that succeeds leaves the values it names in the copy and nothing else; one that fails leaves all alone. */
  lemma PatchSets(c: Ctx, anns: seq<Ann>, w: Weather, k: string)
    requires Consistent(anns)
    ensures var (c', ok) := PatchRun(c, anns, w);
      && (ok ==> forall i :: 0 <= i < |anns| ==> Get(c'.o.anns, anns[i].name) == anns[i].value)
      && (!ok ==> c'.o == c.o)
      && (!Names(anns, k) ==> Lookup(c'.o.anns, k) == Lookup(c.o.anns, k))
  {
    PatchSpecSets(View0(c.s, c.o), anns, Effective(c.s, c.o, w), k);
  }

  // ---------- storing and annotating ----------

  lemma NamesDiffer()
    ensures RECORD != RESULT && RECORD != EVENT_LIST && RECORD != CHILD_READY && RECORD != STORED
    ensures RESULT != EVENT_LIST && RESULT != CHILD_READY && RESULT != STORED
    ensures EVENT_LIST != CHILD_READY && EVENT_LIST != STORED && CHILD_READY != STORED
  {
    assert RECORD[21] == 'c' && RESULT[21] == 's' && EVENT_LIST[21] == 'e' && CHILD_READY[21] == 'i' && STORED[21] == 'o';
  }

  /** What a reconcile writes for an annotation before it comes to deletion; none if it leaves it alone. */
  function Noted(cfg: Config, o: Obj, a: Answers, k: string): Option<string> {
    if cfg.disableAnnotationUpdate then None
    else if k == RECORD then Some(a.recordName)
    else if k == RESULT then Some(a.resultName)
    else if k == CHILD_READY && o.done && o.owners != [] then Some("true")
    else if k == EVENT_LIST && cfg.storeEvent && o.done && a.events.EventsStored? then Some(a.events.name)
    else None
  }

  /** The annotation has the value noted, or is as before. */
  predicate Has(before: Annotations, after: Annotations, k: string, noted: Option<string>) {
    if noted.Some? then Get(after, k) == noted.value else Lookup(after, k) == Lookup(before, k)
  }

  lemma EventsNoted(cfg: Config, c: Ctx, a: Answers, k: string)
    ensures var (c', ok) := StoreEvents(cfg, c, a);
      && SameCopy(c.o, c'.o)
      && (k != EVENT_LIST ==> Lookup(c'.o.anns, k) == Lookup(c.o.anns, k))
      && (ok ==> Has(c.o.anns, c'.o.anns, EVENT_LIST, Noted(cfg, c.o, a, EVENT_LIST)))
  {
    NamesDiffer();
    var anns := [Ann(EVENT_LIST, if a.events.EventsStored? then a.events.name else "")];
    PatchSets(c, anns, a.weather, k);
    assert anns[0].name == EVENT_LIST;
  }

  lemma NamesNoted(cfg: Config, c: Ctx, a: Answers, k: string)
    ensures var (c', ok) := Annotate(cfg, c, [Ann(RECORD, a.recordName), Ann(RESULT, a.resultName)], a.weather);
      && SameCopy(c.o, c'.o)
      && (k != RECORD && k != RESULT ==> Lookup(c'.o.anns, k) == Lookup(c.o.anns, k))
      && (ok && !cfg.disableAnnotationUpdate ==> Get(c'.o.anns, RECORD) == a.recordName && Get(c'.o.anns, RESULT) == a.resultName)
      && (cfg.disableAnnotationUpdate ==> c' == c)
  {
    NamesDiffer();
    var anns := [Ann(RECORD, a.recordName), Ann(RESULT, a.resultName)];
    PatchSets(c, anns, a.weather, k);
    assert anns[0] == Ann(RECORD, a.recordName) && anns[1] == Ann(RESULT, a.resultName);
  }

  lemma ChildNoted(cfg: Config, c: Ctx, a: Answers, k: string)
    ensures var (c', ok) := MarkChild(cfg, c, a);
      && SameCopy(c.o, c'.o)
      && (k != CHILD_READY ==> Lookup(c'.o.anns, k) == Lookup(c.o.anns, k))
      && (ok ==> Has(c.o.anns, c'.o.anns, CHILD_READY, Noted(cfg, c.o, a, CHILD_READY)))
  {
    NamesDiffer();
    var anns := [Ann(CHILD_READY, "true")];
    PatchSets(c, anns, a.weather, k);
    assert anns[0] == Ann(CHILD_READY, "true");
  }

  lemma MarksNoted(cfg: Config, c: Ctx, a: Answers, k: string)
    ensures var (c', ok) := NameAndMark(cfg, c, a);
      && SameCopy(c.o, c'.o)
      && (ok ==> Has(c.o.anns, c'.o.anns, k, if k == EVENT_LIST then None else Noted(cfg, c.o, a, k)))
  {
    NamesDiffer();
    NamesNoted(cfg, c, a, k);
    var (c', ok) := Annotate(cfg, c, [Ann(RECORD, a.recordName), Ann(RESULT, a.resultName)], a.weather);
    if ok { ChildNoted(cfg, c', a, k); }
  }

  lemma AllNoted(cfg: Config, c: Ctx, a: Answers, k: string)
    ensures var (c', ok) := EventsThenMarks(cfg, c, a);
      SameCopy(c.o, c'.o) && (ok ==> Has(c.o.anns, c'.o.anns, k, Noted(cfg, c.o, a, k)))
  {
    NamesDiffer();
    EventsNoted(cfg, c, a, k);
    var (c', ok) := StoreEvents(cfg, c, a);
    if ok { MarksNoted(cfg, c', a, k); }
  }

  lemma EventsOnlyAnnotate(cfg: Config, c: Ctx, a: Answers)
    ensures OnlyAnnotates(c, StoreEvents(cfg, c, a).0)
  {
    if a.events.EventsStored? { PatchOnlyAnnotates(c, [Ann(EVENT_LIST, a.events.name)], a.weather); }
  }

  lemma NameAndMarkOnlyAnnotates(cfg: Config, c: Ctx, a: Answers)
    ensures OnlyAnnotates(c, NameAndMark(cfg, c, a).0)
  {
    var names := [Ann(RECORD, a.recordName), Ann(RESULT, a.resultName)];
    PatchOnlyAnnotates(c, names, a.weather);
    var (c', ok) := Annotate(cfg, c, names, a.weather);
    PatchOnlyAnnotates(c', [Ann(CHILD_READY, "true")], a.weather);
    AnnotatesOn(c, c', MarkChild(cfg, c', a).0);
  }

  lemma StoreOnlyAnnotates(cfg: Config, s: Sys, o: Obj, a: Answers)
    ensures OnlyAnnotates(Ctx(PutRun(s, o, a.put), o), StoreAndAnnotate(cfg, s, o, a).0)
  {
    var c := Ctx(PutRun(s, o, a.put), o);
    EventsOnlyAnnotate(cfg, c, a);
    var (c', ok) := StoreEvents(cfg, c, a);
    if ok {
      NameAndMarkOnlyAnnotates(cfg, c', a);
      AnnotatesOn(c, c', NameAndMark(cfg, c', a).0);
    }
  }

  /**
   Storing and annotating, as far as it gets: the server has the run as it was seen unless the request was
   rejected; if all went well, the copy has the names, the event list and the child mark it should, and every
   other annotation is as before.
   */
  lemma StoredAndNoted(cfg: Config, s: Sys, o: Obj, a: Answers, k: string)
    ensures var (c, ok) := StoreAndAnnotate(cfg, s, o, a);
      && SameCopy(o, c.o) && c.s.cache == s.cache && c.s.now == s.now
      && c.s.server == (if a.put.PutRejected? then s.server else s.server[o.uid := Snapshot(o.done, o.completion)])
      && SameRuns(s.(server := c.s.server), c.s, o.uid.key)
      && (ok ==> a.put.PutOk? && Has(o.anns, c.o.anns, k, Noted(cfg, o, a, k)))
      && (!a.put.PutOk? ==> c.s.cluster == s.cluster && c.o == o)
  {
    StoreOnlyAnnotates(cfg, s, o, a);
    AllNoted(cfg, Ctx(PutRun(s, o, a.put), o), a, k);
  }

  /** A patch of what is there already needs no request; any other needs a run to go to and a request that gets there. */
  predicate CanNote(s: Sys, o: Obj, w: Weather, name: string, value: string) {
    w.kindKnown && (Get(o.anns, name) == value || (o.uid.key in s.cluster && w.firstUp))
  }

  lemma PatchNeeds(c: Ctx, anns: seq<Ann>, w: Weather, i: nat)
    requires PatchRun(c, anns, w).1 && i < |anns|
    ensures CanNote(c.s, c.o, w, anns[i].name, anns[i].value)
  {
    PatchSucceedsIff(View0(c.s, c.o), anns, Effective(c.s, c.o, w));
  }

  lemma MarksNeed(cfg: Config, c: Ctx, a: Answers)
    requires NameAndMark(cfg, c, a).1 && !cfg.disableAnnotationUpdate
    ensures CanNote(c.s, c.o, a.weather, RECORD, a.recordName) && CanNote(c.s, c.o, a.weather, RESULT, a.resultName)
    ensures c.o.done && c.o.owners != [] ==> CanNote(c.s, c.o, a.weather, CHILD_READY, "true")
  {
    var names := [Ann(RECORD, a.recordName), Ann(RESULT, a.resultName)];
    PatchNeeds(c, names, a.weather, 0);
    PatchNeeds(c, names, a.weather, 1);
    var c' := PatchRun(c, names, a.weather).0;
    if c.o.done && c.o.owners != [] {
      PatchOnlyAnnotates(c, names, a.weather);
      NamesNoted(cfg, c, a, CHILD_READY);
      NamesDiffer();
      PatchNeeds(c', [Ann(CHILD_READY, "true")], a.weather, 0);
    }
  }

  lemma EventsNeed(cfg: Config, c: Ctx, a: Answers)
    requires StoreEvents(cfg, c, a).1 && cfg.storeEvent && c.o.done
    ensures !a.events.EventsFailed?
    ensures a.events.EventsStored? && !cfg.disableAnnotationUpdate ==> CanNote(c.s, c.o, a.weather, EVENT_LIST, a.events.name)
  {
    if a.events.EventsStored? && !cfg.disableAnnotationUpdate {
      PatchNeeds(c, [Ann(EVENT_LIST, a.events.name)], a.weather, 0);
    }
  }

  /**
   A reconcile gets as far as deletion only if the run was stored, its events were not refused, and every annotation
   it writes was there already or could be sent: a run that is gone gets no further unless it has them all.
   */
  lemma StoringNeeds(cfg: Config, s: Sys, o: Obj, a: Answers)
    requires StoreAndAnnotate(cfg, s, o, a).1
    ensures a.put.PutOk? && (cfg.storeEvent && o.done ==> !a.events.EventsFailed?)
    ensures !cfg.disableAnnotationUpdate ==>
      forall k :: k in {RECORD, RESULT, CHILD_READY, EVENT_LIST} && Noted(cfg, o, a, k).Some? ==>
        CanNote(s, o, a.weather, k, Noted(cfg, o, a, k).value)
  {
    NamesDiffer();
    var c := Ctx(PutRun(s, o, a.put), o);
    if cfg.storeEvent && o.done { EventsNeed(cfg, c, a); }
    EventsOnlyAnnotate(cfg, c, a);
    EventsNoted(cfg, c, a, RECORD);
    EventsNoted(cfg, c, a, RESULT);
    EventsNoted(cfg, c, a, CHILD_READY);
    if !cfg.disableAnnotationUpdate { MarksNeed(cfg, StoreEvents(cfg, c, a).0, a); }
  }

  // ---------- who is looked at, and who is deleted ----------

  /** The reconciler takes the run on: someone it serves manages it, and there is something to store. */
  predicate TakenOn(cfg: Config, o: Obj) {
    && (o.Is(CustomRun) || o.managedByAllowed)
    && (cfg.disableStoringIncompleteRuns ==> o.done && Get(o.anns, STORED) != "true")
  }

  /** The reconcile gets as far as deletion. */
  predicate Reached(cfg: Config, s: Sys, o: Obj, a: Answers) {
    TakenOn(cfg, o) && a.kindInferred && StoreAndAnnotate(cfg, s, o, a).1
  }

  /** The lister knows the child a reference names, and it has no mark; references to other kinds are passed over. */
  predicate Unready(cache: map<Key, Obj>, ref: ChildRef) {
    match ref.kind
    case TaskRunRef | MissingRef => Key(TaskRun, ref.name) in cache && CHILD_READY !in cache[Key(TaskRun, ref.name)].anns
    case CustomRunRef => Key(CustomRun, ref.name) in cache && CHILD_READY !in cache[Key(CustomRun, ref.name)].anns
    case OtherRef => false
  }

  /** A child in the list before the first failing lookup holds its PipelineRun back. */
  predicate ChildHolds(s: Sys, o: Obj, a: Answers) {
    o.Is(PipelineRun) && exists i :: 0 <= i < |o.children| && i < a.listerFailsAt && Unready(s.cache, o.children[i])
  }

  predicate LookupFails(o: Obj, a: Answers) {
    o.Is(PipelineRun) && exists i :: a.listerFailsAt <= i < |o.children| && !o.children[i].kind.OtherRef?
  }

  lemma {:induction false} ChildrenDecide(cache: map<Key, Obj>, o: Obj, i: nat, failsAt: nat)
    requires i <= |o.children|
    ensures var c := CheckChildren(cache, o, i, failsAt);
      var held := exists j :: i <= j < |o.children| && j < failsAt && Unready(cache, o.children[j]);
      var fails := exists j :: i <= j < |o.children| && failsAt <= j && !o.children[j].kind.OtherRef?;
      c == if held then NotReady else if fails then CheckFailed else Ready
    decreases |o.children| - i
  {
    if i < |o.children| { ChildrenDecide(cache, o, i + 1, failsAt); }
  }

  /** Deletion is on, the run is over, and no owner sees to it. */
  predicate DeletionIsDue(cfg: Config, o: Obj) {
    && cfg.gracePeriod != 0 && o.done
    && "PipelineRun" !in o.owners && (cfg.checkOwner ==> o.owners == [])
  }

  /** The grace period is over and the labels match. */
  predicate Ripe(cfg: Config, s: Sys, o: Obj) {
    o.completion.Some? && s.now - o.completion.value >= cfg.gracePeriod && o.labelsMatch
  }

  /** What is left to do once deletion has been seen to: the `stored` annotation, where it is used at all. */
  predicate MarksStored(cfg: Config, o: Obj) {
    !cfg.disableAnnotationUpdate && (cfg.logsClient ==> o.Is(CustomRun))
  }

  lemma DecisionInFields(cfg: Config, s: Sys, o: Obj, a: Answers)
    ensures DeleteDecision(cfg, s, o, a) ==
      if !DeletionIsDue(cfg, o) then Keep
      else if o.completion.None? then Later(cfg.gracePeriod)
      else if s.now - o.completion.value < cfg.gracePeriod then Later(o.completion.value + cfg.gracePeriod - s.now)
      else if !o.labelsMatch || ChildHolds(s, o, a) then Later(cfg.requeueInterval)
      else if LookupFails(o, a) then Broken
      else DeleteNow
  {
    ChildrenDecide(s.cache, o, 0, a.listerFailsAt);
  }

  /**
   A reconcile issues a Delete if and only if it gets that far, deletion is enabled, the run is done and has no
   owner that sees to it, its completion is at least the grace period ago, its labels match the selector, and, for
   a PipelineRun, no child known to the lister lacks its mark and no lookup fails.
   */
  lemma DeleteIssuedIff(cfg: Config, s: Sys, o: Obj, a: Answers)
    ensures ReconcileKindSpec(cfg, s, o, a).issued <==>
      && Reached(cfg, s, o, a) && DeletionIsDue(cfg, o) && Ripe(cfg, s, o)
      && !ChildHolds(s, o, a) && !LookupFails(o, a)
  {
    StoredAndNoted(cfg, s, o, a, STORED);
    var c := StoreAndAnnotate(cfg, s, o, a).0;
    DecisionInFields(cfg, c.s, c.o, a);
  }

  /** What a reconcile that gets as far as deletion tells the queue. */
  lemma ReconcileAnswers(cfg: Config, s: Sys, o: Obj, a: Answers)
    requires Reached(cfg, s, o, a)
    ensures var r := ReconcileKindSpec(cfg, s, o, a);
      if !DeletionIsDue(cfg, o) || r.issued then
        && !r.event.Requeue?
        && (r.issued && (a.delete.DeleteFailed? || Superseded(s, o)) ==> r.event.Failed?)
      else if o.completion.None? then r.event == Requeue(cfg.gracePeriod)
      else if s.now - o.completion.value < cfg.gracePeriod then r.event == Requeue(o.completion.value + cfg.gracePeriod - s.now)
      else if !o.labelsMatch || ChildHolds(s, o, a) then r.event == Requeue(cfg.requeueInterval)
      else r.event.Failed?
  {
    StoredAndNoted(cfg, s, o, a, STORED);
    var c := StoreAndAnnotate(cfg, s, o, a).0;
    DecisionInFields(cfg, c.s, c.o, a);
  }

  // ---------- what is left ----------

  /** What a reconcile writes for an annotation after it has come to deletion. */
  function LastNoted(cfg: Config, o: Obj, k: string): Option<string> {
    if k == STORED && MarksStored(cfg, o) then Some(if o.done then "true" else "false") else None
  }

  lemma StoredNoted(cfg: Config, logs: bool, c: Ctx, a: Answers, k: string)
    ensures var (c', ok) := AddStored(cfg, logs, c, a);
      && (k != STORED || logs || cfg.disableAnnotationUpdate ==> Lookup(c'.o.anns, k) == Lookup(c.o.anns, k))
      && (ok && !logs && !cfg.disableAnnotationUpdate ==> Get(c'.o.anns, STORED) == (if c.o.done then "true" else "false"))
  {
    PatchSets(c, [StoredAnn(c.o)], a.storedWeather, k);
    assert [StoredAnn(c.o)][0] == StoredAnn(c.o);
  }

  /** What has become of a run called `k` after a Delete: marked if it has a finalizer, gone otherwise. */
  ghost predicate DeletedFrom(s: Sys, s': Sys, k: Key) {
    && (forall v :: v != k ==> Lookup(s'.cluster, v) == Lookup(s.cluster, v))
    && (k in s'.cluster <==> k in s.cluster && s.cluster[k].obj.finalizer)
    && (k in s'.cluster ==> SameCopy(s.cluster[k].obj.(deleting := true), s'.cluster[k].obj))
  }

  lemma DeleteKeyDeletes(s: Sys, k: Key)
    ensures DeleteKey(s, k) == s.(cluster := DeleteKey(s, k).cluster)
    ensures DeletedFrom(s, DeleteKey(s, k), k)
  {
  }

  lemma DeletedThenAnnotated(s: Sys, s0: Sys, s1: Sys, s2: Sys, k: Key)
    requires SameRuns(s, s0, k) && DeletedFrom(s0, s1, k) && SameRuns(s1, s2, k)
    ensures DeletedFrom(s, s2, k)
  {
  }

  /** The second half of a reconcile, from what the first half left. */
  ghost predicate Rest(cfg: Config, c: Ctx, a: Answers, r: Outcome, k: string) {
    && SameCopy(c.o, r.o) && r.s.server == c.s.server && r.s.cache == c.s.cache && r.s.now == c.s.now
    && (if r.issued && !a.delete.DeleteFailed? && !Superseded(c.s, c.o) then DeletedFrom(c.s, r.s, c.o.uid.key)
        else SameRuns(c.s, r.s, c.o.uid.key))
    && (r.event.Nil? ==> Has(c.o.anns, r.o.anns, k, LastNoted(cfg, c.o, k)))
  }

  lemma FinishLeaves(cfg: Config, c: Ctx, d: Ctx, a: Answers, issued: bool, k: string)
    requires d == c.(s := d.s) && c.o.uid == d.o.uid
    ensures var r := FinishReconcile(cfg, cfg.logsClient && !c.o.Is(CustomRun), d, a, issued);
      && SameCopy(c.o, r.o) && SameRuns(d.s, r.s, c.o.uid.key) && r.issued == issued
      && (r.event.Nil? ==> Has(c.o.anns, r.o.anns, k, LastNoted(cfg, c.o, k)))
  {
    StoredNoted(cfg, cfg.logsClient && !c.o.Is(CustomRun), d, a, k);
    PatchOnlyAnnotates(d, [StoredAnn(d.o)], a.storedWeather);
  }

  lemma DeleteLeaves(cfg: Config, c: Ctx, a: Answers, k: string)
    ensures Rest(cfg, c, a, IssueDelete(cfg, cfg.logsClient && !c.o.Is(CustomRun), c, a), k)
  {
    if !a.delete.DeleteFailed? && !Superseded(c.s, c.o) { DeletionLeaves(cfg, c, a, DeleteKey(c.s, c.o.uid.key), k); }
  }

  lemma DeletionLeaves(cfg: Config, c: Ctx, a: Answers, s1: Sys, k: string)
    requires !a.delete.DeleteFailed? && !Superseded(c.s, c.o) && s1 == DeleteKey(c.s, c.o.uid.key)
    ensures Rest(cfg, c, a, FinishReconcile(cfg, cfg.logsClient && !c.o.Is(CustomRun), c.(s := s1), a, true), k)
  {
    DeleteKeyDeletes(c.s, c.o.uid.key);
    FinishLeaves(cfg, c, c.(s := s1), a, true, k);
    RestOfDeletion(cfg, c, s1, a, FinishReconcile(cfg, cfg.logsClient && !c.o.Is(CustomRun), c.(s := s1), a, true), k);
  }

  lemma RestOfDeletion(cfg: Config, c: Ctx, s1: Sys, a: Answers, r: Outcome, k: string)
    requires s1 == c.s.(cluster := s1.cluster) && DeletedFrom(c.s, s1, c.o.uid.key)
    requires !a.delete.DeleteFailed? && !Superseded(c.s, c.o)
    requires SameCopy(c.o, r.o) && SameRuns(s1, r.s, c.o.uid.key) && r.issued
    requires r.event.Nil? ==> Has(c.o.anns, r.o.anns, k, LastNoted(cfg, c.o, k))
    ensures Rest(cfg, c, a, r, k)
  {
    DeletedThenAnnotated(c.s, c.s, s1, r.s, c.o.uid.key);
  }

  lemma DeleteThenStoreLeaves(cfg: Config, c: Ctx, a: Answers, k: string)
    ensures Rest(cfg, c, a, DeleteThenStore(cfg, cfg.logsClient && !c.o.Is(CustomRun), c, a), k)
  {
    match DeleteDecision(cfg, c.s, c.o, a)
    case Keep => FinishLeaves(cfg, c, c, a, false, k);
    case DeleteNow => DeleteLeaves(cfg, c, a, k);
    case _ =>
  }

  /** A reconcile changes the copy's annotations, and the cluster by annotations and a Delete that goes through. */
  lemma ReconcileTouches(cfg: Config, s: Sys, o: Obj, a: Answers)
    ensures var r := ReconcileKindSpec(cfg, s, o, a);
      && SameCopy(o, r.o) && r.s.cache == s.cache && r.s.now == s.now
      && (if r.issued && !a.delete.DeleteFailed? && !Superseded(s, o) then DeletedFrom(s, r.s, o.uid.key)
          else SameRuns(s.(server := r.s.server), r.s, o.uid.key))
  {
    if TakenOn(cfg, o) && a.kindInferred {
      StoredAndNoted(cfg, s, o, a, STORED);
      var (c, ok) := StoreAndAnnotate(cfg, s, o, a);
      if ok {
        DeleteThenStoreLeaves(cfg, c, a, STORED);
        DeletedFromStart(s, c, ReconcileKindSpec(cfg, s, o, a).s, o.uid.key);
      }
    }
  }

  lemma DeletedFromStart(s: Sys, c: Ctx, s': Sys, k: Key)
    requires SameRuns(s.(server := c.s.server), c.s, k)
    ensures DeletedFrom(c.s, s', k) ==> DeletedFrom(s, s', k)
    ensures SameRuns(c.s, s', k) ==> SameRuns(s.(server := s'.server), s', k)
  {
  }

  /**
   A reconcile that ends without error has stored the run and left exactly these annotations in its copy: the
   names, the event list, the child mark, `stored` with the truth about the run, and all others as they were.
   */
  lemma ReconcileLeaves(cfg: Config, s: Sys, o: Obj, a: Answers, k: string)
    requires ReconcileKindSpec(cfg, s, o, a).event.Nil?
    ensures var r := ReconcileKindSpec(cfg, s, o, a);
      if !TakenOn(cfg, o) then r == Outcome(s, o, Nil, false)
      else
        && r.s.server == s.server[o.uid := Snapshot(o.done, o.completion)]
        && Has(o.anns, r.o.anns, k,
               if k == STORED then LastNoted(cfg, o, k) else Noted(cfg, o, a, k))
  {
    if TakenOn(cfg, o) {
      StoredAndNoted(cfg, s, o, a, k);
      var c := StoreAndAnnotate(cfg, s, o, a).0;
      DeleteThenStoreLeaves(cfg, c, a, k);
      NotedTwice(cfg, o, c.o, ReconcileKindSpec(cfg, s, o, a).o, a, k);
    }
  }

  lemma NotedTwice(cfg: Config, o: Obj, o': Obj, o'': Obj, a: Answers, k: string)
    requires SameCopy(o, o') && Has(o.anns, o'.anns, k, Noted(cfg, o, a, k)) && Has(o'.anns, o''.anns, k, LastNoted(cfg, o', k))
    ensures Has(o.anns, o''.anns, k, if k == STORED then LastNoted(cfg, o, k) else Noted(cfg, o, a, k))
  {
    NamesDiffer();
  }

  // ---------- who is released ----------

  /** A TaskRun whose logs may still be forwarded. */
  predicate InBuffer(cfg: Config, o: Obj, now: int) {
    o.Is(TaskRun) && cfg.forwardBuffer.Some? && o.completion.Some? && now <= o.completion.value + cfg.forwardBuffer.value
  }

  /**
   Finalizers do not hold the run back: logs are stored, annotations are not updated, the run is not over, a
   completion time that is asked for is missing, or the deadline has passed.
   */
  predicate NotHeld(cfg: Config, o: Obj, now: int) {
    || (cfg.logsClient && !o.Is(CustomRun))
    || cfg.disableAnnotationUpdate
    || !o.done
    || (o.completion.None? && (cfg.storeDeadline.Some? || (o.Is(TaskRun) && cfg.forwardBuffer.Some?)))
    || (o.completion.Some? && cfg.storeDeadline.Some?
        && now > o.completion.value + cfg.storeDeadline.value && !InBuffer(cfg, o, now))
  }

  /** Every annotation the configuration asks for is there, with its value where one is asked for. */
  predicate Complete(cfg: Config, anns: Annotations) {
    && (forall k :: k in cfg.requiredAnnotations ==> k in anns)
    && (forall k :: k in cfg.requiredAnnotations && k in anns && cfg.requiredAnnotations[k].exactMatch ==>
          anns[k] == cfg.requiredAnnotations[k].value)
  }

  /**
   A finalize call releases a run if and only if the migration of its finalizer does not fail and the run is not
   managed by anyone served, is not held by finalizers, or is past its buffer, was reconciled without error, and
   has `stored` at "true" and, unless it is a CustomRun, every required annotation. Otherwise it is requeued.
   */
  lemma ReleasedIff(cfg: Config, s: Sys, o: Obj, a: Answers)
    ensures var f := FinalizeKindSpec(cfg, s, o, a);
      var r := ReconcileKindSpec(cfg, s, o, a);
      var managed := o.Is(CustomRun) || o.managedByAllowed;
      && (f.event.Nil? <==>
            && (o.mergeOwned ==> a.mergePatchUp)
            && (|| !managed || NotHeld(cfg, o, s.now)
                || (&& !InBuffer(cfg, o, s.now) && r.event.Nil?
                    && Lookup(r.o.anns, STORED) == Some("true")
                    && (o.Is(CustomRun) || Complete(cfg, r.o.anns)))))
      && (!f.event.Nil? ==> f.event == Requeue(cfg.finalizerRequeueInterval))
      && f.s == (if managed then r.s else s) && f.o == (if managed then r.o else o)
  {
    ReconcileTouches(cfg, s, o, a);
  }

  // ---------- when everything answers well ----------

  /** Every call goes through, and the cluster has this very run, held by its finalizer. */
  predicate Healthy(s: Sys, o: Obj, a: Answers) {
    var up := Weather(true, true, true);
    && a.kindInferred && a.put.PutOk? && !a.events.EventsFailed? && a.weather == up && a.storedWeather == up
    && a.delete.Deleted? && a.mergePatchUp && !LookupFails(o, a)
    && o.uid.key in s.cluster && s.cluster[o.uid.key].obj.uid == o.uid && s.cluster[o.uid.key].obj.finalizer
  }

  lemma PatchGoesThrough(c: Ctx, anns: seq<Ann>, w: Weather)
    requires c.o.uid.key in c.s.cluster && w == Weather(true, true, true)
    ensures PatchRun(c, anns, w).1 && OnlyAnnotates(c, PatchRun(c, anns, w).0)
  {
    PatchOnlyAnnotates(c, anns, w);
  }

  lemma MarksGoThrough(cfg: Config, c: Ctx, a: Answers)
    requires c.o.uid.key in c.s.cluster && a.weather == Weather(true, true, true)
    ensures NameAndMark(cfg, c, a).1
  {
    var names := [Ann(RECORD, a.recordName), Ann(RESULT, a.resultName)];
    PatchGoesThrough(c, names, a.weather);
    var c' := Annotate(cfg, c, names, a.weather).0;
    PatchGoesThrough(c', [Ann(CHILD_READY, "true")], a.weather);
  }

  lemma HealthyReaches(cfg: Config, s: Sys, o: Obj, a: Answers)
    requires Healthy(s, o, a) && TakenOn(cfg, o)
    ensures Reached(cfg, s, o, a)
  {
    var c := Ctx(PutRun(s, o, a.put), o);
    if a.events.EventsStored? { PatchGoesThrough(c, [Ann(EVENT_LIST, a.events.name)], a.weather); }
    MarksGoThrough(cfg, StoreEvents(cfg, c, a).0, a);
  }

  lemma HealthyFinish(cfg: Config, s: Sys, c: Ctx, a: Answers)
    requires Healthy(s, c.o, a) && SameRuns(s.(server := c.s.server), c.s, c.o.uid.key)
    ensures var logs := cfg.logsClient && !c.o.Is(CustomRun);
      FinishReconcile(cfg, logs, c, a, false).event.Nil? && IssueDelete(cfg, logs, c, a).event.Nil?
  {
    PatchGoesThrough(c, [StoredAnn(c.o)], a.storedWeather);
    var d := c.(s := DeleteKey(c.s, c.o.uid.key));
    PatchGoesThrough(d, [StoredAnn(d.o)], a.storedWeather);
  }

  lemma HealthyDelete(cfg: Config, s: Sys, c: Ctx, a: Answers)
    requires Healthy(s, c.o, a) && SameRuns(s.(server := c.s.server), c.s, c.o.uid.key)
    ensures DeleteThenStore(cfg, cfg.logsClient && !c.o.Is(CustomRun), c, a).event.Nil? <==>
      (DeletionIsDue(cfg, c.o) ==> Ripe(cfg, c.s, c.o) && !ChildHolds(c.s, c.o, a))
  {
    DecisionInFields(cfg, c.s, c.o, a);
    HealthyFinish(cfg, s, c, a);
  }

  lemma HealthyReconcile(cfg: Config, s: Sys, o: Obj, a: Answers)
    requires Healthy(s, o, a) && TakenOn(cfg, o)
    ensures ReconcileKindSpec(cfg, s, o, a).event.Nil? <==> (DeletionIsDue(cfg, o) ==> Ripe(cfg, s, o) && !ChildHolds(s, o, a))
  {
    HealthyReaches(cfg, s, o, a);
    StoredAndNoted(cfg, s, o, a, STORED);
    HealthyDelete(cfg, s, StoreAndAnnotate(cfg, s, o, a).0, a);
  }

  /**
   When everything answers well, one finalize call releases a finished run if and only if it is past its buffer,
   has the required annotations, and nothing holds back its deletion by the watcher: neither the grace period,
   nor labels that do not match, nor a child. So a run that a user deletes is held for as long as the watcher
   would not delete it itself.
   */
  lemma HealthyReleaseIff(cfg: Config, s: Sys, o: Obj, a: Answers)
    requires Healthy(s, o, a) && (o.Is(CustomRun) || o.managedByAllowed) && !NotHeld(cfg, o, s.now)
    ensures var f := FinalizeKindSpec(cfg, s, o, a);
      f.event.Nil? <==>
        && !InBuffer(cfg, o, s.now)
        && (TakenOn(cfg, o) && DeletionIsDue(cfg, o) ==> Ripe(cfg, s, o) && !ChildHolds(s, o, a))
        && (o.Is(CustomRun) || Complete(cfg, f.o.anns))
  {
    ReleasedIff(cfg, s, o, a);
    if TakenOn(cfg, o) { HealthyReconcile(cfg, s, o, a); }
    if ReconcileKindSpec(cfg, s, o, a).event.Nil? { ReconcileLeaves(cfg, s, o, a, STORED); }
  }
}
