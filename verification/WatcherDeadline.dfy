/** How long a finished run can be held back: the store deadline and the grace period. */
module WatcherDeadline {
  import opened Arithmetic
  import opened WatcherState
  import opened Watcher
  import opened WatcherLaws

  // ---------- the store deadline ----------

  /** The last instant at which finalize may still hold a run back. */
  function LastHold(cfg: Config, o: Obj): int
    requires cfg.storeDeadline.Some? && o.completion.Some?
  {
    var deadline := o.completion.value + cfg.storeDeadline.value;
    if !o.Is(TaskRun) || cfg.forwardBuffer.None? then deadline
    else
      var buffer := o.completion.value + cfg.forwardBuffer.value;
      if buffer > deadline then buffer else deadline
  }

  /**
   After the deadline (and, for a TaskRun, the forward buffer) every finalize call on a finished run
   releases it, whatever the Results API, the cluster or the lister answer, unless the migration of a
   merge-patched finalizer fails.
   */
  lemma ReleasedAfterDeadline(cfg: Config, s: Sys, o: Obj, a: Answers)
    requires cfg.storeDeadline.Some? && o.done && o.completion.Some?
    requires s.now > LastHold(cfg, o)
    requires o.mergeOwned ==> a.mergePatchUp
    ensures FinalizeKindSpec(cfg, s, o, a).event.Nil?
  {
    ReleasedIff(cfg, s, o, a);
  }

  /** One finalize call: when it is made and what the world answers. */
  datatype Attempt = Attempt(s: Sys, o: Obj, a: Answers)

  /** Successive finalize calls on one finished run, each of which put it back in the queue. */
  ghost predicate HeldBack(cfg: Config, calls: seq<Attempt>) {
    && (forall i :: 0 <= i < |calls| ==>
          && calls[i].o.done && calls[i].o.completion.Some? && SameCopy(calls[0].o, calls[i].o)
          && (calls[i].o.mergeOwned ==> calls[i].a.mergePatchUp)
          && FinalizeKindSpec(cfg, calls[i].s, calls[i].o, calls[i].a).event == Requeue(cfg.finalizerRequeueInterval))
    && (forall i :: 0 < i < |calls| ==> calls[i].s.now >= calls[i - 1].s.now + cfg.finalizerRequeueInterval)
  }

  lemma {:induction false} TimePasses(cfg: Config, calls: seq<Attempt>, i: nat)
    requires HeldBack(cfg, calls) && i < |calls|
    ensures calls[i].s.now >= calls[0].s.now + i * cfg.finalizerRequeueInterval
  {
    if i > 0 {
      TimePasses(cfg, calls, i - 1);
      assert i * cfg.finalizerRequeueInterval == (i - 1) * cfg.finalizerRequeueInterval + cfg.finalizerRequeueInterval;
    }
  }

  /** A finished run is held back at most span / interval + 1 times, span being the time left at the first call. */
  lemma RequeuesAreBounded(cfg: Config, calls: seq<Attempt>)
    requires cfg.storeDeadline.Some? && cfg.finalizerRequeueInterval > 0
    requires HeldBack(cfg, calls) && calls != []
    ensures calls[0].s.now <= LastHold(cfg, calls[0].o)
    ensures |calls| <= (LastHold(cfg, calls[0].o) - calls[0].s.now) / cfg.finalizerRequeueInterval + 1
  {
    var n := |calls| - 1;
    var last := calls[n];
    if last.s.now > LastHold(cfg, last.o) { ReleasedAfterDeadline(cfg, last.s, last.o, last.a); }
    if calls[0].s.now > LastHold(cfg, calls[0].o) { ReleasedAfterDeadline(cfg, calls[0].s, calls[0].o, calls[0].a); }
    TimePasses(cfg, calls, n);
    QuotientBound(n, LastHold(cfg, calls[0].o) - calls[0].s.now, cfg.finalizerRequeueInterval);
  }

  // ---------- the grace period ----------

  predicate InGrace(cfg: Config, o: Obj, now: int) {
    DeletionIsDue(cfg, o) && o.completion.Some? && now - o.completion.value < cfg.gracePeriod
  }

  /**
   A reconcile that gets as far as deletion within the grace period comes back at the first instant at which the
   grace check passes, and not before.
   */
  lemma GraceRequeueIsExact(cfg: Config, s: Sys, o: Obj, a: Answers, at: int)
    requires InGrace(cfg, o, s.now) && Reached(cfg, s, o, a)
    ensures ReconcileKindSpec(cfg, s, o, a).event.Requeue? && ReconcileKindSpec(cfg, s, o, a).event.after > 0
    ensures InGrace(cfg, o, at) <==> at < s.now + ReconcileKindSpec(cfg, s, o, a).event.after
  {
    DeleteIssuedIff(cfg, s, o, a);
    ReconcileAnswers(cfg, s, o, a);
  }
}
