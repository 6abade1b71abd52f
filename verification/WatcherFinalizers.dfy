/** What finalizers are for: over every step of the system, a run that carries one goes only when it is released. */
module WatcherFinalizers {
  import opened Prelude
  import opened WatcherState
  import opened Watcher
  import opened WatcherLaws
  import opened WatcherProtocol

  /** The run is in the cluster under its finalizer. */
  predicate Guarded(s: Sys, u: Uid) {
    u.key in s.cluster && s.cluster[u.key].obj.uid == u && s.cluster[u.key].obj.finalizer
  }

  /** The step is a finalize call on the run that released it. */
  predicate Releases(cfg: Config, s: Sys, step: Step, u: Uid) {
    && step.DoFinalize? && step.k == u.key && Finalizable(s, u.key) && s.cache[u.key].uid == u
    && FinalizeKindSpec(cfg, s, s.cache[u.key], step.a).event.Nil?
  }

  /** A guarded run stays guarded over every step, whoever takes it, that is not its own release. */
  lemma GuardedUntilReleased(cfg: Config, s: Sys, step: Step, u: Uid)
    requires Guarded(s, u) && !Releases(cfg, s, step, u)
    requires forall k :: k in s.cache ==> s.cache[k].uid.key == k
    ensures Guarded(Next(cfg, s, step), u)
  {
    if step.DoReconcile? && Reconcilable(s, step.k) {
      ReconcileTouches(cfg, s, s.cache[step.k], step.a);
      StaysGuarded(cfg, s, s.cache[step.k], step.a, u);
    } else if step.DoFinalize? && Finalizable(s, step.k) {
      StaysGuarded(cfg, s, s.cache[step.k], step.a, u);
      ReleasedIff(cfg, s, s.cache[step.k], step.a);
    }
  }

  lemma StaysGuarded(cfg: Config, s: Sys, o: Obj, a: Answers, u: Uid)
    requires Guarded(s, u)
    ensures Guarded(ReconcileKindSpec(cfg, s, o, a).s, u)
  {
    ReconcileTouches(cfg, s, o, a);
    var s' := ReconcileKindSpec(cfg, s, o, a).s;
    if u.key != o.uid.key { assert Lookup(s'.cluster, u.key) == Lookup(s.cluster, u.key); }
  }

  /** A release takes effect: the run is no longer guarded, is gone if its deletion was asked for, and stays if not. */
  lemma ReleaseTakesEffect(cfg: Config, s: Sys, step: Step, u: Uid)
    requires Guarded(s, u) && Releases(cfg, s, step, u)
    ensures var s' := Next(cfg, s, step); var r := ReconcileKindSpec(cfg, s, s.cache[u.key], step.a);
      && !Guarded(s', u)
      && (s.cluster[u.key].obj.deleting ==> u.key !in s'.cluster)
      && (!s.cluster[u.key].obj.deleting && !r.issued ==>
            u.key in s'.cluster && s'.cluster[u.key].obj.uid == u && !s'.cluster[u.key].obj.finalizer)
  {
    var o := s.cache[u.key];
    ReconcileTouches(cfg, s, o, step.a);
    ReleasedIff(cfg, s, o, step.a);
  }

  /** The run was let go by the step, in its final state on the server, or because finalizers did not hold it. */
  predicate LetGo(cfg: Config, s: Sys, step: Step, u: Uid) {
    && Releases(cfg, s, step, u)
    && var o := s.cache[u.key];
       Archived(Next(cfg, s, step), u) || (!o.Is(CustomRun) && !o.managedByAllowed) || NotHeld(cfg, o, s.now)
  }

  /**
   All along every run of the system that marks no namesake: a run that had its finalizer and has it no longer was
   released in between by a finalize call, and was then on the server in its final state, or was not held by
   finalizers.
   */
  lemma GoneOnlyWhenArchived(cfg: Config, steps: seq<Step>, i: nat, j: nat, u: Uid)
    requires NoNamesakeMarked(cfg, steps) && i <= j <= |steps|
    requires Guarded(Before(cfg, steps, i), u) && !Guarded(Before(cfg, steps, j), u)
    ensures exists m :: i <= m < j && LetGo(cfg, Before(cfg, steps, m), steps[m], u)
  {
    var m := LastGuarded(cfg, steps, i, j, u);
    LastGuard(cfg, steps, m, u);
  }

  lemma {:induction false} LastGuarded(cfg: Config, steps: seq<Step>, i: nat, j: nat, u: Uid) returns (m: nat)
    requires i <= j <= |steps|
    requires Guarded(Before(cfg, steps, i), u) && !Guarded(Before(cfg, steps, j), u)
    ensures i <= m < j && Guarded(Before(cfg, steps, m), u) && !Guarded(Before(cfg, steps, m + 1), u)
  {
    m := j - 1;
    if !Guarded(Before(cfg, steps, m), u) { m := LastGuarded(cfg, steps, i, m, u); }
  }

  /** The step after which a run is no longer guarded. */
  lemma LastGuard(cfg: Config, steps: seq<Step>, m: nat, u: Uid)
    requires NoNamesakeMarked(cfg, steps) && m < |steps|
    requires Guarded(Before(cfg, steps, m), u) && !Guarded(Before(cfg, steps, m + 1), u)
    ensures LetGo(cfg, Before(cfg, steps, m), steps[m], u)
  {
    NextOf(cfg, steps, m);
    PrefixMarksNone(cfg, steps, m);
    InvariantHolds(cfg, steps[..m]);
    LastStep(cfg, Before(cfg, steps, m), steps[m], u);
  }

  lemma LastStep(cfg: Config, s: Sys, step: Step, u: Uid)
    requires Inv(s) && Guarded(s, u) && !Guarded(Next(cfg, s, step), u)
    ensures LetGo(cfg, s, step, u)
  {
    KeysAreRight(s);
    if !Releases(cfg, s, step, u) { GuardedUntilReleased(cfg, s, step, u); }
    ReleaseIsGood(cfg, s, step, u);
  }

  lemma NextOf(cfg: Config, steps: seq<Step>, m: nat)
    requires m < |steps|
    ensures Before(cfg, steps, m + 1) == Next(cfg, Before(cfg, steps, m), steps[m])
  {
    assert steps[..m + 1][..m] == steps[..m];
  }

  lemma KeysAreRight(s: Sys)
    requires Inv(s)
    ensures forall k :: k in s.cache ==> s.cache[k].uid.key == k
  {
    forall k | k in s.cache ensures s.cache[k].uid.key == k { assert Sound(At(s, k)); }
  }

  lemma ReleaseIsGood(cfg: Config, s: Sys, step: Step, u: Uid)
    requires Inv(s) && Releases(cfg, s, step, u)
    ensures LetGo(cfg, s, step, u)
  {
    ReleasedOnlyWhenArchived(cfg, s, u.key, step.a);
  }
}
