/** Patching annotations with Server-Side Apply: pkg/watcher/reconciler/annotation. */
module Annotation {
  import opened Prelude

  const PREFIX := "results.tekton.dev/"
  const RESULT := "results.tekton.dev/result"
  const RECORD := "results.tekton.dev/record"
  const EVENT_LIST := "results.tekton.dev/eventlist"
  const STORED := "results.tekton.dev/stored"
  const CHILD_READY := "results.tekton.dev/childReadyForDeletion"

  datatype Ann = Ann(name: string, value: string)

  type Annotations = map<string, string>

  predicate Managed(key: string) { PREFIX <= key }

  /** The annotations whose names carry the watcher's prefix. */
  function ManagedPart(m: Annotations): Annotations {
    map k | k in m && Managed(k) :: m[k]
  }

  /** Reading a Go map: the empty string for a missing key. */
  function Get(m: Annotations, key: string): string {
    if key in m then m[key] else ""
  }

  // ---------- the cluster ----------

  /**
   The object's annotations in the cluster, with the keys this field manager owns and the keys some
   other manager owns.
   */
  datatype Remote = Remote(anns: Annotations, mine: set<string>, theirs: set<string>)

  /** Applying a different value to a key another manager owns is a conflict. */
  predicate Conflicts(r: Remote, patch: Annotations) {
    exists k :: k in patch && k in r.anns && k in r.theirs && r.anns[k] != patch[k]
  }

  /**
   Server-Side Apply: keys in the patch are set and owned; keys owned before and not applied again
   are dropped unless another manager owns them too; a forced value takes the key over.
   */
  function Applied(r: Remote, patch: Annotations): Remote {
    Remote((r.anns - (r.mine - r.theirs - patch.Keys)) + patch,
           patch.Keys,
           set k | k in r.theirs && (k in patch && k in r.anns ==> r.anns[k] == patch[k]))
  }

  // ---------- what one Patch does ----------

  /** Assignments in order, empty values included: what happens to the in-memory copy. */
  function Assign(m: Annotations, anns: seq<Ann>): Annotations {
    if anns == [] then m
    else
      var last := anns[|anns| - 1];
      Assign(m, anns[..|anns| - 1])[last.name := last.value]
  }

  /** Assignments in order, empty values skipped: what goes into the patch. */
  function Overwrite(m: Annotations, anns: seq<Ann>): Annotations {
    if anns == [] then m
    else
      var last := anns[|anns| - 1];
      var before := Overwrite(m, anns[..|anns| - 1]);
      if |last.value| != 0 then before[last.name := last.value] else before
  }

  predicate IsPatchedSpec(m: Annotations, anns: seq<Ann>) {
    forall i :: 0 <= i < |anns| ==> Get(m, anns[i].name) == anns[i].value
  }

  /** Whether the object's kind is known, and whether each of at most two API calls goes through. */
  datatype Weather = Weather(kindKnown: bool, firstUp: bool, secondUp: bool)

  datatype View = View(local: Annotations, remote: Remote, calls: nat)

  /** The views before and after one Patch, and whether it reports success. */
  function PatchSpec(v: View, anns: seq<Ann>, w: Weather): (View, bool) {
    if !w.kindKnown then (v, false)
    else if IsPatchedSpec(v.local, anns) then (v, true)
    else
      var patch := Overwrite(ManagedPart(v.local), anns);
      var conflict := Conflicts(v.remote, patch);
      var calls := v.calls + (if w.firstUp && conflict then 2 else 1);
      if w.firstUp && (!conflict || w.secondUp)
      then (View(Assign(v.local, anns), Applied(v.remote, patch), calls), true)
      else (v.(calls := calls), false)
  }

  // ---------- the code ----------

  method IsPatched(m: Annotations, anns: seq<Ann>) returns (b: bool)
    ensures b == IsPatchedSpec(m, anns)
  {
    for i := 0 to |anns|
      invariant forall j :: 0 <= j < i ==> Get(m, anns[j].name) == anns[j].value
    {
      if Get(m, anns[i].name) != anns[i].value { return false; }
    }
    return true;
  }

  /** Copies the managed annotations, in whatever order the map is walked. */
  method CopyManaged(current: Annotations) returns (data: Annotations)
    ensures data == ManagedPart(current)
  {
    data := map[];
    var left := current.Keys;
    while left != {}
      invariant left <= current.Keys
      invariant data == map k | k in current && k !in left && Managed(k) :: current[k]
      decreases left
    {
      var key :| key in left;
      if Managed(key) {
        data := data[key := current[key]];
      }
      left := left - {key};
    }
  }

  /** Existing managed annotations, overwritten by the new ones that are not empty. */
  method BuildPatch(current: Annotations, anns: seq<Ann>) returns (data: Annotations)
    ensures data == Overwrite(ManagedPart(current), anns)
  {
    data := CopyManaged(current);
    for i := 0 to |anns|
      invariant data == Overwrite(ManagedPart(current), anns[..i])
    {
      assert anns[..i + 1][..i] == anns[..i];
      if |anns[i].value| != 0 {
        data := data[anns[i].name := anns[i].value];
      }
    }
    assert anns[..|anns|] == anns;
  }

  method AssignAll(m: Annotations, anns: seq<Ann>) returns (current: Annotations)
    ensures current == Assign(m, anns)
  {
    current := m;
    for i := 0 to |anns|
      invariant current == Assign(m, anns[..i])
    {
      assert anns[..i + 1][..i] == anns[..i];
      current := current[anns[i].name := anns[i].value];
    }
    assert anns[..|anns|] == anns;
  }

  class Run {
    var annotations: Annotations  // the in-memory copy
    var remote: Remote            // the object in the cluster
    var calls: nat                // API calls made so far

    constructor (annotations: Annotations, remote: Remote)
      ensures this.annotations == annotations && this.remote == remote && calls == 0
    {
      this.annotations, this.remote, this.calls := annotations, remote, 0;
    }

    ghost function Now(): View
      reads this
    {
      View(annotations, remote, calls)
    }

    /** One Apply request; `up` says whether it reaches the API server. */
    method Apply(patch: Annotations, force: bool, up: bool) returns (ok: bool, conflict: bool)
      modifies this
      ensures annotations == old(annotations) && calls == old(calls) + 1
      ensures conflict == (up && !force && Conflicts(old(remote), patch))
      ensures ok == (up && !conflict)
      ensures remote == if ok then Applied(old(remote), patch) else old(remote)
    {
      calls := calls + 1;
      conflict := up && !force && exists k :: k in patch && k in remote.anns && k in remote.theirs && remote.anns[k] != patch[k];
      ok := up && !conflict;
      if ok { remote := Applied(remote, patch); }
    }

    method Patch(anns: seq<Ann>, w: Weather) returns (ok: bool)
      modifies this
      ensures (Now(), ok) == PatchSpec(old(Now()), anns, w)
    {
      if !w.kindKnown { return false; }
      var patched := IsPatched(annotations, anns);
      if patched { return true; }

      var data := BuildPatch(annotations, anns);
      var conflict;
      ok, conflict := Apply(data, false, w.firstUp);
      if conflict {
        ok, conflict := Apply(data, true, w.secondUp);
      }
      if ok {
        annotations := AssignAll(annotations, anns);
      }
    }
  }

  // ---------- what any sequence of patches keeps ----------

  /** The copy and the cluster hold the same managed annotations. */
  ghost predicate Agree(v: View) {
    ManagedPart(v.local) == ManagedPart(v.remote.anns)
  }

  predicate ManagedAnns(anns: seq<Ann>) { forall i :: 0 <= i < |anns| ==> Managed(anns[i].name) }
  predicate NonEmpty(anns: seq<Ann>) { forall i :: 0 <= i < |anns| ==> anns[i].value != "" }

  /** The value the last assignment to a name gives it. */
  function Last(anns: seq<Ann>, name: string): Option<string> {
    if anns == [] then None
    else if anns[|anns| - 1].name == name then Some(anns[|anns| - 1].value)
    else Last(anns[..|anns| - 1], name)
  }

  /** The value the last non-empty assignment to a name gives it. */
  function LastNonEmpty(anns: seq<Ann>, name: string): Option<string> {
    if anns == [] then None
    else if anns[|anns| - 1].name == name && anns[|anns| - 1].value != "" then Some(anns[|anns| - 1].value)
    else LastNonEmpty(anns[..|anns| - 1], name)
  }

  lemma {:induction false} AssignAt(m: Annotations, anns: seq<Ann>, k: string)
    ensures k in Assign(m, anns) <==> k in m || Last(anns, k).Some?
    ensures Last(anns, k).Some? ==> Assign(m, anns)[k] == Last(anns, k).value
    ensures Last(anns, k).None? && k in m ==> Assign(m, anns)[k] == m[k]
  {
    if anns != [] { AssignAt(m, anns[..|anns| - 1], k); }
  }

  lemma {:induction false} OverwriteAt(m: Annotations, anns: seq<Ann>, k: string)
    ensures k in Overwrite(m, anns) <==> k in m || LastNonEmpty(anns, k).Some?
    ensures LastNonEmpty(anns, k).Some? ==> Overwrite(m, anns)[k] == LastNonEmpty(anns, k).value
    ensures LastNonEmpty(anns, k).None? && k in m ==> Overwrite(m, anns)[k] == m[k]
  {
    if anns != [] { OverwriteAt(m, anns[..|anns| - 1], k); }
  }

  lemma {:induction false} LastOfManaged(anns: seq<Ann>, k: string)
    requires ManagedAnns(anns) && (Last(anns, k).Some? || LastNonEmpty(anns, k).Some?)
    ensures Managed(k)
  {
    if anns[|anns| - 1].name != k || anns[|anns| - 1].value == "" {
      if !Managed(k) { LastOfManaged(anns[..|anns| - 1], k); }
    }
  }

  lemma {:induction false} LastOfNonEmpty(anns: seq<Ann>, k: string)
    requires NonEmpty(anns)
    ensures Last(anns, k) == LastNonEmpty(anns, k)
  {
    if anns != [] { LastOfNonEmpty(anns[..|anns| - 1], k); }
  }

  /** An empty value is written locally and not sent: harmless only where an empty value already was. */
  predicate Harmless(local: Annotations, anns: seq<Ann>, k: string) {
    Last(anns, k) == Some("") ==> LastNonEmpty(anns, k).None? && k in local && local[k] == ""
  }

  lemma LocalManaged(v: View, anns: seq<Ann>, k: string)
    requires ManagedAnns(anns)
    ensures k in ManagedPart(Assign(v.local, anns)) <==> Managed(k) && (k in v.local || Last(anns, k).Some?)
    ensures k in Overwrite(ManagedPart(v.local), anns)
            <==> Managed(k) && (k in v.local || LastNonEmpty(anns, k).Some?)
  {
    AssignAt(v.local, anns, k);
    OverwriteAt(ManagedPart(v.local), anns, k);
    if Last(anns, k).Some? || LastNonEmpty(anns, k).Some? { LastOfManaged(anns, k); }
  }

  /** After a successful request the cluster holds, of the managed keys, what was sent and nothing else. */
  lemma RemoteManaged(v: View, anns: seq<Ann>)
    requires Agree(v) && ManagedAnns(anns)
    ensures var patch := Overwrite(ManagedPart(v.local), anns);
      ManagedPart(Applied(v.remote, patch).anns) == patch
  {
    var patch := Overwrite(ManagedPart(v.local), anns);
    forall k ensures k in patch ==> Managed(k)
             ensures Managed(k) && k in v.remote.anns ==> k in patch {
      LocalManaged(v, anns, k);
      assert k in ManagedPart(v.local) <==> k in ManagedPart(v.remote.anns);
    }
  }

  /** Whether the two views still agree after a successful request, for any values, empty ones included. */
  lemma AgreementIff(v: View, anns: seq<Ann>, w: Weather)
    requires Agree(v) && ManagedAnns(anns)
    requires w.kindKnown && w.firstUp && w.secondUp && !IsPatchedSpec(v.local, anns)
    ensures Agree(PatchSpec(v, anns, w).0) <==> forall k :: Harmless(v.local, anns, k)
  {
    RemoteManaged(v, anns);
    var patch := Overwrite(ManagedPart(v.local), anns);
    var mine := ManagedPart(Assign(v.local, anns));
    forall k ensures ((k in mine <==> k in patch) && (k in mine ==> mine[k] == patch[k])) <==> Harmless(v.local, anns, k) {
      LocalManaged(v, anns, k);
      AssignAt(v.local, anns, k);
      OverwriteAt(ManagedPart(v.local), anns, k);
      LastRelation(anns, k);
      if Last(anns, k).Some? { LastOfManaged(anns, k); }
    }
    if forall k :: Harmless(v.local, anns, k) {
      assert mine == patch;
    } else {
      var k :| !Harmless(v.local, anns, k);
      assert mine != patch;
    }
  }

  lemma {:induction false} LastRelation(anns: seq<Ann>, k: string)
    ensures LastNonEmpty(anns, k).Some? ==> Last(anns, k).Some? && LastNonEmpty(anns, k).value != ""
    ensures Last(anns, k).Some? && Last(anns, k).value != "" ==> LastNonEmpty(anns, k) == Last(anns, k)
  {
    if anns != [] { LastRelation(anns[..|anns| - 1], k); }
  }

  /** Everything a sequence of patches keeps, besides agreement. */
  ghost predicate Kept(before: View, after: View) {
    && (forall k :: Managed(k) && k in before.remote.anns ==> k in after.remote.anns)
    && (forall k :: !Managed(k) ==>
          (k in after.remote.anns <==> k in before.remote.anns)
          && (k in before.remote.anns ==> after.remote.anns[k] == before.remote.anns[k]))
    && (forall k :: k in after.remote.mine ==> Managed(k))
  }

  lemma PatchKeeps(v: View, anns: seq<Ann>, w: Weather)
    requires Agree(v) && ManagedAnns(anns) && NonEmpty(anns)
    requires forall k :: k in v.remote.mine ==> Managed(k)
    ensures var (after, _) := PatchSpec(v, anns, w); Agree(after) && Kept(v, after)
  {
    var (after, ok) := PatchSpec(v, anns, w);
    if ok && !IsPatchedSpec(v.local, anns) {
      forall k ensures Harmless(v.local, anns, k) {
        LastOfNonEmpty(anns, k);
        LastRelation(anns, k);
      }
      AgreementIff(v, anns, Weather(true, true, true));
      RemoteManaged(v, anns);
      var patch := Overwrite(ManagedPart(v.local), anns);
      assert forall k :: k in patch ==> Managed(k) by {
        forall k ensures k in patch ==> Managed(k) { LocalManaged(v, anns, k); }
      }
      forall k | Managed(k) && k in v.remote.anns ensures k in after.remote.anns {
        assert k in ManagedPart(v.remote.anns);
        LocalManaged(v, anns, k);
      }
    }
  }

  datatype Call = Call(anns: seq<Ann>, weather: Weather)

  /** The view after a sequence of Patch calls, some of which may fail. */
  function AfterCalls(v: View, calls: seq<Call>): View {
    if calls == [] then v
    else
      var last := calls[|calls| - 1];
      PatchSpec(AfterCalls(v, calls[..|calls| - 1]), last.anns, last.weather).0
  }

  /**
   Starting from a copy that agrees with the cluster, any sequence of patches with non-empty values
   keeps the two in agreement, loses no managed key and leaves all other annotations alone.
   */
  lemma {:induction false} PatchesKeep(v: View, calls: seq<Call>)
    requires Agree(v) && forall k :: k in v.remote.mine ==> Managed(k)
    requires forall i :: 0 <= i < |calls| ==> ManagedAnns(calls[i].anns) && NonEmpty(calls[i].anns)
    ensures Agree(AfterCalls(v, calls)) && Kept(v, AfterCalls(v, calls))
  {
    if calls != [] {
      var last := calls[|calls| - 1];
      PatchesKeep(v, calls[..|calls| - 1]);
      PatchKeeps(AfterCalls(v, calls[..|calls| - 1]), last.anns, last.weather);
    }
  }

  /** Another manager owns the key, with another value than the one sent for it. */
  predicate Foreign(v: View, anns: seq<Ann>, k: string) {
    && k in v.remote.anns && k in v.remote.theirs
    && (match LastNonEmpty(anns, k)
        case Some(value) => v.remote.anns[k] != value
        case None => Managed(k) && k in v.local && v.remote.anns[k] != v.local[k])
  }

  /**
   A Patch succeeds if and only if the kind is known and there is nothing to do, or the request goes through, the
   second, forced one too if another manager owns some key with another value. It makes no more requests than that.
   */
  lemma PatchSucceedsIff(v: View, anns: seq<Ann>, w: Weather)
    ensures var (after, ok) := PatchSpec(v, anns, w);
      var needless := forall i :: 0 <= i < |anns| ==> Get(v.local, anns[i].name) == anns[i].value;
      var contested := exists k :: Foreign(v, anns, k);
      && (ok <==> w.kindKnown && (needless || (w.firstUp && (contested ==> w.secondUp))))
      && after.calls == v.calls + (if !w.kindKnown || needless then 0 else if w.firstUp && contested then 2 else 1)
      && (!ok ==> after == v.(calls := after.calls))
  {
    var patch := Overwrite(ManagedPart(v.local), anns);
    forall k ensures Foreign(v, anns, k) <==> k in patch && k in v.remote.anns && k in v.remote.theirs && v.remote.anns[k] != patch[k] {
      OverwriteAt(ManagedPart(v.local), anns, k);
    }
  }

  /** No name is given two values in one call. */
  predicate Consistent(anns: seq<Ann>) {
    forall i, j :: 0 <= i < j < |anns| && anns[i].name == anns[j].name ==> anns[i].value == anns[j].value
  }

  lemma {:induction false} LastOfConsistent(anns: seq<Ann>, i: nat)
    requires Consistent(anns) && i < |anns|
    ensures Last(anns, anns[i].name) == Some(anns[i].value)
  {
    if anns[|anns| - 1].name != anns[i].name { LastOfConsistent(anns[..|anns| - 1], i); }
  }

  /** A repeated Patch succeeds without another API call and changes nothing. */
  lemma RepeatedPatchIsFree(v: View, anns: seq<Ann>, w: Weather, again: Weather)
    requires Consistent(anns) && PatchSpec(v, anns, w).1 && again.kindKnown
    ensures var after := PatchSpec(v, anns, w).0;
      PatchSpec(after, anns, again) == (after, true)
  {
    var after := PatchSpec(v, anns, w).0;
    forall i | 0 <= i < |anns| ensures Get(after.local, anns[i].name) == anns[i].value {
      LastOfConsistent(anns, i);
      AssignAt(v.local, anns, anns[i].name);
    }
  }

  /** An empty value for a key that has one: it is cleared in the copy and left alone in the cluster. */
  lemma EmptyValueBreaksAgreement(key: string)
    requires Managed(key)
    ensures var v := View(map[key := "x"], Remote(map[key := "x"], {key}, {}), 0);
      var (after, ok) := PatchSpec(v, [Ann(key, "")], Weather(true, true, true));
      Agree(v) && ok && !Agree(after) && Get(after.local, key) == "" && Get(after.remote.anns, key) == "x"
  {
    var v := View(map[key := "x"], Remote(map[key := "x"], {key}, {}), 0);
    var anns := [Ann(key, "")];
    assert anns[..0] == [];
    assert Last(anns, key) == Some("") && !Harmless(v.local, anns, key);
    AgreementIff(v, anns, Weather(true, true, true));
    AssignAt(v.local, anns, key);
    OverwriteAt(ManagedPart(v.local), anns, key);
    LastIsEmpty(key);
  }

  lemma LastIsEmpty(key: string)
    ensures LastNonEmpty([Ann(key, "")], key).None?
  {
    assert [Ann(key, "")][..0] == [];
  }
}
